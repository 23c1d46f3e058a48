/** A snapshot holds exactly the files that the rules keep, path by path. */
module SnapshotLaws {
  import opened Wrappers
  import opened Directory
  import opened Snapshot
  import Paths

  // ---- well-formed directories ----

  predicate Named(listing: Listing, name: string) {
    match listing
    case End => false
    case Entry(n, _, rest) => n == name || Named(rest, name)
  }

  /** Names are path components, and differ within a directory. */
  predicate WellFormed(listing: Listing) {
    match listing
    case End => true
    case Entry(name, node, rest) =>
      && Paths.ValidPart(name) && !Named(rest, name) && WellFormed(rest)
      && (node.Dir? ==> WellFormed(node.children))
  }

  /** The node at a path below a directory. */
  function Find(listing: Listing, path: Path): Option<Node>
    requires path != []
    decreases |path|
  {
    match Lookup(listing, path[0])
    case None => None
    case Some(node) =>
      if |path| == 1 then Some(node)
      else if node.Dir? then Find(node.children, path[1..]) else None
  }

  /** The rules in force for the last component of a path: those inherited, and those of
      every directory on the way. */
  function RulesFor(listing: Listing, base: Path, rules: seq<Rule>, path: Path, policy: Policy): seq<Rule>
    requires path != []
    decreases |path|
  {
    if |path| == 1 then rules else
      match Lookup(listing, path[0])
      case Some(Dir(children)) =>
        RulesFor(children, base + [path[0]], rules + OwnRules(children, base + [path[0]], policy), path[1..], policy)
      case _ => rules
  }

  /** The node at the end of the path is neither excluded nor ignored. */
  ghost predicate KeptAt(listing: Listing, base: Path, rules: seq<Rule>, path: Path, policy: Policy)
    requires path != []
  {
    && Find(listing, path).Some?
    && Keeps(base + path, Find(listing, path).value, RulesFor(listing, base, rules, path, policy), policy)
  }

  /** Neither is any of its ancestors. */
  ghost predicate KeptAlong(listing: Listing, base: Path, rules: seq<Rule>, path: Path, policy: Policy) {
    forall k {:trigger path[..k]} :: 0 < k <= |path| ==> KeptAt(listing, base, rules, path[..k], policy)
  }

  lemma {:induction false} LookupNamed(listing: Listing, name: string)
    ensures Lookup(listing, name).Some? <==> Named(listing, name)
    ensures Lookup(listing, name).Some? && Lookup(listing, name).value.Dir? && WellFormed(listing) ==>
              WellFormed(Lookup(listing, name).value.children)
  {
    if listing.Entry? { LookupNamed(listing.rest, name); }
  }

  lemma {:induction false} KeptLookup(listing: Listing, base: Path, rules: seq<Rule>, policy: Policy, name: string)
    requires WellFormed(listing)
    ensures Lookup(Kept(listing, base, rules, policy), name) ==
            match Lookup(listing, name)
            case None => None
            case Some(node) => if Keeps(base + [name], node, rules, policy)
                               then Some(KeptNode(base + [name], node, rules, policy)) else None
  {
    if listing.Entry? {
      KeptLookup(listing.rest, base, rules, policy, name);
      LookupNamed(listing.rest, name);
    }
  }

  lemma FirstStep(listing: Listing, base: Path, rules: seq<Rule>, path: Path, policy: Policy)
    requires path != []
    ensures KeptAt(listing, base, rules, path[..1], policy) <==>
            Lookup(listing, path[0]).Some? && Keeps(base + [path[0]], Lookup(listing, path[0]).value, rules, policy)
  {
    assert path[..1] == [path[0]];
  }

  lemma LaterStep(listing: Listing, base: Path, rules: seq<Rule>, path: Path, policy: Policy, k: nat, children: Listing)
    requires 1 < k <= |path| && Lookup(listing, path[0]) == Some(Dir(children))
    ensures KeptAt(listing, base, rules, path[..k], policy) <==>
            KeptAt(children, base + [path[0]], rules + OwnRules(children, base + [path[0]], policy),
                   path[1..][..k - 1], policy)
  {
    assert path[..k][1..] == path[1..][..k - 1];
    assert base + path[..k] == base + [path[0]] + path[1..][..k - 1];
  }

  /** A file is in the copy exactly when it is in the source and neither it nor any
      directory above it is excluded or ignored, under the rules inherited on the way. */
  lemma {:induction false} KeptExactly(listing: Listing, base: Path, rules: seq<Rule>, policy: Policy,
                                     path: Path, data: FileData)
    requires WellFormed(listing) && path != []
    ensures Find(Kept(listing, base, rules, policy), path) == Some(File(data)) <==>
            Find(listing, path) == Some(File(data)) && KeptAlong(listing, base, rules, path, policy)
    decreases |path|
  {
    var name := path[0];
    KeptLookup(listing, base, rules, policy, name);
    FirstStep(listing, base, rules, path, policy);
    LookupNamed(listing, name);
    if |path| == 1 {
      assert path[..1] == path;
    } else if Lookup(listing, name).Some? && Lookup(listing, name).value.Dir? {
      var children := Lookup(listing, name).value.children;
      KeptExactly(children, base + [name], rules + OwnRules(children, base + [name], policy), policy, path[1..], data);
      AlongShift(listing, base, rules, policy, path, children);
    }
  }

  lemma AlongShift(listing: Listing, base: Path, rules: seq<Rule>, policy: Policy, path: Path, children: Listing)
    requires |path| > 1 && Lookup(listing, path[0]) == Some(Dir(children))
    ensures KeptAlong(listing, base, rules, path, policy) <==>
            && KeptAt(listing, base, rules, path[..1], policy)
            && KeptAlong(children, base + [path[0]], rules + OwnRules(children, base + [path[0]], policy),
                         path[1..], policy)
  {
    var inner := rules + OwnRules(children, base + [path[0]], policy);
    if KeptAlong(listing, base, rules, path, policy) {
      forall k {:trigger path[1..][..k]} | 0 < k <= |path[1..]|
        ensures KeptAt(children, base + [path[0]], inner, path[1..][..k], policy)
      {
        LaterStep(listing, base, rules, path, policy, k + 1, children);
        assert KeptAt(listing, base, rules, path[..k + 1], policy);
      }
    }
    if KeptAt(listing, base, rules, path[..1], policy)
       && KeptAlong(children, base + [path[0]], inner, path[1..], policy) {
      forall k {:trigger path[..k]} | 0 < k <= |path| ensures KeptAt(listing, base, rules, path[..k], policy) {
        if k > 1 {
          LaterStep(listing, base, rules, path, policy, k, children);
          assert KeptAt(children, base + [path[0]], inner, path[1..][..k - 1], policy);
        }
      }
    }
  }

  // ---- the record of a tree ----

  lemma {:induction false} NamedKept(listing: Listing, base: Path, rules: seq<Rule>, policy: Policy, name: string)
    requires Named(Kept(listing, base, rules, policy), name)
    ensures Named(listing, name)
  {
    match listing {
      case Entry(n, node, rest) =>
        if !(Keeps(base + [n], node, rules, policy) && n == name) { NamedKept(rest, base, rules, policy, name); }
    }
  }

  lemma {:induction false} KeptWellFormed(listing: Listing, base: Path, rules: seq<Rule>, policy: Policy)
    requires WellFormed(listing)
    ensures WellFormed(Kept(listing, base, rules, policy))
    decreases listing
  {
    match listing {
      case End =>
      case Entry(name, node, rest) =>
        KeptWellFormed(rest, base, rules, policy);
        if node.Dir? {
          KeptWellFormed(node.children, base + [name], rules + OwnRules(node.children, base + [name], policy), policy);
        }
        if Named(Kept(rest, base, rules, policy), name) { NamedKept(rest, base, rules, policy, name); }
    }
  }

  /** Every record lies strictly below the directory, through one of its names. */
  lemma {:induction false} FilesBelow(listing: Listing, base: Path, r: Recorded)
    requires r in Files(listing, base)
    ensures base < r.path && Named(listing, r.path[|base|])
    decreases listing
  {
    match listing {
      case Entry(name, node, rest) =>
        if r in NodeFiles(base + [name], node) {
          if node.Dir? { FilesBelow(node.children, base + [name], r); }
          assert base + [name] <= r.path;
          assert r.path[|base|] == name;
        } else {
          FilesBelow(rest, base, r);
        }
    }
  }

  ghost predicate RecordOf(listing: Listing, base: Path, r: Recorded) {
    && base < r.path
    && var found := Find(listing, r.path[|base|..]);
       found.Some? && found.value.File? && r == Record(r.path, found.value.data)
  }

  /** What is recorded is what can be found, and nothing else. */
  lemma {:induction false} FilesAreFound(listing: Listing, base: Path, r: Recorded)
    requires WellFormed(listing)
    ensures r in Files(listing, base) <==> RecordOf(listing, base, r)
    decreases listing
  {
    match listing {
      case End =>
      case Entry(name, node, rest) =>
        FilesAreFound(rest, base, r);
        if r in Files(rest, base) { FilesBelow(rest, base, r); }
        if base < r.path {
          var path := r.path[|base|..];
          if path[0] == name {
            HeadFound(listing, base, r);
            LookupNamed(rest, name);
          }
        }
        if r in NodeFiles(base + [name], node) { HeadBelow(name, node, base, r); }
    }
  }

  lemma HeadBelow(name: string, node: Node, base: Path, r: Recorded)
    requires r in NodeFiles(base + [name], node)
    ensures base < r.path && r.path[|base|..][0] == name
  {
    if node.Dir? { FilesBelow(node.children, base + [name], r); }
    assert r.path[|base|] == (base + [name])[|base|];
  }

  lemma HeadFound(listing: Listing, base: Path, r: Recorded)
    requires WellFormed(listing) && listing.Entry? && base < r.path && r.path[|base|..][0] == listing.name
    ensures r in NodeFiles(base + [listing.name], listing.node) <==> RecordOf(listing, base, r)
    decreases listing, 0
  {
    var path, node := r.path[|base|..], listing.node;
    PathParts(base, listing.name, r.path);
    if node.Dir? {
      FilesAreFound(node.children, base + [listing.name], r);
      FoundInside(listing, base, r);
    }
  }

  lemma PathParts(base: Path, name: string, path: Path)
    requires base < path && path[|base|..][0] == name
    ensures |path| == |base| + 1 <==> path == base + [name]
    ensures base + [name] <= path && path[|base| + 1..] == path[|base|..][1..]
  {
    assert path == base + path[|base|..];
  }

  /** A record below the first entry, seen from inside and from outside. */
  lemma FoundInside(listing: Listing, base: Path, r: Recorded)
    requires listing.Entry? && listing.node.Dir? && base < r.path && r.path[|base|..][0] == listing.name
    ensures RecordOf(listing.node.children, base + [listing.name], r) <==> RecordOf(listing, base, r)
  {
    PathParts(base, listing.name, r.path);
  }

  /** The exact snapshot: a record is in the copy's manifest exactly when its path leads to
      such a file in the source, with nothing on the way excluded or ignored. */
  lemma SnapshotIsExact(root: Listing, policy: Policy, r: Recorded)
    requires WellFormed(root)
    ensures var rules := OwnRules(root, [], policy);
            r in Files(Kept(root, [], rules, policy), []) <==>
            RecordOf(root, [], r) && KeptAlong(root, [], rules, r.path, policy)
  {
    var rules := OwnRules(root, [], policy);
    var copy := Kept(root, [], rules, policy);
    KeptWellFormed(root, [], rules, policy);
    FilesAreFound(copy, [], r);
    if r.path != [] {
      assert r.path[0..] == r.path;
      forall data: FileData ensures
        Find(copy, r.path) == Some(File(data)) <==>
        Find(root, r.path) == Some(File(data)) && KeptAlong(root, [], rules, r.path, policy)
      {
        KeptExactly(root, [], rules, policy, r.path, data);
      }
    }
  }

  // ---- paths are distinct ----

  ghost predicate DistinctPaths(records: seq<Recorded>) {
    forall i, j :: 0 <= i < j < |records| ==> records[i].path != records[j].path
  }

  lemma DistinctConcat(a: seq<Recorded>, b: seq<Recorded>)
    requires DistinctPaths(a) && DistinctPaths(b)
    requires forall x, y :: x in a && y in b ==> x.path != y.path
    ensures DistinctPaths(a + b)
  {
  }

  lemma {:induction false} FilesDistinct(listing: Listing, base: Path)
    requires WellFormed(listing)
    ensures DistinctPaths(Files(listing, base))
    decreases listing
  {
    match listing {
      case End =>
      case Entry(name, node, rest) =>
        FilesDistinct(rest, base);
        if node.Dir? { FilesDistinct(node.children, base + [name]); }
        var a, b := NodeFiles(base + [name], node), Files(rest, base);
        forall x, y | x in a && y in b ensures x.path != y.path {
          HeadBelow(name, node, base, x);
          FilesBelow(rest, base, y);
        }
        DistinctConcat(a, b);
    }
  }
}
