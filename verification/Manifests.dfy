/** Generation manifests: canonical whatever the order of the entries, and equal for a
    copy and a scan of it (src/ulg/workspace/manifests.py, `create` in
    src/ulg/workspace/manager.py). */
module Manifests {
  import opened Wrappers
  import opened BoundedWalk
  import opened Directory
  import opened Snapshot
  import opened SnapshotLaws
  import opened StringOrder
  import Paths

  // ---- sorting by path ----

  function Text(r: Recorded): string { Paths.JoinSlash(r.path) }

  function Insert(r: Recorded, records: seq<Recorded>): seq<Recorded> {
    if records == [] || Precedes(Text(r), Text(records[0])) then [r] + records
    else [records[0]] + Insert(r, records[1..])
  }

  /** `sorted(entries, key=path)` */
  function Sorted(records: seq<Recorded>): seq<Recorded> {
    if records == [] then [] else Insert(records[0], Sorted(records[1..]))
  }

  ghost predicate DistinctTexts(records: seq<Recorded>) {
    forall i, j :: 0 <= i < j < |records| ==> Text(records[i]) != Text(records[j])
  }

  predicate Ascending(records: seq<Recorded>) {
    forall i, j :: 0 <= i < j < |records| ==> Precedes(Text(records[i]), Text(records[j]))
  }

  lemma {:induction false} InsertKeeps(r: Recorded, records: seq<Recorded>)
    ensures multiset(Insert(r, records)) == multiset{r} + multiset(records)
    decreases |records|
  {
    if records != [] {
      assert records == [records[0]] + records[1..];
      InsertKeeps(r, records[1..]);
    }
  }

  lemma {:induction false} SortedKeeps(records: seq<Recorded>)
    ensures multiset(Sorted(records)) == multiset(records)
    decreases |records|
  {
    if records != [] {
      assert records == [records[0]] + records[1..];
      SortedKeeps(records[1..]);
      InsertKeeps(records[0], Sorted(records[1..]));
    }
  }

  lemma ConsAscends(head: Recorded, tail: seq<Recorded>)
    requires Ascending(tail) && forall x :: x in tail ==> Precedes(Text(head), Text(x))
    ensures Ascending([head] + tail)
  {
  }

  lemma HeadPrecedes(r: Recorded, records: seq<Recorded>)
    requires Ascending(records) && records != [] && Precedes(Text(r), Text(records[0]))
    ensures forall x :: x in records ==> Precedes(Text(r), Text(x))
  {
    forall i | 0 <= i < |records| ensures Precedes(Text(r), Text(records[i])) {
      if i > 0 { PrecedesIsTransitive(Text(r), Text(records[0]), Text(records[i])); }
    }
  }

  lemma {:induction false} InsertAscends(r: Recorded, records: seq<Recorded>)
    requires Ascending(records) && forall x :: x in records ==> Text(x) != Text(r)
    ensures Ascending(Insert(r, records))
    decreases |records|
  {
    if records != [] {
      var head, tail := records[0], records[1..];
      if Precedes(Text(r), Text(head)) {
        HeadPrecedes(r, records);
        ConsAscends(r, records);
      } else {
        PrecedesIsTotal(Text(r), Text(head));
        InsertAscends(r, tail);
        InsertKeeps(r, tail);
        forall x | x in Insert(r, tail) ensures Precedes(Text(head), Text(x)) {
          assert x in multiset(Insert(r, tail));
        }
        ConsAscends(head, Insert(r, tail));
      }
    }
  }

  lemma {:induction false} SortedAscends(records: seq<Recorded>)
    requires DistinctTexts(records)
    ensures Ascending(Sorted(records))
    decreases |records|
  {
    if records != [] {
      SortedAscends(records[1..]);
      SortedKeeps(records[1..]);
      forall x | x in Sorted(records[1..]) ensures Text(x) != Text(records[0]) {
        assert x in multiset(Sorted(records[1..]));
        assert x in records[1..];
      }
      InsertAscends(records[0], Sorted(records[1..]));
    }
  }

  lemma {:induction false} AscendingIsUnique(a: seq<Recorded>, b: seq<Recorded>)
    requires Ascending(a) && Ascending(b) && multiset(a) == multiset(b)
    ensures a == b
    decreases |a|
  {
    assert |a| == |multiset(a)| == |multiset(b)| == |b|;
    if a != [] {
      assert a[0] in multiset(a) && b[0] in multiset(b);
      assert a[0] in b && b[0] in a;
      if a[0] != b[0] {
        PrecedesIsStrict(Text(a[0]), Text(b[0]));
        assert false;
      }
      assert a == [a[0]] + a[1..] && b == [b[0]] + b[1..];
      assert multiset(a[1..]) == multiset(a) - multiset{a[0]};
      AscendingIsUnique(a[1..], b[1..]);
    }
  }

  // ---- manifests ----

  datatype Manifest = Manifest(entries: seq<Recorded>, fileCount: nat, totalBytes: nat)

  /** `validate_summary` */
  predicate ValidSummary(m: Manifest) {
    Ascending(m.entries) && m.fileCount == |m.entries| && m.totalBytes == Cost(m.entries, SizeOf())
  }

  /** `build_manifest` */
  function BuildManifest(records: seq<Recorded>): Manifest {
    var ordered := Sorted(records);
    Manifest(ordered, |ordered|, Cost(ordered, SizeOf()))
  }

  /** The manifest does not depend on the order in which the entries were collected. */
  lemma ManifestIsCanonical(a: seq<Recorded>, b: seq<Recorded>)
    requires DistinctTexts(a) && multiset(a) == multiset(b)
    ensures BuildManifest(a) == BuildManifest(b) && ValidSummary(BuildManifest(a))
  {
    SortedKeeps(a);
    SortedKeeps(b);
    SortedAscends(a);
    TextsOfSame(a, b);
    SortedAscends(b);
    AscendingIsUnique(Sorted(a), Sorted(b));
  }

  lemma TextsOfSame(a: seq<Recorded>, b: seq<Recorded>)
    requires DistinctTexts(a) && multiset(a) == multiset(b)
    ensures DistinctTexts(b)
  {
    SortedAscends(a);
    SortedKeeps(a);
    forall i, j | 0 <= i < j < |b| ensures Text(b[i]) != Text(b[j]) {
      TwoPlaces(b, i, j);
      SortedApart(Sorted(a), b[i], b[j]);
    }
  }

  lemma TwoPlaces(b: seq<Recorded>, i: nat, j: nat)
    requires i < j < |b|
    ensures multiset{b[i], b[j]} <= multiset(b)
  {
    assert b == b[..i] + [b[i]] + b[i + 1..j] + [b[j]] + b[j + 1..];
  }

  lemma SortedApart(a: seq<Recorded>, x: Recorded, y: Recorded)
    requires Ascending(a) && multiset{x, y} <= multiset(a)
    ensures Text(x) != Text(y)
  {
    assert x in multiset(a) && y in multiset(a);
    var i :| 0 <= i < |a| && a[i] == x;
    assert a == a[..i] + [x] + a[i + 1..];
    assert y in multiset(a[..i]) + multiset(a[i + 1..]);
    if y in a[..i] {
      var j :| 0 <= j < i && a[..i][j] == y;
      PrecedesIsStrict(Text(y), Text(x));
      assert Precedes(Text(a[j]), Text(a[i]));
    } else {
      var j :| 0 <= j < |a[i + 1..]| && a[i + 1..][j] == y;
      PrecedesIsStrict(Text(x), Text(y));
      assert Precedes(Text(a[i]), Text(a[i + 1 + j]));
    }
  }

  // ---- distinct paths read as distinct text ----

  lemma {:induction false} FilesNamedWell(listing: Listing, base: Path, r: Recorded)
    requires WellFormed(listing) && r in Files(listing, base)
    requires forall part :: part in base ==> Paths.ValidPart(part)
    ensures forall part :: part in r.path ==> Paths.ValidPart(part)
    decreases listing
  {
    match listing {
      case Entry(name, node, rest) =>
        if r in Files(rest, base) {
          FilesNamedWell(rest, base, r);
        } else if node.Dir? {
          FilesNamedWell(node.children, base + [name], r);
        }
    }
  }

  lemma TextsDiffer(records: seq<Recorded>)
    requires DistinctPaths(records)
    requires forall r, part :: r in records && part in r.path ==> Paths.ValidPart(part)
    ensures DistinctTexts(records)
  {
    forall i, j | 0 <= i < j < |records| ensures Text(records[i]) != Text(records[j]) {
      assert records[i] in records && records[j] in records;
      Paths.ComponentsOfJoin(records[i].path);
      Paths.ComponentsOfJoin(records[j].path);
    }
  }

  lemma TreeTextsDiffer(listing: Listing)
    requires WellFormed(listing)
    ensures DistinctTexts(Files(listing, []))
  {
    FilesDistinct(listing, []);
    forall r, part | r in Files(listing, []) && part in r.path ensures Paths.ValidPart(part) {
      FilesNamedWell(listing, [], r);
    }
    TextsDiffer(Files(listing, []));
  }

  /** A walk over sorted names does not meet files in the order of their paths: directory
      `a` comes before `a.b`, but `a.b` before `a/c`. */
  lemma WalkOrderIsNotStringOrder()
    ensures var file := FileData(0, 0, false, true, None);
            var tree := Entry("a", Dir(Entry("c", File(file), End)), Entry("a.b", File(file), End));
            && WellFormed(tree)
            && Precedes("a", "a.b")
            && var files := Files(tree, []);
               |files| == 2 && Text(files[0]) == "a/c" && Text(files[1]) == "a.b" && Precedes("a.b", "a/c")
  {
    var file := FileData(0, 0, false, true, None);
    var inner := Entry("c", File(file), End);
    var tree := Entry("a", Dir(inner), Entry("a.b", File(file), End));
    assert ["a"] + ["c"] == ["a", "c"] && [] + ["a"] == ["a"] && [] + ["a.b"] == ["a.b"];
    assert Files(End, ["a"]) == [] && Files(End, []) == [];
    assert NodeFiles(["a", "c"], File(file)) == [Record(["a", "c"], file)];
    assert NodeFiles(["a"], Dir(inner)) == Files(inner, ["a"]);
    assert Files(inner, ["a"]) == [Record(["a", "c"], file)];
    assert Files(tree, []) == [Record(["a", "c"], file), Record(["a.b"], file)];
    assert Paths.JoinSlash(["c"]) == "c";
    assert Paths.JoinSlash(["a", "c"]) == "a" + "/" + "c";
    assert Precedes("", ".b") && "a"[1..] == "" && "a.b"[1..] == ".b";
    assert "a/c"[1..] == "/c";
    assert Precedes(".b", "/c");
  }

  // ---- scanning a tree, and creating generation 0 ----

  /** No link or special file anywhere. */
  predicate Plain(listing: Listing) {
    match listing
    case End => true
    case Entry(_, node, rest) => !node.Unsafe? && (node.Dir? ==> Plain(node.children)) && Plain(rest)
  }

  ghost predicate FilesLeft(listing: Listing, left: Listing, seen: seq<Recorded>, base: Path) {
    Files(listing, base) == seen + Files(left, base) && (Plain(left) <==> Plain(listing))
  }

  lemma FirstFile(listing: Listing, base: Path)
    ensures FilesLeft(listing, listing, [], base)
  {
    var all := Files(listing, base);
    assert [] + all == all;
  }

  lemma NextFile(listing: Listing, left: Listing, seen: seq<Recorded>, base: Path)
    requires left.Entry? && FilesLeft(listing, left, seen, base)
    ensures var files := NodeFiles(base + [left.name], left.node);
            && Files(listing, base) == seen + (files + Files(left.rest, base))
            && (NodePlain(left.node) ==> FilesLeft(listing, left.rest, seen + files, base))
            && (Plain(listing) ==> NodePlain(left.node))
  {
    var files, rest := NodeFiles(base + [left.name], left.node), Files(left.rest, base);
    assert seen + (files + rest) == (seen + files) + rest;
  }

  predicate NodePlain(node: Node) {
    !node.Unsafe? && (node.Dir? ==> Plain(node.children))
  }

  lemma LastFile(listing: Listing, seen: seq<Recorded>, base: Path)
    requires FilesLeft(listing, End, seen, base)
    ensures Files(listing, base) == seen && Plain(listing)
  {
    assert seen + [] == seen;
  }

  class Scanner {
    const quota: Budget
    var entries: seq<Recorded>
    var usedBytes: nat

    constructor (quota: Budget)
      ensures this.quota == quota && Valid() && entries == []
    {
      this.quota := quota;
      this.entries := [];
      this.usedBytes := 0;
    }

    ghost predicate Valid()
      reads this
    {
      usedBytes == Cost(entries, SizeOf()) && Within(entries, SizeOf(), quota)
    }

    /** A regular file: here it is counted before its bytes are. */
    method ScanFile(path: Path, data: FileData) returns (ok: bool)
      requires Valid()
      modifies this
      ensures ok ==> Valid()
      ensures Copied(old(entries), entries, ok, [Record(path, data)], true, quota)
    {
      CostSnoc(entries, Record(path, data), SizeOf());
      entries := entries + [Record(path, data)];
      if |entries| > quota.count { return false; }
      usedBytes := usedBytes + data.size;
      return usedBytes <= quota.bytes;
    }

    method ScanNode(path: Path, node: Node) returns (ok: bool)
      requires Valid()
      modifies this
      ensures ok ==> Valid()
      ensures Copied(old(entries), entries, ok, NodeFiles(path, node), NodePlain(node), quota)
      decreases node, 0
    {
      match node {
        case Unsafe => return false;
        case File(data) => ok := ScanFile(path, data);
        case Dir(children) => ok := ScanDirectory(children, path);
      }
    }

    /** `_scan_directory`: exactly the files of the tree, or a failure exactly when
        something is not plain or a quota is exceeded. */
    method ScanDirectory(listing: Listing, base: Path) returns (ok: bool)
      requires Valid()
      modifies this
      ensures ok ==> Valid()
      ensures Copied(old(entries), entries, ok, Files(listing, base), Plain(listing), quota)
      decreases listing, 1
    {
      ghost var before, seen := entries, [];
      var left := listing;
      CopyNothing(before, quota);
      FirstFile(listing, base);
      while left.Entry?
        invariant Valid()
        invariant left == listing || left < listing
        invariant Copied(before, entries, true, seen, true, quota)
        invariant FilesLeft(listing, left, seen, base)
        decreases left
      {
        ghost var mid, files := entries, NodeFiles(base + [left.name], left.node);
        NextFile(listing, left, seen, base);
        ok := ScanNode(base + [left.name], left.node);
        CopyOn(before, mid, entries, ok, seen, files, Files(left.rest, base), Files(listing, base),
          NodePlain(left.node), Plain(listing), quota);
        if !ok { return; }
        seen := seen + files;
        left := left.rest;
      }
      LastFile(listing, seen, base);
      return true;
    }
  }

  lemma {:induction false} CopyIsPlain(listing: Listing, base: Path, rules: seq<Rule>, policy: Policy)
    requires Copyable(listing, base, rules, policy)
    ensures Plain(Kept(listing, base, rules, policy))
    decreases listing
  {
    match listing {
      case End =>
      case Entry(name, node, rest) =>
        CopyIsPlain(rest, base, rules, policy);
        if node.Dir? && Keeps(base + [name], node, rules, policy) {
          CopyIsPlain(node.children, base + [name], rules + OwnRules(node.children, base + [name], policy), policy);
        }
    }
  }

  datatype SnapshotError = CopyFailed | ScanFailed | Mismatch | ManifestTooLarge

  /** `create`: copy, scan the copy, compare, write the manifest. It succeeds exactly when
      the source can be copied within the quotas and the manifest of the copy, `encoded`
      bytes long, is within its limit; the scan never fails and never disagrees; and the
      manifest is a valid summary of exactly the files that the rules keep. */
  method Create(source: Listing, policy: Policy, quota: Budget, encoded: Manifest -> nat, maxManifest: nat)
    returns (r: Result<(Listing, Manifest), SnapshotError>)
    requires WellFormed(source)
    ensures var rules := OwnRules(source, [], policy);
            var kept := Kept(source, [], rules, policy);
            var copyable := IgnoreFileOk(source, policy) && Copyable(source, [], rules, policy)
                            && Within(Files(kept, []), SizeOf(), quota);
            && (r.Success? <==> copyable && encoded(BuildManifest(Files(kept, []))) <= maxManifest)
            && (r.Failure? ==> r.error == if copyable then ManifestTooLarge else CopyFailed)
            && (r.Success? ==> r.value.0 == kept && r.value.1 == BuildManifest(Files(kept, []))
                               && ValidSummary(r.value.1)
                               && multiset(r.value.1.entries) == multiset(Files(kept, [])))
  {
    var copier := new Copier(policy, quota);
    var copied, copy := copier.CopyDirectory(source, [], []);
    ghost var rules := OwnRules(source, [], policy);
    ghost var kept := Kept(source, [], rules, policy);
    assert [] + rules == rules && [] + Files(kept, []) == Files(kept, []);
    if !copied { return Failure(CopyFailed); }
    var scanner := new Scanner(quota);
    var scanned := scanner.ScanDirectory(copy, []);
    CopyIsPlain(source, [], rules, policy);
    if !scanned { return Failure(ScanFailed); }
    var expected, actual := BuildManifest(copier.entries), BuildManifest(scanner.entries);
    if expected != actual { return Failure(Mismatch); }
    if encoded(actual) > maxManifest { return Failure(ManifestTooLarge); }
    KeptWellFormed(source, [], rules, policy);
    TreeTextsDiffer(kept);
    ManifestIsCanonical(Files(kept, []), Files(kept, []));
    SortedKeeps(Files(kept, []));
    return Success((copy, actual));
  }
}
