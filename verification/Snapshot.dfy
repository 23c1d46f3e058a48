/** Copying a workspace under exclusion and gitignore rules
    (src/ulg/workspace/manager.py, src/ulg/workspace/exclusions.py). */
module Snapshot {
  import opened Wrappers
  import opened BoundedWalk
  import opened Directory

  // ---- gitignore rules ----

  /** The rules of one `.gitignore` file, identified by the file's contents. */
  datatype Rule = Rule(base: Path, spec: nat)

  /** `check` says whether rules include, re-include or do not mention a path relative to
      their directory. */
  datatype Policy = Policy(excluded: Exclusion, check: (nat, Path, bool) -> Option<bool>, respect: bool)

  function Verdict(rule: Rule, path: Path, isDirectory: bool, policy: Policy): Option<bool> {
    if rule.base <= path then policy.check(rule.spec, path[|rule.base|..], isDirectory) else None
  }

  /** Some rule set ignores the path and none after it decides otherwise. */
  ghost predicate Ignored(path: Path, isDirectory: bool, rules: seq<Rule>, policy: Policy) {
    exists i :: 0 <= i < |rules| && DecidedBy(path, isDirectory, rules, policy, i)
  }

  predicate DecidedBy(path: Path, isDirectory: bool, rules: seq<Rule>, policy: Policy, i: nat)
    requires i < |rules|
  {
    && Verdict(rules[i], path, isDirectory, policy) == Some(true)
    && forall j :: i < j < |rules| ==> Verdict(rules[j], path, isDirectory, policy) == None
  }

  /** `is_gitignored` */
  method IsGitignored(path: Path, isDirectory: bool, rules: seq<Rule>, policy: Policy) returns (ignored: bool)
    ensures ignored <==> Ignored(path, isDirectory, rules, policy)
  {
    ignored := false;
    ghost var last := -1;
    for i := 0 to |rules|
      invariant -1 <= last < i
      invariant last < 0 ==> !ignored
      invariant last >= 0 ==> Verdict(rules[last], path, isDirectory, policy) == Some(ignored)
      invariant forall j :: last < j < i ==> Verdict(rules[j], path, isDirectory, policy) == None
    {
      if rules[i].base <= path {
        var result := policy.check(rules[i].spec, path[|rules[i].base|..], isDirectory);
        if result.Some? {
          ignored := result.value;
          last := i;
        }
      }
    }
    if ignored {
      assert DecidedBy(path, isDirectory, rules, policy, last);
    } else {
      forall i | 0 <= i < |rules| ensures !DecidedBy(path, isDirectory, rules, policy, i) {
        if last > i { assert Verdict(rules[last], path, isDirectory, policy) != None; }
      }
    }
  }

  const GITIGNORE := ".gitignore"
  const MAX_GITIGNORE_BYTES := 1048576

  function Lookup(listing: Listing, name: string): Option<Node> {
    match listing
    case End => None
    case Entry(n, node, rest) => if n == name then Some(node) else Lookup(rest, name)
  }

  function IgnoreFile(listing: Listing, policy: Policy): Option<Node> {
    if policy.respect then Lookup(listing, GITIGNORE) else None
  }

  /** A directory's own rules. */
  function OwnRules(listing: Listing, base: Path, policy: Policy): seq<Rule> {
    match IgnoreFile(listing, policy)
    case Some(File(data)) => [Rule(base, data.digest)]
    case _ => []
  }

  /** A `.gitignore` that is to be respected has to be a bounded UTF-8 file. */
  predicate IgnoreFileOk(listing: Listing, policy: Policy) {
    match IgnoreFile(listing, policy)
    case None => true
    case Some(node) => node.File? && node.data.size <= MAX_GITIGNORE_BYTES && node.data.utf8
  }

  // ---- what a snapshot keeps ----

  ghost predicate Keeps(path: Path, node: Node, rules: seq<Rule>, policy: Policy) {
    !policy.excluded(path, node.Dir?) && !Ignored(path, node.Dir?, rules, policy)
  }

  /** The copy of a directory whose rules, inherited and own, are `rules`. */
  ghost function Kept(listing: Listing, base: Path, rules: seq<Rule>, policy: Policy): Listing
    decreases listing, 1
  {
    match listing
    case End => End
    case Entry(name, node, rest) =>
      if Keeps(base + [name], node, rules, policy)
      then Entry(name, KeptNode(base + [name], node, rules, policy), Kept(rest, base, rules, policy))
      else Kept(rest, base, rules, policy)
  }

  ghost function KeptNode(path: Path, node: Node, rules: seq<Rule>, policy: Policy): Node
    decreases node, 0
  {
    match node
    case Dir(children) => Dir(Kept(children, path, rules + OwnRules(children, path, policy), policy))
    case _ => node
  }

  /** Nothing kept is a link or a special file, and every `.gitignore` met is usable. */
  ghost predicate Copyable(listing: Listing, base: Path, rules: seq<Rule>, policy: Policy)
    decreases listing, 1
  {
    match listing
    case End => true
    case Entry(name, node, rest) =>
      && Copyable(rest, base, rules, policy)
      && (Keeps(base + [name], node, rules, policy) ==> NodeCopyable(base + [name], node, rules, policy))
  }

  ghost predicate NodeCopyable(path: Path, node: Node, rules: seq<Rule>, policy: Policy)
    decreases node, 0
  {
    match node
    case File(_) => true
    case Unsafe => false
    case Dir(children) =>
      IgnoreFileOk(children, policy) && Copyable(children, path, rules + OwnRules(children, path, policy), policy)
  }

  // ---- manifests of a tree ----

  /** A file as a manifest records it. */
  datatype Recorded = Recorded(path: Path, size: nat, digest: nat, executable: bool)

  function Record(path: Path, data: FileData): Recorded {
    Recorded(path, data.size, data.digest, data.executable)
  }

  /** The files of a tree, in the order of a walk over sorted names. */
  function Files(listing: Listing, base: Path): seq<Recorded>
    decreases listing, 1
  {
    match listing
    case End => []
    case Entry(name, node, rest) => NodeFiles(base + [name], node) + Files(rest, base)
  }

  function NodeFiles(path: Path, node: Node): seq<Recorded>
    decreases node, 0
  {
    match node
    case File(data) => [Record(path, data)]
    case Dir(children) => Files(children, path)
    case Unsafe => []
  }

  function SizeOf(): Recorded -> nat { (r: Recorded) => r.size }

  /** A copy that should record `all`: it succeeds exactly when nothing is wrong with the
      source and the quotas hold, and then it recorded exactly `all`. */
  ghost predicate Copied(before: seq<Recorded>, after: seq<Recorded>, ok: bool,
                         all: seq<Recorded>, sound: bool, quota: Budget) {
    && (ok <==> sound && Within(before + all, SizeOf(), quota))
    && (ok ==> after == before + all)
  }

  lemma CopyNothing(before: seq<Recorded>, quota: Budget)
    requires Within(before, SizeOf(), quota)
    ensures Copied(before, before, true, [], true, quota)
  {
    assert before + [] == before;
  }

  lemma CopyOn(before: seq<Recorded>, mid: seq<Recorded>, after: seq<Recorded>, ok: bool,
               a: seq<Recorded>, b: seq<Recorded>,
               rest: seq<Recorded>, all: seq<Recorded>, sound: bool, allSound: bool, quota: Budget)
    requires all == a + (b + rest) && (allSound ==> sound)
    requires Copied(before, mid, true, a, true, quota)
    requires Copied(mid, after, ok, b, sound, quota)
    ensures ok ==> sound && Copied(before, after, true, a + b, true, quota)
    ensures !ok ==> Copied(before, after, false, all, allSound, quota)
  {
    assert before + (a + b) == mid + b;
    assert before + all == (mid + b) + rest;
    WithinPrefix(mid + b, rest, SizeOf(), quota);
  }

  /** Where a copy stands: `seen` recorded, `copy` written, `left` to come. */
  ghost predicate Remaining(listing: Listing, left: Listing, seen: seq<Recorded>, copy: Listing,
                            base: Path, rules: seq<Rule>, policy: Policy) {
    && Files(Kept(listing, base, rules, policy), base) == seen + Files(Kept(left, base, rules, policy), base)
    && Concat(copy, Kept(left, base, rules, policy)) == Kept(listing, base, rules, policy)
    && (Copyable(left, base, rules, policy) <==> Copyable(listing, base, rules, policy))
  }

  function Concat(a: Listing, b: Listing): Listing {
    match a
    case End => b
    case Entry(name, node, rest) => Entry(name, node, Concat(rest, b))
  }

  lemma {:induction false} ConcatOne(a: Listing, name: string, node: Node, b: Listing)
    ensures Concat(Concat(a, Entry(name, node, End)), b) == Concat(a, Entry(name, node, b))
  {
    match a {
      case End =>
      case Entry(_, _, rest) => ConcatOne(rest, name, node, b);
    }
  }

  lemma {:induction false} ConcatEnd(a: Listing)
    ensures Concat(a, End) == a
  {
    match a {
      case End =>
      case Entry(_, _, rest) => ConcatEnd(rest);
    }
  }

  lemma FirstEntry(listing: Listing, base: Path, rules: seq<Rule>, policy: Policy)
    ensures Remaining(listing, listing, [], End, base, rules, policy)
  {
    var all := Files(Kept(listing, base, rules, policy), base);
    assert [] + all == all;
  }

  lemma SkipEntry(listing: Listing, left: Listing, seen: seq<Recorded>, copy: Listing,
                  base: Path, rules: seq<Rule>, policy: Policy)
    requires left.Entry? && Remaining(listing, left, seen, copy, base, rules, policy)
    requires !Keeps(base + [left.name], left.node, rules, policy)
    ensures Remaining(listing, left.rest, seen, copy, base, rules, policy)
  {
  }

  lemma NextEntry(listing: Listing, left: Listing, seen: seq<Recorded>, copy: Listing,
                  base: Path, rules: seq<Rule>, policy: Policy)
    requires left.Entry? && Remaining(listing, left, seen, copy, base, rules, policy)
    requires Keeps(base + [left.name], left.node, rules, policy)
    ensures var path := base + [left.name];
            var kept := KeptNode(path, left.node, rules, policy);
            var files := NodeFiles(path, kept);
            && Files(Kept(listing, base, rules, policy), base)
               == seen + (files + Files(Kept(left.rest, base, rules, policy), base))
            && (Copyable(listing, base, rules, policy) ==> NodeCopyable(path, left.node, rules, policy))
            && (NodeCopyable(path, left.node, rules, policy) ==>
                 Remaining(listing, left.rest, seen + files,
                           Concat(copy, Entry(left.name, kept, End)), base, rules, policy))
  {
    var path := base + [left.name];
    var kept := KeptNode(path, left.node, rules, policy);
    var files, rest := NodeFiles(path, kept), Files(Kept(left.rest, base, rules, policy), base);
    assert seen + (files + rest) == (seen + files) + rest;
    ConcatOne(copy, left.name, kept, Kept(left.rest, base, rules, policy));
  }

  lemma LastEntry(listing: Listing, seen: seq<Recorded>, copy: Listing, base: Path, rules: seq<Rule>, policy: Policy)
    requires Remaining(listing, End, seen, copy, base, rules, policy)
    ensures Files(Kept(listing, base, rules, policy), base) == seen
    ensures copy == Kept(listing, base, rules, policy) && Copyable(listing, base, rules, policy)
  {
    assert seen + [] == seen;
    ConcatEnd(copy);
  }

  class Copier {
    const policy: Policy
    const quota: Budget
    var entries: seq<Recorded>
    var used: nat

    constructor (policy: Policy, quota: Budget)
      ensures this.policy == policy && this.quota == quota
      ensures Valid() && entries == []
    {
      this.policy := policy;
      this.quota := quota;
      this.entries := [];
      this.used := 0;
    }

    ghost predicate Valid()
      reads this
    {
      used == Cost(entries, SizeOf()) && Within(entries, SizeOf(), quota)
    }

    /** `_copy_regular_file`: the bytes are consumed before the file is counted. */
    method CopyFile(path: Path, data: FileData) returns (ok: bool)
      requires Valid()
      modifies this
      ensures ok ==> Valid()
      ensures Copied(old(entries), entries, ok, [Record(path, data)], true, quota)
    {
      CostSnoc(entries, Record(path, data), SizeOf());
      used := used + data.size;
      if used > quota.bytes { return false; }
      entries := entries + [Record(path, data)];
      return |entries| <= quota.count;
    }

    /** One kept entry. */
    method CopyEntry(path: Path, node: Node, rules: seq<Rule>) returns (ok: bool, copy: Node)
      requires Valid()
      modifies this
      ensures ok ==> Valid() && copy == KeptNode(path, node, rules, policy)
      ensures Copied(old(entries), entries, ok, NodeFiles(path, KeptNode(path, node, rules, policy)),
                     NodeCopyable(path, node, rules, policy), quota)
      decreases node, 0
    {
      copy := node;
      match node {
        case Unsafe => return false, node;
        case File(data) => ok := CopyFile(path, data);
        case Dir(children) =>
          var inside;
          ok, inside := CopyDirectory(children, path, rules);
          copy := Dir(inside);
      }
    }

    /** One kept entry in the middle of a directory. */
    method CopyNext(left: Listing, base: Path, rules: seq<Rule>, copy: Listing,
                    ghost listing: Listing, ghost before: seq<Recorded>, ghost seen: seq<Recorded>)
      returns (ok: bool, more: Listing, ghost now: seq<Recorded>)
      requires Valid() && left.Entry? && Keeps(base + [left.name], left.node, rules, policy)
      requires Copied(before, entries, true, seen, true, quota)
      requires Remaining(listing, left, seen, copy, base, rules, policy)
      modifies this
      ensures ok ==>
                && Valid() && Copied(before, entries, true, now, true, quota)
                && Remaining(listing, left.rest, now, more, base, rules, policy)
      ensures !ok ==> Copied(before, entries, false, Files(Kept(listing, base, rules, policy), base),
                             Copyable(listing, base, rules, policy), quota)
      decreases left.node, 1
    {
      var path := base + [left.name];
      ghost var mid, files := entries, NodeFiles(path, KeptNode(path, left.node, rules, policy));
      NextEntry(listing, left, seen, copy, base, rules, policy);
      now := seen + files;
      var node;
      ok, node := CopyEntry(path, left.node, rules);
      more := Concat(copy, Entry(left.name, node, End));
      CopyOn(before, mid, entries, ok, seen, files, Files(Kept(left.rest, base, rules, policy), base),
        Files(Kept(listing, base, rules, policy), base), NodeCopyable(path, left.node, rules, policy),
        Copyable(listing, base, rules, policy), quota);
    }

    /** `_copy_directory`: it succeeds exactly when the source is copyable and the quotas
        hold; then the copy is exactly what the rules keep, and its files are recorded. */
    method CopyDirectory(listing: Listing, base: Path, inherited: seq<Rule>) returns (ok: bool, copy: Listing)
      requires Valid()
      modifies this
      ensures var rules := inherited + OwnRules(listing, base, policy);
              && (ok ==> Valid() && copy == Kept(listing, base, rules, policy))
              && Copied(old(entries), entries, ok, Files(Kept(listing, base, rules, policy), base),
                        IgnoreFileOk(listing, policy) && Copyable(listing, base, rules, policy), quota)
      decreases listing, 1
    {
      copy := End;
      if !IgnoreFileOk(listing, policy) { return false, End; }
      var rules := inherited + OwnRules(listing, base, policy);
      ghost var before, seen := entries, [];
      var left := listing;
      CopyNothing(before, quota);
      FirstEntry(listing, base, rules, policy);
      while left.Entry?
        invariant Valid()
        invariant left == listing || left < listing
        invariant Copied(before, entries, true, seen, true, quota)
        invariant Remaining(listing, left, seen, copy, base, rules, policy)
        decreases left
      {
        var path, isDirectory := base + [left.name], left.node.Dir?;
        var ignored := IsGitignored(path, isDirectory, rules, policy);
        if policy.excluded(path, isDirectory) || ignored {
          SkipEntry(listing, left, seen, copy, base, rules, policy);
        } else {
          ok, copy, seen := CopyNext(left, base, rules, copy, listing, before, seen);
          if !ok { return; }
        }
        left := left.rest;
      }
      LastEntry(listing, seen, copy, base, rules, policy);
      return true, copy;
    }
  }
}
