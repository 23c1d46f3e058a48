/** The bounded listing of `list_files` (src/ulg/tools/read_only.py) against the
    unbounded one. */
module ListWalk {
  import opened BoundedWalk
  import opened Directory

  datatype FileEntry = FileEntry(path: Path, isDirectory: bool, size: nat)

  function ItemFor(path: Path, node: Node): FileEntry {
    FileEntry(path, node.Dir?, if node.File? then node.data.size else 0)
  }

  /** What a walk does: report an entry, or enter a directory. */
  datatype Step = Report(entry: FileEntry) | Enter(path: Path)

  /** The unbounded preorder walk over everything visible. */
  function Steps(listing: Listing, base: Path, deep: bool, excluded: Exclusion): seq<Step>
    decreases listing, 1
  {
    match listing
    case End => []
    case Entry(name, node, rest) =>
      (if Visible(base + [name], node, excluded) then NodeSteps(base + [name], node, deep, excluded) else [])
      + Steps(rest, base, deep, excluded)
  }

  /** An entry and, in a recursive walk, everything below it. */
  function NodeSteps(path: Path, node: Node, deep: bool, excluded: Exclusion): seq<Step>
    decreases node, 1
  {
    [Report(ItemFor(path, node))] + InsideSteps(path, node, deep, excluded)
  }

  function InsideSteps(path: Path, node: Node, deep: bool, excluded: Exclusion): seq<Step>
    decreases node, 0
  {
    if node.Dir? && deep then [Enter(path)] + Steps(node.children, path, deep, excluded) else []
  }

  lemma NodeParts(path: Path, node: Node, deep: bool, excluded: Exclusion)
    ensures !(node.Dir? && deep) ==> NodeSteps(path, node, deep, excluded) == [Report(ItemFor(path, node))]
  {
  }

  function Reported(steps: seq<Step>): seq<FileEntry> {
    if steps == [] then [] else
      var step := steps[|steps| - 1];
      Reported(steps[..|steps| - 1]) + if step.Report? then [step.entry] else []
  }

  /** Every directory entered has a path of at most `reach` components. */
  predicate EntersWithin(steps: seq<Step>, reach: nat) {
    forall i :: 0 <= i < |steps| && steps[i].Enter? ==> |steps[i].path| <= reach
  }

  /** The budget of a listing, and how deep it may enter. */
  function Allows(cost: FileEntry -> nat, max: Budget, reach: nat): StepRule<Step> {
    (steps: seq<Step>) => Within(Reported(steps), cost, max) && EntersWithin(steps, reach)
  }

  lemma ReportedSnoc(steps: seq<Step>, step: Step)
    ensures Reported(steps + [step]) == Reported(steps) + if step.Report? then [step.entry] else []
  {
    assert (steps + [step])[..|steps|] == steps;
  }

  lemma {:induction false} ReportedConcat(a: seq<Step>, b: seq<Step>)
    ensures Reported(a + b) == Reported(a) + Reported(b)
    decreases |b|
  {
    if b == [] {
      assert a + b == a;
    } else {
      var n := |b| - 1;
      var last := if b[n].Report? then [b[n].entry] else [];
      ReportedConcat(a, b[..n]);
      assert a + b == (a + b[..n]) + [b[n]];
      ReportedSnoc(a + b[..n], b[n]);
      Regroup(Reported(a), Reported(b[..n]), last);
    }
  }

  lemma AllowsLess(part: seq<Step>, rest: seq<Step>, cost: FileEntry -> nat, max: Budget, reach: nat)
    requires Allows(cost, max, reach)(part + rest)
    ensures Allows(cost, max, reach)(part)
  {
    ReportedConcat(part, rest);
    WithinPrefix(Reported(part), Reported(rest), cost, max);
    EntersConcat(part, rest, reach);
  }

  lemma AllowsShrinks(all: seq<Step>, cost: FileEntry -> nat, max: Budget, reach: nat)
    ensures Shrinks(all, Allows(cost, max, reach))
  {
    var allowed := Allows(cost, max, reach);
    forall m, n {:trigger all[..m], all[..n]} | 0 <= m <= n <= |all| && allowed(all[..n]) ensures allowed(all[..m]) {
      assert all[..n] == all[..m] + all[m..n];
      AllowsLess(all[..m], all[m..n], cost, max, reach);
    }
  }

  /** When one more entry is allowed. */
  lemma OneMoreEntry(taken: seq<Step>, e: FileEntry, cost: FileEntry -> nat, max: Budget, reach: nat)
    requires Allows(cost, max, reach)(taken)
    ensures var out := Reported(taken);
            && Reported(taken + [Report(e)]) == out + [e]
            && Cost(out + [e], cost) == Cost(out, cost) + cost(e)
            && (Allows(cost, max, reach)(taken + [Report(e)]) <==>
                 |out| < max.count && Cost(out, cost) + cost(e) <= max.bytes)
  {
    ReportedSnoc(taken, Report(e));
    CostSnoc(Reported(taken), e, cost);
    EntersConcat(taken, [Report(e)], reach);
    assert EntersWithin([Report(e)], reach);
  }

  lemma OneMoreDirectory(taken: seq<Step>, path: Path, cost: FileEntry -> nat, max: Budget, reach: nat)
    requires Allows(cost, max, reach)(taken)
    ensures Reported(taken + [Enter(path)]) == Reported(taken)
    ensures Allows(cost, max, reach)(taken + [Enter(path)]) <==> |path| <= reach
  {
    ReportedSnoc(taken, Enter(path));
    EmptyRight(Reported(taken));
    EntersConcat(taken, [Enter(path)], reach);
    OneEnters(path, reach);
  }

  lemma OneEnters(path: Path, reach: nat)
    ensures EntersWithin([Enter(path)], reach) <==> |path| <= reach
  {
    assert [Enter(path)][0] == Enter(path);
  }

  lemma EntersConcat(a: seq<Step>, b: seq<Step>, reach: nat)
    ensures EntersWithin(a + b, reach) <==> EntersWithin(a, reach) && EntersWithin(b, reach)
  {
    assert forall i :: 0 <= i < |b| ==> (a + b)[|a| + i] == b[i];
    assert forall i :: 0 <= i < |a| ==> (a + b)[i] == a[i];
  }

  // ---- the walk up to the first unsafe entry ----

  predicate NodeSafe(path: Path, node: Node, deep: bool, excluded: Exclusion) {
    !node.Unsafe? && (node.Dir? && deep ==> Safe(node.children, path, deep, excluded))
  }

  /** The steps of the unbounded walk before it comes to a visible unsafe entry. */
  function SafeSteps(listing: Listing, base: Path, deep: bool, excluded: Exclusion): seq<Step>
    decreases listing, 1
  {
    match listing
    case End => []
    case Entry(name, node, rest) =>
      if !Visible(base + [name], node, excluded) then SafeSteps(rest, base, deep, excluded)
      else
        NodeSafeSteps(base + [name], node, deep, excluded)
        + if NodeSafe(base + [name], node, deep, excluded) then SafeSteps(rest, base, deep, excluded) else []
  }

  function NodeSafeSteps(path: Path, node: Node, deep: bool, excluded: Exclusion): seq<Step>
    decreases node, 1
  {
    if node.Unsafe? then [] else [Report(ItemFor(path, node))] + InsideSafeSteps(path, node, deep, excluded)
  }

  function InsideSafeSteps(path: Path, node: Node, deep: bool, excluded: Exclusion): seq<Step>
    decreases node, 0
  {
    if node.Dir? && deep then [Enter(path)] + SafeSteps(node.children, path, deep, excluded) else []
  }

  lemma SafeNodeParts(path: Path, node: Node, deep: bool, excluded: Exclusion)
    ensures node.Unsafe? ==> NodeSafeSteps(path, node, deep, excluded) == []
    ensures !node.Unsafe? && !(node.Dir? && deep) ==>
              NodeSafeSteps(path, node, deep, excluded) == [Report(ItemFor(path, node))]
  {
  }

  /** They are the first steps of the unbounded walk, and all of them exactly when nothing
      visible is unsafe. */
  lemma {:induction false} SafeStepsFirst(listing: Listing, base: Path, deep: bool, excluded: Exclusion)
    ensures SafeSteps(listing, base, deep, excluded) <= Steps(listing, base, deep, excluded)
    ensures Safe(listing, base, deep, excluded) ==>
              SafeSteps(listing, base, deep, excluded) == Steps(listing, base, deep, excluded)
    decreases listing, 1
  {
    match listing {
      case End =>
      case Entry(name, node, rest) =>
        var path, more := base + [name], Steps(rest, base, deep, excluded);
        SafeStepsFirst(rest, base, deep, excluded);
        EmptyLeft(more);
        NodeSafeStepsFirst(path, node, deep, excluded);
        if NodeSafe(path, node, deep, excluded) {
          ExtendPrefix(NodeSteps(path, node, deep, excluded), SafeSteps(rest, base, deep, excluded), more);
        } else {
          EmptyRight(NodeSafeSteps(path, node, deep, excluded));
          PrefixThen(NodeSafeSteps(path, node, deep, excluded), NodeSteps(path, node, deep, excluded), more);
        }
    }
  }

  lemma {:induction false} NodeSafeStepsFirst(path: Path, node: Node, deep: bool, excluded: Exclusion)
    ensures NodeSafeSteps(path, node, deep, excluded) <= NodeSteps(path, node, deep, excluded)
    ensures NodeSafe(path, node, deep, excluded) ==>
              NodeSafeSteps(path, node, deep, excluded) == NodeSteps(path, node, deep, excluded)
    decreases node, 0
  {
    if node.Dir? && deep {
      var safe, all := SafeSteps(node.children, path, deep, excluded), Steps(node.children, path, deep, excluded);
      SafeStepsFirst(node.children, path, deep, excluded);
      ExtendPrefix([Enter(path)], safe, all);
      ExtendPrefix([Report(ItemFor(path, node))], [Enter(path)] + safe, [Enter(path)] + all);
    }
  }

  /** How much of a listing is left: `seen` was taken, and whatever is unsafe is still to
      come. */
  predicate Remaining(listing: Listing, left: Listing, seen: seq<Step>, base: Path, deep: bool, excluded: Exclusion) {
    && SafeSteps(listing, base, deep, excluded) == seen + SafeSteps(left, base, deep, excluded)
    && (Safe(left, base, deep, excluded) <==> Safe(listing, base, deep, excluded))
  }

  lemma FirstEntry(listing: Listing, base: Path, deep: bool, excluded: Exclusion)
    ensures Remaining(listing, listing, [], base, deep, excluded)
  {
    EmptyLeft(SafeSteps(listing, base, deep, excluded));
  }

  lemma SkipEntry(listing: Listing, left: Listing, seen: seq<Step>, base: Path, deep: bool, excluded: Exclusion)
    requires left.Entry? && Remaining(listing, left, seen, base, deep, excluded)
    requires !Visible(base + [left.name], left.node, excluded)
    ensures Remaining(listing, left.rest, seen, base, deep, excluded)
  {
  }

  /** What follows an entry: nothing, if the walk fails there. */
  function AfterEntry(left: Listing, base: Path, deep: bool, excluded: Exclusion): seq<Step>
    requires left.Entry?
  {
    if NodeSafe(base + [left.name], left.node, deep, excluded) then SafeSteps(left.rest, base, deep, excluded) else []
  }

  lemma NextEntry(listing: Listing, left: Listing, seen: seq<Step>, base: Path, deep: bool, excluded: Exclusion)
    requires left.Entry? && Remaining(listing, left, seen, base, deep, excluded)
    requires Visible(base + [left.name], left.node, excluded)
    ensures var path, node := base + [left.name], left.node;
            var steps, all := NodeSafeSteps(path, node, deep, excluded), SafeSteps(listing, base, deep, excluded);
            && all == seen + (steps + AfterEntry(left, base, deep, excluded))
            && (!NodeSafe(path, node, deep, excluded) ==> !Safe(listing, base, deep, excluded) && all == seen + steps)
            && (NodeSafe(path, node, deep, excluded) ==>
                 Remaining(listing, left.rest, seen + steps, base, deep, excluded))
  {
    var steps := NodeSafeSteps(base + [left.name], left.node, deep, excluded);
    Regroup(seen, steps, AfterEntry(left, base, deep, excluded));
    EmptyRight(steps);
  }

  lemma LastEntry(listing: Listing, seen: seq<Step>, base: Path, deep: bool, excluded: Exclusion)
    requires Remaining(listing, End, seen, base, deep, excluded)
    ensures SafeSteps(listing, base, deep, excluded) == seen && Safe(listing, base, deep, excluded)
  {
    EmptyRight(seen);
  }

  /** What an entry adds to the output: its path in bytes, and 64. */
  function EntryCost(encoded: Path -> nat): FileEntry -> nat {
    (e: FileEntry) => var n: nat := encoded(e.path) + 64; n
  }

  /** The output agrees with the steps taken, and the steps were allowed. */
  predicate Tallies(entries: seq<FileEntry>, outputBytes: nat, taken: seq<Step>,
                    cost: FileEntry -> nat, max: Budget, reach: nat) {
    && entries == Reported(taken) && outputBytes == Cost(entries, cost)
    && Allows(cost, max, reach)(taken)
    && forall e :: e in entries ==> |e.path| <= reach + 1
  }

  /** An entry that fits, and one that does not. */
  lemma EntryFits(entries: seq<FileEntry>, bytes: nat, taken: seq<Step>, e: FileEntry,
                  cost: FileEntry -> nat, max: Budget, reach: nat)
    requires Tallies(entries, bytes, taken, cost, max, reach) && |e.path| <= reach + 1
    ensures var rules, after := Allows(cost, max, reach), taken + [Report(e)];
            if |entries| >= max.count || bytes + cost(e) > max.bytes
            then Walked(taken, taken, true, [Report(e)], rules)
            else Walked(taken, after, false, [Report(e)], rules)
                 && Tallies(entries + [e], bytes + cost(e), after, cost, max, reach)
  {
    WalkOne(taken, Report(e), Allows(cost, max, reach));
    OneMoreEntry(taken, e, cost, max, reach);
  }

  /** A directory within reach, and one that is too deep. */
  lemma DirectoryFits(entries: seq<FileEntry>, bytes: nat, taken: seq<Step>, path: Path,
                      cost: FileEntry -> nat, max: Budget, reach: nat)
    requires Tallies(entries, bytes, taken, cost, max, reach)
    ensures var rules, after := Allows(cost, max, reach), taken + [Enter(path)];
            if |path| > reach
            then Walked(taken, taken, true, [Enter(path)], rules)
            else Walked(taken, after, false, [Enter(path)], rules) && Tallies(entries, bytes, after, cost, max, reach)
  {
    WalkOne(taken, Enter(path), Allows(cost, max, reach));
    OneMoreDirectory(taken, path, cost, max, reach);
  }

  class Lister {
    const excluded: Exclusion
    const cost: FileEntry -> nat
    const max: Budget
    const maxDepth: nat
    const root: Path
    var entries: seq<FileEntry>
    var truncated: bool
    var outputBytes: nat
    ghost var taken: seq<Step>

    /** `encoded` is the length of a path in bytes. */
    constructor (excluded: Exclusion, encoded: Path -> nat, max: Budget, maxDepth: nat, root: Path)
      ensures this.excluded == excluded && this.max == max && this.maxDepth == maxDepth && this.root == root
      ensures this.cost == EntryCost(encoded)
      ensures Valid() && taken == [] && !truncated
    {
      this.excluded := excluded;
      this.cost := EntryCost(encoded);
      this.max := max;
      this.maxDepth := maxDepth;
      this.root := root;
      this.entries := [];
      this.truncated := false;
      this.outputBytes := 0;
      this.taken := [];
    }

    function Reach(): nat { |root| + maxDepth }

    ghost function Rules(): StepRule<Step> { Allows(cost, max, Reach()) }

    ghost predicate Valid()
      reads this
    {
      Tallies(entries, outputBytes, taken, cost, max, Reach())
    }

    /** Append an entry, or mark the walk truncated when it does not fit. */
    method Add(entry: FileEntry)
      requires Valid() && !truncated && |entry.path| <= Reach() + 1
      modifies this
      ensures Valid() && Walked(old(taken), taken, truncated, [Report(entry)], Rules())
    {
      EntryFits(entries, outputBytes, taken, entry, cost, max, Reach());
      var estimated := cost(entry);
      if |entries| >= max.count || outputBytes + estimated > max.bytes {
        truncated := true;
        return;
      }
      entries := entries + [entry];
      outputBytes := outputBytes + estimated;
      taken := taken + [Report(entry)];
    }

    /** Enter a directory, or mark the walk truncated when it is too deep. */
    method Descend(path: Path, depth: nat)
      requires Valid() && !truncated && |path| == |root| + depth + 1
      modifies this`truncated, this`taken
      ensures Valid() && Walked(old(taken), taken, truncated, [Enter(path)], Rules())
      ensures !truncated ==> |path| <= Reach()
    {
      DirectoryFits(entries, outputBytes, taken, path, cost, max, Reach());
      if depth >= maxDepth {
        truncated := true;
        return;
      }
      taken := taken + [Enter(path)];
    }

    /** The part of `_list_directory` that handles one visible entry. */
    method ListEntry(path: Path, node: Node, depth: nat, deep: bool) returns (ok: bool)
      requires Valid() && !truncated && |path| == |root| + depth + 1 <= Reach() + 1
      modifies this
      ensures Valid() && Walked(old(taken), taken, truncated, NodeSafeSteps(path, node, deep, excluded), Rules())
      ensures ok <==> truncated || NodeSafe(path, node, deep, excluded)
      decreases node, 0
    {
      ghost var before := taken;
      SafeNodeParts(path, node, deep, excluded);
      WalkNothing(before, Rules());
      if node.Unsafe? { return false; }
      Add(ItemFor(path, node));
      if !(node.Dir? && deep) { return true; }
      ghost var reported, report, inside := taken, [Report(ItemFor(path, node))],
        InsideSafeSteps(path, node, deep, excluded);
      WalkHead(before, reported, truncated, report, inside, Rules());
      if truncated { return true; }
      ok := ListInside(path, node.children, depth, deep);
      WalkTail(before, reported, taken, truncated, report, inside, Rules());
    }

    /** A directory that was reported: enter it and list it. */
    method ListInside(path: Path, children: Listing, depth: nat, deep: bool) returns (ok: bool)
      requires Valid() && !truncated && |path| == |root| + depth + 1 <= Reach() + 1
      modifies this
      ensures Valid()
      ensures Walked(old(taken), taken, truncated, [Enter(path)] + SafeSteps(children, path, deep, excluded), Rules())
      ensures ok <==> truncated || Safe(children, path, deep, excluded)
      decreases children, 2
    {
      ghost var before, below := taken, SafeSteps(children, path, deep, excluded);
      Descend(path, depth);
      ghost var entered := taken;
      WalkHead(before, entered, truncated, [Enter(path)], below, Rules());
      if truncated { return true; }
      ok := ListDirectory(children, path, depth + 1, deep);
      WalkTail(before, entered, taken, truncated, [Enter(path)], below, Rules());
    }

    /** One visible entry in the middle of a directory, `seen` being what the entries
        before it took. */
    method ListNext(left: Listing, base: Path, depth: nat, deep: bool,
                    ghost listing: Listing, ghost before: seq<Step>, ghost seen: seq<Step>)
      returns (ok: bool, ghost now: seq<Step>)
      requires Valid() && !truncated && |base| == |root| + depth <= Reach()
      requires left.Entry? && Visible(base + [left.name], left.node, excluded)
      requires Walked(before, taken, false, seen, Rules())
      requires Remaining(listing, left, seen, base, deep, excluded)
      modifies this
      ensures Valid()
      ensures ok && !truncated ==>
                && Walked(before, taken, false, now, Rules())
                && Remaining(listing, left.rest, now, base, deep, excluded)
      ensures !ok || truncated ==> Walked(before, taken, truncated, SafeSteps(listing, base, deep, excluded), Rules())
      ensures !ok ==> !truncated && !Safe(listing, base, deep, excluded)
      decreases left.node, 1
    {
      var path, node := base + [left.name], left.node;
      ghost var mid, steps := taken, NodeSafeSteps(path, node, deep, excluded);
      NextEntry(listing, left, seen, base, deep, excluded);
      now := seen + steps;
      ok := ListEntry(path, node, depth, deep);
      WalkStep(before, mid, taken, truncated, seen, steps, AfterEntry(left, base, deep, excluded),
        SafeSteps(listing, base, deep, excluded), Rules());
    }

    /** `_list_directory`. It takes the steps of the unbounded walk up to the first that is
        not allowed, and is then marked truncated, or up to the first visible unsafe entry,
        over which it then fails, whichever comes first. */
    method ListDirectory(listing: Listing, base: Path, depth: nat, deep: bool) returns (ok: bool)
      requires Valid() && !truncated && |base| == |root| + depth <= Reach()
      modifies this
      ensures Valid() && Walked(old(taken), taken, truncated, SafeSteps(listing, base, deep, excluded), Rules())
      ensures ok <==> truncated || Safe(listing, base, deep, excluded)
      decreases listing, 1
    {
      ghost var before, seen := taken, [];
      var left := listing;
      WalkNothing(before, Rules());
      FirstEntry(listing, base, deep, excluded);
      while left.Entry?
        invariant Valid() && !truncated
        invariant left == listing || left < listing
        invariant Walked(before, taken, false, seen, Rules())
        invariant Remaining(listing, left, seen, base, deep, excluded)
        decreases left
      {
        if excluded(base + [left.name], left.node.Dir?) {
          SkipEntry(listing, left, seen, base, deep, excluded);
        } else {
          ok, seen := ListNext(left, base, depth, deep, listing, before, seen);
          if !ok || truncated { return; }
        }
        left := left.rest;
      }
      LastEntry(listing, seen, base, deep, excluded);
      return true;
    }
  }

  // ---- the walk as entries ----

  /** The unbounded walk, by its entries. */
  function Items(listing: Listing, base: Path, deep: bool, excluded: Exclusion): seq<FileEntry>
    decreases listing, 1
  {
    match listing
    case End => []
    case Entry(name, node, rest) =>
      (if Visible(base + [name], node, excluded) then NodeItems(base + [name], node, deep, excluded) else [])
      + Items(rest, base, deep, excluded)
  }

  function NodeItems(path: Path, node: Node, deep: bool, excluded: Exclusion): seq<FileEntry>
    decreases node, 0
  {
    [ItemFor(path, node)] + if node.Dir? && deep then Items(node.children, path, deep, excluded) else []
  }

  lemma {:induction false} StepsReportItems(listing: Listing, base: Path, deep: bool, excluded: Exclusion)
    ensures Reported(Steps(listing, base, deep, excluded)) == Items(listing, base, deep, excluded)
    decreases listing, 1
  {
    match listing {
      case End =>
      case Entry(name, node, rest) =>
        StepsReportItems(rest, base, deep, excluded);
        if Visible(base + [name], node, excluded) {
          NodeReportsItems(base + [name], node, deep, excluded);
          ReportedConcat(NodeSteps(base + [name], node, deep, excluded), Steps(rest, base, deep, excluded));
        } else {
          EmptyLeft(Steps(rest, base, deep, excluded));
          EmptyLeft(Items(rest, base, deep, excluded));
        }
    }
  }

  lemma {:induction false} NodeReportsItems(path: Path, node: Node, deep: bool, excluded: Exclusion)
    ensures Reported(NodeSteps(path, node, deep, excluded)) == NodeItems(path, node, deep, excluded)
    decreases node, 0
  {
    ReportedOne(Report(ItemFor(path, node)));
    if node.Dir? && deep {
      var below := Steps(node.children, path, deep, excluded);
      StepsReportItems(node.children, path, deep, excluded);
      ReportedOne(Enter(path));
      ReportedConcat([Enter(path)], below);
      EmptyLeft(Reported(below));
      ReportedConcat([Report(ItemFor(path, node))], [Enter(path)] + below);
    } else {
      NodeParts(path, node, deep, excluded);
    }
  }

  lemma ReportedOne(step: Step)
    ensures Reported([step]) == if step.Report? then [step.entry] else []
  {
    EmptyLeft([step]);
    ReportedSnoc([], step);
    EmptyLeft(if step.Report? then [step.entry] else []);
  }

  /** A walk enters within reach exactly when no directory of the tree is too deep. */
  lemma {:induction false} EntersWhenShallow(listing: Listing, base: Path, depth: nat, max: nat,
                                          deep: bool, excluded: Exclusion, root: nat)
    requires |base| == root + depth
    ensures EntersWithin(Steps(listing, base, deep, excluded), root + max) <==>
            !TooDeep(listing, base, depth, max, deep, excluded)
    decreases listing, 1
  {
    match listing {
      case End =>
      case Entry(name, node, rest) =>
        EntersWhenShallow(rest, base, depth, max, deep, excluded, root);
        var path := base + [name];
        if Visible(path, node, excluded) {
          EntersConcat(NodeSteps(path, node, deep, excluded), Steps(rest, base, deep, excluded), root + max);
          NodeEnters(path, node, depth, max, deep, excluded, root);
        } else {
          EmptyLeft(Steps(rest, base, deep, excluded));
        }
    }
  }

  lemma {:induction false} NodeEnters(path: Path, node: Node, depth: nat, max: nat,
                                    deep: bool, excluded: Exclusion, root: nat)
    requires |path| == root + depth + 1
    ensures EntersWithin(NodeSteps(path, node, deep, excluded), root + max) <==>
            !(node.Dir? && deep && (depth >= max || TooDeep(node.children, path, depth + 1, max, deep, excluded)))
    decreases node, 0
  {
    var report, enter := [Report(ItemFor(path, node))], [Enter(path)];
    if node.Dir? && deep {
      var below := Steps(node.children, path, deep, excluded);
      EntersWhenShallow(node.children, path, depth + 1, max, deep, excluded, root);
      EntersConcat(report, enter + below, root + max);
      EntersConcat(enter, below, root + max);
      assert EntersWithin(report, root + max);
      assert enter[0] == Enter(path);
      assert EntersWithin(enter, root + max) <==> |path| <= root + max;
    } else {
      NodeParts(path, node, deep, excluded);
      assert EntersWithin(report, root + max);
    }
  }

  lemma ReportedPrefix(part: seq<Step>, all: seq<Step>)
    requires part <= all
    ensures Reported(part) <= Reported(all)
  {
    assert all == part + all[|part|..];
    ReportedConcat(part, all[|part|..]);
  }

  /** The unbounded walk from the top, by its steps, its entries and its depth. */
  function WholeWalk(listing: Listing, path: Path, deep: bool, excluded: Exclusion): seq<Step> {
    Steps(listing, path, deep, excluded)
  }

  function WholeListing(listing: Listing, path: Path, deep: bool, excluded: Exclusion): seq<FileEntry> {
    Items(listing, path, deep, excluded)
  }

  predicate ExceedsDepth(listing: Listing, path: Path, max: nat, deep: bool, excluded: Exclusion) {
    TooDeep(listing, path, 0, max, deep, excluded)
  }

  lemma WholeWalkIs(listing: Listing, path: Path, deep: bool, excluded: Exclusion, maxDepth: nat)
    ensures Reported(WholeWalk(listing, path, deep, excluded)) == WholeListing(listing, path, deep, excluded)
    ensures EntersWithin(WholeWalk(listing, path, deep, excluded), |path| + maxDepth) <==>
            !ExceedsDepth(listing, path, maxDepth, deep, excluded)
  {
    StepsReportItems(listing, path, deep, excluded);
    EntersWhenShallow(listing, path, 0, maxDepth, deep, excluded, |path|);
  }

  /** The unbounded walk from the top, up to the first visible unsafe entry. */
  function SafeWalk(listing: Listing, path: Path, deep: bool, excluded: Exclusion): seq<Step> {
    SafeSteps(listing, path, deep, excluded)
  }

  /** The walk over: what was taken, of the part before anything unsafe and of the whole. */
  lemma EndOfWalk(taken: seq<Step>, truncated: bool, safe: seq<Step>, whole: seq<Step>,
                  cost: FileEntry -> nat, max: Budget, reach: nat)
    requires Allows(cost, max, reach)([]) && safe <= whole
    requires Walked([], taken, truncated, safe, Allows(cost, max, reach))
    ensures truncated <==> !Allows(cost, max, reach)(safe)
    ensures truncated || safe == whole ==>
              Longest(taken, whole, Allows(cost, max, reach)) && (truncated <==> taken != whole)
  {
    AllowsShrinks(safe, cost, max, reach);
    AllowsShrinks(whole, cost, max, reach);
    WalkedPart(taken, truncated, safe, whole, Allows(cost, max, reach));
  }

  /** The whole walk of a fresh lister. */
  method ListAll(lister: Lister, listing: Listing, path: Path, deep: bool) returns (ok: bool)
    requires lister.Valid() && !lister.truncated && lister.taken == [] && lister.root == path
    modifies lister
    ensures lister.Valid()
    ensures ok <==> Safe(listing, path, deep, lister.excluded) ||
                    !lister.Rules()(SafeWalk(listing, path, deep, lister.excluded))
    ensures ok && !lister.truncated ==> Safe(listing, path, deep, lister.excluded)
    ensures ok ==> Longest(lister.taken, WholeWalk(listing, path, deep, lister.excluded), lister.Rules())
    ensures ok ==> (lister.truncated <==> lister.taken != WholeWalk(listing, path, deep, lister.excluded))
  {
    ok := lister.ListDirectory(listing, path, 0, deep);
    SafeStepsFirst(listing, path, deep, lister.excluded);
    EndOfWalk(lister.taken, lister.truncated, SafeWalk(listing, path, deep, lister.excluded),
      WholeWalk(listing, path, deep, lister.excluded), lister.cost, lister.max, lister.Reach());
  }

  datatype ListResult = ExcludedPath | UnsafePath | Listed(entries: seq<FileEntry>, truncated: bool)

  /** `list_files` on a directory that was opened as `listing`. The entries are those of
      `part`, the longest part of the unbounded walk within the entry, byte and depth
      budgets; no entry lies deeper than one component below the depth limit; the result
      is truncated exactly when `part` is not the whole walk; and it fails exactly when a
      visible entry is unsafe and everything before the first such is within the budgets. */
  method ListFiles(listing: Listing, path: Path, recursive: bool, excluded: Exclusion, encoded: Path -> nat,
                   max: Budget, maxDepth: nat) returns (r: ListResult, ghost part: seq<Step>)
    ensures r.ExcludedPath? <==> excluded(path, true)
    ensures r.UnsafePath? <==>
              && !excluded(path, true) && !Safe(listing, path, recursive, excluded)
              && Allows(EntryCost(encoded), max, |path| + maxDepth)(SafeWalk(listing, path, recursive, excluded))
    ensures var whole := WholeWalk(listing, path, recursive, excluded);
            r.Listed? ==>
              && r.entries == Reported(part)
              && Longest(part, whole, Allows(EntryCost(encoded), max, |path| + maxDepth))
              && (r.truncated <==> part != whole)
              && (forall e :: e in r.entries ==> |e.path| <= |path| + maxDepth + 1)
              && (!r.truncated ==> Safe(listing, path, recursive, excluded))
  {
    part := [];
    if excluded(path, true) { return ExcludedPath, part; }
    var lister := new Lister(excluded, encoded, max, maxDepth, path);
    var ok := ListAll(lister, listing, path, recursive);
    if !ok { return UnsafePath, part; }
    return Listed(lister.entries, lister.truncated), lister.taken;
  }

  lemma LongestReports(part: seq<Step>, walk: seq<Step>, cost: FileEntry -> nat, max: Budget, reach: nat)
    requires Longest(part, walk, Allows(cost, max, reach))
    ensures Reported(part) <= Reported(walk) && Within(Reported(part), cost, max)
    ensures part != walk <==> !Within(Reported(walk), cost, max) || !EntersWithin(walk, reach)
  {
    ReportedPrefix(part, walk);
    assert walk[..|walk|] == walk;
  }

  /** What the longest part means for entries: a prefix of the unbounded listing within the
      budget, and all of it exactly when the whole listing is within the budget and no
      directory is too deep. */
  lemma ListingIsBest(part: seq<Step>, listing: Listing, path: Path, deep: bool, excluded: Exclusion,
                      cost: FileEntry -> nat, max: Budget, maxDepth: nat)
    requires Longest(part, WholeWalk(listing, path, deep, excluded), Allows(cost, max, |path| + maxDepth))
    ensures var all := WholeListing(listing, path, deep, excluded);
            && Reported(part) <= all && Within(Reported(part), cost, max)
            && (part == WholeWalk(listing, path, deep, excluded) <==>
                 Within(all, cost, max) && !ExceedsDepth(listing, path, maxDepth, deep, excluded))
            && (part == WholeWalk(listing, path, deep, excluded) ==> Reported(part) == all)
  {
    WholeWalkIs(listing, path, deep, excluded, maxDepth);
    LongestReports(part, WholeWalk(listing, path, deep, excluded), cost, max, |path| + maxDepth);
  }
}
