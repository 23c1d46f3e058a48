/** The bounded search of `search_text` (src/ulg/tools/read_only.py) against the
    unbounded one. */
module SearchWalk {
  import opened BoundedWalk
  import opened Directory

  datatype Match = Match(path: Path, lineNumber: nat, line: string)

  /** Whether a line contains the query, in the case the action asks for. */
  type Needle = string -> bool

  datatype Query = Query(needle: Needle, maxFile: nat, excluded: Exclusion)

  /** What a search does: visit an entry, or report a matching line. */
  datatype Step = Visit(path: Path, isDirectory: bool) | Report(found: Match)

  function Clip(line: string): string { if |line| <= 1000 then line else line[..1000] }

  function LineSteps(path: Path, lines: seq<string>, i: nat, needle: Needle): seq<Step>
    requires i < |lines|
  {
    if needle(lines[i]) then [Report(Match(path, i + 1, Clip(lines[i])))] else []
  }

  /** All matching lines from line `i` on. */
  function StepsFrom(path: Path, lines: seq<string>, i: nat, needle: Needle): seq<Step>
    requires i <= |lines|
    decreases |lines| - i
  {
    if i == |lines| then [] else LineSteps(path, lines, i, needle) + StepsFrom(path, lines, i + 1, needle)
  }

  /** Files over the size limit and files that are not text match nothing. */
  function FileSteps(path: Path, data: FileData, q: Query): seq<Step> {
    if data.size > q.maxFile || data.text.None? then [] else StepsFrom(path, data.text.value, 0, q.needle)
  }

  /** The unbounded search, in preorder. */
  function Steps(listing: Listing, base: Path, q: Query): seq<Step>
    decreases listing, 1
  {
    match listing
    case End => []
    case Entry(name, node, rest) =>
      (if Visible(base + [name], node, q.excluded) then NodeSteps(base + [name], node, q) else [])
      + Steps(rest, base, q)
  }

  function NodeSteps(path: Path, node: Node, q: Query): seq<Step>
    decreases node, 1
  {
    [Visit(path, node.Dir?)] + InsideSteps(path, node, q)
  }

  function InsideSteps(path: Path, node: Node, q: Query): seq<Step>
    decreases node, 0
  {
    match node
    case Dir(children) => Steps(children, path, q)
    case File(data) => FileSteps(path, data, q)
    case Unsafe => []
  }

  // ---- budgets ----

  function Reported(steps: seq<Step>): seq<Match> {
    if steps == [] then [] else
      var step := steps[|steps| - 1];
      Reported(steps[..|steps| - 1]) + if step.Report? then [step.found] else []
  }

  function Visited(steps: seq<Step>): nat {
    if steps == [] then 0 else
      Visited(steps[..|steps| - 1]) + if steps[|steps| - 1].Visit? then 1 else 0
  }

  /** Every directory visited has a path of at most `reach` components. */
  predicate VisitsWithin(steps: seq<Step>, reach: nat) {
    forall i :: 0 <= i < |steps| && steps[i].Visit? && steps[i].isDirectory ==> |steps[i].path| <= reach
  }

  /** The budgets of a search: matches and their bytes, entries, and depth. */
  datatype Limits = Limits(matches: Budget, entries: nat, depth: nat)

  function Allows(cost: Match -> nat, max: Limits, reach: nat): StepRule<Step> {
    (steps: seq<Step>) =>
      Within(Reported(steps), cost, max.matches) && Visited(steps) <= max.entries && VisitsWithin(steps, reach)
  }

  lemma StepsSnoc(steps: seq<Step>, step: Step)
    ensures Reported(steps + [step]) == Reported(steps) + if step.Report? then [step.found] else []
    ensures Visited(steps + [step]) == Visited(steps) + if step.Visit? then 1 else 0
  {
    assert (steps + [step])[..|steps|] == steps;
  }

  lemma {:induction false} StepsConcat(a: seq<Step>, b: seq<Step>)
    ensures Reported(a + b) == Reported(a) + Reported(b)
    ensures Visited(a + b) == Visited(a) + Visited(b)
    decreases |b|
  {
    if b == [] {
      assert a + b == a;
    } else {
      var n := |b| - 1;
      var last := if b[n].Report? then [b[n].found] else [];
      StepsConcat(a, b[..n]);
      assert a + b == (a + b[..n]) + [b[n]];
      StepsSnoc(a + b[..n], b[n]);
      Regroup(Reported(a), Reported(b[..n]), last);
    }
  }

  lemma StepsOne(step: Step)
    ensures Reported([step]) == if step.Report? then [step.found] else []
    ensures Visited([step]) == if step.Visit? then 1 else 0
  {
    EmptyLeft([step]);
    StepsSnoc([], step);
    EmptyLeft(if step.Report? then [step.found] else []);
  }

  lemma AllowsLess(part: seq<Step>, rest: seq<Step>, cost: Match -> nat, max: Limits, reach: nat)
    requires Allows(cost, max, reach)(part + rest)
    ensures Allows(cost, max, reach)(part)
  {
    StepsConcat(part, rest);
    WithinPrefix(Reported(part), Reported(rest), cost, max.matches);
    VisitsConcat(part, rest, reach);
  }

  lemma AllowsShrinks(all: seq<Step>, cost: Match -> nat, max: Limits, reach: nat)
    ensures Shrinks(all, Allows(cost, max, reach))
  {
    var allowed := Allows(cost, max, reach);
    forall m, n {:trigger all[..m], all[..n]} | 0 <= m <= n <= |all| && allowed(all[..n]) ensures allowed(all[..m]) {
      assert all[..n] == all[..m] + all[m..n];
      AllowsLess(all[..m], all[m..n], cost, max, reach);
    }
  }

  /** When one more match, or one more entry, is allowed. */
  lemma OneMoreMatch(taken: seq<Step>, m: Match, cost: Match -> nat, max: Limits, reach: nat)
    requires Allows(cost, max, reach)(taken)
    ensures var out := Reported(taken);
            && Reported(taken + [Report(m)]) == out + [m] && Visited(taken + [Report(m)]) == Visited(taken)
            && Cost(out + [m], cost) == Cost(out, cost) + cost(m)
            && (Allows(cost, max, reach)(taken + [Report(m)]) <==>
                 |out| < max.matches.count && Cost(out, cost) + cost(m) <= max.matches.bytes)
  {
    StepsSnoc(taken, Report(m));
    CostSnoc(Reported(taken), m, cost);
    VisitsConcat(taken, [Report(m)], reach);
    assert VisitsWithin([Report(m)], reach);
  }

  lemma OneMoreVisit(taken: seq<Step>, path: Path, isDirectory: bool)
    ensures Reported(taken + [Visit(path, isDirectory)]) == Reported(taken)
    ensures Visited(taken + [Visit(path, isDirectory)]) == Visited(taken) + 1
  {
    StepsSnoc(taken, Visit(path, isDirectory));
    EmptyRight(Reported(taken));
  }

  lemma VisitReach(step: Step, reach: nat)
    requires step.Visit?
    ensures VisitsWithin([step], reach) <==> (step.isDirectory ==> |step.path| <= reach)
  {
    assert [step][0] == step;
  }

  lemma OneMoreEntry(taken: seq<Step>, path: Path, isDirectory: bool, cost: Match -> nat, max: Limits, reach: nat)
    requires Allows(cost, max, reach)(taken)
    ensures var step := Visit(path, isDirectory);
            && Reported(taken + [step]) == Reported(taken) && Visited(taken + [step]) == Visited(taken) + 1
            && (Allows(cost, max, reach)(taken + [step]) <==>
                 Visited(taken) < max.entries && (isDirectory ==> |path| <= reach))
  {
    OneMoreVisit(taken, path, isDirectory);
    VisitsConcat(taken, [Visit(path, isDirectory)], reach);
    VisitReach(Visit(path, isDirectory), reach);
  }

  lemma VisitsConcat(a: seq<Step>, b: seq<Step>, reach: nat)
    ensures VisitsWithin(a + b, reach) <==> VisitsWithin(a, reach) && VisitsWithin(b, reach)
  {
    assert forall i :: 0 <= i < |b| ==> (a + b)[|a| + i] == b[i];
    assert forall i :: 0 <= i < |a| ==> (a + b)[i] == a[i];
  }

  // ---- one file ----

  predicate LinesLeft(path: Path, lines: seq<string>, i: nat, seen: seq<Step>, needle: Needle) {
    i <= |lines| && StepsFrom(path, lines, 0, needle) == seen + StepsFrom(path, lines, i, needle)
  }

  lemma FirstLine(path: Path, lines: seq<string>, needle: Needle)
    ensures LinesLeft(path, lines, 0, [], needle)
  {
    EmptyLeft(StepsFrom(path, lines, 0, needle));
  }

  lemma NextLine(path: Path, lines: seq<string>, i: nat, seen: seq<Step>, needle: Needle)
    requires i < |lines| && LinesLeft(path, lines, i, seen, needle)
    ensures var hit, rest := LineSteps(path, lines, i, needle), StepsFrom(path, lines, i + 1, needle);
            && StepsFrom(path, lines, 0, needle) == seen + (hit + rest)
            && LinesLeft(path, lines, i + 1, seen + hit, needle)
    ensures !needle(lines[i]) ==> LinesLeft(path, lines, i + 1, seen, needle)
  {
    var hit, rest := LineSteps(path, lines, i, needle), StepsFrom(path, lines, i + 1, needle);
    Regroup(seen, hit, rest);
    assert hit == [] ==> seen + hit == seen;
  }

  lemma LastLine(path: Path, lines: seq<string>, seen: seq<Step>, needle: Needle)
    requires LinesLeft(path, lines, |lines|, seen, needle)
    ensures StepsFrom(path, lines, 0, needle) == seen
  {
    assert seen + [] == seen;
  }

  // ---- one directory ----

  predicate NodeSafe(path: Path, node: Node, excluded: Exclusion) {
    !node.Unsafe? && (node.Dir? ==> Safe(node.children, path, true, excluded))
  }

  /** The steps of the unbounded search before it comes to a visible unsafe entry. */
  function SafeSteps(listing: Listing, base: Path, q: Query): seq<Step>
    decreases listing, 1
  {
    match listing
    case End => []
    case Entry(name, node, rest) =>
      if !Visible(base + [name], node, q.excluded) then SafeSteps(rest, base, q)
      else
        NodeSafeSteps(base + [name], node, q)
        + if NodeSafe(base + [name], node, q.excluded) then SafeSteps(rest, base, q) else []
  }

  function NodeSafeSteps(path: Path, node: Node, q: Query): seq<Step>
    decreases node, 1
  {
    if node.Unsafe? then [] else [Visit(path, node.Dir?)] + InsideSafeSteps(path, node, q)
  }

  function InsideSafeSteps(path: Path, node: Node, q: Query): seq<Step>
    decreases node, 0
  {
    match node
    case Dir(children) => SafeSteps(children, path, q)
    case File(data) => FileSteps(path, data, q)
    case Unsafe => []
  }

  /** They are the first steps of the unbounded search, and all of them exactly when nothing
      visible is unsafe. */
  lemma {:induction false} SafeStepsFirst(listing: Listing, base: Path, q: Query)
    ensures SafeSteps(listing, base, q) <= Steps(listing, base, q)
    ensures Safe(listing, base, true, q.excluded) ==> SafeSteps(listing, base, q) == Steps(listing, base, q)
    decreases listing, 1
  {
    match listing {
      case End =>
      case Entry(name, node, rest) =>
        var path, more := base + [name], Steps(rest, base, q);
        SafeStepsFirst(rest, base, q);
        EmptyLeft(more);
        NodeSafeStepsFirst(path, node, q);
        if NodeSafe(path, node, q.excluded) {
          ExtendPrefix(NodeSteps(path, node, q), SafeSteps(rest, base, q), more);
        } else {
          EmptyRight(NodeSafeSteps(path, node, q));
          PrefixThen(NodeSafeSteps(path, node, q), NodeSteps(path, node, q), more);
        }
    }
  }

  lemma {:induction false} NodeSafeStepsFirst(path: Path, node: Node, q: Query)
    ensures NodeSafeSteps(path, node, q) <= NodeSteps(path, node, q)
    ensures NodeSafe(path, node, q.excluded) ==> NodeSafeSteps(path, node, q) == NodeSteps(path, node, q)
    decreases node, 0
  {
    match node {
      case Dir(children) =>
        SafeStepsFirst(children, path, q);
        ExtendPrefix([Visit(path, true)], SafeSteps(children, path, q), Steps(children, path, q));
      case File(_) =>
      case Unsafe =>
    }
  }

  /** How much of a listing is left: `seen` was taken, and whatever is unsafe is still to
      come. */
  predicate Remaining(listing: Listing, left: Listing, seen: seq<Step>, base: Path, q: Query) {
    && SafeSteps(listing, base, q) == seen + SafeSteps(left, base, q)
    && (Safe(left, base, true, q.excluded) <==> Safe(listing, base, true, q.excluded))
  }

  lemma FirstEntry(listing: Listing, base: Path, q: Query)
    ensures Remaining(listing, listing, [], base, q)
  {
    EmptyLeft(SafeSteps(listing, base, q));
  }

  lemma SkipEntry(listing: Listing, left: Listing, seen: seq<Step>, base: Path, q: Query)
    requires left.Entry? && Remaining(listing, left, seen, base, q)
    requires !Visible(base + [left.name], left.node, q.excluded)
    ensures Remaining(listing, left.rest, seen, base, q)
  {
  }

  /** What follows an entry: nothing, if the search fails there. */
  function AfterEntry(left: Listing, base: Path, q: Query): seq<Step>
    requires left.Entry?
  {
    if NodeSafe(base + [left.name], left.node, q.excluded) then SafeSteps(left.rest, base, q) else []
  }

  lemma NextEntry(listing: Listing, left: Listing, seen: seq<Step>, base: Path, q: Query)
    requires left.Entry? && Remaining(listing, left, seen, base, q)
    requires Visible(base + [left.name], left.node, q.excluded)
    ensures var path, node := base + [left.name], left.node;
            var steps, all := NodeSafeSteps(path, node, q), SafeSteps(listing, base, q);
            && all == seen + (steps + AfterEntry(left, base, q))
            && (!NodeSafe(path, node, q.excluded) ==> !Safe(listing, base, true, q.excluded) && all == seen + steps)
            && (NodeSafe(path, node, q.excluded) ==> Remaining(listing, left.rest, seen + steps, base, q))
  {
    var steps := NodeSafeSteps(base + [left.name], left.node, q);
    Regroup(seen, steps, AfterEntry(left, base, q));
    EmptyRight(steps);
  }

  lemma LastEntry(listing: Listing, seen: seq<Step>, base: Path, q: Query)
    requires Remaining(listing, End, seen, base, q)
    ensures SafeSteps(listing, base, q) == seen && Safe(listing, base, true, q.excluded)
  {
    EmptyRight(seen);
  }

  /** What a match adds to the output: its path and its clipped line in bytes, and 64. */
  function MatchCost(encoded: Path -> nat, encodedLine: string -> nat): Match -> nat {
    (m: Match) => var n: nat := encoded(m.path) + encodedLine(m.line) + 64; n
  }

  /** The output agrees with the steps taken, and the steps were allowed. */
  predicate Tallies(matches: seq<Match>, outputBytes: nat, taken: seq<Step>,
                    cost: Match -> nat, max: Limits, reach: nat) {
    && matches == Reported(taken) && outputBytes == Cost(matches, cost)
    && Allows(cost, max, reach)(taken)
    && forall m :: m in matches ==> |m.path| <= reach + 1
  }

  /** A match that fits, and one that does not. */
  lemma MatchFits(matches: seq<Match>, bytes: nat, taken: seq<Step>, m: Match,
                  cost: Match -> nat, max: Limits, reach: nat)
    requires Tallies(matches, bytes, taken, cost, max, reach) && |m.path| <= reach + 1
    ensures var rules, after := Allows(cost, max, reach), taken + [Report(m)];
            if |matches| >= max.matches.count || bytes + cost(m) > max.matches.bytes
            then Walked(taken, taken, true, [Report(m)], rules)
            else Walked(taken, after, false, [Report(m)], rules) && Visited(after) == Visited(taken)
                 && Tallies(matches + [m], bytes + cost(m), after, cost, max, reach)
  {
    WalkOne(taken, Report(m), Allows(cost, max, reach));
    OneMoreMatch(taken, m, cost, max, reach);
  }

  /** An entry within the limits, and one that is not. */
  lemma VisitFits(matches: seq<Match>, bytes: nat, taken: seq<Step>, path: Path, isDirectory: bool,
                  cost: Match -> nat, max: Limits, reach: nat)
    requires Tallies(matches, bytes, taken, cost, max, reach)
    ensures var rules, step := Allows(cost, max, reach), Visit(path, isDirectory);
            if Visited(taken) >= max.entries || (isDirectory && |path| > reach)
            then Walked(taken, taken, true, [step], rules)
            else Walked(taken, taken + [step], false, [step], rules) && Visited(taken + [step]) == Visited(taken) + 1
                 && Tallies(matches, bytes, taken + [step], cost, max, reach)
  {
    WalkOne(taken, Visit(path, isDirectory), Allows(cost, max, reach));
    OneMoreEntry(taken, path, isDirectory, cost, max, reach);
  }

  class Searcher {
    const q: Query
    const cost: Match -> nat
    const max: Limits
    const root: Path
    var matches: seq<Match>
    var truncated: bool
    var outputBytes: nat
    var entries: nat
    ghost var taken: seq<Step>

    /** `encoded` and `encodedLine` are lengths in bytes. */
    constructor (q: Query, encoded: Path -> nat, encodedLine: string -> nat, max: Limits, root: Path)
      ensures this.q == q && this.max == max && this.root == root
      ensures this.cost == MatchCost(encoded, encodedLine)
      ensures Valid() && taken == [] && !truncated
    {
      this.q := q;
      this.cost := MatchCost(encoded, encodedLine);
      this.max := max;
      this.root := root;
      this.matches := [];
      this.truncated := false;
      this.outputBytes := 0;
      this.entries := 0;
      this.taken := [];
    }

    function Reach(): nat { |root| + max.depth }

    ghost function Rules(): StepRule<Step> { Allows(cost, max, Reach()) }

    ghost predicate Valid()
      reads this
    {
      Tallies(matches, outputBytes, taken, cost, max, Reach()) && (!truncated ==> entries == Visited(taken))
    }

    /** Append a match, or mark the search truncated when it does not fit. */
    method Add(m: Match)
      requires Valid() && !truncated && |m.path| <= Reach() + 1
      modifies this
      ensures Valid() && Walked(old(taken), taken, truncated, [Report(m)], Rules())
    {
      MatchFits(matches, outputBytes, taken, m, cost, max, Reach());
      var estimated := cost(m);
      if |matches| >= max.matches.count || outputBytes + estimated > max.matches.bytes {
        truncated := true;
        return;
      }
      matches := matches + [m];
      outputBytes := outputBytes + estimated;
      taken := taken + [Report(m)];
    }

    /** The loop of `_search_file`. */
    method SearchLines(path: Path, lines: seq<string>)
      requires Valid() && !truncated && |path| <= Reach() + 1
      modifies this
      ensures Valid() && Walked(old(taken), taken, truncated, StepsFrom(path, lines, 0, q.needle), Rules())
    {
      ghost var before, seen := taken, [];
      WalkNothing(before, Rules());
      FirstLine(path, lines, q.needle);
      for i := 0 to |lines|
        invariant Valid() && !truncated
        invariant Walked(before, taken, false, seen, Rules())
        invariant LinesLeft(path, lines, i, seen, q.needle)
      {
        NextLine(path, lines, i, seen, q.needle);
        if !q.needle(lines[i]) { continue; }
        ghost var mid, hit := taken, LineSteps(path, lines, i, q.needle);
        Add(Match(path, i + 1, Clip(lines[i])));
        WalkStep(before, mid, taken, truncated, seen, hit, StepsFrom(path, lines, i + 1, q.needle),
          StepsFrom(path, lines, 0, q.needle), Rules());
        if truncated { return; }
        seen := seen + hit;
      }
      LastLine(path, lines, seen, q.needle);
    }

    /** `_search_file` */
    method SearchFile(path: Path, data: FileData)
      requires Valid() && !truncated && |path| <= Reach() + 1
      modifies this
      ensures Valid() && Walked(old(taken), taken, truncated, FileSteps(path, data, q), Rules())
    {
      WalkNothing(taken, Rules());
      if data.size > q.maxFile || data.text.None? { return; }
      SearchLines(path, data.text.value);
    }

    /** Count an entry, or mark the search truncated when there are too many or when a
        directory is too deep. */
    method VisitEntry(path: Path, isDirectory: bool, depth: nat)
      requires Valid() && !truncated && |path| == |root| + depth + 1
      modifies this
      ensures Valid() && Walked(old(taken), taken, truncated, [Visit(path, isDirectory)], Rules())
      ensures !truncated && isDirectory ==> |path| <= Reach()
    {
      VisitFits(matches, outputBytes, taken, path, isDirectory, cost, max, Reach());
      entries := entries + 1;
      if entries > max.entries {
        truncated := true;
        return;
      }
      if isDirectory && depth >= max.depth {
        truncated := true;
        return;
      }
      taken := taken + [Visit(path, isDirectory)];
    }

    /** A directory or file that was visited: search it. */
    method SearchInside(path: Path, node: Node, depth: nat) returns (ok: bool)
      requires Valid() && !truncated && !node.Unsafe? && |path| == |root| + depth + 1 <= Reach() + 1
      requires node.Dir? ==> |path| <= Reach()
      modifies this
      ensures Valid() && Walked(old(taken), taken, truncated, InsideSafeSteps(path, node, q), Rules())
      ensures ok <==> truncated || NodeSafe(path, node, q.excluded)
      decreases node, 0
    {
      match node {
        case Dir(children) => ok := SearchDirectory(children, path, depth + 1);
        case File(data) => SearchFile(path, data); ok := true;
      }
    }

    /** The part of `_search_directory` that handles one visible entry. */
    method SearchEntry(path: Path, node: Node, depth: nat) returns (ok: bool)
      requires Valid() && !truncated && |path| == |root| + depth + 1 <= Reach() + 1
      modifies this
      ensures Valid() && Walked(old(taken), taken, truncated, NodeSafeSteps(path, node, q), Rules())
      ensures ok <==> truncated || NodeSafe(path, node, q.excluded)
      decreases node, 1
    {
      ghost var before, visit, inside := taken, [Visit(path, node.Dir?)], InsideSafeSteps(path, node, q);
      WalkNothing(before, Rules());
      if node.Unsafe? { return false; }
      VisitEntry(path, node.Dir?, depth);
      ghost var visited := taken;
      WalkHead(before, visited, truncated, visit, inside, Rules());
      if truncated { return true; }
      ok := SearchInside(path, node, depth);
      WalkTail(before, visited, taken, truncated, visit, inside, Rules());
    }

    /** One visible entry in the middle of a directory. */
    method SearchNext(left: Listing, base: Path, depth: nat,
                      ghost listing: Listing, ghost before: seq<Step>, ghost seen: seq<Step>)
      returns (ok: bool, ghost now: seq<Step>)
      requires Valid() && !truncated && |base| == |root| + depth <= Reach()
      requires left.Entry? && Visible(base + [left.name], left.node, q.excluded)
      requires Walked(before, taken, false, seen, Rules())
      requires Remaining(listing, left, seen, base, q)
      modifies this
      ensures Valid()
      ensures ok && !truncated ==>
                && Walked(before, taken, false, now, Rules())
                && Remaining(listing, left.rest, now, base, q)
      ensures !ok || truncated ==> Walked(before, taken, truncated, SafeSteps(listing, base, q), Rules())
      ensures !ok ==> !truncated && !Safe(listing, base, true, q.excluded)
      decreases left.node, 2
    {
      var path, node := base + [left.name], left.node;
      ghost var mid, steps := taken, NodeSafeSteps(path, node, q);
      NextEntry(listing, left, seen, base, q);
      now := seen + steps;
      ok := SearchEntry(path, node, depth);
      WalkStep(before, mid, taken, truncated, seen, steps, AfterEntry(left, base, q),
        SafeSteps(listing, base, q), Rules());
    }

    /** `_search_directory`. It takes the steps of the unbounded search up to the first that
        is not allowed, and is then marked truncated, or up to the first visible unsafe
        entry, over which it then fails, whichever comes first. */
    method SearchDirectory(listing: Listing, base: Path, depth: nat) returns (ok: bool)
      requires Valid() && !truncated && |base| == |root| + depth <= Reach()
      modifies this
      ensures Valid() && Walked(old(taken), taken, truncated, SafeSteps(listing, base, q), Rules())
      ensures ok <==> truncated || Safe(listing, base, true, q.excluded)
      decreases listing, 1
    {
      ghost var before, seen := taken, [];
      var left := listing;
      WalkNothing(before, Rules());
      FirstEntry(listing, base, q);
      while left.Entry?
        invariant Valid() && !truncated
        invariant left == listing || left < listing
        invariant Walked(before, taken, false, seen, Rules())
        invariant Remaining(listing, left, seen, base, q)
        decreases left
      {
        if q.excluded(base + [left.name], left.node.Dir?) {
          SkipEntry(listing, left, seen, base, q);
        } else {
          ok, seen := SearchNext(left, base, depth, listing, before, seen);
          if !ok || truncated { return; }
        }
        left := left.rest;
      }
      LastEntry(listing, seen, base, q);
      return true;
    }
  }

  // ---- the search as matches, entries and depth ----

  /** How many entries the unbounded search visits. */
  function Visits(listing: Listing, base: Path, excluded: Exclusion): nat
    decreases listing, 1
  {
    match listing
    case End => 0
    case Entry(name, node, rest) =>
      (if Visible(base + [name], node, excluded) then NodeVisits(base + [name], node, excluded) else 0)
      + Visits(rest, base, excluded)
  }

  function NodeVisits(path: Path, node: Node, excluded: Exclusion): nat
    decreases node, 0
  {
    1 + if node.Dir? then Visits(node.children, path, excluded) else 0
  }

  predicate OnlyReports(steps: seq<Step>) {
    forall k :: 0 <= k < |steps| ==> steps[k].Report?
  }

  lemma {:induction false} ReportsVisitNothing(steps: seq<Step>, reach: nat)
    requires OnlyReports(steps)
    ensures Visited(steps) == 0 && VisitsWithin(steps, reach)
    decreases |steps|
  {
    if steps != [] { ReportsVisitNothing(steps[..|steps| - 1], reach); }
  }

  lemma {:induction false} LinesOnlyReport(path: Path, lines: seq<string>, i: nat, needle: Needle)
    requires i <= |lines|
    ensures OnlyReports(StepsFrom(path, lines, i, needle))
    decreases |lines| - i
  {
    if i < |lines| { LinesOnlyReport(path, lines, i + 1, needle); }
  }

  lemma FileVisitsNothing(path: Path, data: FileData, q: Query, reach: nat)
    ensures Visited(FileSteps(path, data, q)) == 0 && VisitsWithin(FileSteps(path, data, q), reach)
  {
    if data.text.Some? { LinesOnlyReport(path, data.text.value, 0, q.needle); }
    ReportsVisitNothing(FileSteps(path, data, q), reach);
  }

  /** The steps of a search visit as many entries as there are, and within reach exactly
      when no directory of the tree is too deep. */
  lemma {:induction false} StepsVisit(listing: Listing, base: Path, depth: nat, max: nat, q: Query, root: nat)
    requires |base| == root + depth
    ensures Visited(Steps(listing, base, q)) == Visits(listing, base, q.excluded)
    ensures VisitsWithin(Steps(listing, base, q), root + max) <==>
            !TooDeep(listing, base, depth, max, true, q.excluded)
    decreases listing, 1
  {
    match listing {
      case End =>
      case Entry(name, node, rest) =>
        StepsVisit(rest, base, depth, max, q, root);
        if Visible(base + [name], node, q.excluded) {
          NodeVisit(base + [name], node, depth, max, q, root);
          StepsConcat(NodeSteps(base + [name], node, q), Steps(rest, base, q));
          VisitsConcat(NodeSteps(base + [name], node, q), Steps(rest, base, q), root + max);
        } else {
          EmptyLeft(Steps(rest, base, q));
        }
    }
  }

  lemma {:induction false} NodeVisit(path: Path, node: Node, depth: nat, max: nat, q: Query, root: nat)
    requires |path| == root + depth + 1
    ensures Visited(NodeSteps(path, node, q)) == NodeVisits(path, node, q.excluded)
    ensures VisitsWithin(NodeSteps(path, node, q), root + max) <==>
            !(node.Dir? && (depth >= max || TooDeep(node.children, path, depth + 1, max, true, q.excluded)))
    decreases node, 0
  {
    var visit, inside := [Visit(path, node.Dir?)], InsideSteps(path, node, q);
    StepsOne(Visit(path, node.Dir?));
    StepsConcat(visit, inside);
    VisitsConcat(visit, inside, root + max);
    VisitReach(Visit(path, node.Dir?), root + max);
    match node {
      case Dir(children) => StepsVisit(children, path, depth + 1, max, q, root);
      case File(data) => FileVisitsNothing(path, data, q, root + max);
      case Unsafe =>
    }
  }

  lemma ReportedPrefix(part: seq<Step>, all: seq<Step>)
    requires part <= all
    ensures Reported(part) <= Reported(all)
  {
    assert all == part + all[|part|..];
    StepsConcat(part, all[|part|..]);
  }

  /** The unbounded search from the top, by its steps, its entries and its depth. */
  function WholeSearch(listing: Listing, path: Path, q: Query): seq<Step> { Steps(listing, path, q) }

  function WholeVisits(listing: Listing, path: Path, q: Query): nat { Visits(listing, path, q.excluded) }

  predicate ExceedsDepth(listing: Listing, path: Path, max: nat, q: Query) {
    TooDeep(listing, path, 0, max, true, q.excluded)
  }

  lemma WholeSearchIs(listing: Listing, path: Path, q: Query, max: nat)
    ensures Visited(WholeSearch(listing, path, q)) == WholeVisits(listing, path, q)
    ensures VisitsWithin(WholeSearch(listing, path, q), |path| + max) <==> !ExceedsDepth(listing, path, max, q)
  {
    StepsVisit(listing, path, 0, max, q, |path|);
  }

  /** The unbounded search from the top, up to the first visible unsafe entry. */
  function SafeSearch(listing: Listing, path: Path, q: Query): seq<Step> { SafeSteps(listing, path, q) }

  /** The search over: what was taken, of the part before anything unsafe and of the whole. */
  lemma EndOfWalk(taken: seq<Step>, truncated: bool, safe: seq<Step>, whole: seq<Step>,
                  cost: Match -> nat, max: Limits, reach: nat)
    requires Allows(cost, max, reach)([]) && safe <= whole
    requires Walked([], taken, truncated, safe, Allows(cost, max, reach))
    ensures truncated <==> !Allows(cost, max, reach)(safe)
    ensures truncated || safe == whole ==>
              Longest(taken, whole, Allows(cost, max, reach)) && (truncated <==> taken != whole)
  {
    AllowsShrinks(safe, cost, max, reach);
    AllowsShrinks(whole, cost, max, reach);
    WalkedPart(taken, truncated, safe, whole, Allows(cost, max, reach));
  }

  /** The whole search of a fresh searcher. */
  method SearchAll(searcher: Searcher, listing: Listing, path: Path) returns (ok: bool)
    requires searcher.Valid() && !searcher.truncated && searcher.taken == [] && searcher.root == path
    modifies searcher
    ensures searcher.Valid()
    ensures ok <==> Safe(listing, path, true, searcher.q.excluded) ||
                    !searcher.Rules()(SafeSearch(listing, path, searcher.q))
    ensures ok && !searcher.truncated ==> Safe(listing, path, true, searcher.q.excluded)
    ensures ok ==> Longest(searcher.taken, WholeSearch(listing, path, searcher.q), searcher.Rules())
    ensures ok ==> (searcher.truncated <==> searcher.taken != WholeSearch(listing, path, searcher.q))
  {
    ok := searcher.SearchDirectory(listing, path, 0);
    SafeStepsFirst(listing, path, searcher.q);
    EndOfWalk(searcher.taken, searcher.truncated, SafeSearch(listing, path, searcher.q),
      WholeSearch(listing, path, searcher.q), searcher.cost, searcher.max, searcher.Reach());
  }

  datatype SearchResult = ExcludedPath | UnsafePath | Found(matches: seq<Match>, truncated: bool)

  /** `search_text` on a directory that was opened as `listing`. The matches are those of
      `part`, the longest part of the unbounded search within the match, byte, entry and
      depth budgets; no match lies deeper than one component below the depth limit; the
      result is truncated exactly when `part` is not the whole search; and it fails exactly
      when a visible entry is unsafe and everything before the first such is within the
      budgets. */
  method SearchText(listing: Listing, path: Path, q: Query,
                    encoded: Path -> nat, encodedLine: string -> nat, max: Limits)
    returns (r: SearchResult, ghost part: seq<Step>)
    ensures r.ExcludedPath? <==> q.excluded(path, true)
    ensures r.UnsafePath? <==>
              && !q.excluded(path, true) && !Safe(listing, path, true, q.excluded)
              && Allows(MatchCost(encoded, encodedLine), max, |path| + max.depth)(SafeSearch(listing, path, q))
    ensures var whole := WholeSearch(listing, path, q);
            r.Found? ==>
              && r.matches == Reported(part)
              && Longest(part, whole, Allows(MatchCost(encoded, encodedLine), max, |path| + max.depth))
              && (r.truncated <==> part != whole)
              && (forall m :: m in r.matches ==> |m.path| <= |path| + max.depth + 1)
              && (!r.truncated ==> Safe(listing, path, true, q.excluded))
  {
    part := [];
    if q.excluded(path, true) { return ExcludedPath, part; }
    var searcher := new Searcher(q, encoded, encodedLine, max, path);
    var ok := SearchAll(searcher, listing, path);
    if !ok { return UnsafePath, part; }
    return Found(searcher.matches, searcher.truncated), searcher.taken;
  }

  lemma LongestReports(part: seq<Step>, search: seq<Step>, cost: Match -> nat, max: Limits, reach: nat)
    requires Longest(part, search, Allows(cost, max, reach))
    ensures Reported(part) <= Reported(search) && Within(Reported(part), cost, max.matches)
    ensures part != search <==>
            !Within(Reported(search), cost, max.matches) || Visited(search) > max.entries
            || !VisitsWithin(search, reach)
  {
    ReportedPrefix(part, search);
    assert search[..|search|] == search;
  }

  /** What the longest part means for matches: a prefix of those of the unbounded search
      within the budget, and all of them exactly when they are within the budget, the
      search visits few enough entries and no directory is too deep. */
  lemma SearchIsBest(part: seq<Step>, listing: Listing, path: Path, q: Query, cost: Match -> nat, max: Limits)
    requires Longest(part, WholeSearch(listing, path, q), Allows(cost, max, |path| + max.depth))
    ensures var all := Reported(WholeSearch(listing, path, q));
            && Reported(part) <= all && Within(Reported(part), cost, max.matches)
            && (part == WholeSearch(listing, path, q) <==>
                 && Within(all, cost, max.matches)
                 && WholeVisits(listing, path, q) <= max.entries
                 && !ExceedsDepth(listing, path, max.depth, q))
  {
    WholeSearchIs(listing, path, q, max.depth);
    LongestReports(part, WholeSearch(listing, path, q), cost, max, |path| + max.depth);
  }
}
