/** `WorkspaceEditor.build_diff` for one changed file (src/ulg/workspace/editor.py),
    over any alignment that `difflib.unified_diff` may choose. */
module DiffPrinter {
  import opened Text
  import opened Patches
  import opened DiffParser

  const MARKER_LINE: Line := NO_NEWLINE + "\n"

  // ---- alignments ----

  datatype Tag = Equal | Replace | Drop | Add

  /** `old[i1..i2]` stands against `new[j1..j2]`. */
  datatype Opcode = Opcode(tag: Tag, i1: nat, i2: nat, j1: nat, j2: nat)

  type Group = seq<Opcode>

  predicate ValidOpcode(before: seq<Line>, after: seq<Line>, c: Opcode) {
    && c.i1 <= c.i2 <= |before| && c.j1 <= c.j2 <= |after|
    && match c.tag
       case Equal => before[c.i1..c.i2] == after[c.j1..c.j2]
       case Replace => true
       case Drop => c.j1 == c.j2
       case Add => c.i1 == c.i2
  }

  /** Consecutive opcodes from position `i` of the old text and `j` of the new. */
  predicate Chained(before: seq<Line>, after: seq<Line>, group: Group, i: nat, j: nat) {
    group == [] ||
    var c := group[0];
    c.i1 == i && c.j1 == j && ValidOpcode(before, after, c) && Chained(before, after, group[1..], c.i2, c.j2)
  }

  /** The lines of a group, as `unified_diff` lists them. */
  function GroupLines(before: seq<Line>, after: seq<Line>, group: Group): seq<HunkLine>
    requires forall k :: 0 <= k < |group| ==> ValidOpcode(before, after, group[k])
  {
    if group == [] then [] else
      var c := group[0];
      assert ValidOpcode(before, after, group[0]);
      (if c.tag == Equal then Lines(Context, before[c.i1..c.i2])
       else Lines(Delete, before[c.i1..c.i2]) + Lines(Insert, after[c.j1..c.j2]))
      + GroupLines(before, after, group[1..])
  }

  function Lines(op: Op, contents: seq<Line>): (r: seq<HunkLine>)
    ensures |r| == |contents|
  {
    if contents == [] then [] else [HunkLine(op, contents[0])] + Lines(op, contents[1..])
  }

  /** A valid alignment cut into groups: each group a chain of opcodes with some
      line in it, equal text before, between and after the groups. */
  predicate ValidGroups(before: seq<Line>, after: seq<Line>, groups: seq<Group>, i: nat, j: nat)
    decreases |groups|
  {
    && i <= |before| && j <= |after|
    && if groups == [] then before[i..] == after[j..] else
       var g := groups[0];
       && g != []
       && var (i1, j1) := (g[0].i1, g[0].j1);
       && i <= i1 <= |before| && j <= j1 <= |after|
       && before[i..i1] == after[j..j1]
       && Chained(before, after, g, i1, j1)
       && (exists k :: 0 <= k < |g| && (g[k].i1 < g[k].i2 || g[k].j1 < g[k].j2))
       && var last := g[|g| - 1];
       && ValidGroups(before, after, groups[1..], last.i2, last.j2)
  }

  /** `_format_range_unified`: where a range begins, counting from one, or from the
      line before it when it is empty. */
  function Beginning(start: nat, stop: nat): nat {
    if start == stop then start else start + 1
  }

  lemma {:induction false} ChainValid(before: seq<Line>, after: seq<Line>, group: Group, i: nat, j: nat)
    requires Chained(before, after, group, i, j)
    ensures forall k :: 0 <= k < |group| ==> ValidOpcode(before, after, group[k])
    ensures group != [] ==> i <= group[|group| - 1].i2 && j <= group[|group| - 1].j2
  {
    if group != [] {
      ChainValid(before, after, group[1..], group[0].i2, group[0].j2);
      assert forall k :: 1 <= k < |group| ==> group[k] == group[1..][k - 1];
    }
  }

  function HunkOf(before: seq<Line>, after: seq<Line>, group: Group): Hunk
    requires group != [] && Chained(before, after, group, group[0].i1, group[0].j1)
  {
    ChainValid(before, after, group, group[0].i1, group[0].j1);
    var first, last := group[0], group[|group| - 1];
    Hunk(Beginning(first.i1, last.i2), last.i2 - first.i1,
         Beginning(first.j1, last.j2), last.j2 - first.j1,
         GroupLines(before, after, group))
  }

  function HunksOf(before: seq<Line>, after: seq<Line>, groups: seq<Group>, i: nat, j: nat): (r: seq<Hunk>)
    requires ValidGroups(before, after, groups, i, j)
    ensures |r| == |groups|
    decreases |groups|
  {
    if groups == [] then [] else
      var g := groups[0];
      var last := g[|g| - 1];
      [HunkOf(before, after, g)] + HunksOf(before, after, groups[1..], last.i2, last.j2)
  }

  // ---- printing ----

  function FormatRange(start: nat, count: nat): string {
    if count == 1 then Numeral(start) else Numeral(start) + "," + Numeral(count)
  }

  function HunkHeader(h: Hunk): Line {
    "@@ -" + FormatRange(h.oldStart, h.oldCount) + " +" + FormatRange(h.newStart, h.newCount) + " @@\n"
  }

  function OpChar(op: Op): char {
    match op case Context => ' ' case Insert => '+' case Delete => '-'
  }

  function OldName(p: FilePatch): string {
    if p.operation == Create then DEV_NULL else "a/" + p.path
  }

  function NewName(p: FilePatch): string {
    if p.operation == Remove then DEV_NULL else "b/" + p.path
  }

  /** What `unified_diff` yields for a file with these hunks. */
  function RawLines(p: FilePatch): seq<string> {
    if p.hunks == [] then [] else
      [OLD_HEADER + OldName(p) + "\n", NEW_HEADER + NewName(p) + "\n"] + RawHunks(p.hunks)
  }

  function RawHunks(hunks: seq<Hunk>): seq<string> {
    if hunks == [] then [] else [HunkHeader(hunks[0])] + RawBody(hunks[0].lines) + RawHunks(hunks[1..])
  }

  function RawBody(lines: seq<HunkLine>): seq<string> {
    if lines == [] then [] else [[OpChar(lines[0].op)] + lines[0].content] + RawBody(lines[1..])
  }

  predicate IsDataLine(raw: string) {
    raw != "" && raw[0] in {'+', '-', ' '} && !(NEW_HEADER <= raw) && !(OLD_HEADER <= raw)
  }

  /** What `build_diff` emits for one raw line. */
  function Emit(raw: string): seq<string> {
    if IsDataLine(raw) && !Terminated(raw) then [raw + "\n", MARKER_LINE] else [raw]
  }

  function EmitAll(raws: seq<string>): seq<string> {
    if raws == [] then [] else Emit(raws[0]) + EmitAll(raws[1..])
  }

  /** The emission loop of `build_diff`. */
  method EmitLines(raws: seq<string>, output: seq<string>) returns (r: seq<string>)
    ensures r == output + EmitAll(raws)
  {
    r := output;
    for k := 0 to |raws|
      invariant r + EmitAll(raws[k..]) == output + EmitAll(raws)
    {
      assert raws[k..][0] == raws[k] && raws[k..][1..] == raws[k + 1..];
      var line := raws[k];
      if IsDataLine(line) && !Terminated(line) {
        r := r + [line + "\n"];
        r := r + [MARKER_LINE];
      } else {
        r := r + [line];
      }
    }
  }
}
