/** Parsed unified diffs and their application (src/ulg/workspace/patches.py). */
module Patches {
  import opened Wrappers
  import opened Text

  datatype Op = Context | Insert | Delete

  datatype HunkLine = HunkLine(op: Op, content: string)

  datatype Hunk = Hunk(oldStart: nat, oldCount: nat, newStart: nat, newCount: nat, lines: seq<HunkLine>)

  datatype Operation = Create | Update | Remove

  datatype FilePatch = FilePatch(path: string, operation: Operation, hunks: seq<Hunk>)

  datatype ApplyError =
    | TargetExists
    | TargetMissing
    | OverlappingOrOutOfRange
    | NewPositionMismatch
    | ContextMismatch
    | LeavesContentBehind

  /** Zero-based line index in the old text at which a hunk starts. */
  function OldPos(h: Hunk): int {
    if h.oldCount == 0 then h.oldStart else h.oldStart - 1
  }

  /** Zero-based line index in the new text at which a hunk starts. */
  function NewPos(h: Hunk): int {
    if h.newCount == 0 then h.newStart else h.newStart - 1
  }

  /** The lines a hunk consumes. */
  function OldSide(lines: seq<HunkLine>): seq<Line> {
    if lines == [] then [] else
      (if lines[0].op == Insert then [] else [lines[0].content]) + OldSide(lines[1..])
  }

  /** The lines a hunk produces. */
  function NewSide(lines: seq<HunkLine>): seq<Line> {
    if lines == [] then [] else
      (if lines[0].op == Delete then [] else [lines[0].content]) + NewSide(lines[1..])
  }

  /** Declared counts agree with the body: what `_validate_hunk_counts` checks. */
  predicate CountsMatch(h: Hunk) {
    |OldSide(h.lines)| == h.oldCount && |NewSide(h.lines)| == h.newCount
  }

  /** Right-to-left replacement: each hunk's old range becomes its new side. A
      reference definition with no cursor and no output position. */
  function Splice(source: seq<Line>, hunks: seq<Hunk>): seq<Line>
    decreases |hunks|
  {
    if hunks == [] then source else
      var last := hunks[|hunks| - 1];
      var p, e := OldPos(last), OldPos(last) + |OldSide(last.lines)|;
      if 0 <= p && e <= |source| then
        Splice(source[..p], hunks[..|hunks| - 1]) + NewSide(last.lines) + source[e..]
      else []
  }

  /** How far earlier hunks shift the lines that follow them. */
  function Shift(hunks: seq<Hunk>): int {
    if hunks == [] then 0 else
      var last := hunks[|hunks| - 1];
      Shift(hunks[..|hunks| - 1]) + |NewSide(last.lines)| - |OldSide(last.lines)|
  }

  ghost function OldEnd(hunks: seq<Hunk>): int {
    if hunks == [] then 0 else
      OldPos(hunks[|hunks| - 1]) + |OldSide(hunks[|hunks| - 1].lines)|
  }

  /** A hunk lies after `from`, in range, and its old side is what the source has. */
  ghost predicate Matches(source: seq<Line>, h: Hunk, from: int) {
    && 0 <= from <= OldPos(h)
    && OldPos(h) + |OldSide(h.lines)| <= |source|
    && source[OldPos(h)..OldPos(h) + |OldSide(h.lines)|] == OldSide(h.lines)
  }

  /** The hunks are ordered, disjoint and in range, match the source, and each new
      position is its old position shifted by the earlier count differences. */
  ghost predicate Applicable(source: seq<Line>, hunks: seq<Hunk>)
    decreases |hunks|
  {
    hunks == [] ||
    var n := |hunks| - 1;
    && Applicable(source, hunks[..n])
    && Matches(source, hunks[n], OldEnd(hunks[..n]))
    && NewPos(hunks[n]) == OldPos(hunks[n]) + Shift(hunks[..n])
  }

  /** Whether a file patch may be applied to this target at all. */
  predicate TargetFits(operation: Operation, source: Option<string>) {
    (operation == Create) == source.None?
  }

  // ---- a functional reading of the cursor machine ----

  datatype Cursor = Cursor(at: nat, output: seq<Line>)

  function ApplyBody(source: seq<Line>, lines: seq<HunkLine>, c: Cursor): Result<Cursor, ApplyError> {
    if lines == [] then Success(c) else
      var line := lines[0];
      if line.op == Insert then
        ApplyBody(source, lines[1..], c.(output := c.output + [line.content]))
      else if c.at >= |source| || source[c.at] != line.content then Failure(ContextMismatch)
      else
        ApplyBody(source, lines[1..],
          Cursor(c.at + 1, if line.op == Context then c.output + [line.content] else c.output))
  }

  function ApplyHunk(source: seq<Line>, h: Hunk, c: Cursor): Result<Cursor, ApplyError>
    requires c.at <= |source|
  {
    var start := OldPos(h);
    if start < c.at || start > |source| then Failure(OverlappingOrOutOfRange) else
      var output := c.output + source[c.at..start];
      if |output| != NewPos(h) then Failure(NewPositionMismatch)
      else ApplyBody(source, h.lines, Cursor(start, output))
  }

  /** `xs` is what the source holds from index `at` on. */
  ghost predicate Holds(source: seq<Line>, at: nat, xs: seq<Line>) {
    at + |xs| <= |source| && source[at..at + |xs|] == xs
  }

  lemma HoldsCons(source: seq<Line>, at: nat, x: Line, xs: seq<Line>)
    ensures Holds(source, at, [x] + xs)
        <==> at < |source| && source[at] == x && Holds(source, at + 1, xs)
  {
    if at + 1 + |xs| <= |source| {
      assert source[at..at + 1 + |xs|] == [source[at]] + source[at + 1..at + 1 + |xs|];
      assert ([x] + xs)[0] == x && ([x] + xs)[1..] == xs;
    }
  }

  /** Take these lines from the cursor and put those in their place. */
  ghost function Exchanged(source: seq<Line>, taken: seq<Line>, put: seq<Line>, c: Cursor): Result<Cursor, ApplyError> {
    if Holds(source, c.at, taken) then Success(Cursor(c.at + |taken|, c.output + put)) else Failure(ContextMismatch)
  }

  /** What `ApplyBody` comes to. */
  ghost function BodyResult(source: seq<Line>, lines: seq<HunkLine>, c: Cursor): Result<Cursor, ApplyError> {
    Exchanged(source, OldSide(lines), NewSide(lines), c)
  }

  lemma ExchangeOne(source: seq<Line>, x: Line, taken: seq<Line>, put: seq<Line>, c: Cursor, kept: bool)
    ensures Exchanged(source, [x] + taken, if kept then [x] + put else put, c) ==
            if c.at < |source| && source[c.at] == x
            then Exchanged(source, taken, put, Cursor(c.at + 1, if kept then c.output + [x] else c.output))
            else Failure(ContextMismatch)
  {
    HoldsCons(source, c.at, x, taken);
    ConcatAssoc(c.output, [x], put);
  }

  lemma SidesCons(line: HunkLine, rest: seq<HunkLine>)
    ensures OldSide([line] + rest) == if line.op == Insert then OldSide(rest) else [line.content] + OldSide(rest)
    ensures NewSide([line] + rest) == if line.op == Delete then NewSide(rest) else [line.content] + NewSide(rest)
  {
    assert ([line] + rest)[0] == line && ([line] + rest)[1..] == rest;
    assert [] + OldSide(rest) == OldSide(rest);
    assert [] + NewSide(rest) == NewSide(rest);
  }

  lemma InsertResult(source: seq<Line>, line: HunkLine, rest: seq<HunkLine>, c: Cursor)
    requires line.op == Insert
    ensures BodyResult(source, [line] + rest, c) == BodyResult(source, rest, c.(output := c.output + [line.content]))
  {
    SidesCons(line, rest);
    ConcatAssoc(c.output, [line.content], NewSide(rest));
  }

  lemma KeptResult(source: seq<Line>, line: HunkLine, rest: seq<HunkLine>, c: Cursor)
    requires line.op != Insert
    ensures BodyResult(source, [line] + rest, c) ==
            if c.at < |source| && source[c.at] == line.content
            then BodyResult(source, rest,
                   Cursor(c.at + 1, if line.op == Context then c.output + [line.content] else c.output))
            else Failure(ContextMismatch)
  {
    SidesCons(line, rest);
    ExchangeOne(source, line.content, OldSide(rest), NewSide(rest), c, line.op == Context);
  }

  lemma {:induction false} ApplyBodyIs(source: seq<Line>, lines: seq<HunkLine>, c: Cursor)
    requires c.at <= |source|
    ensures ApplyBody(source, lines, c) ==
            if Holds(source, c.at, OldSide(lines))
            then Success(Cursor(c.at + |OldSide(lines)|, c.output + NewSide(lines)))
            else Failure(ContextMismatch)
  {
    if lines == [] {
      assert c.output + [] == c.output;
    } else {
      var line, rest := lines[0], lines[1..];
      assert lines == [line] + rest;
      if line.op == Insert {
        InsertResult(source, line, rest, c);
        ApplyBodyIs(source, rest, c.(output := c.output + [line.content]));
      } else {
        KeptResult(source, line, rest, c);
        if c.at < |source| && source[c.at] == line.content {
          ApplyBodyIs(source, rest,
            Cursor(c.at + 1, if line.op == Context then c.output + [line.content] else c.output));
        }
      }
    }
  }

  function ApplyHunks(source: seq<Line>, hunks: seq<Hunk>, c: Cursor): (r: Result<Cursor, ApplyError>)
    requires c.at <= |source|
    ensures r.Success? ==> r.value.at <= |source|
  {
    if hunks == [] then Success(c) else
      var next := ApplyHunk(source, hunks[0], c);
      ApplyBodyStays(source, hunks[0], c);
      if next.Failure? then next else ApplyHunks(source, hunks[1..], next.value)
  }

  lemma ApplyBodyStays(source: seq<Line>, h: Hunk, c: Cursor)
    requires c.at <= |source|
    ensures ApplyHunk(source, h, c).Success? ==> ApplyHunk(source, h, c).value.at <= |source|
  {
    var start := OldPos(h);
    if c.at <= start <= |source| {
      ApplyBodyIs(source, h.lines, Cursor(start, c.output + source[c.at..start]));
    }
  }

  function ApplyLines(source: seq<Line>, hunks: seq<Hunk>): Result<seq<Line>, ApplyError> {
    match ApplyHunks(source, hunks, Cursor(0, []))
    case Failure(e) => Failure(e)
    case Success(c) => Success(c.output + source[c.at..])
  }

  /** The lines `apply` works on: an absent file has none. */
  function LinesOf(file: Option<string>): seq<Line> {
    if file.None? then [] else SplitLines(file.value)
  }

  /** `FilePatch.apply` as a function of its inputs. */
  function Applied(patch: FilePatch, source: Option<string>): Result<Option<string>, ApplyError> {
    if patch.operation == Create && source.Some? then Failure(TargetExists)
    else if patch.operation != Create && source.None? then Failure(TargetMissing)
    else
      match ApplyLines(LinesOf(source), patch.hunks)
      case Failure(e) => Failure(e)
      case Success(lines) =>
        if patch.operation != Remove then Success(Some(Join(lines)))
        else if Join(lines) != "" then Failure(LeavesContentBehind)
        else Success(None)
  }

  /** The inner loop of `FilePatch.apply`: run one hunk body from the cursor. */
  method RunHunkBody(source: seq<Line>, lines: seq<HunkLine>, c: Cursor)
    returns (r: Result<Cursor, ApplyError>)
    ensures r == ApplyBody(source, lines, c)
  {
    var cursor: nat, output := c.at, c.output;
    for k := 0 to |lines|
      invariant ApplyBody(source, lines, c) == ApplyBody(source, lines[k..], Cursor(cursor, output))
    {
      var line := lines[k];
      assert lines[k..][0] == line && lines[k..][1..] == lines[k + 1..];
      if line.op == Insert {
        output := output + [line.content];
      } else {
        if cursor >= |source| || source[cursor] != line.content {
          return Failure(ContextMismatch);
        }
        if line.op == Context {
          output := output + [line.content];
        }
        cursor := cursor + 1;
      }
    }
    return Success(Cursor(cursor, output));
  }

  /** `FilePatch.apply`: the cursor machine. */
  method ApplyPatch(patch: FilePatch, source: Option<string>) returns (r: Result<Option<string>, ApplyError>)
    ensures r == Applied(patch, source)
  {
    if patch.operation == Create && source.Some? { return Failure(TargetExists); }
    if patch.operation != Create && source.None? { return Failure(TargetMissing); }
    var sourceLines := if source.None? then [] else SplitLines(source.value);
    var output: seq<Line> := [];
    var cursor: nat := 0;
    for i := 0 to |patch.hunks|
      invariant cursor <= |sourceLines|
      invariant ApplyHunks(sourceLines, patch.hunks, Cursor(0, []))
             == ApplyHunks(sourceLines, patch.hunks[i..], Cursor(cursor, output))
    {
      var hunk := patch.hunks[i];
      assert patch.hunks[i..][0] == hunk && patch.hunks[i..][1..] == patch.hunks[i + 1..];
      ApplyBodyStays(sourceLines, hunk, Cursor(cursor, output));
      var start := if hunk.oldCount == 0 then hunk.oldStart else hunk.oldStart - 1;
      if start < cursor || start > |sourceLines| { return Failure(OverlappingOrOutOfRange); }
      output := output + sourceLines[cursor..start];
      var expectedNewStart := if hunk.newCount == 0 then hunk.newStart else hunk.newStart - 1;
      if |output| != expectedNewStart { return Failure(NewPositionMismatch); }
      var ran := RunHunkBody(sourceLines, hunk.lines, Cursor(start, output));
      if ran.Failure? { return Failure(ran.error); }
      cursor, output := ran.value.at, ran.value.output;
    }
    output := output + sourceLines[cursor..];
    var result := Join(output);
    if patch.operation == Remove {
      if result != "" { return Failure(LeavesContentBehind); }
      return Success(None);
    }
    return Success(Some(result));
  }
}
