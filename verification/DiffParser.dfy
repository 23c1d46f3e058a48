/** `parse_unified_diff` (src/ulg/workspace/patches.py). */
module DiffParser {
  import opened Wrappers
  import opened Text
  import opened Paths
  import opened Patches

  /** Every way parsing can stop. All are `PatchError`s except `MarkerAfterEmptyHunk`,
      where the code indexes an empty list and an `IndexError` escapes. */
  datatype ParseError =
    | EmptyPatch
    | ExpectedOldHeader
    | ExpectedNewHeader
    | BadHeaderPath
    | BadPrefix
    | RenameUnsupported
    | PathEscapes
    | PathNamesNoFile
    | DuplicateFile
    | ExpectedHunkHeader
    | HunkEndedEarly
    | MarkerBeforeLine
    | InvalidHunkLine
    | MoreLinesThanDeclared
    | CountMismatch
    | NoHunks
    | CreateConsumesLines
    | DeleteProducesLines
    | MarkerAfterEmptyHunk

  const OLD_HEADER := "--- "
  const NEW_HEADER := "+++ "
  const NO_NEWLINE := "\\ No newline at end of file"
  const DEV_NULL := "/dev/null"

  predicate IsOldHeader(line: Line) { OLD_HEADER <= line }
  predicate IsNewHeader(line: Line) { NEW_HEADER <= line }
  predicate IsMarker(line: Line) { NO_NEWLINE <= line }

  // ---- headers ----

  predicate HasControl(s: string) {
    exists i :: 0 <= i < |s| && s[i] < ' '
  }

  /** `_header_path` */
  function HeaderPath(line: Line, prefix: string): Result<string, ParseError>
    requires prefix <= line
  {
    var value := RemoveNewline(line[|prefix|..]);
    if value == "" || HasControl(value) then Failure(BadHeaderPath) else Success(value)
  }

  function NormalPath(path: string): Result<string, ParseError> {
    match RelativeParts(path)
    case Failure(_) => Failure(PathEscapes)
    case Success(parts) => if parts == [] then Failure(PathNamesNoFile) else Success(JoinSlash(parts))
  }

  /** `_normalize_file_paths` */
  function NormalizeFilePaths(oldPath: string, newPath: string): Result<(string, Operation), ParseError> {
    if oldPath == DEV_NULL then
      if !("b/" <= newPath) then Failure(BadPrefix) else WithOperation(newPath[2..], Create)
    else if newPath == DEV_NULL then
      if !("a/" <= oldPath) then Failure(BadPrefix) else WithOperation(oldPath[2..], Remove)
    else if !("a/" <= oldPath) || !("b/" <= newPath) then Failure(BadPrefix)
    else if oldPath[2..] != newPath[2..] then Failure(RenameUnsupported)
    else WithOperation(newPath[2..], Update)
  }

  function WithOperation(path: string, operation: Operation): Result<(string, Operation), ParseError> {
    match NormalPath(path)
    case Failure(e) => Failure(e)
    case Success(normal) => Success((normal, operation))
  }

  datatype Range = Range(start: nat, count: nat)

  /** `(\d+)(?:,(\d+))?` at the front of `s`, with what follows it. */
  function ReadRange(s: string): Option<(Range, string)> {
    var n := DigitSpan(s);
    if n == 0 then None else
      var start := NumeralValue(s[..n]);
      var rest := s[n..];
      if !("," <= rest) then Some((Range(start, 1), rest)) else
        var m := DigitSpan(rest[1..]);
        if m == 0 then None
        else Some((Range(start, NumeralValue(rest[1..][..m])), rest[1..][m..]))
  }

  function After(prefix: string, s: string): Option<string> {
    if prefix <= s then Some(s[|prefix|..]) else None
  }

  /** `_HUNK_HEADER` on one line: `@@ -a[,b] +c[,d] @@`, an optional comment after a
      space, an optional newline. The numbers only; the body comes later. */
  function ReadHunkHeader(line: Line): Option<(Range, Range)> {
    match After("@@ -", RemoveNewline(line))
    case None => None
    case Some(s0) =>
    match ReadRange(s0)
    case None => None
    case Some((a, s1)) =>
    match After(" +", s1)
    case None => None
    case Some(s2) =>
    match ReadRange(s2)
    case None => None
    case Some((b, s3)) =>
    match After(" @@", s3)
    case None => None
    case Some(s4) => if s4 == "" || s4[0] == ' ' then Some((a, b)) else None
  }

  // ---- hunk bodies ----

  function OpOf(c: char): Option<Op> {
    if c == ' ' then Some(Context) else if c == '+' then Some(Insert)
    else if c == '-' then Some(Delete) else None
  }

  /** Back-patching: the last hunk line loses its newline. */
  function StripLast(lines: seq<HunkLine>): (r: seq<HunkLine>)
    requires lines != []
    ensures |r| == |lines|
  {
    var last := lines[|lines| - 1];
    lines[..|lines| - 1] + [last.(content := RemoveNewline(last.content))]
  }

  datatype Body = Body(lines: seq<HunkLine>, seenOld: nat, seenNew: nat)

  const EMPTY_BODY := Body([], 0, 0)

  function Push(b: Body, op: Op, content: string): Body {
    Body(b.lines + [HunkLine(op, content)],
         b.seenOld + (if op == Insert then 0 else 1),
         b.seenNew + (if op == Delete then 0 else 1))
  }

  /** The innermost loop, on the lines not yet read. */
  function ReadBody(rest: seq<Line>, oldCount: nat, newCount: nat, b: Body)
    : (r: Result<(Body, seq<Line>), ParseError>)
    ensures r.Success? ==> |r.value.1| <= |rest|
    decreases |rest|
  {
    if b.seenOld >= oldCount && b.seenNew >= newCount then Success((b, rest))
    else if rest == [] then Failure(HunkEndedEarly)
    else if IsMarker(rest[0]) then
      if b.lines == [] then Failure(MarkerBeforeLine)
      else ReadBody(rest[1..], oldCount, newCount, b.(lines := StripLast(b.lines)))
    else if rest[0] == "" || OpOf(rest[0][0]).None? then Failure(InvalidHunkLine)
    else
      var next := Push(b, OpOf(rest[0][0]).value, rest[0][1..]);
      if next.seenOld > oldCount || next.seenNew > newCount then Failure(MoreLinesThanDeclared)
      else ReadBody(rest[1..], oldCount, newCount, next)
  }

  /** The optional marker after a complete body. */
  function ReadTrailingMarker(b: Body, rest: seq<Line>): (r: Result<(seq<HunkLine>, seq<Line>), ParseError>)
    ensures r.Success? ==> |r.value.1| <= |rest|
  {
    if rest == [] || !IsMarker(rest[0]) then Success((b.lines, rest))
    else if b.lines == [] then Failure(MarkerAfterEmptyHunk)
    else Success((StripLast(b.lines), rest[1..]))
  }

  /** A hunk's header, body, trailing marker and count check. */
  function ReadHunk(rest: seq<Line>): (r: Result<(Hunk, seq<Line>), ParseError>)
    requires rest != []
    ensures r.Success? ==> |r.value.1| < |rest|
  {
    match ReadHunkHeader(rest[0])
    case None => Failure(ExpectedHunkHeader)
    case Some((a, c)) =>
    match ReadBody(rest[1..], a.count, c.count, EMPTY_BODY)
    case Failure(e) => Failure(e)
    case Success((b, rest1)) =>
    match ReadTrailingMarker(b, rest1)
    case Failure(e) => Failure(e)
    case Success((lines, rest2)) =>
      var h := Hunk(a.start, a.count, c.start, c.count, lines);
      if !CountsMatch(h) then Failure(CountMismatch) else Success((h, rest2))
  }

  /** The middle loop: hunks up to the next file header. */
  function ReadHunks(rest: seq<Line>, hunks: seq<Hunk>): (r: Result<(seq<Hunk>, seq<Line>), ParseError>)
    ensures r.Success? ==> |r.value.1| <= |rest|
    decreases |rest|
  {
    if rest == [] || IsOldHeader(rest[0]) then Success((hunks, rest)) else
      match ReadHunk(rest)
      case Failure(e) => Failure(e)
      case Success((h, rest1)) => ReadHunks(rest1, hunks + [h])
  }

  function CheckHunks(path: string, operation: Operation, hunks: seq<Hunk>): Result<FilePatch, ParseError> {
    if hunks == [] then Failure(NoHunks)
    else if operation == Create && exists i :: 0 <= i < |hunks| && hunks[i].oldCount != 0
      then Failure(CreateConsumesLines)
    else if operation == Remove && exists i :: 0 <= i < |hunks| && hunks[i].newCount != 0
      then Failure(DeleteProducesLines)
    else Success(FilePatch(path, operation, hunks))
  }

  /** The two header lines of a file. */
  function ReadHeaders(rest: seq<Line>): (r: Result<(string, Operation), ParseError>)
    requires rest != []
    ensures r.Success? ==> |rest| >= 2
  {
    if !IsOldHeader(rest[0]) then Failure(ExpectedOldHeader)
    else if |rest| < 2 || !IsNewHeader(rest[1]) then Failure(ExpectedNewHeader)
    else
      match HeaderPath(rest[0], OLD_HEADER)
      case Failure(e) => Failure(e)
      case Success(oldPath) =>
      match HeaderPath(rest[1], NEW_HEADER)
      case Failure(e) => Failure(e)
      case Success(newPath) => NormalizeFilePaths(oldPath, newPath)
  }

  /** One file: headers, then hunks. */
  function ReadFile(rest: seq<Line>, seen: set<string>): (r: Result<(FilePatch, seq<Line>), ParseError>)
    requires rest != []
    ensures r.Success? ==> |r.value.1| < |rest|
  {
    match ReadHeaders(rest)
    case Failure(e) => Failure(e)
    case Success((path, operation)) =>
    if path in seen then Failure(DuplicateFile) else
    match ReadHunks(rest[2..], [])
    case Failure(e) => Failure(e)
    case Success((hunks, rest1)) =>
    match CheckHunks(path, operation, hunks)
    case Failure(e) => Failure(e)
    case Success(patch) => Success((patch, rest1))
  }

  /** The outer loop. */
  function ReadFiles(rest: seq<Line>, seen: set<string>, patches: seq<FilePatch>)
    : Result<seq<FilePatch>, ParseError>
    decreases |rest|
  {
    if rest == [] then Success(patches) else
      match ReadFile(rest, seen)
      case Failure(e) => Failure(e)
      case Success((patch, rest1)) => ReadFiles(rest1, seen + {patch.path}, patches + [patch])
  }

  /** `parse_unified_diff` as a function of its payload. */
  function Parsed(payload: string): Result<seq<FilePatch>, ParseError> {
    if payload == "" then Failure(EmptyPatch) else ReadFiles(SplitLines(payload), {}, [])
  }

  // ---- the index-driven parser ----

  /** An index-based outcome that says the same as one on the unread lines. */
  ghost predicate Agrees<T>(lines: seq<Line>, indexed: Result<(T, nat), ParseError>,
                            unread: Result<(T, seq<Line>), ParseError>)
  {
    match indexed
    case Failure(e) => unread == Failure(e)
    case Success((value, index)) => index <= |lines| && unread == Success((value, lines[index..]))
  }

  /** The innermost loop, from `start`. */
  method ParseHunkBody(lines: seq<Line>, start: nat, oldCount: nat, newCount: nat)
    returns (r: Result<(Body, nat), ParseError>)
    requires start <= |lines|
    ensures Agrees(lines, r, ReadBody(lines[start..], oldCount, newCount, EMPTY_BODY))
  {
    var index: nat := start;
    var hunkLines: seq<HunkLine> := [];
    var seenOld: nat, seenNew: nat := 0, 0;
    while seenOld < oldCount || seenNew < newCount
      invariant start <= index <= |lines|
      invariant ReadBody(lines[start..], oldCount, newCount, EMPTY_BODY)
             == ReadBody(lines[index..], oldCount, newCount, Body(hunkLines, seenOld, seenNew))
      decreases |lines| - index
    {
      if index >= |lines| { return Failure(HunkEndedEarly); }
      var line := lines[index];
      assert lines[index..][0] == line && lines[index..][1..] == lines[index + 1..];
      if IsMarker(line) {
        if hunkLines == [] { return Failure(MarkerBeforeLine); }
        hunkLines := StripLast(hunkLines);
      } else {
        if line == "" || OpOf(line[0]).None? { return Failure(InvalidHunkLine); }
        var op := OpOf(line[0]).value;
        hunkLines := hunkLines + [HunkLine(op, line[1..])];
        if op == Context || op == Delete { seenOld := seenOld + 1; }
        if op == Context || op == Insert { seenNew := seenNew + 1; }
        if seenOld > oldCount || seenNew > newCount { return Failure(MoreLinesThanDeclared); }
      }
      index := index + 1;
    }
    return Success((Body(hunkLines, seenOld, seenNew), index));
  }

  /** The marker check after a complete body. */
  method ParseTrailingMarker(lines: seq<Line>, start: nat, b: Body)
    returns (r: Result<(seq<HunkLine>, nat), ParseError>)
    requires start <= |lines|
    ensures Agrees(lines, r, ReadTrailingMarker(b, lines[start..]))
  {
    if start < |lines| && IsMarker(lines[start]) {
      if b.lines == [] { return Failure(MarkerAfterEmptyHunk); }
      return Success((StripLast(b.lines), start + 1));
    }
    return Success((b.lines, start));
  }

  /** One turn of the middle loop, from a line that is no file header. */
  method ParseHunk(lines: seq<Line>, start: nat) returns (r: Result<(Hunk, nat), ParseError>)
    requires start < |lines|
    ensures Agrees(lines, r, ReadHunk(lines[start..]))
  {
    ghost var rest := lines[start..];
    assert rest[0] == lines[start] && rest[1..] == lines[start + 1..];
    var header := ReadHunkHeader(lines[start]);
    if header.None? { return Failure(ExpectedHunkHeader); }
    var (a, c) := header.value;
    var body := ParseHunkBody(lines, start + 1, a.count, c.count);
    if body.Failure? { return Failure(body.error); }
    var marked := ParseTrailingMarker(lines, body.value.1, body.value.0);
    if marked.Failure? { return Failure(marked.error); }
    var h := Hunk(a.start, a.count, c.start, c.count, marked.value.0);
    if !CountsMatch(h) { return Failure(CountMismatch); }
    return Success((h, marked.value.1));
  }

  /** The middle loop, from `start`. */
  method ParseFileHunks(lines: seq<Line>, start: nat) returns (r: Result<(seq<Hunk>, nat), ParseError>)
    requires start <= |lines|
    ensures Agrees(lines, r, ReadHunks(lines[start..], []))
  {
    var index: nat := start;
    var hunks: seq<Hunk> := [];
    while index < |lines| && !IsOldHeader(lines[index])
      invariant start <= index <= |lines|
      invariant ReadHunks(lines[start..], []) == ReadHunks(lines[index..], hunks)
      decreases |lines| - index
    {
      assert lines[index..][0] == lines[index];
      var read := ParseHunk(lines, index);
      if read.Failure? { return Failure(read.error); }
      hunks := hunks + [read.value.0];
      index := read.value.1;
    }
    return Success((hunks, index));
  }

  /** `parse_unified_diff`: the outer loop. */
  method ParseUnifiedDiff(payload: string) returns (r: Result<seq<FilePatch>, ParseError>)
    ensures r == Parsed(payload)
  {
    if payload == "" { return Failure(EmptyPatch); }
    var lines := SplitLines(payload);
    var patches: seq<FilePatch> := [];
    var index: nat := 0;
    var seen: set<string> := {};
    while index < |lines|
      invariant index <= |lines|
      invariant ReadFiles(lines, {}, []) == ReadFiles(lines[index..], seen, patches)
    {
      ghost var rest := lines[index..];
      assert rest[0] == lines[index] && (index + 1 < |lines| ==> rest[1] == lines[index + 1]);
      var oldHeader := lines[index];
      if !IsOldHeader(oldHeader) { return Failure(ExpectedOldHeader); }
      if index + 1 >= |lines| || !IsNewHeader(lines[index + 1]) { return Failure(ExpectedNewHeader); }
      var newHeader := lines[index + 1];
      var oldPath := HeaderPath(oldHeader, OLD_HEADER);
      if oldPath.Failure? { return Failure(oldPath.error); }
      var newPath := HeaderPath(newHeader, NEW_HEADER);
      if newPath.Failure? { return Failure(newPath.error); }
      var normal := NormalizeFilePaths(oldPath.value, newPath.value);
      if normal.Failure? { return Failure(normal.error); }
      var (path, operation) := normal.value;
      if path in seen { return Failure(DuplicateFile); }
      seen := seen + {path};
      assert rest[2..] == lines[index + 2..];
      var read := ParseFileHunks(lines, index + 2);
      if read.Failure? { return Failure(read.error); }
      var checked := CheckHunks(path, operation, read.value.0);
      if checked.Failure? { return Failure(checked.error); }
      patches := patches + [checked.value];
      index := read.value.1;
    }
    return Success(patches);
  }
}
