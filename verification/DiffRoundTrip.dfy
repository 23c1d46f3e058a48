/** Printing a diff and parsing it back. */
module DiffRoundTrip {
  import opened Wrappers
  import opened Text
  import opened Paths
  import opened Patches
  import opened DiffParser
  import opened DiffPrinter

  // ---- hunk headers ----

  lemma SingleReads(start: nat, rest: string)
    requires rest != "" && !IsDigit(rest[0]) && rest[0] != ','
    ensures ReadRange(Numeral(start) + rest) == Some((Range(start, 1), rest))
  {
    NumeralValueOfNumeral(start);
    var a := Numeral(start);
    DigitSpanOf(a, rest);
    assert (a + rest)[..|a|] == a && (a + rest)[|a|..] == rest;
  }

  lemma PairReads(start: nat, count: nat, rest: string)
    requires rest != "" && !IsDigit(rest[0])
    ensures ReadRange(Numeral(start) + ("," + (Numeral(count) + rest))) == Some((Range(start, count), rest))
  {
    NumeralValueOfNumeral(start);
    NumeralValueOfNumeral(count);
    var a, c := Numeral(start), Numeral(count);
    var tail := "," + (c + rest);
    DigitSpanOf(a, tail);
    assert (a + tail)[..|a|] == a && (a + tail)[|a|..] == tail;
    assert tail[1..] == c + rest;
    DigitSpanOf(c, rest);
    assert (c + rest)[..|c|] == c && (c + rest)[|c|..] == rest;
  }

  lemma FourParts(a: string, b: string, c: string, d: string)
    ensures a + b + c + d == a + (b + (c + d))
  {
  }

  lemma RangeReads(start: nat, count: nat, rest: string)
    requires rest != "" && !IsDigit(rest[0]) && rest[0] != ','
    ensures ReadRange(FormatRange(start, count) + rest) == Some((Range(start, count), rest))
  {
    if count == 1 {
      SingleReads(start, rest);
    } else {
      PairReads(start, count, rest);
      FourParts(Numeral(start), ",", Numeral(count), rest);
    }
  }

  lemma AfterReads(prefix: string, rest: string)
    ensures After(prefix, prefix + rest) == Some(rest)
  {
  }

  lemma HeaderShape(h: Hunk)
    ensures var a, c := FormatRange(h.oldStart, h.oldCount), FormatRange(h.newStart, h.newCount);
            HunkHeader(h) == "@@ -" + (a + (" +" + (c + " @@"))) + "\n"
  {
  }

  lemma RangeChars(start: nat, count: nat)
    ensures forall i :: 0 <= i < |FormatRange(start, count)| ==>
              FormatRange(start, count)[i] == ',' || IsDigit(FormatRange(start, count)[i])
  {
  }

  lemma HeaderIsLine(h: Hunk)
    ensures var line := HunkHeader(h);
            IsLine(line) && Terminated(line) && !IsOldHeader(line) && !IsMarker(line)
  {
    var line := HunkHeader(h);
    assert line[0] == '@';
    assert OLD_HEADER[0] == '-' && NO_NEWLINE[0] == '\\';
    RangeChars(h.oldStart, h.oldCount);
    RangeChars(h.newStart, h.newCount);
  }

  lemma HeaderReads(h: Hunk)
    ensures ReadHunkHeader(HunkHeader(h)) == Some((Range(h.oldStart, h.oldCount), Range(h.newStart, h.newCount)))
  {
    var a, c := FormatRange(h.oldStart, h.oldCount), FormatRange(h.newStart, h.newCount);
    var s2 := c + " @@";
    var s1 := " +" + s2;
    HeaderShape(h);
    AfterReads("@@ -", a + s1);
    RangeReads(h.oldStart, h.oldCount, s1);
    AfterReads(" +", s2);
    RangeReads(h.newStart, h.newCount, " @@");
    AfterReads(" @@", "");
    assert " @@" + "" == " @@";
  }

  // ---- hunk bodies, line by line ----

  predicate PlainLines(lines: seq<HunkLine>) {
    forall k :: 0 <= k < |lines| ==> IsLine(lines[k].content)
  }

  /** An unterminated line that `build_diff` takes for a file header: it gets neither
      a newline nor a marker, so the next output joins it. */
  predicate Swallowed(line: HunkLine) {
    && !Terminated(line.content)
    && ((line.op == Insert && "++ " <= line.content) || (line.op == Delete && "-- " <= line.content))
  }

  function RawLine(line: HunkLine): string {
    [OpChar(line.op)] + line.content
  }

  lemma EmitCases(line: HunkLine)
    requires IsLine(line.content)
    ensures Emit(RawLine(line)) ==
            if Terminated(line.content) || Swallowed(line) then [RawLine(line)]
            else [RawLine(line) + "\n", MARKER_LINE]
    ensures Terminated(RawLine(line)) == Terminated(line.content)
    ensures IsLine(RawLine(line)) && !IsMarker(RawLine(line)) && !IsMarker(RawLine(line) + "\n")
    ensures !Terminated(line.content) ==> IsLine(RawLine(line) + "\n")
  {
    var raw := RawLine(line);
    assert raw[1..] == line.content && raw[0] == OpChar(line.op);
    assert (NEW_HEADER <= raw) == (line.op == Insert && "++ " <= line.content) by {
      assert NEW_HEADER[1..] == "++ ";
      if NEW_HEADER <= raw { assert raw[..4][1..] == raw[1..][..3]; }
      if line.op == Insert && "++ " <= line.content {
        assert raw[..4] == ['+'] + line.content[..3];
      }
    }
    assert (OLD_HEADER <= raw) == (line.op == Delete && "-- " <= line.content) by {
      assert OLD_HEADER[1..] == "-- ";
      if OLD_HEADER <= raw { assert raw[..4][1..] == raw[1..][..3]; }
      if line.op == Delete && "-- " <= line.content {
        assert raw[..4] == ['-'] + line.content[..3];
      }
    }
    assert NO_NEWLINE[0] == '\\';
  }

  /** Body and trailing marker together. */
  function ReadRest(rest: seq<Line>, oldCount: nat, newCount: nat, b: Body)
    : Result<(seq<HunkLine>, seq<Line>), ParseError>
  {
    match ReadBody(rest, oldCount, newCount, b)
    case Failure(e) => Failure(e)
    case Success((done, tail)) => ReadTrailingMarker(done, tail)
  }

  /** A marker strips the last line whether or not the counts are already reached. */
  lemma MarkerStep(rest: seq<Line>, oldCount: nat, newCount: nat, b: Body)
    requires b.lines != []
    requires rest == [] || !IsMarker(rest[0])
    ensures ReadRest([MARKER_LINE] + rest, oldCount, newCount, b)
         == ReadRest(rest, oldCount, newCount, b.(lines := StripLast(b.lines)))
  {
    assert IsMarker(MARKER_LINE);
    assert ([MARKER_LINE] + rest)[0] == MARKER_LINE && ([MARKER_LINE] + rest)[1..] == rest;
  }

  lemma DataStep(line: HunkLine, text: Line, rest: seq<Line>, oldCount: nat, newCount: nat, b: Body)
    requires IsLine(line.content) && (text == RawLine(line) || text == RawLine(line) + "\n")
    requires b.seenOld + (if line.op == Insert then 0 else 1) <= oldCount
    requires b.seenNew + (if line.op == Delete then 0 else 1) <= newCount
    ensures ReadRest([text] + rest, oldCount, newCount, b)
         == ReadRest(rest, oldCount, newCount, Push(b, line.op, text[1..]))
  {
    EmitCases(line);
    assert ([text] + rest)[0] == text && ([text] + rest)[1..] == rest;
    assert text[0] == OpChar(line.op) && OpOf(text[0]) == Some(line.op);
  }

  lemma StripPushed(b: Body, op: Op, content: string)
    requires !Terminated(content)
    ensures Push(b, op, content + "\n").(lines := StripLast(Push(b, op, content + "\n").lines)) == Push(b, op, content)
  {
    var lines := Push(b, op, content + "\n").lines;
    assert lines[..|lines| - 1] == b.lines;
    assert RemoveNewline(content + "\n") == content;
  }

  /** Reading what was emitted for one hunk line appends exactly that line. */
  lemma LineReads(line: HunkLine, rest: seq<Line>, oldCount: nat, newCount: nat, b: Body)
    requires IsLine(line.content)
    requires rest == [] || !IsMarker(rest[0])
    requires b.seenOld + (if line.op == Insert then 0 else 1) <= oldCount
    requires b.seenNew + (if line.op == Delete then 0 else 1) <= newCount
    ensures ReadRest(Emit(RawLine(line)) + rest, oldCount, newCount, b)
         == ReadRest(rest, oldCount, newCount, Push(b, line.op, line.content))
  {
    EmitCases(line);
    RawTail(line);
    if Terminated(line.content) || Swallowed(line) {
      DataStep(line, RawLine(line), rest, oldCount, newCount, b);
    } else {
      MarkedLineReads(line, rest, oldCount, newCount, b);
    }
  }

  lemma RawTail(line: HunkLine)
    ensures RawLine(line)[1..] == line.content
    ensures (RawLine(line) + "\n")[1..] == line.content + "\n"
  {
  }

  lemma TwoThenRest<T>(a: T, b: T, rest: seq<T>)
    ensures [a, b] + rest == [a] + ([b] + rest)
  {
  }

  lemma MarkedLineReads(line: HunkLine, rest: seq<Line>, oldCount: nat, newCount: nat, b: Body)
    requires IsLine(line.content) && !Terminated(line.content)
    requires rest == [] || !IsMarker(rest[0])
    requires b.seenOld + (if line.op == Insert then 0 else 1) <= oldCount
    requires b.seenNew + (if line.op == Delete then 0 else 1) <= newCount
    ensures ReadRest([RawLine(line) + "\n", MARKER_LINE] + rest, oldCount, newCount, b)
         == ReadRest(rest, oldCount, newCount, Push(b, line.op, line.content))
  {
    var text := RawLine(line) + "\n";
    RawTail(line);
    TwoThenRest(text, MARKER_LINE, rest);
    DataStep(line, text, [MARKER_LINE] + rest, oldCount, newCount, b);
    MarkerStep(rest, oldCount, newCount, Push(b, line.op, text[1..]));
    StripPushed(b, line.op, line.content);
  }

  lemma EmitStartsWithData(lines: seq<HunkLine>, rest: seq<Line>)
    requires PlainLines(lines)
    requires rest == [] || !IsMarker(rest[0])
    ensures var all := EmitAll(RawBody(lines)) + rest; all == [] || !IsMarker(all[0])
  {
    if lines != [] {
      EmitCases(lines[0]);
      assert RawBody(lines)[0] == RawLine(lines[0]);
    }
  }

  lemma EmitBodyCons(lines: seq<HunkLine>, rest: seq<Line>)
    requires lines != []
    ensures EmitAll(RawBody(lines)) + rest == Emit(RawLine(lines[0])) + (EmitAll(RawBody(lines[1..])) + rest)
  {
    assert RawBody(lines)[0] == RawLine(lines[0]) && RawBody(lines)[1..] == RawBody(lines[1..]);
  }

  lemma BodyReadsOne(lines: seq<HunkLine>, rest: seq<Line>, oldCount: nat, newCount: nat, b: Body)
    requires PlainLines(lines) && lines != []
    requires rest == [] || !IsMarker(rest[0])
    requires b.seenOld + |OldSide(lines)| == oldCount && b.seenNew + |NewSide(lines)| == newCount
    ensures ReadRest(EmitAll(RawBody(lines)) + rest, oldCount, newCount, b)
         == ReadRest(EmitAll(RawBody(lines[1..])) + rest, oldCount, newCount, Push(b, lines[0].op, lines[0].content))
  {
    EmitStartsWithData(lines[1..], rest);
    EmitBodyCons(lines, rest);
    LineReads(lines[0], EmitAll(RawBody(lines[1..])) + rest, oldCount, newCount, b);
  }

  lemma {:induction false} BodyReads(lines: seq<HunkLine>, rest: seq<Line>, oldCount: nat, newCount: nat, b: Body)
    requires PlainLines(lines)
    requires rest == [] || !IsMarker(rest[0])
    requires b.seenOld + |OldSide(lines)| == oldCount && b.seenNew + |NewSide(lines)| == newCount
    ensures ReadRest(EmitAll(RawBody(lines)) + rest, oldCount, newCount, b) == Success((b.lines + lines, rest))
    decreases |lines|
  {
    if lines == [] {
      assert EmitAll(RawBody(lines)) + rest == rest;
      assert b.lines + lines == b.lines;
    } else {
      BodyReadsOne(lines, rest, oldCount, newCount, b);
      BodyReads(lines[1..], rest, oldCount, newCount, Push(b, lines[0].op, lines[0].content));
      assert HunkLine(lines[0].op, lines[0].content) == lines[0];
      ConcatHead(b.lines, lines);
    }
  }

  // ---- hunks and files ----

  predicate PlainHunk(h: Hunk) {
    CountsMatch(h) && PlainLines(h.lines) && h.lines != []
  }

  /** What every file patch built by the printer looks like. */
  predicate PlainPatch(p: FilePatch) {
    && CanonicalPath(p.path)
    && p.hunks != []
    && (forall i :: 0 <= i < |p.hunks| ==> PlainHunk(p.hunks[i]))
    && (p.operation == Create ==> forall i :: 0 <= i < |p.hunks| ==> p.hunks[i].oldCount == 0)
    && (p.operation == Remove ==> forall i :: 0 <= i < |p.hunks| ==> p.hunks[i].newCount == 0)
  }

  predicate PlainPatches(ps: seq<FilePatch>) {
    && (forall i :: 0 <= i < |ps| ==> PlainPatch(ps[i]))
    && (forall i, j :: 0 <= i < j < |ps| ==> ps[i].path != ps[j].path)
  }

  function EmitHunk(h: Hunk): seq<string> {
    [HunkHeader(h)] + EmitAll(RawBody(h.lines))
  }

  function EmitHunks(hunks: seq<Hunk>): seq<string> {
    if hunks == [] then [] else EmitHunk(hunks[0]) + EmitHunks(hunks[1..])
  }

  function EmitFile(p: FilePatch): seq<string> {
    [OLD_HEADER + OldName(p) + "\n", NEW_HEADER + NewName(p) + "\n"] + EmitHunks(p.hunks)
  }

  function EmitFiles(ps: seq<FilePatch>): seq<string> {
    if ps == [] then [] else EmitFile(ps[0]) + EmitFiles(ps[1..])
  }

  lemma {:induction false} EmitAllAppend(a: seq<string>, b: seq<string>)
    ensures EmitAll(a + b) == EmitAll(a) + EmitAll(b)
  {
    if a == [] {
      assert a + b == b;
    } else {
      assert (a + b)[1..] == a[1..] + b;
      EmitAllAppend(a[1..], b);
    }
  }

  lemma EmitKeepsTerminated(raw: string)
    requires Terminated(raw)
    ensures Emit(raw) == [raw] && EmitAll([raw]) == [raw]
  {
    assert [raw][1..] == [];
    assert [raw] + [] == [raw];
  }

  lemma {:induction false} EmitRawHunks(hunks: seq<Hunk>)
    ensures EmitAll(RawHunks(hunks)) == EmitHunks(hunks)
  {
    if hunks != [] {
      var h := hunks[0];
      HeaderIsLine(h);
      EmitKeepsTerminated(HunkHeader(h));
      EmitAllAppend([HunkHeader(h)] + RawBody(h.lines), RawHunks(hunks[1..]));
      EmitAllAppend([HunkHeader(h)], RawBody(h.lines));
      EmitRawHunks(hunks[1..]);
    }
  }

  /** The structured form says the same as running `build_diff`'s loop on the raw lines. */
  lemma EmitRaw(p: FilePatch)
    requires p.hunks != []
    ensures EmitAll(RawLines(p)) == EmitFile(p)
  {
    EmitTwo(OLD_HEADER + OldName(p) + "\n", NEW_HEADER + NewName(p) + "\n", RawHunks(p.hunks));
    EmitRawHunks(p.hunks);
  }

  lemma EmitTwo(a: string, b: string, rest: seq<string>)
    requires Terminated(a) && Terminated(b)
    ensures EmitAll([a, b] + rest) == [a, b] + EmitAll(rest)
  {
    EmitKeepsTerminated(a);
    EmitKeepsTerminated(b);
    assert ([a, b] + rest)[1..] == [b] + rest;
    assert ([b] + rest)[1..] == rest;
  }

  lemma HunkFromParts(all: seq<Line>, h: Hunk, rest: seq<Line>)
    requires all != [] && CountsMatch(h)
    requires ReadHunkHeader(all[0]) == Some((Range(h.oldStart, h.oldCount), Range(h.newStart, h.newCount)))
    requires ReadRest(all[1..], h.oldCount, h.newCount, EMPTY_BODY) == Success((h.lines, rest))
    ensures ReadHunk(all) == Success((h, rest))
  {
  }

  lemma HunkReads(h: Hunk, rest: seq<Line>)
    requires PlainHunk(h)
    requires rest == [] || !IsMarker(rest[0])
    ensures EmitHunk(h) + rest != []
    ensures ReadHunk(EmitHunk(h) + rest) == Success((h, rest))
  {
    var body := EmitAll(RawBody(h.lines));
    ConcatAssoc([HunkHeader(h)], body, rest);
    OneThenRest(HunkHeader(h), body + rest);
    HeaderReads(h);
    BodyReads(h.lines, rest, h.oldCount, h.newCount, EMPTY_BODY);
    NothingBefore(h.lines);
    HunkFromParts([HunkHeader(h)] + (body + rest), h, rest);
  }

  lemma OneThenRest<T>(x: T, rest: seq<T>)
    ensures var all := [x] + rest; all != [] && all[0] == x && all[1..] == rest
  {
  }

  lemma NothingBefore<T>(xs: seq<T>)
    ensures [] + xs == xs
  {
  }

  /** The lines that may follow a file's hunks: nothing, or the next file. */
  predicate AtFileStart(rest: seq<Line>) {
    rest == [] || IsOldHeader(rest[0])
  }

  /** The lines that may follow a hunk. */
  predicate AtHunkEnd(rest: seq<Line>) {
    rest == [] || !IsMarker(rest[0])
  }

  lemma AfterHunk(hunks: seq<Hunk>, rest: seq<Line>)
    requires AtFileStart(rest)
    ensures AtHunkEnd(EmitHunks(hunks) + rest)
    ensures hunks != [] ==> var all := EmitHunks(hunks) + rest; all != [] && !IsOldHeader(all[0])
  {
    if hunks == [] {
      assert EmitHunks(hunks) + rest == rest;
      assert OLD_HEADER[0] == '-' && NO_NEWLINE[0] == '\\';
    } else {
      HeaderIsLine(hunks[0]);
      assert (EmitHunks(hunks) + rest)[0] == HunkHeader(hunks[0]);
    }
  }

  lemma HunksStep(all: seq<Line>, h: Hunk, tail: seq<Line>, acc: seq<Hunk>)
    requires all != [] && !IsOldHeader(all[0]) && ReadHunk(all) == Success((h, tail))
    ensures ReadHunks(all, acc) == ReadHunks(tail, acc + [h])
  {
  }

  lemma EmitHunksCons(hunks: seq<Hunk>, rest: seq<Line>)
    requires hunks != []
    ensures EmitHunks(hunks) + rest == EmitHunk(hunks[0]) + (EmitHunks(hunks[1..]) + rest)
  {
    ConcatAssoc(EmitHunk(hunks[0]), EmitHunks(hunks[1..]), rest);
  }

  lemma HunksReadOne(hunks: seq<Hunk>, rest: seq<Line>, acc: seq<Hunk>)
    requires hunks != [] && PlainHunk(hunks[0])
    requires AtFileStart(rest)
    ensures ReadHunks(EmitHunks(hunks) + rest, acc)
         == ReadHunks(EmitHunks(hunks[1..]) + rest, acc + [hunks[0]])
  {
    var tail := EmitHunks(hunks[1..]) + rest;
    AfterHunk(hunks, rest);
    AfterHunk(hunks[1..], rest);
    EmitHunksCons(hunks, rest);
    HunkReads(hunks[0], tail);
    HunksStep(EmitHunks(hunks) + rest, hunks[0], tail, acc);
  }

  lemma {:induction false} HunksRead(hunks: seq<Hunk>, rest: seq<Line>, acc: seq<Hunk>)
    requires forall i :: 0 <= i < |hunks| ==> PlainHunk(hunks[i])
    requires AtFileStart(rest)
    ensures ReadHunks(EmitHunks(hunks) + rest, acc) == Success((acc + hunks, rest))
    decreases |hunks|
  {
    if hunks == [] {
      assert EmitHunks(hunks) + rest == rest;
      assert acc + hunks == acc;
    } else {
      HunksReadOne(hunks, rest, acc);
      HunksRead(hunks[1..], rest, acc + [hunks[0]]);
      ConcatHead(acc, hunks);
    }
  }

  lemma HeaderPathReads(prefix: string, name: string)
    requires name != "" && !HasControl(name)
    ensures HeaderPath(prefix + name + "\n", prefix) == Success(name)
  {
    assert (prefix + name + "\n")[|prefix|..] == name + "\n";
  }

  lemma NamesRead(p: FilePatch)
    requires CanonicalPath(p.path) && !HasControl(p.path)
    ensures NormalizeFilePaths(OldName(p), NewName(p)) == Success((p.path, p.operation))
    ensures !HasControl(OldName(p)) && !HasControl(NewName(p))
  {
    SideName('a', p.path);
    SideName('b', p.path);
    SideNamesNormalize(p);
  }

  lemma DevNullIsClean()
    ensures !HasControl(DEV_NULL) && DEV_NULL != ""
  {
  }

  lemma SideNamesNormalize(p: FilePatch)
    requires CanonicalPath(p.path)
    requires "a/" <= "a/" + p.path && ("a/" + p.path)[2..] == p.path
             && "a/" + p.path != DEV_NULL && !HasControl("a/" + p.path)
    requires "b/" <= "b/" + p.path && ("b/" + p.path)[2..] == p.path
             && "b/" + p.path != DEV_NULL && !HasControl("b/" + p.path)
    ensures NormalizeFilePaths(OldName(p), NewName(p)) == Success((p.path, p.operation))
    ensures !HasControl(OldName(p)) && !HasControl(NewName(p))
  {
    assert NormalPath(p.path) == Success(p.path);
    DevNullIsClean();
  }

  /** A path with its `a/` or `b/` in front. */
  lemma SideName(side: char, path: string)
    requires side in {'a', 'b'} && !HasControl(path)
    ensures var name := [side, '/'] + path;
            [side, '/'] <= name && name[2..] == path && name != DEV_NULL && !HasControl(name)
  {
    var name := [side, '/'] + path;
    assert name[0] == side && DEV_NULL[0] == '/';
    assert forall i :: 0 <= i < |name| ==> name[i] == if i < 2 then [side, '/'][i] else path[i - 2];
  }

  lemma HeadersRead(p: FilePatch, rest: seq<Line>)
    requires CanonicalPath(p.path) && !HasControl(p.path)
    ensures EmitFile(p) + rest != [] && AtFileStart(EmitFile(p) + rest)
    ensures ReadHeaders(EmitFile(p) + rest) == Success((p.path, p.operation))
  {
    var all := EmitFile(p) + rest;
    var a, b := OLD_HEADER + OldName(p) + "\n", NEW_HEADER + NewName(p) + "\n";
    assert all[0] == a && all[1] == b;
    assert OLD_HEADER <= a && NEW_HEADER <= b;
    NamesRead(p);
    HeaderPathReads(OLD_HEADER, OldName(p));
    HeaderPathReads(NEW_HEADER, NewName(p));
  }

  lemma FileReads(p: FilePatch, rest: seq<Line>, seen: set<string>)
    requires PlainPatch(p) && !HasControl(p.path) && p.path !in seen
    requires AtFileStart(rest)
    ensures EmitFile(p) + rest != [] && AtFileStart(EmitFile(p) + rest)
    ensures ReadFile(EmitFile(p) + rest, seen) == Success((p, rest))
  {
    HeadersRead(p, rest);
    AfterHeaders(p, rest);
    HunksRead(p.hunks, rest, []);
    assert [] + p.hunks == p.hunks;
    FileFromParts(EmitFile(p) + rest, p, rest, seen);
  }

  lemma AfterHeaders(p: FilePatch, rest: seq<Line>)
    ensures |EmitFile(p) + rest| >= 2 && (EmitFile(p) + rest)[2..] == EmitHunks(p.hunks) + rest
  {
    var a, b := OLD_HEADER + OldName(p) + "\n", NEW_HEADER + NewName(p) + "\n";
    ConcatAssoc([a, b], EmitHunks(p.hunks), rest);
    DropPrefix([a, b], EmitHunks(p.hunks) + rest);
  }

  lemma FileFromParts(all: seq<Line>, p: FilePatch, rest: seq<Line>, seen: set<string>)
    requires PlainPatch(p) && p.path !in seen
    requires all != [] && ReadHeaders(all) == Success((p.path, p.operation))
    requires ReadHunks(all[2..], []) == Success((p.hunks, rest))
    ensures ReadFile(all, seen) == Success((p, rest))
  {
  }

  lemma FilesReadOne(p: FilePatch, rest: seq<Line>, seen: set<string>, acc: seq<FilePatch>)
    requires PlainPatch(p) && !HasControl(p.path) && p.path !in seen
    requires AtFileStart(rest)
    ensures AtFileStart(EmitFile(p) + rest)
    ensures ReadFiles(EmitFile(p) + rest, seen, acc) == ReadFiles(rest, seen + {p.path}, acc + [p])
  {
    FileReads(p, rest, seen);
  }

  lemma {:induction false} FilesRead(ps: seq<FilePatch>, seen: set<string>, acc: seq<FilePatch>)
    requires PlainPatches(ps)
    requires forall i :: 0 <= i < |ps| ==> !HasControl(ps[i].path) && ps[i].path !in seen
    ensures ReadFiles(EmitFiles(ps), seen, acc) == Success(acc + ps)
    ensures AtFileStart(EmitFiles(ps))
    decreases |ps|
  {
    if ps == [] {
      assert acc + ps == acc;
    } else {
      assert forall i :: 0 <= i < |ps| - 1 ==> ps[1..][i] == ps[i + 1];
      FilesRead(ps[1..], seen + {ps[0].path}, acc + [ps[0]]);
      FilesReadOne(ps[0], EmitFiles(ps[1..]), seen, acc);
      ConcatHead(acc, ps);
    }
  }
}
