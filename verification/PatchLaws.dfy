/** `FilePatch.apply` on whole files: when it succeeds, what it leaves, and when the
    swapped patch takes the result back. */
module PatchLaws {
  import opened Wrappers
  import opened Text
  import opened Patches
  import opened DiffParser
  import opened SpliceLaws

  // ---- success and result ----

  /** The text of a file, empty when there is none. */
  function TextOf(file: Option<string>): string {
    if file.None? then "" else file.value
  }

  /** A file patch succeeds exactly when its target is there or not as the operation wants,
      its hunks are applicable, and a removal leaves nothing; it then yields the splice. */
  lemma AppliedExactly(patch: FilePatch, source: Option<string>)
    ensures var lines := LinesOf(source);
            Applied(patch, source).Success? <==>
            && TargetFits(patch.operation, source)
            && Applicable(lines, patch.hunks)
            && (patch.operation == Remove ==> Join(Splice(lines, patch.hunks)) == "")
    ensures Applied(patch, source).Success? ==>
              Applied(patch, source).value ==
              if patch.operation == Remove then None else Some(Join(Splice(LinesOf(source), patch.hunks)))
  {
    ApplyIsSplice(LinesOf(source), patch.hunks);
  }

  // ---- pieces of text that hold at most one line ----

  /** '\n' nowhere but at the end; possibly empty. */
  predicate LineLike(s: string) {
    forall i :: 0 <= i < |s| - 1 ==> s[i] != '\n'
  }

  predicate AllLineLike(chunks: seq<string>) {
    forall i :: 0 <= i < |chunks| ==> LineLike(chunks[i])
  }

  predicate LineLikeBody(lines: seq<HunkLine>) {
    forall i :: 0 <= i < |lines| ==> LineLike(lines[i].content)
  }

  predicate LineLikeHunks(hunks: seq<Hunk>) {
    forall i :: 0 <= i < |hunks| ==> LineLikeBody(hunks[i].lines)
  }

  predicate LineLikePatches(patches: seq<FilePatch>) {
    forall i :: 0 <= i < |patches| ==> LineLikeHunks(patches[i].hunks)
  }

  /** Joining pieces never makes more lines than there were pieces, and as many exactly
      when the pieces already were the lines of a text. */
  lemma {:induction false} JoinCounts(chunks: seq<string>)
    requires AllLineLike(chunks)
    ensures |SplitLines(Join(chunks))| <= |chunks|
    ensures |SplitLines(Join(chunks))| == |chunks| <==> Canonical(chunks)
    decreases |chunks|
  {
    if chunks != [] {
      var c, rest := chunks[0], chunks[1..];
      JoinCounts(rest);
      CanonicalCons(c, rest);
      assert chunks == [c] + rest;
      if c == "" {
        assert Join(chunks) == Join(rest);
      } else if Terminated(c) || Join(rest) == "" {
        SplitCons(c, Join(rest));
        NothingJoined(rest);
      } else {
        PrefixMerges(c, Join(rest));
      }
    }
  }

  lemma NothingJoined(chunks: seq<string>)
    ensures Join(chunks) == "" && Canonical(chunks) ==> chunks == []
  {
    if chunks != [] { assert |Join(chunks)| >= |chunks[0]|; }
  }

  lemma CanonicalCons(c: string, rest: seq<string>)
    requires LineLike(c)
    ensures Canonical([c] + rest) <==> c != "" && Canonical(rest) && (Terminated(c) || rest == [])
  {
    var all := [c] + rest;
    assert forall i :: 0 <= i < |rest| ==> rest[i] == all[i + 1];
    assert all[0] == c;
    if Canonical(all) {
      forall i | 0 <= i < |rest| ensures IsLine(rest[i]) && (i < |rest| - 1 ==> Terminated(rest[i])) {
        assert IsLine(all[i + 1]);
        assert i + 1 < |all| - 1 ==> Terminated(all[i + 1]);
      }
    }
  }

  lemma LineLikeConcat(a: seq<string>, b: seq<string>)
    requires AllLineLike(a) && AllLineLike(b)
    ensures AllLineLike(a + b)
  {
  }

  lemma {:induction false} SidesAreLineLike(lines: seq<HunkLine>)
    requires LineLikeBody(lines)
    ensures AllLineLike(OldSide(lines)) && AllLineLike(NewSide(lines))
  {
    if lines != [] {
      SidesAreLineLike(lines[1..]);
      assert LineLike(lines[0].content);
    }
  }

  /** Splicing pieces of at most one line into such pieces yields such pieces. */
  lemma {:induction false} SpliceIsLineLike(source: seq<Line>, hunks: seq<Hunk>)
    requires AllLineLike(source) && LineLikeHunks(hunks)
    ensures AllLineLike(Splice(source, hunks))
    decreases |hunks|
  {
    if hunks != [] {
      var last := hunks[|hunks| - 1];
      var p, e := OldPos(last), OldPos(last) + |OldSide(last.lines)|;
      if 0 <= p && e <= |source| {
        SpliceIsLineLike(source[..p], hunks[..|hunks| - 1]);
        SidesAreLineLike(last.lines);
        LineLikeConcat(Splice(source[..p], hunks[..|hunks| - 1]), NewSide(last.lines));
      }
    }
  }

  lemma SplitIsLineLike(text: string)
    ensures AllLineLike(SplitLines(text))
  {
    SplitThenJoin(text);
    var lines := SplitLines(text);
    forall i | 0 <= i < |lines| ensures LineLike(lines[i]) {
      assert IsLine(lines[i]);
    }
  }

  lemma {:induction false} SwapIsLineLike(lines: seq<HunkLine>)
    requires LineLikeBody(lines)
    ensures LineLikeBody(SwapLines(lines))
  {
    if lines != [] {
      SwapIsLineLike(lines[1..]);
      assert LineLike(lines[0].content);
    }
  }

  lemma SwapsAreLineLike(hunks: seq<Hunk>)
    requires LineLikeHunks(hunks)
    ensures LineLikeHunks(SwapHunks(hunks))
  {
    forall i | 0 <= i < |hunks| ensures LineLikeBody(SwapHunks(hunks)[i].lines) {
      SwapIsLineLike(hunks[i].lines);
    }
  }

  // ---- undoing a file patch ----

  function SwapOperation(operation: Operation): Operation {
    match operation
    case Create => Remove
    case Remove => Create
    case Update => Update
  }

  /** The patch that should take a patched file back. */
  function SwapPatch(patch: FilePatch): FilePatch {
    FilePatch(patch.path, SwapOperation(patch.operation), SwapHunks(patch.hunks))
  }

  /** Canonical output: re-reading it gives the spliced lines, so the swap applies. */
  lemma UndoneIf(patch: FilePatch, source: Option<string>)
    requires Applied(patch, source).Success?
    requires Canonical(Splice(LinesOf(source), patch.hunks))
    ensures Applied(SwapPatch(patch), Applied(patch, source).value) == Success(source)
  {
    var lines := LinesOf(source);
    var result := Splice(lines, patch.hunks);
    AppliedExactly(patch, source);
    UndoSplice(lines, patch.hunks);
    JoinThenSplit(result);
    NothingJoined(result);
    assert LinesOf(Applied(patch, source).value) == result;
    AppliedExactly(SwapPatch(patch), Applied(patch, source).value);
    if source.Some? { SplitThenJoin(source.value); }
  }

  /** Counting: the swap must give back as many lines as the source had, so re-reading the
      result may lose none. */
  lemma UndoneOnlyIf(patch: FilePatch, source: Option<string>)
    requires LineLikeHunks(patch.hunks)
    requires Applied(patch, source).Success?
    requires Applied(SwapPatch(patch), Applied(patch, source).value) == Success(source)
    ensures Canonical(Splice(LinesOf(source), patch.hunks))
  {
    var lines, undo := LinesOf(source), SwapHunks(patch.hunks);
    var result := Splice(lines, patch.hunks);
    AppliedExactly(patch, source);
    UndoSplice(lines, patch.hunks);
    var reread := SplitLines(Join(result));
    assert LinesOf(Applied(patch, source).value) == reread;
    AppliedExactly(SwapPatch(patch), Applied(patch, source).value);
    UndoSplice(reread, undo);
    SwapShift(patch.hunks);
    SplitIsLineLike(TextOf(source));
    assert lines == SplitLines(TextOf(source));
    SplitIsLineLike(Join(result));
    SwapsAreLineLike(patch.hunks);
    SpliceIsLineLike(lines, patch.hunks);
    SpliceIsLineLike(reread, undo);
    JoinCounts(Splice(reread, undo));
    JoinCounts(result);
  }

  /** A successful file patch is undone by its swap exactly when the pieces of the result are
      the lines of a text: none is empty, and all but the last end in a newline. */
  lemma AppliedUndone(patch: FilePatch, source: Option<string>)
    requires LineLikeHunks(patch.hunks)
    requires Applied(patch, source).Success?
    ensures Applied(SwapPatch(patch), Applied(patch, source).value) == Success(source) <==>
            Canonical(Splice(LinesOf(source), patch.hunks))
  {
    if Canonical(Splice(LinesOf(source), patch.hunks)) {
      UndoneIf(patch, source);
    } else if Applied(SwapPatch(patch), Applied(patch, source).value) == Success(source) {
      UndoneOnlyIf(patch, source);
    }
  }

  // ---- what the parser returns is made of such pieces ----

  lemma RestAreLines(rest: seq<Line>, n: nat)
    requires AllLines(rest) && n <= |rest|
    ensures AllLines(rest[n..])
  {
  }

  lemma StripIsLineLike(lines: seq<HunkLine>)
    requires lines != [] && LineLikeBody(lines)
    ensures LineLikeBody(StripLast(lines))
  {
    var last := lines[|lines| - 1];
    assert LineLike(last.content);
  }

  lemma PushIsLineLike(b: Body, op: Op, line: Line)
    requires LineLikeBody(b.lines) && IsLine(line)
    ensures LineLikeBody(Push(b, op, line[1..]).lines)
  {
  }

  lemma {:induction false} BodyIsLineLike(rest: seq<Line>, oldCount: nat, newCount: nat, b: Body)
    requires AllLines(rest) && LineLikeBody(b.lines)
    ensures var r := ReadBody(rest, oldCount, newCount, b);
            r.Success? ==> LineLikeBody(r.value.0.lines) && AllLines(r.value.1)
    decreases |rest|
  {
    if (b.seenOld < oldCount || b.seenNew < newCount) && rest != [] {
      RestAreLines(rest, 1);
      assert IsLine(rest[0]);
      if IsMarker(rest[0]) {
        if b.lines != [] {
          StripIsLineLike(b.lines);
          BodyIsLineLike(rest[1..], oldCount, newCount, b.(lines := StripLast(b.lines)));
        }
      } else if OpOf(rest[0][0]).Some? {
        var op := OpOf(rest[0][0]).value;
        PushIsLineLike(b, op, rest[0]);
        BodyIsLineLike(rest[1..], oldCount, newCount, Push(b, op, rest[0][1..]));
      }
    }
  }

  lemma TrailingIsLineLike(b: Body, rest: seq<Line>)
    requires LineLikeBody(b.lines) && AllLines(rest)
    ensures var r := ReadTrailingMarker(b, rest); r.Success? ==> LineLikeBody(r.value.0) && AllLines(r.value.1)
  {
    if b.lines != [] { StripIsLineLike(b.lines); }
    if rest != [] { RestAreLines(rest, 1); }
  }

  /** What a hunk that was read is made of. */
  lemma HunkParts(rest: seq<Line>)
    requires rest != [] && ReadHunk(rest).Success?
    ensures ReadHunkHeader(rest[0]).Some?
    ensures var (a, c) := ReadHunkHeader(rest[0]).value;
            var body, read := ReadBody(rest[1..], a.count, c.count, EMPTY_BODY), ReadHunk(rest).value;
            body.Success? && ReadTrailingMarker(body.value.0, body.value.1) == Success((read.0.lines, read.1))
  {
  }

  lemma HunkIsLineLike(rest: seq<Line>)
    requires rest != [] && AllLines(rest)
    ensures var r := ReadHunk(rest);
            r.Success? ==> LineLikeBody(r.value.0.lines) && AllLines(r.value.1)
  {
    if ReadHunk(rest).Success? {
      HunkParts(rest);
      var (a, c) := ReadHunkHeader(rest[0]).value;
      RestAreLines(rest, 1);
      BodyIsLineLike(rest[1..], a.count, c.count, EMPTY_BODY);
      var body := ReadBody(rest[1..], a.count, c.count, EMPTY_BODY).value;
      TrailingIsLineLike(body.0, body.1);
    }
  }

  lemma {:induction false} HunksAreLineLike(rest: seq<Line>, hunks: seq<Hunk>)
    requires AllLines(rest) && LineLikeHunks(hunks)
    ensures var r := ReadHunks(rest, hunks);
            r.Success? ==> LineLikeHunks(r.value.0) && AllLines(r.value.1)
    decreases |rest|
  {
    if rest != [] && !IsOldHeader(rest[0]) {
      HunkIsLineLike(rest);
      var h := ReadHunk(rest);
      if h.Success? {
        HunksAreLineLike(h.value.1, hunks + [h.value.0]);
      }
    }
  }

  lemma FileIsLineLike(rest: seq<Line>, seen: set<string>)
    requires rest != [] && AllLines(rest)
    ensures var r := ReadFile(rest, seen);
            r.Success? ==> LineLikeHunks(r.value.0.hunks) && AllLines(r.value.1)
  {
    if |rest| >= 2 {
      RestAreLines(rest, 2);
      HunksAreLineLike(rest[2..], []);
    }
  }

  lemma {:induction false} FilesAreLineLike(rest: seq<Line>, seen: set<string>, patches: seq<FilePatch>)
    requires AllLines(rest) && LineLikePatches(patches)
    ensures var r := ReadFiles(rest, seen, patches); r.Success? ==> LineLikePatches(r.value)
    decreases |rest|
  {
    if rest != [] {
      FileIsLineLike(rest, seen);
      var f := ReadFile(rest, seen);
      if f.Success? {
        FilesAreLineLike(f.value.1, seen + {f.value.0.path}, patches + [f.value.0]);
      }
    }
  }

  /** Every line of every parsed hunk holds at most one line of text. */
  lemma ParsedIsLineLike(payload: string)
    ensures Parsed(payload).Success? ==> LineLikePatches(Parsed(payload).value)
  {
    SplitThenJoin(payload);
    if payload != "" { FilesAreLineLike(SplitLines(payload), {}, []); }
  }

  /** Undoing a parsed patch: whatever the payload and whatever file it succeeds on, the
      swapped patch restores the file exactly when the pieces of the result are the lines of
      a text. */
  lemma ParsedPatchUndone(payload: string, i: nat, source: Option<string>)
    requires Parsed(payload).Success? && i < |Parsed(payload).value|
    requires Applied(Parsed(payload).value[i], source).Success?
    ensures var patch := Parsed(payload).value[i];
            Applied(SwapPatch(patch), Applied(patch, source).value) == Success(source) <==>
            Canonical(Splice(LinesOf(source), patch.hunks))
  {
    ParsedIsLineLike(payload);
    AppliedUndone(Parsed(payload).value[i], source);
  }
}
