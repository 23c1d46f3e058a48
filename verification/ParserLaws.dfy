/** What `parse_unified_diff` promises about everything it returns. */
module ParserLaws {
  import opened Wrappers
  import opened Text
  import opened Paths
  import opened Patches
  import opened DiffParser

  // ---- counts ----

  lemma {:induction false} OldSideAppend(a: seq<HunkLine>, b: seq<HunkLine>)
    ensures OldSide(a + b) == OldSide(a) + OldSide(b)
    ensures NewSide(a + b) == NewSide(a) + NewSide(b)
  {
    if a == [] {
      assert a + b == b;
    } else {
      OldSideAppend(a[1..], b);
      assert (a + b)[1..] == a[1..] + b && (a + b)[0] == a[0];
      var x := if a[0].op == Insert then [] else [a[0].content];
      var y := if a[0].op == Delete then [] else [a[0].content];
      ConcatAssoc(x, OldSide(a[1..]), OldSide(b));
      ConcatAssoc(y, NewSide(a[1..]), NewSide(b));
    }
  }

  /** The counters of the inner loop count the lines collected so far. */
  predicate Counted(b: Body) {
    b.seenOld == |OldSide(b.lines)| && b.seenNew == |NewSide(b.lines)|
  }

  lemma PushCounts(b: Body, op: Op, content: string)
    requires Counted(b)
    ensures Counted(Push(b, op, content))
  {
    OldSideAppend(b.lines, [HunkLine(op, content)]);
    assert OldSide([HunkLine(op, content)]) == if op == Insert then [] else [content];
    assert NewSide([HunkLine(op, content)]) == if op == Delete then [] else [content];
  }

  lemma StripCounts(lines: seq<HunkLine>)
    requires lines != []
    ensures |OldSide(StripLast(lines))| == |OldSide(lines)|
    ensures |NewSide(StripLast(lines))| == |NewSide(lines)|
  {
    var n := |lines| - 1;
    var last := lines[n];
    var stripped := last.(content := RemoveNewline(last.content));
    assert lines == lines[..n] + [last];
    OldSideAppend(lines[..n], [last]);
    OldSideAppend(lines[..n], [stripped]);
    assert |OldSide([last])| == |OldSide([stripped])| && |NewSide([last])| == |NewSide([stripped])|;
  }

  /** The inner loop ends with exactly the declared counts. */
  lemma {:induction false} BodyCounts(rest: seq<Line>, oldCount: nat, newCount: nat, b: Body)
    requires Counted(b) && b.seenOld <= oldCount && b.seenNew <= newCount
    ensures var r := ReadBody(rest, oldCount, newCount, b);
            r.Success? ==> Counted(r.value.0) && r.value.0.seenOld == oldCount && r.value.0.seenNew == newCount
    decreases |rest|
  {
    if b.seenOld >= oldCount && b.seenNew >= newCount {
    } else if rest != [] {
      if IsMarker(rest[0]) {
        if b.lines != [] {
          StripCounts(b.lines);
          BodyCounts(rest[1..], oldCount, newCount, b.(lines := StripLast(b.lines)));
        }
      } else if rest[0] != "" && OpOf(rest[0][0]).Some? {
        var op := OpOf(rest[0][0]).value;
        PushCounts(b, op, rest[0][1..]);
        var next := Push(b, op, rest[0][1..]);
        if next.seenOld <= oldCount && next.seenNew <= newCount {
          BodyCounts(rest[1..], oldCount, newCount, next);
        }
      }
    }
  }

  lemma {:induction false} BodyErrors(rest: seq<Line>, oldCount: nat, newCount: nat, b: Body)
    ensures var r := ReadBody(rest, oldCount, newCount, b);
            r.Failure? ==> r.error in {HunkEndedEarly, MarkerBeforeLine, InvalidHunkLine, MoreLinesThanDeclared}
    decreases |rest|
  {
    if !(b.seenOld >= oldCount && b.seenNew >= newCount) && rest != [] {
      if IsMarker(rest[0]) {
        if b.lines != [] {
          BodyErrors(rest[1..], oldCount, newCount, b.(lines := StripLast(b.lines)));
        }
      } else if rest[0] != "" && OpOf(rest[0][0]).Some? {
        BodyErrors(rest[1..], oldCount, newCount, Push(b, OpOf(rest[0][0]).value, rest[0][1..]));
      }
    }
  }

  /** The one input shape on which an `IndexError` escapes instead of a `PatchError`. */
  predicate EmptyHunkThenMarker(rest: seq<Line>) {
    && |rest| >= 2
    && ReadHunkHeader(rest[0]).Some?
    && ReadHunkHeader(rest[0]).value.0.count == 0
    && ReadHunkHeader(rest[0]).value.1.count == 0
    && IsMarker(rest[1])
  }

  /** After a complete body: the optional marker keeps the counts, and fails exactly when
      there is no line for it. */
  lemma TrailingCounts(b: Body, rest: seq<Line>)
    requires Counted(b)
    ensures var r := ReadTrailingMarker(b, rest);
            && (r.Success? ==> |OldSide(r.value.0)| == b.seenOld && |NewSide(r.value.0)| == b.seenNew)
            && (r.Failure? ==> r.error == MarkerAfterEmptyHunk)
            && (r.Failure? <==> b.lines == [] && rest != [] && IsMarker(rest[0]))
  {
    if b.lines != [] { StripCounts(b.lines); }
  }

  lemma EmptyBodyCounts(b: Body)
    requires Counted(b)
    ensures b.lines == [] <==> b.seenOld == 0 && b.seenNew == 0
  {
    if b.lines != [] { assert b.lines == [b.lines[0]] + b.lines[1..]; }
  }

  /** A body that was read, and what the rest of the hunk makes of it. */
  lemma HunkOfBody(rest: seq<Line>, a: Range, c: Range, b: Body, rest1: seq<Line>)
    requires rest != [] && ReadHunkHeader(rest[0]) == Some((a, c))
    requires ReadBody(rest[1..], a.count, c.count, EMPTY_BODY) == Success((b, rest1))
    requires Counted(b) && b.seenOld == a.count && b.seenNew == c.count
    ensures ReadHunk(rest).Success? ==> CountsMatch(ReadHunk(rest).value.0)
    ensures ReadHunk(rest) != Failure(CountMismatch)
    ensures ReadHunk(rest) == Failure(MarkerAfterEmptyHunk) <==> b.lines == [] && rest1 != [] && IsMarker(rest1[0])
  {
    TrailingCounts(b, rest1);
  }

  lemma HunkWithoutBody(rest: seq<Line>, a: Range, c: Range)
    requires rest != [] && ReadHunkHeader(rest[0]) == Some((a, c))
    requires ReadBody(rest[1..], a.count, c.count, EMPTY_BODY).Failure?
    ensures ReadHunk(rest) == Failure(ReadBody(rest[1..], a.count, c.count, EMPTY_BODY).error)
  {
  }

  lemma NothingToRead(rest: seq<Line>)
    ensures ReadBody(rest, 0, 0, EMPTY_BODY) == Success((EMPTY_BODY, rest))
  {
  }

  /** A hunk is returned with exactly its declared counts, so the final count check
      never fires; and the unguarded index fails exactly on an empty hunk followed by
      a newline marker. */
  lemma HunkCounts(rest: seq<Line>)
    requires rest != []
    ensures ReadHunk(rest).Success? ==> CountsMatch(ReadHunk(rest).value.0)
    ensures ReadHunk(rest) != Failure(CountMismatch)
    ensures ReadHunk(rest) == Failure(MarkerAfterEmptyHunk) <==> EmptyHunkThenMarker(rest)
  {
    match ReadHunkHeader(rest[0]) {
      case None =>
      case Some((a, c)) =>
        BodyCounts(rest[1..], a.count, c.count, EMPTY_BODY);
        BodyErrors(rest[1..], a.count, c.count, EMPTY_BODY);
        NothingToRead(rest[1..]);
        var body := ReadBody(rest[1..], a.count, c.count, EMPTY_BODY);
        if body.Success? {
          EmptyBodyCounts(body.value.0);
          HunkOfBody(rest, a, c, body.value.0, body.value.1);
        } else {
          HunkWithoutBody(rest, a, c);
        }
    }
  }

  // ---- whole results ----

  /** Everything the code guarantees of one parsed file. */
  ghost predicate SoundPatch(p: FilePatch) {
    && CanonicalPath(p.path)
    && !HasControl(p.path)
    && p.hunks != []
    && (forall i :: 0 <= i < |p.hunks| ==> CountsMatch(p.hunks[i]))
    && (p.operation == Create ==> forall i :: 0 <= i < |p.hunks| ==> p.hunks[i].oldCount == 0)
    && (p.operation == Remove ==> forall i :: 0 <= i < |p.hunks| ==> p.hunks[i].newCount == 0)
  }

  ghost predicate SoundPatches(patches: seq<FilePatch>) {
    && (forall i :: 0 <= i < |patches| ==> SoundPatch(patches[i]))
    && (forall i, j :: 0 <= i < j < |patches| ==> patches[i].path != patches[j].path)
  }

  lemma {:induction false} HunksAreSound(rest: seq<Line>, hunks: seq<Hunk>)
    requires AllCounted(hunks)
    ensures ReadHunks(rest, hunks).Success? ==> AllCounted(ReadHunks(rest, hunks).value.0)
    ensures ReadHunks(rest, hunks) != Failure(CountMismatch)
    decreases |rest|
  {
    if rest != [] && !IsOldHeader(rest[0]) {
      HunkCounts(rest);
      var h := ReadHunk(rest);
      if h.Success? {
        CountedSnoc(hunks, h.value.0);
        HunksAreSound(h.value.1, hunks + [h.value.0]);
      }
    }
  }

  predicate AllCounted(hunks: seq<Hunk>) {
    forall i :: 0 <= i < |hunks| ==> CountsMatch(hunks[i])
  }

  lemma CountedSnoc(hunks: seq<Hunk>, h: Hunk)
    requires AllCounted(hunks) && CountsMatch(h)
    ensures AllCounted(hunks + [h])
  {
  }

  lemma {:induction false} JoinSlashChars(parts: seq<string>)
    ensures forall c :: c in JoinSlash(parts) ==> c == '/' || exists part :: part in parts && c in part
  {
    if |parts| > 1 {
      JoinSlashChars(parts[1..]);
    }
  }

  lemma {:induction false} ComponentChars(s: string)
    ensures forall part, c :: part in Components(s) && c in part ==> c in s
    decreases |s|
  {
    if s != "" {
      var n := SegmentLength(s);
      if n < |s| {
        ComponentChars(s[n + 1..]);
      }
    }
  }

  lemma NormalPathIsClean(path: string)
    requires !HasControl(path)
    ensures NormalPath(path).Success? ==> CanonicalPath(NormalPath(path).value) && !HasControl(NormalPath(path).value)
  {
    if NormalPath(path).Success? {
      NormalisedIsCanonical(path);
      ComponentChars(path);
      JoinSlashChars(Components(path));
      var normal := NormalPath(path).value;
      forall i | 0 <= i < |normal| ensures normal[i] >= ' ' {
        assert normal[i] in normal;
        if normal[i] != '/' {
          assert normal[i] in path;
        }
      }
    }
  }

  lemma HeadersAreClean(rest: seq<Line>)
    requires rest != []
    ensures var r := ReadHeaders(rest);
            && (r.Success? ==> CanonicalPath(r.value.0) && !HasControl(r.value.0))
            && r != Failure(CountMismatch) && r != Failure(MarkerAfterEmptyHunk)
  {
    if IsOldHeader(rest[0]) && |rest| >= 2 && IsNewHeader(rest[1]) {
      var a, b := HeaderPath(rest[0], OLD_HEADER), HeaderPath(rest[1], NEW_HEADER);
      if a.Success? && b.Success? {
        NormalizeIsClean(a.value, b.value);
      }
    }
  }

  lemma TailHasNoControl(s: string, n: nat)
    requires n <= |s| && !HasControl(s)
    ensures !HasControl(s[n..])
  {
  }

  lemma NormalizeIsClean(oldPath: string, newPath: string)
    requires !HasControl(oldPath) && !HasControl(newPath)
    ensures var r := NormalizeFilePaths(oldPath, newPath);
            && (r.Success? ==> CanonicalPath(r.value.0) && !HasControl(r.value.0))
            && (r.Failure? ==> r.error in {BadPrefix, RenameUnsupported, PathEscapes, PathNamesNoFile})
  {
    if |oldPath| >= 2 { TailHasNoControl(oldPath, 2); NormalPathIsClean(oldPath[2..]); }
    if |newPath| >= 2 { TailHasNoControl(newPath, 2); NormalPathIsClean(newPath[2..]); }
  }

  lemma CheckIsSound(path: string, operation: Operation, hunks: seq<Hunk>)
    requires CanonicalPath(path) && !HasControl(path)
    requires AllCounted(hunks)
    ensures var r := CheckHunks(path, operation, hunks);
            && (r.Success? ==> SoundPatch(r.value) && r.value.path == path)
            && (r.Failure? ==> r.error in {NoHunks, CreateConsumesLines, DeleteProducesLines})
  {
  }

  lemma FileIsSound(rest: seq<Line>, seen: set<string>)
    requires rest != []
    ensures var r := ReadFile(rest, seen);
            && (r.Success? ==> SoundPatch(r.value.0) && r.value.0.path !in seen && |r.value.1| < |rest|)
            && r != Failure(CountMismatch)
  {
    HeadersAreClean(rest);
    var headers := ReadHeaders(rest);
    if headers.Success? && headers.value.0 !in seen {
      HunksAreSound(rest[2..], []);
      var hunks := ReadHunks(rest[2..], []);
      if hunks.Success? {
        CheckIsSound(headers.value.0, headers.value.1, hunks.value.0);
      }
    }
  }

  predicate AllSeen(patches: seq<FilePatch>, seen: set<string>) {
    forall i :: 0 <= i < |patches| ==> patches[i].path in seen
  }

  lemma {:induction false} FilesAreSound(rest: seq<Line>, seen: set<string>, patches: seq<FilePatch>)
    requires SoundPatches(patches) && AllSeen(patches, seen)
    ensures ReadFiles(rest, seen, patches).Success? ==> SoundPatches(ReadFiles(rest, seen, patches).value)
    ensures ReadFiles(rest, seen, patches) != Failure(CountMismatch)
    decreases |rest|
  {
    if rest != [] {
      FileIsSound(rest, seen);
      var f := ReadFile(rest, seen);
      if f.Success? {
        SoundSnoc(patches, seen, f.value.0);
        FilesAreSound(f.value.1, seen + {f.value.0.path}, patches + [f.value.0]);
      }
    }
  }

  lemma SoundSnoc(patches: seq<FilePatch>, seen: set<string>, p: FilePatch)
    requires SoundPatches(patches) && AllSeen(patches, seen) && SoundPatch(p) && p.path !in seen
    ensures SoundPatches(patches + [p]) && AllSeen(patches + [p], seen + {p.path})
  {
  }

  // ---- when a payload escapes ----

  /** Reading the hunks of a file from `rest` on, the parser comes to look for a hunk
      header at `at`. */
  ghost predicate HunkAt(rest: seq<Line>, at: seq<Line>)
    decreases |rest|
  {
    && rest != [] && !IsOldHeader(rest[0])
    && (at == rest || (ReadHunk(rest).Success? && HunkAt(ReadHunk(rest).value.1, at)))
  }

  /** The same, reading whole files from `rest` on. */
  ghost predicate FileAt(rest: seq<Line>, seen: set<string>, at: seq<Line>)
    decreases |rest|
  {
    && rest != []
    && (var headers := ReadHeaders(rest);
        headers.Success? && headers.value.0 !in seen
        && (HunkAt(rest[2..], at)
            || (var f := ReadFile(rest, seen);
                f.Success? && FileAt(f.value.1, seen + {f.value.0.path}, at))))
  }

  lemma {:induction false} HunksEscape(rest: seq<Line>, hunks: seq<Hunk>)
    ensures ReadHunks(rest, hunks) == Failure(MarkerAfterEmptyHunk) <==>
            exists at :: HunkAt(rest, at) && EmptyHunkThenMarker(at)
    decreases |rest|
  {
    if rest != [] && !IsOldHeader(rest[0]) {
      HunkCounts(rest);
      assert HunkAt(rest, rest);
      var h := ReadHunk(rest);
      if h.Success? {
        HunksEscape(h.value.1, hunks + [h.value.0]);
        forall at | HunkAt(h.value.1, at) ensures HunkAt(rest, at) {}
      }
    }
  }

  lemma FileEscapes(rest: seq<Line>, seen: set<string>)
    requires rest != []
    ensures ReadFile(rest, seen) == Failure(MarkerAfterEmptyHunk) <==>
            && ReadHeaders(rest).Success? && ReadHeaders(rest).value.0 !in seen
            && exists at :: HunkAt(rest[2..], at) && EmptyHunkThenMarker(at)
  {
    FileFailsInHunks(rest, seen);
    if ReadHeaders(rest).Success? { HunksEscape(rest[2..], []); }
  }

  lemma FileFailsInHunks(rest: seq<Line>, seen: set<string>)
    requires rest != []
    ensures ReadFile(rest, seen) == Failure(MarkerAfterEmptyHunk) <==>
            && ReadHeaders(rest).Success? && ReadHeaders(rest).value.0 !in seen
            && ReadHunks(rest[2..], []) == Failure(MarkerAfterEmptyHunk)
  {
    HeadersAreClean(rest);
    var headers := ReadHeaders(rest);
    if headers.Success? && headers.value.0 !in seen {
      var hunks := ReadHunks(rest[2..], []);
      FileOfHunks(rest, seen, headers.value, hunks);
    }
  }

  /** Once its hunks are read, a file fails only in the checks on them. */
  lemma FileOfHunks(rest: seq<Line>, seen: set<string>, headers: (string, Operation),
                    hunks: Result<(seq<Hunk>, seq<Line>), ParseError>)
    requires rest != [] && ReadHeaders(rest) == Success(headers) && headers.0 !in seen
    requires |rest| >= 2 && hunks == ReadHunks(rest[2..], [])
    ensures hunks.Failure? ==> ReadFile(rest, seen) == Failure(hunks.error)
    ensures hunks.Success? ==> ReadFile(rest, seen) != Failure(MarkerAfterEmptyHunk)
  {
  }

  lemma {:induction false} FilesEscape(rest: seq<Line>, seen: set<string>, patches: seq<FilePatch>)
    ensures ReadFiles(rest, seen, patches) == Failure(MarkerAfterEmptyHunk) <==>
            exists at :: FileAt(rest, seen, at) && EmptyHunkThenMarker(at)
    decreases |rest|
  {
    if rest != [] {
      FileEscapes(rest, seen);
      var f := ReadFile(rest, seen);
      if f.Success? {
        FilesEscape(f.value.1, seen + {f.value.0.path}, patches + [f.value.0]);
        forall at | FileAt(f.value.1, seen + {f.value.0.path}, at) ensures FileAt(rest, seen, at) {}
      }
    }
  }

  /** A payload escapes as an index error exactly when the parser comes to look for a hunk
      where a 0,0 hunk header and a newline marker stand. */
  lemma PayloadEscapes(payload: string)
    ensures Parsed(payload) == Failure(MarkerAfterEmptyHunk) <==>
            exists at :: FileAt(SplitLines(payload), {}, at) && EmptyHunkThenMarker(at)
  {
    FilesEscape(SplitLines(payload), {}, []);
  }

  /** Parser soundness: every returned file is sound and no path occurs twice; the final
      count check is dead; and it is an index error, not a `PatchError`, exactly where a
      0,0 hunk is followed by a newline marker. */
  lemma ParserIsSound(payload: string)
    ensures Parsed(payload).Success? ==> Parsed(payload).value != [] && SoundPatches(Parsed(payload).value)
    ensures Parsed(payload) != Failure(CountMismatch)
    ensures Parsed(payload) == Failure(MarkerAfterEmptyHunk) <==>
            exists at :: FileAt(SplitLines(payload), {}, at) && EmptyHunkThenMarker(at)
  {
    PayloadEscapes(payload);
    if payload != "" {
      FilesAreSound(SplitLines(payload), {}, []);
      var rest := SplitLines(payload);
      var f := ReadFile(rest, {});
      if f.Success? {
        FilesGrow(f.value.1, {} + {f.value.0.path}, [] + [f.value.0]);
      }
    }
  }

  lemma {:induction false} FilesGrow(rest: seq<Line>, seen: set<string>, patches: seq<FilePatch>)
    ensures var r := ReadFiles(rest, seen, patches); r.Success? ==> |r.value| >= |patches|
    decreases |rest|
  {
    if rest != [] {
      var f := ReadFile(rest, seen);
      if f.Success? {
        FilesGrow(f.value.1, seen + {f.value.0.path}, patches + [f.value.0]);
      }
    }
  }
}
