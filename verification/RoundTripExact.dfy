/** Exactly when `parse_unified_diff` inverts `build_diff`. The "only if" half counts
    lines: a parse cannot return more than the payload holds. */
module RoundTripExact {
  import opened Wrappers
  import opened Text
  import opened Patches
  import opened DiffParser
  import opened DiffPrinter
  import opened DiffRoundTrip
  import opened ParserLaws

  function Unterminated(lines: seq<Line>): nat {
    if lines == [] then 0 else (if Terminated(lines[0]) then 0 else 1) + Unterminated(lines[1..])
  }

  lemma {:induction false} UnterminatedAppend(a: seq<Line>, b: seq<Line>)
    ensures Unterminated(a + b) == Unterminated(a) + Unterminated(b)
  {
    if a == [] {
      assert a + b == b;
    } else {
      assert (a + b)[1..] == a[1..] + b;
      UnterminatedAppend(a[1..], b);
    }
  }

  // ---- the fewest payload lines a result can come from ----

  /** One line, and one more for its marker when it lacks a newline. */
  function LineCost(line: HunkLine): nat {
    if Terminated(line.content) then 1 else 2
  }

  function BodyCost(lines: seq<HunkLine>): nat {
    if lines == [] then 0 else LineCost(lines[0]) + BodyCost(lines[1..])
  }

  function HunksCost(hunks: seq<Hunk>): nat {
    if hunks == [] then 0 else 1 + BodyCost(hunks[0].lines) + HunksCost(hunks[1..])
  }

  function FilesCost(ps: seq<FilePatch>): nat {
    if ps == [] then 0 else 2 + HunksCost(ps[0].hunks) + FilesCost(ps[1..])
  }

  lemma {:induction false} BodyCostAppend(a: seq<HunkLine>, b: seq<HunkLine>)
    ensures BodyCost(a + b) == BodyCost(a) + BodyCost(b)
  {
    if a == [] {
      assert a + b == b;
    } else {
      assert (a + b)[1..] == a[1..] + b;
      BodyCostAppend(a[1..], b);
    }
  }

  lemma {:induction false} HunksCostAppend(a: seq<Hunk>, b: seq<Hunk>)
    ensures HunksCost(a + b) == HunksCost(a) + HunksCost(b)
  {
    if a == [] {
      assert a + b == b;
    } else {
      assert (a + b)[1..] == a[1..] + b;
      HunksCostAppend(a[1..], b);
    }
  }

  lemma {:induction false} FilesCostAppend(a: seq<FilePatch>, b: seq<FilePatch>)
    ensures FilesCost(a + b) == FilesCost(a) + FilesCost(b)
  {
    if a == [] {
      assert a + b == b;
    } else {
      assert (a + b)[1..] == a[1..] + b;
      FilesCostAppend(a[1..], b);
    }
  }

  /** Lines consumed between `rest` and `tail`, unterminated ones counted twice. */
  ghost function Spent(rest: seq<Line>, tail: seq<Line>): int {
    |rest| + Unterminated(rest) - |tail| - Unterminated(tail)
  }

  lemma PushCost(b: Body, line: Line)
    requires line != "" && OpOf(line[0]).Some?
    ensures BodyCost(Push(b, OpOf(line[0]).value, line[1..]).lines)
         == BodyCost(b.lines) + if Terminated(line) then 1 else 2
  {
    var x := HunkLine(OpOf(line[0]).value, line[1..]);
    BodyCostAppend(b.lines, [x]);
    assert BodyCost([x]) == LineCost(x);
  }

  lemma StripCost(lines: seq<HunkLine>)
    requires lines != []
    ensures BodyCost(StripLast(lines)) <= BodyCost(lines) + 1
  {
    var n := |lines| - 1;
    var last := lines[n];
    var stripped := last.(content := RemoveNewline(last.content));
    assert lines == lines[..n] + [last];
    BodyCostAppend(lines[..n], [last]);
    BodyCostAppend(lines[..n], [stripped]);
    assert BodyCost([last]) == LineCost(last) && BodyCost([stripped]) == LineCost(stripped);
  }

  lemma {:induction false} BodySpends(rest: seq<Line>, oldCount: nat, newCount: nat, b: Body)
    ensures var r := ReadBody(rest, oldCount, newCount, b);
            r.Success? ==> BodyCost(r.value.0.lines) - BodyCost(b.lines) <= Spent(rest, r.value.1)
    decreases |rest|
  {
    if !(b.seenOld >= oldCount && b.seenNew >= newCount) && rest != [] {
      if IsMarker(rest[0]) {
        if b.lines != [] {
          StripCost(b.lines);
          BodySpends(rest[1..], oldCount, newCount, b.(lines := StripLast(b.lines)));
        }
      } else if rest[0] != "" && OpOf(rest[0][0]).Some? {
        PushCost(b, rest[0]);
        BodySpends(rest[1..], oldCount, newCount, Push(b, OpOf(rest[0][0]).value, rest[0][1..]));
      }
    }
  }

  lemma RestSpends(rest: seq<Line>, oldCount: nat, newCount: nat)
    ensures var r := ReadRest(rest, oldCount, newCount, EMPTY_BODY);
            r.Success? ==> BodyCost(r.value.0) <= Spent(rest, r.value.1)
  {
    BodySpends(rest, oldCount, newCount, EMPTY_BODY);
    var body := ReadBody(rest, oldCount, newCount, EMPTY_BODY);
    if body.Success? && body.value.0.lines != [] {
      StripCost(body.value.0.lines);
    }
  }

  lemma HunkReadsRest(rest: seq<Line>)
    requires rest != [] && ReadHunk(rest).Success?
    ensures var (h, tail) := ReadHunk(rest).value;
            ReadRest(rest[1..], h.oldCount, h.newCount, EMPTY_BODY) == Success((h.lines, tail))
  {
  }

  lemma HunkSpends(rest: seq<Line>)
    requires rest != [] && ReadHunk(rest).Success?
    ensures 1 + BodyCost(ReadHunk(rest).value.0.lines) <= Spent(rest, ReadHunk(rest).value.1)
  {
    var h := ReadHunk(rest).value.0;
    HunkReadsRest(rest);
    RestSpends(rest[1..], h.oldCount, h.newCount);
  }

  lemma {:induction false} HunksSpend(rest: seq<Line>, hunks: seq<Hunk>)
    ensures var r := ReadHunks(rest, hunks);
            r.Success? ==> HunksCost(r.value.0) - HunksCost(hunks) <= Spent(rest, r.value.1)
    decreases |rest|
  {
    if rest != [] && !IsOldHeader(rest[0]) {
      var h := ReadHunk(rest);
      if h.Success? {
        HunkSpends(rest);
        HunksCostAppend(hunks, [h.value.0]);
        HunksSpend(h.value.1, hunks + [h.value.0]);
      }
    }
  }

  lemma SpentTwo(rest: seq<Line>)
    requires |rest| >= 2
    ensures Spent(rest, rest[2..]) >= 2
  {
    assert rest == rest[..2] + rest[2..];
    UnterminatedAppend(rest[..2], rest[2..]);
  }

  lemma FileReadsHunks(rest: seq<Line>, seen: set<string>)
    requires rest != [] && ReadFile(rest, seen).Success?
    ensures |rest| >= 2
    ensures var (p, tail) := ReadFile(rest, seen).value; ReadHunks(rest[2..], []) == Success((p.hunks, tail))
  {
  }

  lemma FileSpends(rest: seq<Line>, seen: set<string>)
    requires rest != [] && ReadFile(rest, seen).Success?
    ensures 2 + HunksCost(ReadFile(rest, seen).value.0.hunks) <= Spent(rest, ReadFile(rest, seen).value.1)
  {
    FileReadsHunks(rest, seen);
    HunksSpend(rest[2..], []);
    SpentTwo(rest);
  }

  lemma {:induction false} FilesSpend(rest: seq<Line>, seen: set<string>, ps: seq<FilePatch>)
    ensures var r := ReadFiles(rest, seen, ps);
            r.Success? ==> FilesCost(r.value) - FilesCost(ps) <= |rest| + Unterminated(rest)
    decreases |rest|
  {
    if rest != [] {
      var f := ReadFile(rest, seen);
      if f.Success? {
        FileSpends(rest, seen);
        FilesCostAppend(ps, [f.value.0]);
        FilesSpend(f.value.1, seen + {f.value.0.path}, ps + [f.value.0]);
      }
    }
  }

  // ---- what the printer emits ----

  function Swallows(lines: seq<HunkLine>): nat {
    if lines == [] then 0 else (if Swallowed(lines[0]) then 1 else 0) + Swallows(lines[1..])
  }

  /** All the hunk lines of some files, in printing order. */
  function HunkLines(hunks: seq<Hunk>): seq<HunkLine> {
    if hunks == [] then [] else hunks[0].lines + HunkLines(hunks[1..])
  }

  function PrintedLines(ps: seq<FilePatch>): seq<HunkLine> {
    if ps == [] then [] else HunkLines(ps[0].hunks) + PrintedLines(ps[1..])
  }

  lemma {:induction false} SwallowsAppend(a: seq<HunkLine>, b: seq<HunkLine>)
    ensures Swallows(a + b) == Swallows(a) + Swallows(b)
  {
    if a == [] {
      assert a + b == b;
    } else {
      assert (a + b)[1..] == a[1..] + b;
      SwallowsAppend(a[1..], b);
    }
  }

  /** Printed lines: none holds an inner newline, and the only unterminated ones are
      those `build_diff` mistook for file headers. */
  ghost predicate Accounts(chunks: seq<string>, cost: nat, swallowed: nat) {
    && (forall i :: 0 <= i < |chunks| ==> IsLine(chunks[i]))
    && Unterminated(chunks) == swallowed
    && |chunks| + swallowed == cost
  }

  lemma AccountsAppend(a: seq<string>, ca: nat, sa: nat, b: seq<string>, cb: nat, sb: nat)
    requires Accounts(a, ca, sa) && Accounts(b, cb, sb)
    ensures Accounts(a + b, ca + cb, sa + sb)
  {
    UnterminatedAppend(a, b);
  }

  lemma LineAccounts(line: HunkLine)
    requires IsLine(line.content)
    ensures Accounts(Emit(RawLine(line)), LineCost(line), if Swallowed(line) then 1 else 0)
  {
    EmitCases(line);
    var raw := RawLine(line);
    assert Terminated(raw + "\n");
    MarkerIsLine();
    assert Unterminated([raw]) == if Terminated(raw) then 0 else 1;
    assert [raw + "\n", MARKER_LINE][1..] == [MARKER_LINE];
    assert Unterminated([MARKER_LINE]) == 0;
  }

  lemma MarkerIsLine()
    ensures IsLine(MARKER_LINE) && Terminated(MARKER_LINE)
  {
  }

  lemma {:induction false} BodyAccounts(lines: seq<HunkLine>)
    requires PlainLines(lines)
    ensures Accounts(EmitAll(RawBody(lines)), BodyCost(lines), Swallows(lines))
  {
    if lines != [] {
      LineAccounts(lines[0]);
      BodyAccounts(lines[1..]);
      AccountsAppend(Emit(RawLine(lines[0])), LineCost(lines[0]), if Swallowed(lines[0]) then 1 else 0,
                     EmitAll(RawBody(lines[1..])), BodyCost(lines[1..]), Swallows(lines[1..]));
      EmitBodyCons(lines, []);
      NoTail(EmitAll(RawBody(lines)));
      NoTail(EmitAll(RawBody(lines[1..])));
    }
  }

  lemma NoTail<T>(xs: seq<T>)
    ensures xs + [] == xs
  {
  }

  lemma HunkAccounts(h: Hunk)
    requires PlainHunk(h)
    ensures Accounts(EmitHunk(h), 1 + BodyCost(h.lines), Swallows(h.lines))
  {
    HeaderIsLine(h);
    assert [HunkHeader(h)][1..] == [];
    assert Accounts([HunkHeader(h)], 1, 0);
    BodyAccounts(h.lines);
    AccountsAppend([HunkHeader(h)], 1, 0, EmitAll(RawBody(h.lines)), BodyCost(h.lines), Swallows(h.lines));
  }

  lemma {:induction false} HunksAccount(hunks: seq<Hunk>)
    requires forall i :: 0 <= i < |hunks| ==> PlainHunk(hunks[i])
    ensures Accounts(EmitHunks(hunks), HunksCost(hunks), Swallows(HunkLines(hunks)))
  {
    if hunks != [] {
      var h := hunks[0];
      HunkAccounts(h);
      HunksAccount(hunks[1..]);
      AccountsAppend(EmitHunk(h), 1 + BodyCost(h.lines), Swallows(h.lines),
                     EmitHunks(hunks[1..]), HunksCost(hunks[1..]), Swallows(HunkLines(hunks[1..])));
      SwallowsAppend(h.lines, HunkLines(hunks[1..]));
    }
  }

  lemma NameIsLine(prefix: string, name: string)
    requires prefix in {OLD_HEADER, NEW_HEADER} && !HasControl(name)
    ensures IsLine(prefix + name + "\n") && Terminated(prefix + name + "\n")
  {
    var s := prefix + name + "\n";
    assert forall i :: 0 <= i < |s| - 1 ==> s[i] == if i < |prefix| then prefix[i] else name[i - |prefix|];
    assert prefix == OLD_HEADER || prefix == NEW_HEADER;
    assert '\n' !in OLD_HEADER && '\n' !in NEW_HEADER;
  }

  lemma FileAccounts(p: FilePatch)
    requires PlainPatch(p) && !HasControl(p.path)
    ensures Accounts(EmitFile(p), 2 + HunksCost(p.hunks), Swallows(HunkLines(p.hunks)))
  {
    NamesRead(p);
    NameIsLine(OLD_HEADER, OldName(p));
    NameIsLine(NEW_HEADER, NewName(p));
    TwoAccount(OLD_HEADER + OldName(p) + "\n", NEW_HEADER + NewName(p) + "\n");
    HunksAccount(p.hunks);
    AccountsAppend([OLD_HEADER + OldName(p) + "\n", NEW_HEADER + NewName(p) + "\n"], 2, 0,
                   EmitHunks(p.hunks), HunksCost(p.hunks), Swallows(HunkLines(p.hunks)));
  }

  lemma TwoAccount(a: Line, b: Line)
    requires IsLine(a) && Terminated(a) && IsLine(b) && Terminated(b)
    ensures Accounts([a, b], 2, 0)
  {
    assert [a, b] == [a] + [b];
    UnterminatedAppend([a], [b]);
    assert Unterminated([a]) == 0 && Unterminated([b]) == 0;
  }

  lemma {:induction false} FilesAccount(ps: seq<FilePatch>)
    requires PlainPatches(ps) && forall i :: 0 <= i < |ps| ==> !HasControl(ps[i].path)
    ensures Accounts(EmitFiles(ps), FilesCost(ps), Swallows(PrintedLines(ps)))
  {
    if ps != [] {
      FileAccounts(ps[0]);
      TailIsPlain(ps);
      FilesAccount(ps[1..]);
      AccountsCons(ps);
    }
  }

  lemma TailIsPlain(ps: seq<FilePatch>)
    requires ps != [] && PlainPatches(ps)
    ensures PlainPatch(ps[0]) && PlainPatches(ps[1..])
  {
  }

  lemma AccountsCons(ps: seq<FilePatch>)
    requires ps != []
    requires Accounts(EmitFile(ps[0]), 2 + HunksCost(ps[0].hunks), Swallows(HunkLines(ps[0].hunks)))
    requires Accounts(EmitFiles(ps[1..]), FilesCost(ps[1..]), Swallows(PrintedLines(ps[1..])))
    ensures Accounts(EmitFiles(ps), FilesCost(ps), Swallows(PrintedLines(ps)))
  {
    AccountsAppend(EmitFile(ps[0]), 2 + HunksCost(ps[0].hunks), Swallows(HunkLines(ps[0].hunks)),
                   EmitFiles(ps[1..]), FilesCost(ps[1..]), Swallows(PrintedLines(ps[1..])));
    SwallowsAppend(HunkLines(ps[0].hunks), PrintedLines(ps[1..]));
  }

  // ---- joining and splitting printed lines ----

  ghost function LastOpen(chunks: seq<string>): nat {
    if chunks != [] && !Terminated(chunks[|chunks| - 1]) then 1 else 0
  }

  /** Splitting yields `n` lines of which `u` are unterminated. */
  ghost predicate SplitsInto(text: string, n: int, u: nat) {
    |SplitLines(text)| == n && Unterminated(SplitLines(text)) == u
  }

  lemma SplitsCons(c: string, text: string, n: int, u: nat)
    requires IsLine(c) && text != "" && SplitsInto(text, n, u)
    ensures SplitsInto(c + text, if Terminated(c) then n + 1 else n, u)
  {
    if Terminated(c) {
      SplitCons(c, text);
    } else {
      PrefixMerges(c, text);
      var lines := SplitLines(text);
      assert lines[0] == text[..FirstLineLength(text)] && lines[0] != "";
      assert Terminated(c + lines[0]) == Terminated(lines[0]);
    }
  }

  lemma SplitsSingle(c: string)
    requires IsLine(c)
    ensures SplitsInto(c, 1, if Terminated(c) then 0 else 1)
  {
    SplitCons(c, "");
    assert c + "" == c && SplitLines("") == [];
    assert SplitLines(c) == [c];
  }

  /** Every unterminated chunk but the last disappears into its successor. */
  lemma {:induction false} SplitCounts(chunks: seq<string>)
    requires forall i :: 0 <= i < |chunks| ==> IsLine(chunks[i])
    ensures SplitsInto(Join(chunks), |chunks| - Unterminated(chunks) + LastOpen(chunks), LastOpen(chunks))
    decreases |chunks|
  {
    if |chunks| == 1 {
      SplitsSingle(chunks[0]);
      assert chunks[1..] == [];
      assert Join(chunks) == chunks[0] + "";
      assert chunks[0] + "" == chunks[0];
    } else if chunks != [] {
      var more := chunks[1..];
      SplitCounts(more);
      JoinNonEmpty(more);
      SplitsCons(chunks[0], Join(more), |more| - Unterminated(more) + LastOpen(more), LastOpen(more));
    }
  }

  lemma JoinNonEmpty(chunks: seq<string>)
    requires chunks != [] && IsLine(chunks[0])
    ensures Join(chunks) != ""
  {
  }

  // ---- the theorem ----

  /** No header-like unterminated line is followed by more output. */
  predicate NothingSwallowed(lines: seq<HunkLine>) {
    forall k :: 0 <= k < |lines| - 1 ==> !Swallowed(lines[k])
  }

  predicate CleanPaths(ps: seq<FilePatch>) {
    forall i :: 0 <= i < |ps| ==> !HasControl(ps[i].path)
  }

  ghost function LastSwallowed(lines: seq<HunkLine>): nat {
    if lines != [] && Swallowed(lines[|lines| - 1]) then 1 else 0
  }

  lemma {:induction false} SwallowsAtEnd(lines: seq<HunkLine>)
    ensures Swallows(lines) >= LastSwallowed(lines)
    ensures Swallows(lines) <= LastSwallowed(lines) <==> NothingSwallowed(lines)
  {
    if |lines| > 1 {
      var more := lines[1..];
      SwallowsAtEnd(more);
      assert NothingSwallowed(lines) <==> !Swallowed(lines[0]) && NothingSwallowed(more) by {
        assert forall k :: 0 <= k < |more| ==> more[k] == lines[k + 1];
        if !Swallowed(lines[0]) && NothingSwallowed(more) {
          forall k | 0 <= k < |lines| - 1 ensures !Swallowed(lines[k]) {
            if k > 0 { assert lines[k] == more[k - 1]; }
          }
        }
        if NothingSwallowed(lines) {
          forall k | 0 <= k < |more| - 1 ensures !Swallowed(more[k]) {
            assert more[k] == lines[k + 1];
          }
        }
      }
    } else if |lines| == 1 {
      assert lines[1..] == [];
    }
  }

  /** The last chunk printed is the last hunk line's, or that line's marker. */
  lemma {:induction false} LastOfBody(lines: seq<HunkLine>)
    requires PlainLines(lines) && lines != []
    ensures EmitAll(RawBody(lines)) != []
    ensures LastOpen(EmitAll(RawBody(lines))) == LastSwallowed(lines)
  {
    LineAccounts(lines[0]);
    EmitCases(lines[0]);
    MarkerIsLine();
    EmitBodyCons(lines, []);
    NoTail(EmitAll(RawBody(lines)));
    NoTail(EmitAll(RawBody(lines[1..])));
    if |lines| == 1 {
      assert RawBody(lines[1..]) == [];
      NoTail(Emit(RawLine(lines[0])));
    } else {
      LastOfBody(lines[1..]);
      LastAppend(Emit(RawLine(lines[0])), EmitAll(RawBody(lines[1..])));
    }
  }

  lemma LastAppend(a: seq<string>, b: seq<string>)
    requires b != []
    ensures LastOpen(a + b) == LastOpen(b)
  {
  }

  lemma {:induction false} LastOfHunks(hunks: seq<Hunk>)
    requires hunks != [] && forall i :: 0 <= i < |hunks| ==> PlainHunk(hunks[i])
    ensures EmitHunks(hunks) != [] && HunkLines(hunks) != []
    ensures LastOpen(EmitHunks(hunks)) == LastSwallowed(HunkLines(hunks))
  {
    var h := hunks[0];
    LastOfBody(h.lines);
    LastAppend([HunkHeader(h)], EmitAll(RawBody(h.lines)));
    if |hunks| == 1 {
      NoTail(EmitHunk(h));
      NoTail(h.lines);
      assert hunks[1..] == [];
    } else {
      LastOfHunks(hunks[1..]);
      LastAppend(EmitHunk(h), EmitHunks(hunks[1..]));
    }
  }

  lemma LastOfFile(p: FilePatch)
    requires PlainPatch(p)
    ensures EmitFile(p) != [] && HunkLines(p.hunks) != []
    ensures LastOpen(EmitFile(p)) == LastSwallowed(HunkLines(p.hunks))
  {
    LastOfHunks(p.hunks);
    LastAppend([OLD_HEADER + OldName(p) + "\n", NEW_HEADER + NewName(p) + "\n"], EmitHunks(p.hunks));
  }

  lemma LastOfTwo(a: seq<string>, b: seq<string>, la: seq<HunkLine>, lb: seq<HunkLine>)
    requires a != [] && la != [] && LastOpen(a) == LastSwallowed(la)
    requires b == [] <==> lb == []
    requires b != [] ==> LastOpen(b) == LastSwallowed(lb)
    ensures a + b != [] && la + lb != [] && LastOpen(a + b) == LastSwallowed(la + lb)
  {
    if b == [] {
      NoTail(a);
      NoTail(la);
    }
  }

  lemma {:induction false} LastOfFiles(ps: seq<FilePatch>)
    requires PlainPatches(ps) && ps != []
    ensures EmitFiles(ps) != [] && PrintedLines(ps) != []
    ensures LastOpen(EmitFiles(ps)) == LastSwallowed(PrintedLines(ps))
  {
    LastOfFile(ps[0]);
    if |ps| > 1 {
      LastOfFiles(ps[1..]);
    }
    LastOfTwo(EmitFile(ps[0]), EmitFiles(ps[1..]), HunkLines(ps[0].hunks), PrintedLines(ps[1..]));
  }

  /** The payload `build_diff` returns for these files. */
  function Payload(ps: seq<FilePatch>): string {
    Join(EmitFiles(ps))
  }

  lemma {:induction false} TerminatedButLast(chunks: seq<string>)
    requires forall i :: 0 <= i < |chunks| ==> IsLine(chunks[i])
    requires Unterminated(chunks) <= LastOpen(chunks)
    ensures Canonical(chunks)
    decreases |chunks|
  {
    if |chunks| > 1 {
      var more := chunks[1..];
      assert LastOpen(more) == LastOpen(chunks);
      UnterminatedAtLeast(more);
      TerminatedButLast(more);
      forall i | 0 <= i < |chunks| - 1 ensures Terminated(chunks[i]) {
        if i > 0 { assert chunks[i] == more[i - 1]; }
      }
    }
  }

  lemma {:induction false} UnterminatedAtLeast(chunks: seq<string>)
    ensures Unterminated(chunks) >= LastOpen(chunks)
  {
    if |chunks| == 1 {
    } else if chunks != [] {
      UnterminatedAtLeast(chunks[1..]);
    }
  }

  lemma RoundTripIf(ps: seq<FilePatch>)
    requires PlainPatches(ps) && ps != []
    requires CleanPaths(ps) && NothingSwallowed(PrintedLines(ps))
    ensures Parsed(Payload(ps)) == Success(ps)
  {
    PrintedIsCanonical(ps);
    JoinThenSplit(EmitFiles(ps));
    JoinNonEmpty(EmitFiles(ps));
    FilesRead(ps, {}, []);
    assert [] + ps == ps;
  }

  lemma PrintedIsCanonical(ps: seq<FilePatch>)
    requires PlainPatches(ps) && ps != []
    requires CleanPaths(ps) && NothingSwallowed(PrintedLines(ps))
    ensures EmitFiles(ps) != [] && Canonical(EmitFiles(ps))
  {
    FilesAccount(ps);
    SwallowsAtEnd(PrintedLines(ps));
    LastOfFiles(ps);
    TerminatedButLast(EmitFiles(ps));
  }

  /** The counting argument: a result costs at most what its payload holds. */
  lemma ParsedCost(payload: string)
    requires Parsed(payload).Success?
    ensures FilesCost(Parsed(payload).value) <= |SplitLines(payload)| + Unterminated(SplitLines(payload))
  {
    FilesSpend(SplitLines(payload), {}, []);
  }

  lemma RoundTripOnlyIf(ps: seq<FilePatch>)
    requires PlainPatches(ps) && ps != []
    requires Parsed(Payload(ps)) == Success(ps)
    ensures CleanPaths(ps) && NothingSwallowed(PrintedLines(ps))
  {
    ParserIsSound(Payload(ps));
    assert CleanPaths(ps);
    FilesAccount(ps);
    var chunks := EmitFiles(ps);
    SplitCounts(chunks);
    ParsedCost(Payload(ps));
    assert |chunks| + Swallows(PrintedLines(ps)) <= |chunks| - Unterminated(chunks) + 2 * LastOpen(chunks);
    LastOfFiles(ps);
    SwallowsAtEnd(PrintedLines(ps));
  }

  /** Printing files and parsing the result returns the same patches exactly when no
      path holds a control character and no unterminated `-- `/`++ ` line is followed
      by more output. */
  lemma RoundTrip(ps: seq<FilePatch>)
    requires PlainPatches(ps) && ps != []
    ensures Parsed(Payload(ps)) == Success(ps) <==> CleanPaths(ps) && NothingSwallowed(PrintedLines(ps))
  {
    if CleanPaths(ps) && NothingSwallowed(PrintedLines(ps)) {
      RoundTripIf(ps);
    }
    if Parsed(Payload(ps)) == Success(ps) {
      RoundTripOnlyIf(ps);
    }
  }
}
