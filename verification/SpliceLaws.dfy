/** `FilePatch.apply` against its declarative meaning: it succeeds exactly on
    applicable hunks, computes the splice, and can be undone. */
module SpliceLaws {
  import opened Wrappers
  import opened Text
  import opened Patches

  lemma {:induction false} ApplySnoc(source: seq<Line>, hunks: seq<Hunk>, h: Hunk, c: Cursor)
    requires c.at <= |source|
    ensures ApplyHunks(source, hunks + [h], c) ==
            match ApplyHunks(source, hunks, c)
            case Failure(e) => Failure(e)
            case Success(mid) => ApplyHunk(source, h, mid)
  {
    ApplyBodyStays(source, h, c);
    if hunks == [] {
      assert hunks + [h] == [h];
    } else {
      assert (hunks + [h])[1..] == hunks[1..] + [h];
      ApplyBodyStays(source, hunks[0], c);
      var next := ApplyHunk(source, hunks[0], c);
      if next.Success? {
        ApplySnoc(source, hunks[1..], h, next.value);
      }
    }
  }

  lemma ApplicableSnoc(source: seq<Line>, hunks: seq<Hunk>, h: Hunk)
    ensures Applicable(source, hunks + [h]) <==>
            && Applicable(source, hunks)
            && Matches(source, h, OldEnd(hunks))
            && NewPos(h) == OldPos(h) + Shift(hunks)
  {
    assert (hunks + [h])[..|hunks|] == hunks;
  }

  ghost predicate TakesAt(source: seq<Line>, hunks: seq<Hunk>, i: nat)
    requires i < |hunks|
  {
    && Matches(source, hunks[i], OldEnd(hunks[..i]))
    && NewPos(hunks[i]) == OldPos(hunks[i]) + Shift(hunks[..i])
  }

  /** Applicability, hunk by hunk: ordered, disjoint, in range, matching, and shifted. */
  lemma {:induction false} ApplicableEverywhere(source: seq<Line>, hunks: seq<Hunk>)
    ensures Applicable(source, hunks) <==> forall i :: 0 <= i < |hunks| ==> TakesAt(source, hunks, i)
    decreases |hunks|
  {
    if hunks != [] {
      var n := |hunks| - 1;
      var init := hunks[..n];
      ApplicableEverywhere(source, init);
      forall i | 0 <= i < n
        ensures TakesAt(source, init, i) <==> TakesAt(source, hunks, i)
      {
        assert init[i] == hunks[i] && init[..i] == hunks[..i];
      }
      assert Applicable(source, hunks) <==> Applicable(source, init) && TakesAt(source, hunks, n);
    }
  }

  /** Where the machine stands after applicable hunks. */
  ghost predicate StandsAt(source: seq<Line>, hunks: seq<Hunk>, c: Cursor) {
    && 0 <= OldEnd(hunks) == c.at <= |source|
    && |c.output| == OldEnd(hunks) + Shift(hunks)
    && forall p {:trigger source[..p]} :: c.at <= p <= |source| ==>
         Splice(source[..p], hunks) == c.output + source[c.at..p]
  }

  lemma StepSplice(source: seq<Line>, init: seq<Hunk>, h: Hunk, c: Cursor, next: Cursor)
    requires StandsAt(source, init, c)
    requires Matches(source, h, OldEnd(init))
    requires next == Cursor(OldPos(h) + |OldSide(h.lines)|,
                            c.output + source[c.at..OldPos(h)] + NewSide(h.lines))
    ensures StandsAt(source, init + [h], next)
  {
    var hunks := init + [h];
    assert hunks[..|init|] == init;
    var s, e := OldPos(h), next.at;
    forall p | e <= p <= |source|
      ensures Splice(source[..p], hunks) == next.output + source[e..p]
    {
      assert source[..p][..s] == source[..s];
      assert source[..p][e..] == source[e..p];
      assert Splice(source[..s], init) == c.output + source[c.at..s];
    }
  }

  /** One hunk: the machine takes it exactly when it matches at the shifted position. */
  lemma MachineStep(source: seq<Line>, init: seq<Hunk>, h: Hunk, c: Cursor)
    requires StandsAt(source, init, c)
    ensures ApplyHunk(source, h, c).Success? <==>
              Matches(source, h, OldEnd(init)) && NewPos(h) == OldPos(h) + Shift(init)
    ensures ApplyHunk(source, h, c).Success? ==>
              StandsAt(source, init + [h], ApplyHunk(source, h, c).value)
  {
    var s := OldPos(h);
    if c.at <= s <= |source| {
      var output := c.output + source[c.at..s];
      ApplyBodyIs(source, h.lines, Cursor(s, output));
      if Matches(source, h, c.at) {
        StepSplice(source, init, h, c, Cursor(s + |OldSide(h.lines)|, output + NewSide(h.lines)));
      }
    }
  }

  /** The machine and the predicate agree on every list of hunks. */
  lemma {:induction false} MachineMeetsSplice(source: seq<Line>, hunks: seq<Hunk>)
    ensures ApplyHunks(source, hunks, Cursor(0, [])).Success? <==> Applicable(source, hunks)
    ensures Applicable(source, hunks) ==>
              StandsAt(source, hunks, ApplyHunks(source, hunks, Cursor(0, [])).value)
    decreases |hunks|
  {
    if hunks == [] {
      assert forall p {:trigger source[..p]} :: 0 <= p <= |source| ==> source[..p] == [] + source[0..p];
    } else {
      var n := |hunks| - 1;
      var init, h := hunks[..n], hunks[n];
      assert hunks == init + [h];
      MachineMeetsSplice(source, init);
      ApplySnoc(source, init, h, Cursor(0, []));
      ApplicableSnoc(source, init, h);
      var ran := ApplyHunks(source, init, Cursor(0, []));
      if ran.Success? {
        MachineStep(source, init, h, ran.value);
      }
    }
  }

  /** Success is exactly applicability, and the result is the splice. */
  lemma ApplyIsSplice(source: seq<Line>, hunks: seq<Hunk>)
    ensures ApplyLines(source, hunks).Success? <==> Applicable(source, hunks)
    ensures Applicable(source, hunks) ==> ApplyLines(source, hunks).value == Splice(source, hunks)
  {
    MachineMeetsSplice(source, hunks);
    assert source[..|source|] == source;
  }

  // ---- undoing a patch ----

  function SwapLine(line: HunkLine): HunkLine {
    match line.op
    case Context => line
    case Insert => line.(op := Delete)
    case Delete => line.(op := Insert)
  }

  function SwapLines(lines: seq<HunkLine>): (r: seq<HunkLine>)
    ensures |r| == |lines|
  {
    if lines == [] then [] else [SwapLine(lines[0])] + SwapLines(lines[1..])
  }

  /** Exchange + with - and the old range with the new one. */
  function SwapHunk(h: Hunk): Hunk {
    Hunk(h.newStart, h.newCount, h.oldStart, h.oldCount, SwapLines(h.lines))
  }

  function SwapHunks(hunks: seq<Hunk>): (r: seq<Hunk>)
    ensures |r| == |hunks|
    ensures forall i :: 0 <= i < |r| ==> r[i] == SwapHunk(hunks[i])
  {
    seq(|hunks|, i requires 0 <= i < |hunks| => SwapHunk(hunks[i]))
  }

  lemma {:induction false} SwapSides(lines: seq<HunkLine>)
    ensures OldSide(SwapLines(lines)) == NewSide(lines)
    ensures NewSide(SwapLines(lines)) == OldSide(lines)
  {
    if lines != [] {
      SwapSides(lines[1..]);
      assert SwapLines(lines)[1..] == SwapLines(lines[1..]);
    }
  }

  lemma {:induction false} SwapShift(hunks: seq<Hunk>)
    ensures Shift(SwapHunks(hunks)) == -Shift(hunks)
    decreases |hunks|
  {
    if hunks != [] {
      var n := |hunks| - 1;
      SwapSides(hunks[n].lines);
      SwapShift(hunks[..n]);
      assert SwapHunks(hunks)[..n] == SwapHunks(hunks[..n]);
    }
  }

  /** Applicability to a source only looks at the part the hunks reach. */
  lemma {:induction false} ApplicablePrefix(source: seq<Line>, other: seq<Line>, hunks: seq<Hunk>)
    requires Applicable(source, hunks)
    requires OldEnd(hunks) <= |other|
    requires forall k :: 0 <= k < OldEnd(hunks) && k < |source| ==> other[k] == source[k]
    ensures Applicable(other, hunks)
    decreases |hunks|
  {
    if hunks != [] {
      var n := |hunks| - 1;
      var init, h := hunks[..n], hunks[n];
      ApplicablePrefix(source, other, init);
      MatchesPrefix(source, other, h, OldEnd(init));
    }
  }

  lemma MatchesPrefix(source: seq<Line>, other: seq<Line>, h: Hunk, from: int)
    requires Matches(source, h, from)
    requires OldPos(h) + |OldSide(h.lines)| <= |other|
    requires forall k :: 0 <= k < OldPos(h) + |OldSide(h.lines)| ==> other[k] == source[k]
    ensures Matches(other, h, from)
  {
    var s, e := OldPos(h), OldPos(h) + |OldSide(h.lines)|;
    assert source[s..e] == other[s..e];
  }

  /** `undo` takes `out` back to `source`. */
  ghost predicate Undoes(source: seq<Line>, hunks: seq<Hunk>, out: seq<Line>, undo: seq<Hunk>) {
    && Applicable(out, undo)
    && Splice(out, undo) == source
    && OldEnd(undo) == OldEnd(hunks) + Shift(hunks)
    && |out| == |source| + Shift(hunks)
  }

  lemma EndSnoc(hunks: seq<Hunk>, h: Hunk)
    ensures OldEnd(hunks + [h]) == OldPos(h) + |OldSide(h.lines)|
    ensures Shift(hunks + [h]) == Shift(hunks) + |NewSide(h.lines)| - |OldSide(h.lines)|
  {
    assert (hunks + [h])[..|hunks|] == hunks;
  }

  lemma SpliceSnoc(source: seq<Line>, hunks: seq<Hunk>, h: Hunk)
    requires 0 <= OldPos(h) && OldPos(h) + |OldSide(h.lines)| <= |source|
    ensures Splice(source, hunks + [h]) ==
            Splice(source[..OldPos(h)], hunks) + NewSide(h.lines) + source[OldPos(h) + |OldSide(h.lines)|..]
  {
    var all := hunks + [h];
    var n := |hunks|;
    assert |all| - 1 == n && all[..n] == hunks && all[n] == h;
  }

  lemma Pieces(head: seq<Line>, mid: seq<Line>, tail: seq<Line>)
    ensures var out := head + mid + tail;
            && out[..|head|] == head
            && out[|head|..|head| + |mid|] == mid
            && out[|head| + |mid|..] == tail
  {
  }

  lemma UndoStepApplies(head: seq<Line>, undo: seq<Hunk>, back: Hunk, tail: seq<Line>)
    requires Applicable(head, undo) && 0 <= OldEnd(undo) <= |head|
    requires OldPos(back) == |head| && NewPos(back) == |head| + Shift(undo)
    ensures Applicable(head + OldSide(back.lines) + tail, undo + [back])
    ensures Splice(head + OldSide(back.lines) + tail, undo + [back])
         == Splice(head, undo) + NewSide(back.lines) + tail
  {
    var out := head + OldSide(back.lines) + tail;
    Pieces(head, OldSide(back.lines), tail);
    ApplicablePrefix(head, out, undo);
    ApplicableSnoc(out, undo, back);
    SpliceSnoc(out, undo, back);
  }

  lemma UndoStep(source: seq<Line>, init: seq<Hunk>, h: Hunk, head: seq<Line>, undo: seq<Hunk>)
    requires Matches(source, h, OldEnd(init)) && NewPos(h) == OldPos(h) + Shift(init)
    requires Undoes(source[..OldPos(h)], init, head, undo) && Shift(undo) == -Shift(init)
    ensures Undoes(source, init + [h],
              head + NewSide(h.lines) + source[OldPos(h) + |OldSide(h.lines)|..], undo + [SwapHunk(h)])
  {
    var s, e := OldPos(h), OldPos(h) + |OldSide(h.lines)|;
    var back := SwapHunk(h);
    SwapSides(h.lines);
    OldEndAtLeast(head, undo);
    UndoStepApplies(head, undo, back, source[e..]);
    EndSnoc(undo, back);
    EndSnoc(init, h);
    assert source == source[..s] + source[s..e] + source[e..];
  }

  lemma OldEndAtLeast(source: seq<Line>, hunks: seq<Hunk>)
    requires Applicable(source, hunks)
    ensures 0 <= OldEnd(hunks) <= |source|
  {
  }

  /** The swapped hunks are applicable to the output and restore the source. */
  lemma {:induction false} UndoSplice(source: seq<Line>, hunks: seq<Hunk>)
    requires Applicable(source, hunks)
    ensures Undoes(source, hunks, Splice(source, hunks), SwapHunks(hunks))
    decreases |hunks|
  {
    if hunks == [] {
      assert SwapHunks(hunks) == [];
    } else {
      var n := |hunks| - 1;
      var before := source[..OldPos(hunks[n])];
      ApplicablePrefix(source, before, hunks[..n]);
      UndoSplice(before, hunks[..n]);
      UndoLast(source, hunks);
    }
  }

  lemma UndoLast(source: seq<Line>, hunks: seq<Hunk>)
    requires hunks != [] && Applicable(source, hunks)
    requires var n := |hunks| - 1;
             var before := source[..OldPos(hunks[n])];
             Undoes(before, hunks[..n], Splice(before, hunks[..n]), SwapHunks(hunks[..n]))
    ensures Undoes(source, hunks, Splice(source, hunks), SwapHunks(hunks))
  {
    var n := |hunks| - 1;
    var init, h := hunks[..n], hunks[n];
    SwapShift(init);
    UndoStep(source, init, h, Splice(source[..OldPos(h)], init), SwapHunks(init));
    SwapSnoc(hunks);
  }

  lemma SwapSnoc(hunks: seq<Hunk>)
    requires hunks != []
    ensures var n := |hunks| - 1;
            && hunks == hunks[..n] + [hunks[n]]
            && SwapHunks(hunks) == SwapHunks(hunks[..n]) + [SwapHunk(hunks[n])]
  {
  }

  /** Applying a patch's lines and then the swapped patch gives the source back. */
  lemma ApplyIsInvertible(source: seq<Line>, hunks: seq<Hunk>)
    requires ApplyLines(source, hunks).Success?
    ensures ApplyLines(ApplyLines(source, hunks).value, SwapHunks(hunks)) == Success(source)
  {
    ApplyIsSplice(source, hunks);
    UndoSplice(source, hunks);
    ApplyIsSplice(Splice(source, hunks), SwapHunks(hunks));
  }
}
