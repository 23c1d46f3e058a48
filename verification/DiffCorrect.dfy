/** The diff of one changed file: whatever alignment is chosen, its hunks turn the old
    text into the new one, and printing and parsing keep them. */
module DiffCorrect {
  import opened Wrappers
  import opened Text
  import opened Paths
  import opened Patches
  import opened DiffParser
  import opened DiffPrinter
  import opened DiffRoundTrip
  import opened ParserLaws
  import opened RoundTripExact

  /** A path whose records differ between two generations, with the alignment chosen
      for its lines. `None` is an absent file. */
  datatype FileChange = FileChange(path: string, before: Option<string>, after: Option<string>, groups: seq<Group>)

  predicate ValidChange(c: FileChange) {
    && (c.before.Some? || c.after.Some?)
    && CanonicalPath(c.path)
    && ValidGroups(LinesOf(c.before), LinesOf(c.after), c.groups, 0, 0)
  }

  function PatchOf(c: FileChange): FilePatch
    requires ValidChange(c)
  {
    FilePatch(c.path,
      if c.before.None? then Create else if c.after.None? then Remove else Update,
      HunksOf(LinesOf(c.before), LinesOf(c.after), c.groups, 0, 0))
  }

  // ---- the two sides of a group ----

  lemma {:induction false} SidesOfLines(op: Op, contents: seq<Line>)
    ensures OldSide(Lines(op, contents)) == if op == Insert then [] else contents
    ensures NewSide(Lines(op, contents)) == if op == Delete then [] else contents
    ensures forall k :: 0 <= k < |contents| ==> Lines(op, contents)[k] == HunkLine(op, contents[k])
  {
    if contents != [] {
      SidesOfLines(op, contents[1..]);
      assert contents == [contents[0]] + contents[1..];
      var ls := Lines(op, contents);
      assert ls[0].content == contents[0] && ls[1..] == Lines(op, contents[1..]);
    }
  }

  function OpcodeLines(before: seq<Line>, after: seq<Line>, c: Opcode): seq<HunkLine>
    requires ValidOpcode(before, after, c)
  {
    if c.tag == Equal then Lines(Context, before[c.i1..c.i2])
    else Lines(Delete, before[c.i1..c.i2]) + Lines(Insert, after[c.j1..c.j2])
  }

  lemma SidesOfOpcode(before: seq<Line>, after: seq<Line>, c: Opcode)
    requires ValidOpcode(before, after, c)
    ensures OldSide(OpcodeLines(before, after, c)) == before[c.i1..c.i2]
    ensures NewSide(OpcodeLines(before, after, c)) == after[c.j1..c.j2]
  {
    if c.tag == Equal {
      SidesOfLines(Context, before[c.i1..c.i2]);
    } else {
      SidesOfLines(Delete, before[c.i1..c.i2]);
      SidesOfLines(Insert, after[c.j1..c.j2]);
      OldSideAppend(Lines(Delete, before[c.i1..c.i2]), Lines(Insert, after[c.j1..c.j2]));
    }
  }

  lemma {:induction false} PlainList(op: Op, contents: seq<Line>)
    requires AllLines(contents)
    ensures PlainLines(Lines(op, contents))
  {
    if contents != [] {
      PlainList(op, contents[1..]);
    }
  }

  lemma PlainAppend(a: seq<HunkLine>, b: seq<HunkLine>)
    requires PlainLines(a) && PlainLines(b)
    ensures PlainLines(a + b)
  {
  }

  lemma PlainOpcode(before: seq<Line>, after: seq<Line>, c: Opcode)
    requires ValidOpcode(before, after, c)
    requires AllLines(before) && AllLines(after)
    ensures PlainLines(OpcodeLines(before, after, c))
  {
    var x, y := before[c.i1..c.i2], after[c.j1..c.j2];
    assert AllLines(x) && AllLines(y);
    PlainList(Context, x);
    PlainList(Delete, x);
    PlainList(Insert, y);
    PlainAppend(Lines(Delete, x), Lines(Insert, y));
  }

  lemma {:induction false} SidesOfGroup(before: seq<Line>, after: seq<Line>, g: Group, i: nat, j: nat)
    requires g != [] && Chained(before, after, g, i, j)
    requires forall k :: 0 <= k < |g| ==> ValidOpcode(before, after, g[k])
    ensures var last := g[|g| - 1];
            && i <= last.i2 <= |before| && j <= last.j2 <= |after|
            && OldSide(GroupLines(before, after, g)) == before[i..last.i2]
            && NewSide(GroupLines(before, after, g)) == after[j..last.j2]
    decreases |g|
  {
    var c, more := g[0], g[1..];
    assert ValidOpcode(before, after, c);
    SidesOfFirst(before, after, g);
    if more == [] {
      assert OldSide(GroupLines(before, after, more)) == [] && NewSide(GroupLines(before, after, more)) == [];
    } else {
      SidesOfGroup(before, after, more, c.i2, c.j2);
      SliceSplit(before, i, c.i2, g[|g| - 1].i2);
      SliceSplit(after, j, c.j2, g[|g| - 1].j2);
    }
  }

  lemma SliceSplit<T>(xs: seq<T>, a: nat, b: nat, c: nat)
    requires a <= b <= c <= |xs|
    ensures xs[a..c] == xs[a..b] + xs[b..c]
  {
  }

  lemma SidesOfFirst(before: seq<Line>, after: seq<Line>, g: Group)
    requires g != [] && forall k :: 0 <= k < |g| ==> ValidOpcode(before, after, g[k])
    ensures var c, rest := g[0], GroupLines(before, after, g[1..]);
            && ValidOpcode(before, after, c)
            && OldSide(GroupLines(before, after, g)) == before[c.i1..c.i2] + OldSide(rest)
            && NewSide(GroupLines(before, after, g)) == after[c.j1..c.j2] + NewSide(rest)
  {
    var c, rest := g[0], GroupLines(before, after, g[1..]);
    assert ValidOpcode(before, after, c);
    SidesOfOpcode(before, after, c);
    OldSideAppend(OpcodeLines(before, after, c), rest);
    assert GroupLines(before, after, g) == OpcodeLines(before, after, c) + rest;
  }

  lemma {:induction false} PlainGroup(before: seq<Line>, after: seq<Line>, g: Group)
    requires forall k :: 0 <= k < |g| ==> ValidOpcode(before, after, g[k])
    requires AllLines(before) && AllLines(after)
    ensures PlainLines(GroupLines(before, after, g))
    decreases |g|
  {
    if g != [] {
      assert ValidOpcode(before, after, g[0]);
      PlainOpcode(before, after, g[0]);
      PlainGroup(before, after, g[1..]);
      PlainAppend(OpcodeLines(before, after, g[0]), GroupLines(before, after, g[1..]));
      assert GroupLines(before, after, g) == OpcodeLines(before, after, g[0]) + GroupLines(before, after, g[1..]);
    }
  }

  /** The hunk of a valid group: it sits where the group starts and holds both ranges. */
  lemma HunkOfGroup(before: seq<Line>, after: seq<Line>, g: Group)
    requires g != [] && Chained(before, after, g, g[0].i1, g[0].j1)
    requires exists k :: 0 <= k < |g| && (g[k].i1 < g[k].i2 || g[k].j1 < g[k].j2)
    ensures var h, last := HunkOf(before, after, g), g[|g| - 1];
            && OldPos(h) == g[0].i1 <= last.i2 <= |before| && NewPos(h) == g[0].j1 <= last.j2 <= |after|
            && OldSide(h.lines) == before[g[0].i1..last.i2]
            && NewSide(h.lines) == after[g[0].j1..last.j2]
            && CountsMatch(h)
            && h.lines != []
  {
    ChainValid(before, after, g, g[0].i1, g[0].j1);
    SidesOfGroup(before, after, g, g[0].i1, g[0].j1);
    SomeLine(before, after, g, g[0].i1, g[0].j1);
  }

  lemma {:induction false} SomeLine(before: seq<Line>, after: seq<Line>, g: Group, i: nat, j: nat)
    requires g != [] && Chained(before, after, g, i, j)
    requires exists k :: 0 <= k < |g| && (g[k].i1 < g[k].i2 || g[k].j1 < g[k].j2)
    ensures var last := g[|g| - 1]; i < last.i2 || j < last.j2
    decreases |g|
  {
    ChainValid(before, after, g, i, j);
    assert ValidOpcode(before, after, g[0]);
    if !(g[0].i1 < g[0].i2 || g[0].j1 < g[0].j2) {
      var k :| 0 <= k < |g| && (g[k].i1 < g[k].i2 || g[k].j1 < g[k].j2);
      assert g[1..][k - 1] == g[k];
      SomeLine(before, after, g[1..], g[0].i2, g[0].j2);
    } else if |g| > 1 {
      ChainValid(before, after, g[1..], g[0].i2, g[0].j2);
    }
  }

  // ---- applying the hunks of an alignment ----

  /** A hunk whose gap and sides are slices of both texts moves the machine along both. */
  lemma HunkStep(before: seq<Line>, after: seq<Line>, h: Hunk, i: nat, j: nat, s: nat, t: nat, e: nat, f: nat)
    requires i <= s <= e <= |before| && j <= t <= f <= |after|
    requires before[i..s] == after[j..t]
    requires OldPos(h) == s && NewPos(h) == t
    requires OldSide(h.lines) == before[s..e] && NewSide(h.lines) == after[t..f]
    ensures ApplyHunk(before, h, Cursor(i, after[..j])) == Success(Cursor(e, after[..f]))
  {
    assert after[..j] + before[i..s] == after[..t];
    assert after[..t] + after[t..f] == after[..f];
    ApplyBodyIs(before, h.lines, Cursor(s, after[..t]));
  }

  lemma GroupStep(before: seq<Line>, after: seq<Line>, g: Group, i: nat, j: nat)
    requires i <= |before| && j <= |after|
    requires g != [] && Chained(before, after, g, g[0].i1, g[0].j1)
    requires exists k :: 0 <= k < |g| && (g[k].i1 < g[k].i2 || g[k].j1 < g[k].j2)
    requires i <= g[0].i1 <= |before| && j <= g[0].j1 <= |after|
    requires before[i..g[0].i1] == after[j..g[0].j1]
    ensures var last := g[|g| - 1];
            && last.j2 <= |after| && last.i2 <= |before|
            && ApplyHunk(before, HunkOf(before, after, g), Cursor(i, after[..j]))
            == Success(Cursor(last.i2, after[..last.j2]))
  {
    HunkOfGroup(before, after, g);
    var last := g[|g| - 1];
    HunkStep(before, after, HunkOf(before, after, g), i, j, g[0].i1, g[0].j1, last.i2, last.j2);
  }

  /** From any valid point on, the hunks still to come rebuild the new text. */
  lemma {:induction false} GroupsApply(before: seq<Line>, after: seq<Line>, groups: seq<Group>, i: nat, j: nat)
    requires ValidGroups(before, after, groups, i, j)
    ensures var r := ApplyHunks(before, HunksOf(before, after, groups, i, j), Cursor(i, after[..j]));
            r.Success? && r.value.output + before[r.value.at..] == after
    decreases |groups|
  {
    if groups == [] {
      assert after[..j] + after[j..] == after;
    } else {
      var g := groups[0];
      var last := g[|g| - 1];
      GroupStep(before, after, g, i, j);
      var hunks := HunksOf(before, after, groups, i, j);
      assert hunks[0] == HunkOf(before, after, g);
      assert hunks[1..] == HunksOf(before, after, groups[1..], last.i2, last.j2);
      GroupsApply(before, after, groups[1..], last.i2, last.j2);
    }
  }

  /** For every valid alignment, the patch takes the old text to exactly the new one. */
  lemma DiffApplies(c: FileChange)
    requires ValidChange(c)
    ensures Applied(PatchOf(c), c.before) == Success(c.after)
  {
    var before, after := LinesOf(c.before), LinesOf(c.after);
    GroupsApply(before, after, c.groups, 0, 0);
    assert after[..0] == [];
    if c.after.Some? {
      SplitThenJoin(c.after.value);
    }
    assert ApplyLines(before, PatchOf(c).hunks) == Success(after);
  }

  // ---- printability ----

  predicate PlainWithin(hunks: seq<Hunk>, oldLength: nat, newLength: nat) {
    forall k :: 0 <= k < |hunks| ==>
      PlainHunk(hunks[k]) && hunks[k].oldCount <= oldLength && hunks[k].newCount <= newLength
  }

  lemma GroupPlain(before: seq<Line>, after: seq<Line>, g: Group)
    requires g != [] && Chained(before, after, g, g[0].i1, g[0].j1)
    requires exists k :: 0 <= k < |g| && (g[k].i1 < g[k].i2 || g[k].j1 < g[k].j2)
    requires AllLines(before) && AllLines(after)
    ensures PlainWithin([HunkOf(before, after, g)], |before|, |after|)
  {
    HunkOfGroup(before, after, g);
    ChainValid(before, after, g, g[0].i1, g[0].j1);
    PlainGroup(before, after, g);
    var h := HunkOf(before, after, g);
    assert |OldSide(h.lines)| <= |before| && |NewSide(h.lines)| <= |after|;
  }

  lemma {:induction false} GroupsPlain(before: seq<Line>, after: seq<Line>, groups: seq<Group>, i: nat, j: nat)
    requires ValidGroups(before, after, groups, i, j)
    requires AllLines(before) && AllLines(after)
    ensures PlainWithin(HunksOf(before, after, groups, i, j), |before|, |after|)
    decreases |groups|
  {
    if groups != [] {
      var g := groups[0];
      var last := g[|g| - 1];
      GroupPlain(before, after, g);
      GroupsPlain(before, after, groups[1..], last.i2, last.j2);
      PlainCons(HunkOf(before, after, g), HunksOf(before, after, groups[1..], last.i2, last.j2), |before|, |after|);
    }
  }

  lemma PlainCons(h: Hunk, hunks: seq<Hunk>, oldLength: nat, newLength: nat)
    requires PlainWithin([h], oldLength, newLength) && PlainWithin(hunks, oldLength, newLength)
    ensures PlainWithin([h] + hunks, oldLength, newLength)
  {
    assert [h][0] == h;
  }

  lemma LinesOfArePlain(text: Option<string>)
    ensures AllLines(LinesOf(text))
  {
    if text.Some? { SplitThenJoin(text.value); }
  }

  lemma ChangeIsPlain(c: FileChange)
    requires ValidChange(c) && c.groups != []
    ensures PlainPatch(PatchOf(c))
  {
    LinesOfArePlain(c.before);
    LinesOfArePlain(c.after);
    GroupsPlain(LinesOf(c.before), LinesOf(c.after), c.groups, 0, 0);
    var p := PatchOf(c);
    assert |p.hunks| == |c.groups|;
    assert PlainWithin(p.hunks, |LinesOf(c.before)|, |LinesOf(c.after)|);
  }

  /** Identical line lists may have no groups, and no groups means identical texts. */
  lemma NoGroups(c: FileChange)
    requires ValidChange(c) && c.groups == []
    ensures LinesOf(c.before) == LinesOf(c.after)
    ensures c.before.Some? && c.after.Some? ==> c.before == c.after
    ensures c.before.None? ==> c.after == Some("")
    ensures c.after.None? ==> c.before == Some("")
  {
    assert LinesOf(c.before)[0..] == LinesOf(c.before);
    assert LinesOf(c.after)[0..] == LinesOf(c.after);
    if c.before.Some? { SplitThenJoin(c.before.value); }
    if c.after.Some? { SplitThenJoin(c.after.value); }
  }

  /** The round trip of one file's diff: for every old and new text, every alignment
      and every grouping, the patch turns the old text into exactly the new one, and it
      survives printing and parsing exactly when the path is free of control characters
      and no unterminated header-like line is followed by more output. */
  lemma FileRoundTrip(c: FileChange)
    requires ValidChange(c) && c.groups != []
    ensures Parsed(Join(EmitAll(RawLines(PatchOf(c))))) == Success([PatchOf(c)])
       <==> !HasControl(c.path) && NothingSwallowed(HunkLines(PatchOf(c).hunks))
    ensures Applied(PatchOf(c), c.before) == Success(c.after)
  {
    ChangeIsPlain(c);
    DiffApplies(c);
    var p := PatchOf(c);
    EmitRaw(p);
    SinglePrints(p);
    assert CleanPaths([p]) <==> !HasControl([p][0].path);
    RoundTrip([p]);
  }

  lemma SinglePrints(p: FilePatch)
    ensures EmitFiles([p]) == EmitFile(p) && PrintedLines([p]) == HunkLines(p.hunks)
  {
    assert [p][1..] == [];
    assert EmitFiles([]) == [] && PrintedLines([]) == [];
    NoTail(EmitFile(p));
    NoTail(HunkLines(p.hunks));
  }

  /** A one-line replacement. */
  function Replacement(path: string, x: Line, y: Line): FilePatch {
    FilePatch(path, Update, [Hunk(1, 1, 1, 1, [HunkLine(Delete, x), HunkLine(Insert, y)])])
  }

  lemma ReplacementIsPlain(x: Line, y: Line)
    requires IsLine(x) && IsLine(y)
    ensures PlainHunk(Hunk(1, 1, 1, 1, [HunkLine(Delete, x), HunkLine(Insert, y)]))
  {
    var drop, add := HunkLine(Delete, x), HunkLine(Insert, y);
    var lines := [drop, add];
    assert lines == [drop] + [add];
    OldSideAppend([drop], [add]);
    assert OldSide([drop]) == [x] && NewSide([drop]) == [];
    assert OldSide([add]) == [] && NewSide([add]) == [y];
  }

  /** Replacing an unterminated line `-- …`: it is taken for a file header, fuses with
      the next line, and the patch never comes back. */
  lemma SwallowedLineBreaksRoundTrip(path: string, x: Line, y: Line)
    requires CanonicalPath(path)
    requires IsLine(x) && !Terminated(x) && "-- " <= x && IsLine(y)
    ensures var p := Replacement(path, x, y); Parsed(Payload([p])) != Success([p])
  {
    var p := Replacement(path, x, y);
    var h := p.hunks[0];
    var lines := h.lines;
    ReplacementIsPlain(x, y);
    assert PlainPatches([p]);
    NoTail(lines);
    assert [h][1..] == [] && HunkLines([]) == [];
    SinglePrints(p);
    assert Swallowed(PrintedLines([p])[0]);
    RoundTrip([p]);
  }
}
