/** Concrete inputs on which the diff engine does not do what it is for. */
module Witnesses {
  import opened Wrappers
  import opened Text
  import opened Paths
  import opened Patches
  import opened DiffParser
  import opened ParserLaws
  import opened DiffPrinter
  import opened DiffRoundTrip
  import opened RoundTripExact
  import opened DiffCorrect
  import opened TreeDiff
  import opened TreeRoundTrip
  import opened StringOrder
  import opened PatchLaws

  lemma PartIsPath(part: string)
    requires ValidPart(part)
    ensures CanonicalPath(part) && Components(part) == [part]
  {
    assert JoinSlash([part]) == part;
    ComponentsOfJoin([part]);
  }

  lemma TwoPartsArePath(a: string, b: string)
    requires ValidPart(a) && ValidPart(b)
    ensures CanonicalPath(a + "/" + b)
  {
    assert JoinSlash([a, b]) == a + "/" + b by {
      assert [a, b][1..] == [b];
      assert JoinSlash([b]) == b;
    }
    ComponentsOfJoin([a, b]);
  }

  const EMPTY_HUNK := Hunk(0, 0, 0, 0, [])

  /** The lines of a patch for `path` with one 0,0 hunk and a newline marker after it. */
  function EmptyHunkPatch(path: string): seq<Line> {
    EmitFile(FilePatch(path, Update, [EMPTY_HUNK])) + [MARKER_LINE]
  }

  lemma FourLines(a: Line, b: Line, c: Line, d: Line)
    requires IsLine(a) && IsLine(b) && IsLine(c) && IsLine(d)
    requires Terminated(a) && Terminated(b) && Terminated(c)
    ensures Canonical([a, b] + [c, d])
  {
  }

  lemma EmptyHunkTail()
    ensures EmitHunks([EMPTY_HUNK]) + [MARKER_LINE] == [HunkHeader(EMPTY_HUNK), MARKER_LINE]
  {
    assert [EMPTY_HUNK][1..] == [];
    NoTail(EmitHunk(EMPTY_HUNK));
    NoTail([HunkHeader(EMPTY_HUNK)]);
  }

  lemma HeaderLines(p: FilePatch)
    requires CanonicalPath(p.path) && !HasControl(p.path)
    ensures var a, b := OLD_HEADER + OldName(p) + "\n", NEW_HEADER + NewName(p) + "\n";
            IsLine(a) && Terminated(a) && IsLine(b) && Terminated(b)
  {
    NamesRead(p);
    NameIsLine(OLD_HEADER, OldName(p));
    NameIsLine(NEW_HEADER, NewName(p));
  }

  lemma EmptyHunkLines(path: string)
    requires CanonicalPath(path) && !HasControl(path)
    ensures var lines := EmptyHunkPatch(path);
            && lines != [] && |lines| >= 2 && lines[2..] == [HunkHeader(EMPTY_HUNK), MARKER_LINE]
            && ReadHeaders(lines) == Success((path, Update)) && Canonical(lines)
  {
    var p := FilePatch(path, Update, [EMPTY_HUNK]);
    HeadersRead(p, [MARKER_LINE]);
    AfterHeaders(p, [MARKER_LINE]);
    EmptyHunkTail();
    HeaderLines(p);
    HeaderIsLine(EMPTY_HUNK);
    MarkerIsLine();
    var a, b := OLD_HEADER + OldName(p) + "\n", NEW_HEADER + NewName(p) + "\n";
    FourLines(a, b, HunkHeader(EMPTY_HUNK), MARKER_LINE);
    ConcatAssoc([a, b], EmitHunks([EMPTY_HUNK]), [MARKER_LINE]);
  }

  lemma FileStops(lines: seq<Line>, path: string, e: ParseError)
    requires lines != [] && ReadHeaders(lines) == Success((path, Update))
    requires ReadHunks(lines[2..], []) == Failure(e)
    ensures ReadFiles(lines, {}, []) == Failure(e)
  {
  }

  lemma HunksStop(rest: seq<Line>, e: ParseError)
    requires rest != [] && !IsOldHeader(rest[0]) && ReadHunk(rest) == Failure(e)
    ensures ReadHunks(rest, []) == Failure(e)
  {
  }

  lemma EmptyHunkStops(header: Line, marker: Line)
    requires ReadHunkHeader(header) == Some((Range(0, 0), Range(0, 0))) && IsMarker(marker)
    ensures ReadHunk([header, marker]) == Failure(MarkerAfterEmptyHunk)
  {
    HunkCounts([header, marker]);
  }

  /** For every path: this patch escapes the parser as an index error. */
  lemma EmptyHunkEscapes(path: string)
    requires CanonicalPath(path) && !HasControl(path)
    ensures Parsed(Join(EmptyHunkPatch(path))) == Failure(MarkerAfterEmptyHunk)
  {
    var lines := EmptyHunkPatch(path);
    EmptyHunkLines(path);
    JoinThenSplit(lines);
    JoinNonEmpty(lines);
    HeaderReads(EMPTY_HUNK);
    HeaderIsLine(EMPTY_HUNK);
    EmptyHunkStops(HunkHeader(EMPTY_HUNK), MARKER_LINE);
    HunksStop(lines[2..], MarkerAfterEmptyHunk);
    FileStops(lines, path, MarkerAfterEmptyHunk);
  }

  /** Replacing the text `-- x` by `y`, neither ending in a newline: the printed patch
      does not parse back to itself. */
  lemma SwallowedExample()
    ensures var p := Replacement("f", "-- x", "y"); Parsed(Payload([p])) != Success([p])
  {
    PartIsPath("f");
    SwallowedLineBreaksRoundTrip("f", "-- x", "y");
  }

  lemma TwoPlain(p: FilePatch, q: FilePatch)
    requires PlainPatch(p) && PlainPatch(q) && p.path != q.path
    ensures PlainPatches([p, q])
  {
  }

  /** Two files: an unterminated line `++ …` ends the first, and the second follows. */
  lemma SwallowedInsertBreaksRoundTrip(path: string, other: string, x: Line)
    requires CanonicalPath(path) && CanonicalPath(other) && path != other
    requires IsLine(x) && !Terminated(x) && "++ " <= x
    ensures var p, q := Replacement(path, "y\n", x), Replacement(other, "y\n", "z\n");
            PlainPatches([p, q]) && Parsed(Payload([p, q])) != Success([p, q])
  {
    var p, q := Replacement(path, "y\n", x), Replacement(other, "y\n", "z\n");
    ReplacementIsPlain("y\n", x);
    ReplacementIsPlain("y\n", "z\n");
    TwoPlain(p, q);
    TwoPrinted(p, q);
    InsertIsSwallowed(p, q, x);
    RoundTrip([p, q]);
  }

  lemma InsertIsSwallowed(p: FilePatch, q: FilePatch, x: Line)
    requires |p.hunks| == |q.hunks| == 1 && |p.hunks[0].lines| == |q.hunks[0].lines| == 2
    requires PrintedLines([p, q]) == p.hunks[0].lines + q.hunks[0].lines
    requires p.hunks[0].lines[1] == HunkLine(Insert, x) && !Terminated(x) && "++ " <= x
    ensures !NothingSwallowed(PrintedLines([p, q]))
  {
    assert PrintedLines([p, q])[1] == HunkLine(Insert, x);
  }

  lemma TwoPrinted(p: FilePatch, q: FilePatch)
    requires |p.hunks| == |q.hunks| == 1
    ensures PrintedLines([p, q]) == p.hunks[0].lines + q.hunks[0].lines
  {
    OneHunk(p.hunks);
    OneHunk(q.hunks);
    assert PrintedLines([]) == [] && [q][1..] == [];
    NoTail(HunkLines(q.hunks));
    assert PrintedLines([q]) == HunkLines(q.hunks);
    assert [p, q][1..] == [q];
  }

  lemma OneHunk(hunks: seq<Hunk>)
    requires |hunks| == 1
    ensures HunkLines(hunks) == hunks[0].lines
  {
    assert hunks[1..] == [] && HunkLines([]) == [];
    NoTail(hunks[0].lines);
  }

  lemma SwallowedInsertExample()
    ensures var p, q := Replacement("f", "y\n", "++ x"), Replacement("g", "y\n", "z\n");
            PlainPatches([p, q]) && Parsed(Payload([p, q])) != Success([p, q])
  {
    PartIsPath("f");
    PartIsPath("g");
    SwallowedInsertBreaksRoundTrip("f", "g", "++ x");
  }

  /** A path with a control character is printed as it is, and refused when it is read. */
  lemma ControlPathBreaksRoundTrip(path: string)
    requires CanonicalPath(path) && HasControl(path)
    ensures var p := Replacement(path, "x\n", "y\n"); PlainPatches([p]) && Parsed(Payload([p])) != Success([p])
  {
    ReplacementIsPlain("x\n", "y\n");
    RoundTrip([Replacement(path, "x\n", "y\n")]);
  }

  lemma ControlPathExample()
    ensures var p := Replacement("a\tb", "x\n", "y\n"); PlainPatches([p]) && Parsed(Payload([p])) != Success([p])
  {
    PartIsPath("a\tb");
    assert "a\tb"[1] < ' ';
    ControlPathBreaksRoundTrip("a\tb");
  }

  // ---- a patch that cannot be undone ----

  /** Insert a line without a newline before an existing line. */
  function MergingPatch(path: string, x: Line, y: Line): FilePatch {
    FilePatch(path, Update, [Hunk(1, 1, 1, 2, [HunkLine(Insert, x), HunkLine(Context, y)])])
  }

  lemma MergingSides(x: Line, y: Line)
    ensures OldSide([HunkLine(Insert, x), HunkLine(Context, y)]) == [y]
    ensures NewSide([HunkLine(Insert, x), HunkLine(Context, y)]) == [x, y]
  {
    var add, keep := HunkLine(Insert, x), HunkLine(Context, y);
    assert [add, keep] == [add] + [keep];
    OldSideAppend([add], [keep]);
    assert OldSide([add]) == [] && NewSide([add]) == [x];
    assert OldSide([keep]) == [y] && NewSide([keep]) == [y];
  }

  /** Such a patch is one that the parser returns. */
  lemma MergingIsParsed(path: string, x: Line, y: Line)
    requires CanonicalPath(path) && !HasControl(path)
    requires IsLine(x) && !("++ " <= x) && IsLine(y) && Terminated(y)
    ensures var p := MergingPatch(path, x, y); Parsed(Payload([p])) == Success([p])
  {
    var p := MergingPatch(path, x, y);
    MergingSides(x, y);
    NoTail(p.hunks[0].lines);
    assert p.hunks[1..] == [] && HunkLines([]) == [];
    SinglePrints(p);
    RoundTrip([p]);
  }

  lemma MergingApplies(path: string, x: Line, y: Line)
    requires IsLine(y)
    ensures var p := MergingPatch(path, x, y);
            Applied(p, Some(y)).Success? && LinesOf(Some(y)) == [y] && Splice([y], p.hunks) == [x, y]
  {
    var p := MergingPatch(path, x, y);
    var h := p.hunks[0];
    MergingSides(x, y);
    assert Canonical([y]);
    JoinThenSplit([y]);
    assert Join([y]) == y + Join([]) && y + "" == y;
    assert p.hunks[..0] == [];
    assert Matches([y], h, 0);
    assert Splice([y][..0], []) == [] && [y][1..] == [];
    assert [] + [x, y] + [] == [x, y];
    AppliedExactly(p, Some(y));
  }

  /** Wherever it applies, the inserted text and the line after it become one line, and the
      swapped patch does not take the file back. */
  lemma MergingIsNotUndone(path: string, x: Line, y: Line)
    requires CanonicalPath(path) && !HasControl(path)
    requires IsLine(x) && !Terminated(x) && !("++ " <= x) && IsLine(y) && Terminated(y)
    ensures var p := MergingPatch(path, x, y);
            && Parsed(Payload([p])) == Success([p])
            && Applied(p, Some(y)).Success?
            && Applied(SwapPatch(p), Applied(p, Some(y)).value) != Success(Some(y))
  {
    MergingIsParsed(path, x, y);
    MergingApplies(path, x, y);
    assert !Terminated([x, y][0]);
    ParsedPatchUndone(Payload([MergingPatch(path, x, y)]), 0, Some(y));
  }

  /** Inserting `x` before the only line `a`. */
  lemma MergingExample()
    ensures var p := FilePatch("f", Update, [Hunk(1, 1, 1, 2, [HunkLine(Insert, "x"), HunkLine(Context, "a\n")])]);
            && Parsed(Payload([p])) == Success([p])
            && Applied(p, Some("a\n")).Success?
            && Applied(SwapPatch(p), Applied(p, Some("a\n")).value) != Success(Some("a\n"))
  {
    PartIsPath("f");
    MergingIsNotUndone("f", "x", "a\n");
  }

  // ---- diffs that cannot be applied ----

  lemma OneLine(text: string)
    requires IsLine(text) && !Terminated(text)
    ensures SplitLines(text) == [text]
  {
    assert Canonical([text]);
    JoinThenSplit([text]);
    assert Join([text]) == text + Join([]) && text + "" == text;
  }

  /** Generation 0 holds `a/b`; the task deletes it and creates a file `a`. */
  function DirectoryReplaced(): Comparison {
    Comparison(map["a/b" := File("x", false)], map["a" := File("y", false)], ["a", "a/b"],
      map["a" := [[Opcode(Add, 0, 0, 0, 1)]], "a/b" := [[Opcode(Drop, 0, 1, 0, 0)]]])
  }

  lemma AlignmentsAreValid()
    ensures ValidGroups([], ["y"], [[Opcode(Add, 0, 0, 0, 1)]], 0, 0)
    ensures ValidGroups(["x"], [], [[Opcode(Drop, 0, 1, 0, 0)]], 0, 0)
  {
    var add, drop := Opcode(Add, 0, 0, 0, 1), Opcode(Drop, 0, 1, 0, 0);
    assert [add][0] == add && [drop][0] == drop;
    assert [add][1..] == [] && [drop][1..] == [] && [[add]][1..] == [] && [[drop]][1..] == [];
  }

  lemma SingleFileTree(path: string, f: File)
    requires CanonicalPath(path)
    ensures WellFormed(map[path := f])
  {
    assert !(path + "/" <= path);
  }

  lemma SortedPair(a: string, b: string)
    requires Precedes(a, b)
    ensures Ascending([a, b])
  {
  }

  lemma ChangesAreValid(p: string, before: Option<string>, after: Option<string>, groups: seq<Group>)
    requires CanonicalPath(p) && (before.Some? || after.Some?)
    requires ValidGroups(LinesOf(before), LinesOf(after), groups, 0, 0)
    ensures ValidChange(FileChange(p, before, after, groups))
  {
  }

  lemma ReplacedPaths()
    ensures CanonicalPath("a") && CanonicalPath("a/b") && Ascending(["a", "a/b"])
  {
    PartIsPath("a");
    TwoPartsArePath("a", "b");
    assert "a" + "/" + "b" == "a/b";
    assert Precedes("a", "a/b") by { assert "a"[1..] == "" && "a/b"[1..] == "/b"; }
    SortedPair("a", "a/b");
  }

  lemma SingleCharacter(text: string)
    requires |text| == 1 && 'a' <= text[0] <= 'z'
    ensures Editable(File(text, false), 1) && SplitLines(text) == [text]
  {
    assert text[1..] == "";
    OneLine(text);
  }

  lemma ReplacedIsComparison()
    ensures ValidComparison(DirectoryReplaced(), 1)
  {
    var c := DirectoryReplaced();
    ReplacedPaths();
    SingleFileTree("a/b", File("x", false));
    SingleFileTree("a", File("y", false));
    SingleCharacter("x");
    SingleCharacter("y");
    AlignmentsAreValid();
    ChangesAreValid("a", None, Some("y"), [[Opcode(Add, 0, 0, 0, 1)]]);
    ChangesAreValid("a/b", Some("x"), None, [[Opcode(Drop, 0, 1, 0, 0)]]);
    ReplacedChanges(c, "a", "a/b");
  }

  /** A deletion and a creation, put together. */
  lemma ReplacedChanges(c: Comparison, p: string, q: string)
    requires WellFormed(c.original) && WellFormed(c.current) && Ascending([p, q]) && c.paths == [p, q] && p != q
    requires c.original.Keys == {q} && c.current.Keys == {p} && c.aligned.Keys == {p, q}
    requires Editable(c.original[q], 1) && Editable(c.current[p], 1)
    requires ValidChange(FileChange(p, None, Some(c.current[p].content), c.aligned[p]))
    requires ValidChange(FileChange(q, Some(c.original[q].content), None, c.aligned[q]))
    requires c.aligned[p] != [] && c.aligned[q] != []
    requires SplitLines(c.current[p].content) != [] && SplitLines(c.original[q].content) != []
    ensures ValidComparison(c, 1)
  {
    forall x | x in c.paths && Changed(c, x)
      ensures x in c.aligned && ValidChange(ChangeAt(c, x))
    {
      assert x == p || x == q;
    }
  }

  /** The exported diff of such a task cannot be applied to generation 0. */
  lemma ReplacedExample()
    ensures ValidComparison(DirectoryReplaced(), 1)
    ensures PatchedAll(DirectoryReplaced().original, PatchesFor(DirectoryReplaced(), DirectoryReplaced().paths), 1)
              .Failure?
  {
    ReplacedIsComparison();
    assert "a" + "/" <= "a/b";
    DirectoryReplacedByFileFails(DirectoryReplaced(), "a", "a/b", 1);
  }

  /** Generation 0 holds an empty file `a`; the task makes it a directory with a file. */
  function EmptyFileReplaced(): Comparison {
    Comparison(map["a" := File("", false)], map["a/b" := File("y", false)], ["a", "a/b"],
      map["a" := [], "a/b" := [[Opcode(Add, 0, 0, 0, 1)]]])
  }

  /** The deletion of an empty file and a creation, put together. */
  lemma EmptiedChanges(c: Comparison, p: string, q: string)
    requires WellFormed(c.original) && WellFormed(c.current) && Ascending([p, q]) && c.paths == [p, q] && p != q
    requires c.original.Keys == {p} && c.current.Keys == {q} && c.aligned.Keys == {p, q}
    requires c.original[p].content == "" && Editable(c.original[p], 1) && Editable(c.current[q], 1)
    requires ValidChange(FileChange(p, Some(""), None, c.aligned[p]))
    requires ValidChange(FileChange(q, None, Some(c.current[q].content), c.aligned[q]))
    requires c.aligned[p] == [] && c.aligned[q] != [] && SplitLines(c.current[q].content) != []
    ensures ValidComparison(c, 1)
  {
    assert SplitLines("") == [];
    forall x | x in c.paths && Changed(c, x)
      ensures x in c.aligned && ValidChange(ChangeAt(c, x))
    {
      assert x == p || x == q;
    }
  }

  lemma EmptiedIsComparison()
    ensures ValidComparison(EmptyFileReplaced(), 1)
  {
    var c := EmptyFileReplaced();
    ReplacedPaths();
    SingleFileTree("a", File("", false));
    SingleFileTree("a/b", File("y", false));
    SingleCharacter("y");
    AlignmentsAreValid();
    ChangesAreValid("a", Some(""), None, []);
    ChangesAreValid("a/b", None, Some("y"), [[Opcode(Add, 0, 0, 0, 1)]]);
    EmptiedChanges(c, "a", "a/b");
  }

  /** The exported diff of this task cannot be applied to generation 0 either. */
  lemma EmptyFileExample()
    ensures ValidComparison(EmptyFileReplaced(), 1)
    ensures PatchedAll(EmptyFileReplaced().original, PatchesFor(EmptyFileReplaced(), EmptyFileReplaced().paths), 1)
              .Failure?
  {
    EmptiedIsComparison();
    assert "a" + "/" <= "a/b";
    EmptyFileReplacedByDirectoryFails(EmptyFileReplaced(), "a/b", "a", 1);
  }
}
