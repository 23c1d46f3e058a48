/** What the exported diff of a whole task does to generation 0. */
module TreeRoundTrip {
  import opened Wrappers
  import opened Patches
  import opened DiffParser
  import opened DiffRoundTrip
  import opened RoundTripExact
  import opened DiffCorrect
  import opened TreeDiff
  import opened StringOrder

  /** A directory's path sorts before everything below it. */
  lemma UnderSortsAfter(q: string, p: string)
    requires Under(q, p)
    ensures Precedes(p, q) && !Precedes(q, p) && p != q
  {
    assert q == p + q[|p|..];
    PrefixPrecedes(p, q[|p|..]);
    PrecedesIsStrict(p, q);
  }

  lemma SortedBefore(paths: seq<string>, k: nat, q: string)
    requires Ascending(paths) && k < |paths| && q in paths
    ensures Precedes(q, paths[k]) ==> q in paths[..k]
    ensures Precedes(paths[k], q) ==> q !in paths[..k]
  {
    var i :| 0 <= i < |paths| && paths[i] == q;
    PrecedesIsStrict(paths[k], q);
    PrecedesIsStrict(q, paths[k]);
    forall j | 0 <= j < k && paths[j] == q ensures Precedes(q, paths[k]) {
    }
  }

  lemma NotYetDone(paths: seq<string>, k: nat)
    requires Ascending(paths) && k < |paths|
    ensures paths[k] !in paths[..k]
  {
    PrecedesIsStrict(paths[k], paths[k]);
  }

  // ---- what becomes of each path ----

  /** The file at `p` after the exported diff is applied to generation 0: the current
      contents, except that an empty file is neither created nor deleted and the
      executable bit is that of generation 0. */
  function Resulting(c: Comparison, p: string): Option<File> {
    if p in c.current then
      if p in c.original then Some(File(c.current[p].content, c.original[p].executable))
      else if c.current[p].content == "" then None
      else Some(File(c.current[p].content, false))
    else if p in c.original && c.original[p].content == "" then Some(c.original[p])
    else None
  }

  function AtStage(c: Comparison, done: seq<string>, p: string): Option<File> {
    if p in done then Resulting(c, p)
    else if p in c.original then Some(c.original[p]) else None
  }

  /** Generation 0 with the paths in `done` already settled. */
  function Settled(c: Comparison, done: seq<string>): Tree {
    map p | p in c.original.Keys + c.current.Keys && AtStage(c, done, p).Some? :: AtStage(c, done, p).value
  }

  /** A file to be created where the diff cannot put it: generation 0 has a directory
      there (its files are deleted only later in path order), or an empty file above it
      (whose deletion the diff does not show). */
  predicate Collides(c: Comparison, p: string) {
    && p in c.current && p !in c.original && c.current[p].content != ""
    && (IsDirectory(c.original, p) || exists q :: q in c.original && Under(p, q) && c.original[q].content == "")
  }

  lemma NoneAboveKept(c: Comparison, t: Tree, p: string, maxBytes: nat)
    requires ValidComparison(c, maxBytes)
    requires p in c.original && p in c.current
    requires forall q :: q in t ==> q in c.original || q in c.current
    ensures !HasFileAbove(t, p) && !IsDirectory(t, p)
  {
    if HasFileAbove(t, p) {
      var q :| q in t && Under(p, q);
      assert IsDirectory(c.original, q) && IsDirectory(c.current, q);
    }
  }

  /** A directory at a path to be created is one of generation 0: its files are deleted
      only later. */
  lemma DirectoryAtStage(c: Comparison, k: nat, maxBytes: nat)
    requires ValidComparison(c, maxBytes) && k < |c.paths| && c.paths[k] in c.current
    ensures IsDirectory(Settled(c, c.paths[..k]), c.paths[k]) <==> IsDirectory(c.original, c.paths[k])
  {
    var p, t := c.paths[k], Settled(c, c.paths[..k]);
    forall q | q in t && Under(q, p) ensures q in c.original {
      assert IsDirectory(c.current, p) || q !in c.current;
    }
    forall q | q in c.original && Under(q, p) ensures q in t {
      UnderSortsAfter(q, p);
      SortedBefore(c.paths, k, q);
    }
  }

  /** A file above a path to be created is an empty one of generation 0: any other was
      deleted before. */
  lemma FileAboveAtStage(c: Comparison, k: nat, maxBytes: nat)
    requires ValidComparison(c, maxBytes) && k < |c.paths| && c.paths[k] in c.current
    ensures HasFileAbove(Settled(c, c.paths[..k]), c.paths[k]) <==>
            exists q :: q in c.original && Under(c.paths[k], q) && c.original[q].content == ""
  {
    var p, t := c.paths[k], Settled(c, c.paths[..k]);
    forall q | q in t && Under(p, q) ensures q in c.original && c.original[q].content == "" {
      UnderSortsAfter(p, q);
      SortedBefore(c.paths, k, q);
      assert IsDirectory(c.current, q);
    }
    forall q | q in c.original && Under(p, q) && c.original[q].content == "" ensures q in t {
      UnderSortsAfter(p, q);
      SortedBefore(c.paths, k, q);
      assert IsDirectory(c.current, q);
    }
  }

  /** When a file is to be created, what stands in its way is exactly a collision. */
  lemma CreationBlocked(c: Comparison, k: nat, maxBytes: nat)
    requires ValidComparison(c, maxBytes) && k < |c.paths|
    requires var p := c.paths[k]; p in c.current && p !in c.original && c.current[p].content != ""
    ensures var p, t := c.paths[k], Settled(c, c.paths[..k]);
            IsDirectory(t, p) || HasFileAbove(t, p) <==> Collides(c, p)
  {
    DirectoryAtStage(c, k, maxBytes);
    FileAboveAtStage(c, k, maxBytes);
  }

  lemma SettledAt(c: Comparison, done: seq<string>, q: string)
    ensures q in Settled(c, done) <==> AtStage(c, done, q).Some?
    ensures q in Settled(c, done) ==> Settled(c, done)[q] == AtStage(c, done, q).value
  {
  }

  /** Settling one more path. */
  lemma SettledStep(c: Comparison, k: nat)
    requires Ascending(c.paths) && k < |c.paths|
    ensures var p, t := c.paths[k], Settled(c, c.paths[..k]);
            Settled(c, c.paths[..k + 1]) ==
            match Resulting(c, p) case None => t - {p} case Some(f) => t[p := f]
  {
    var p, done := c.paths[k], c.paths[..k];
    OneMore(c.paths, k);
    var t, next := Settled(c, done), Settled(c, done + [p]);
    var expected := match Resulting(c, p) case None => t - {p} case Some(f) => t[p := f];
    forall q ensures (q in next <==> q in expected) && (q in next ==> next[q] == expected[q]) {
      SettledAt(c, done, q);
      SettledAt(c, done + [p], q);
      StageStep(c, done, p, q);
    }
  }

  lemma StageStep(c: Comparison, done: seq<string>, p: string, q: string)
    ensures AtStage(c, done + [p], q) == if q == p then Resulting(c, p) else AtStage(c, done, q)
  {
  }

  /** A path without printed hunks keeps its original file. */
  lemma SilentResult(c: Comparison, p: string, maxBytes: nat)
    requires ValidComparison(c, maxBytes) && p in c.paths
    requires !Changed(c, p) || c.aligned[p] == []
    ensures Resulting(c, p) == ContentStage(c, p)
    ensures !Collides(c, p)
  {
    if Changed(c, p) {
      SilentChange(c, p, maxBytes);
    }
  }

  /** A change without hunks: the texts are equal, or an empty file came or went. */
  lemma SilentChange(c: Comparison, p: string, maxBytes: nat)
    requires ValidComparison(c, maxBytes) && p in c.paths && Changed(c, p) && c.aligned[p] == []
    ensures p in c.original && p in c.current ==> c.original[p].content == c.current[p].content
    ensures p !in c.original ==> c.current[p].content == ""
    ensures p !in c.current ==> c.original[p].content == ""
  {
    NoGroups(ChangeAt(c, p));
  }

  lemma SilentPath(c: Comparison, k: nat, maxBytes: nat)
    requires ValidComparison(c, maxBytes) && k < |c.paths|
    requires !Changed(c, c.paths[k]) || c.aligned[c.paths[k]] == []
    ensures Settled(c, c.paths[..k + 1]) == Settled(c, c.paths[..k])
    ensures !Collides(c, c.paths[k])
  {
    SilentResult(c, c.paths[k], maxBytes);
    NotYetDone(c.paths, k);
    OneMore(c.paths, k);
    SettledSame(c, c.paths[..k + 1], c.paths[..k], c.paths[k]);
  }

  lemma OneMore<T>(xs: seq<T>, k: nat)
    requires k < |xs|
    ensures xs[..k + 1] == xs[..k] + [xs[k]]
  {
  }

  lemma SettledSame(c: Comparison, more: seq<string>, done: seq<string>, p: string)
    requires more == done + [p] && p !in done && Resulting(c, p) == ContentStage(c, p)
    ensures Settled(c, more) == Settled(c, done)
  {
    forall q ensures AtStage(c, more, q) == AtStage(c, done, q) {
      assert q in more <==> q in done || q == p;
    }
  }

  function ContentStage(c: Comparison, p: string): Option<File> {
    if p in c.original then Some(c.original[p]) else None
  }

  /** Applying the patch of one changed path. */
  lemma PrintedPath(c: Comparison, k: nat, maxBytes: nat)
    requires ValidComparison(c, maxBytes) && k < |c.paths|
    requires Changed(c, c.paths[k]) && c.aligned[c.paths[k]] != []
    ensures var r := Patched(Settled(c, c.paths[..k]), PatchOf(ChangeAt(c, c.paths[k])), maxBytes);
            if Collides(c, c.paths[k]) then r.Failure?
            else r == Success(Settled(c, c.paths[..k + 1]))
  {
    var p, t := c.paths[k], Settled(c, c.paths[..k]);
    OriginalSource(c, k);
    DiffApplies(ChangeAt(c, p));
    SettledStep(c, k);
    PrintedFacts(c, p, maxBytes);
    if p in c.original && p in c.current {
      NoneAboveKept(c, t, p, maxBytes);
    } else if p in c.current {
      CreationBlocked(c, k, maxBytes);
    }
  }

  /** At its turn a path still holds what generation 0 held. */
  lemma OriginalSource(c: Comparison, k: nat)
    requires Ascending(c.paths) && k < |c.paths|
    ensures var p, t := c.paths[k], Settled(c, c.paths[..k]);
            && ContentOf(t, p) == ContentOf(c.original, p)
            && (p in t <==> p in c.original) && (p in t ==> t[p] == c.original[p])
  {
    NotYetDone(c.paths, k);
    assert AtStage(c, c.paths[..k], c.paths[k]) == ContentStage(c, c.paths[k]);
  }

  lemma PrintedFacts(c: Comparison, p: string, maxBytes: nat)
    requires ValidComparison(c, maxBytes) && p in c.paths
    requires Changed(c, p) && c.aligned[p] != []
    ensures p in c.original ==> Editable(c.original[p], maxBytes)
    ensures p in c.current ==> Editable(c.current[p], maxBytes)
    ensures p !in c.original ==> c.current[p].content != ""
    ensures p !in c.current ==> c.original[p].content != ""
  {
  }

  function StagePatches(c: Comparison, k: nat): seq<FilePatch>
    requires k <= |c.paths|
    requires forall p :: p in c.paths && Changed(c, p) ==> p in c.aligned && ValidChange(ChangeAt(c, p))
  {
    PatchesFor(c, c.paths[k..])
  }

  /** One path of the list, printed or silent. */
  lemma ApplyOne(c: Comparison, k: nat, maxBytes: nat)
    requires ValidComparison(c, maxBytes) && k < |c.paths|
    ensures PatchedAll(Settled(c, c.paths[..k]), StagePatches(c, k), maxBytes).Failure? || !Collides(c, c.paths[k])
    ensures !Collides(c, c.paths[k]) ==>
              (PatchedAll(Settled(c, c.paths[..k]), StagePatches(c, k), maxBytes)
               == PatchedAll(Settled(c, c.paths[..k + 1]), StagePatches(c, k + 1), maxBytes))
  {
    var p := c.paths[k];
    assert c.paths[k..][0] == p && c.paths[k..][1..] == c.paths[k + 1..];
    var rest := StagePatches(c, k + 1);
    if Changed(c, p) && c.aligned[p] != [] {
      PrintedPath(c, k, maxBytes);
      var patch := PatchOf(ChangeAt(c, p));
      assert StagePatches(c, k) == [patch] + rest;
      assert ([patch] + rest)[0] == patch && ([patch] + rest)[1..] == rest;
    } else {
      SilentPath(c, k, maxBytes);
      assert [] + rest == rest;
      assert StagePatches(c, k) == rest;
    }
  }

  lemma {:induction false} ApplySuffix(c: Comparison, k: nat, maxBytes: nat)
    requires ValidComparison(c, maxBytes) && k <= |c.paths|
    ensures var r := PatchedAll(Settled(c, c.paths[..k]), StagePatches(c, k), maxBytes);
            && (r.Success? <==> forall i :: k <= i < |c.paths| ==> !Collides(c, c.paths[i]))
            && (r.Success? ==> r.value == Settled(c, c.paths))
    decreases |c.paths| - k
  {
    if k == |c.paths| {
      assert c.paths[..k] == c.paths;
      assert c.paths[k..] == [];
    } else {
      ApplyOne(c, k, maxBytes);
      ApplySuffix(c, k + 1, maxBytes);
    }
  }

  lemma TailPaths(paths: seq<string>)
    requires paths != [] && Ascending(paths)
    ensures Ascending(paths[1..]) && paths[0] !in paths[1..]
    ensures forall p :: p in paths[1..] ==> p in paths
  {
    assert forall i :: 0 <= i < |paths| - 1 ==> paths[1..][i] == paths[i + 1];
    NotInTail(paths);
  }

  lemma PlainConsPatch(p: FilePatch, ps: seq<FilePatch>)
    requires PlainPatch(p) && PlainPatches(ps)
    requires forall i :: 0 <= i < |ps| ==> ps[i].path != p.path
    ensures PlainPatches([p] + ps)
  {
  }

  predicate PathsAmong(ps: seq<FilePatch>, paths: seq<string>) {
    forall i :: 0 <= i < |ps| ==> ps[i].path in paths
  }

  lemma {:induction false} PatchesForPlain(c: Comparison, paths: seq<string>, maxBytes: nat)
    requires ValidComparison(c, maxBytes)
    requires Ascending(paths) && forall p :: p in paths ==> p in c.paths
    ensures PlainPatches(PatchesFor(c, paths)) && PathsAmong(PatchesFor(c, paths), paths)
  {
    if paths != [] {
      TailPaths(paths);
      PatchesForPlain(c, paths[1..], maxBytes);
      PatchesForOne(c, paths, PatchesFor(c, paths[1..]), maxBytes);
    }
  }

  lemma PatchesForOne(c: Comparison, paths: seq<string>, rest: seq<FilePatch>, maxBytes: nat)
    requires ValidComparison(c, maxBytes)
    requires paths != [] && forall p :: p in paths ==> p in c.paths
    requires rest == PatchesFor(c, paths[1..]) && PlainPatches(rest) && PathsAmong(rest, paths[1..])
    requires paths[0] !in paths[1..]
    ensures PlainPatches(PatchesFor(c, paths)) && PathsAmong(PatchesFor(c, paths), paths)
  {
    var p := paths[0];
    assert p in paths;
    if Changed(c, p) && c.aligned[p] != [] {
      ChangeIsPlain(ChangeAt(c, p));
      AmongCons(PatchOf(ChangeAt(c, p)), rest, paths);
    } else {
      assert [] + rest == rest;
      assert PathsAmong(rest, paths);
    }
  }

  lemma AmongCons(p: FilePatch, rest: seq<FilePatch>, paths: seq<string>)
    requires paths != [] && p.path == paths[0] && paths[0] !in paths[1..]
    requires PlainPatch(p) && PlainPatches(rest) && PathsAmong(rest, paths[1..])
    ensures PlainPatches([p] + rest) && PathsAmong([p] + rest, paths)
  {
    PlainConsPatch(p, rest);
  }

  lemma NotInTail(paths: seq<string>)
    requires paths != [] && Ascending(paths)
    ensures paths[0] !in paths[1..]
  {
    PrecedesIsStrict(paths[0], paths[0]);
  }

  lemma FullySettled(c: Comparison, maxBytes: nat)
    requires ValidComparison(c, maxBytes)
    ensures Settled(c, []) == c.original
    ensures var t := Settled(c, c.paths);
            forall p :: (p in t <==> Resulting(c, p).Some?) && (p in t ==> t[p] == Resulting(c, p).value)
  {
    assert forall p :: AtStage(c, c.paths, p) == Resulting(c, p);
    forall p ensures var t := Settled(c, c.paths);
                     (p in t <==> Resulting(c, p).Some?) && (p in t ==> t[p] == Resulting(c, p).value)
    {
      SettledAt(c, c.paths, p);
    }
  }

  /** Applied to generation 0, these patches succeed exactly without collisions, and then
      leave `Resulting` at every path. */
  ghost predicate AppliesTo(c: Comparison, patches: seq<FilePatch>, maxBytes: nat) {
    var r := PatchedAll(c.original, patches, maxBytes);
    && (r.Success? <==> forall p :: p in c.paths ==> !Collides(c, p))
    && (r.Success? ==> forall p ::
         (p in r.value <==> Resulting(c, p).Some?) && (p in r.value ==> r.value[p] == Resulting(c, p).value))
  }

  /** Applying the exported patches to generation 0 succeeds exactly when no created
      file collides, and then yields at every path what `Resulting` says: the current
      contents, up to empty files created or deleted and executable bits. */
  lemma WholeTree(c: Comparison, maxBytes: nat)
    requires ValidComparison(c, maxBytes)
    ensures AppliesTo(c, PatchesFor(c, c.paths), maxBytes)
  {
    ApplySuffix(c, 0, maxBytes);
    assert c.paths[0..] == c.paths && c.paths[..0] == [];
    FullySettled(c, maxBytes);
    NoneCollides(c);
  }

  lemma NoneCollides(c: Comparison)
    ensures (forall p :: p in c.paths ==> !Collides(c, p)) <==>
            (forall i :: 0 <= i < |c.paths| ==> !Collides(c, c.paths[i]))
  {
  }

  /** The exported text parses back to the patches it was printed from exactly when the
      changed paths are clean and no header-like unterminated line is followed by more
      output. */
  lemma WholeTreeParses(c: Comparison, maxBytes: nat)
    requires ValidComparison(c, maxBytes) && PatchesFor(c, c.paths) != []
    ensures var patches := PatchesFor(c, c.paths);
            Parsed(Payload(patches)) == Success(patches) <==>
            CleanPaths(patches) && NothingSwallowed(PrintedLines(patches))
  {
    PatchesForPlain(c, c.paths, maxBytes);
    RoundTrip(PatchesFor(c, c.paths));
  }

  /** What the exported text of a task is worth. With nothing to print it is empty, and
      parsing it fails. Otherwise, under the condition of `WholeTreeParses`, the text parses,
      and applying what was parsed to generation 0 succeeds exactly when no created file
      collides and yields `Resulting` at every path; without the condition the text does not
      parse to the patches it was printed from. */
  lemma ExportedDiff(c: Comparison, maxBytes: nat)
    requires ValidComparison(c, maxBytes)
    ensures var patches := PatchesFor(c, c.paths);
            var diff := Payload(patches);
            && (patches == [] ==> diff == "" && Parsed(diff) == Failure(EmptyPatch))
            && (patches != [] ==>
                 if CleanPaths(patches) && NothingSwallowed(PrintedLines(patches))
                 then Parsed(diff).Success? && AppliesTo(c, Parsed(diff).value, maxBytes)
                 else Parsed(diff) != Success(patches))
  {
    if PatchesFor(c, c.paths) == [] {
      assert Payload([]) == "";
    } else {
      WholeTreeParses(c, maxBytes);
      WholeTree(c, maxBytes);
    }
  }

  /** A task that deletes `a/b` and creates `a` exports a diff that cannot be applied:
      `a` sorts first and is still a directory. */
  lemma DirectoryReplacedByFileFails(c: Comparison, p: string, q: string, maxBytes: nat)
    requires ValidComparison(c, maxBytes)
    requires p in c.current && c.current[p].content != "" && q in c.original && Under(q, p)
    ensures PatchedAll(c.original, PatchesFor(c, c.paths), maxBytes).Failure?
  {
    assert IsDirectory(c.original, p);
    WholeTree(c, maxBytes);
    assert p in c.paths && Collides(c, p);
  }

  /** A task that replaces the empty file `a` by a directory with a file `a/b` exports a diff
      that cannot be applied: the deletion of an empty file is not shown. */
  lemma EmptyFileReplacedByDirectoryFails(c: Comparison, p: string, q: string, maxBytes: nat)
    requires ValidComparison(c, maxBytes)
    requires p in c.current && c.current[p].content != ""
    requires q in c.original && c.original[q].content == "" && Under(p, q)
    ensures PatchedAll(c.original, PatchesFor(c, c.paths), maxBytes).Failure?
  {
    assert !IsDirectory(c.original, q);
    WholeTree(c, maxBytes);
    assert p in c.paths && Collides(c, p);
  }
}
