/** Whole generations: `_apply_file_patch` and `build_diff` over directory trees
    (src/ulg/workspace/editor.py). */
module TreeDiff {
  import opened Wrappers
  import opened Text
  import opened Paths
  import opened Patches
  import opened DiffPrinter
  import opened DiffRoundTrip
  import opened RoundTripExact
  import opened DiffCorrect
  import opened StringOrder

  datatype File = File(content: string, executable: bool)

  /** The regular files of a generation by canonical path. */
  type Tree = map<string, File>

  datatype EditError =
    | NotARegularFile
    | ParentIsAFile
    | TooLarge
    | Binary
    | Rejected(reason: ApplyError)

  /** `q` lies below directory `p`. */
  predicate Under(q: string, p: string) {
    p + "/" <= q
  }

  predicate IsDirectory(t: Tree, p: string) {
    exists q :: q in t && Under(q, p)
  }

  predicate HasFileAbove(t: Tree, p: string) {
    exists q :: q in t && Under(p, q)
  }

  /** No file is also a directory. */
  predicate WellFormed(t: Tree) {
    forall p :: p in t ==> CanonicalPath(p) && !IsDirectory(t, p)
  }

  /** UTF-8 size of a text, by code point ranges (section 3 of RFC 3629). */
  function EncodedSize(text: string): nat {
    if text == "" then 0 else
      (if text[0] < '\U{80}' then 1 else if text[0] < '\U{800}' then 2 else if text[0] < '\U{10000}' then 3 else 4)
      + EncodedSize(text[1..])
  }

  predicate Editable(f: File, maxBytes: nat) {
    EncodedSize(f.content) <= maxBytes && '\0' !in f.content
  }

  function ContentOf(t: Tree, p: string): Option<string> {
    if p in t then Some(t[p].content) else None
  }

  /** `_apply_file_patch` as a function on trees. */
  function Patched(t: Tree, patch: FilePatch, maxBytes: nat): Result<Tree, EditError> {
    var p := patch.path;
    if p !in t && IsDirectory(t, p) then Failure(NotARegularFile)
    else if p in t && EncodedSize(t[p].content) > maxBytes then Failure(TooLarge)
    else if p in t && '\0' in t[p].content then Failure(Binary)
    else
      match Applied(patch, ContentOf(t, p))
      case Failure(e) => Failure(Rejected(e))
      case Success(None) => Success(t - {p})
      case Success(Some(content)) =>
        if EncodedSize(content) > maxBytes then Failure(TooLarge)
        else if HasFileAbove(t, p) then Failure(ParentIsAFile)
        else Success(t[p := File(content, p in t && t[p].executable)])
  }

  /** Applying patch after patch, stopping at the first error. */
  function PatchedAll(t: Tree, patches: seq<FilePatch>, maxBytes: nat): Result<Tree, EditError>
    decreases |patches|
  {
    if patches == [] then Success(t) else
      match Patched(t, patches[0], maxBytes)
      case Failure(e) => Failure(e)
      case Success(next) => PatchedAll(next, patches[1..], maxBytes)
  }

  /** A staging directory, edited in place. */
  class Staging {
    var files: Tree

    constructor (initial: Tree)
      ensures files == initial
    {
      files := initial;
    }

    /** `_apply_file_patch` */
    method ApplyFilePatch(patch: FilePatch, maxBytes: nat) returns (r: Result<(), EditError>)
      modifies this
      ensures match Patched(old(files), patch, maxBytes)
              case Failure(e) => r == Failure(e) && files == old(files)
              case Success(next) => r == Success(()) && files == next
    {
      var p := patch.path;
      var source: Option<string> := None;
      var executable := false;
      if p in files {
        if EncodedSize(files[p].content) > maxBytes { return Failure(TooLarge); }
        if '\0' in files[p].content { return Failure(Binary); }
        source := Some(files[p].content);
        executable := files[p].executable;
      } else if IsDirectory(files, p) {
        return Failure(NotARegularFile);
      }
      var result := ApplyPatch(patch, source);
      if result.Failure? { return Failure(Rejected(result.error)); }
      if result.value.None? {
        files := files - {p};
        return Success(());
      }
      if EncodedSize(result.value.value) > maxBytes { return Failure(TooLarge); }
      if HasFileAbove(files, p) { return Failure(ParentIsAFile); }
      files := files[p := File(result.value.value, executable)];
      return Success(());
    }

    /** The patch loop of `WorkspaceEditor.apply`; on an error the whole staging
        directory is thrown away by the caller. */
    method ApplyAll(patches: seq<FilePatch>, maxBytes: nat) returns (r: Result<(), EditError>)
      modifies this
      ensures match PatchedAll(old(files), patches, maxBytes)
              case Failure(e) => r == Failure(e)
              case Success(next) => r == Success(()) && files == next
    {
      for k := 0 to |patches|
        invariant PatchedAll(old(files), patches, maxBytes) == PatchedAll(files, patches[k..], maxBytes)
      {
        assert patches[k..][0] == patches[k] && patches[k..][1..] == patches[k + 1..];
        var one := ApplyFilePatch(patches[k], maxBytes);
        if one.Failure? { return one; }
      }
      return Success(());
    }
  }

  // ---- independence of patches ----

  predicate Incomparable(p: string, q: string) {
    p != q && !Under(p, q) && !Under(q, p)
  }

  /** A patch touches its own path only. */
  lemma UnpatchedUntouched(t: Tree, patch: FilePatch, maxBytes: nat, q: string)
    requires Patched(t, patch, maxBytes).Success? && q != patch.path
    ensures var next := Patched(t, patch, maxBytes).value;
            && (q in next <==> q in t)
            && (q in t ==> next[q] == t[q])
  {
  }

  /** What a patch does to an incomparable path does not depend on another patch. */
  lemma PatchedElsewhere(t: Tree, u: Tree, b: FilePatch, p: string, maxBytes: nat)
    requires Incomparable(p, b.path)
    requires SameElsewhere(t, u, p)
    ensures Patched(t, b, maxBytes).Success? == Patched(u, b, maxBytes).Success?
    ensures Patched(t, b, maxBytes).Success? ==>
              var x, y := Patched(t, b, maxBytes).value, Patched(u, b, maxBytes).value;
              && (b.path in x <==> b.path in y) && (b.path in x ==> x[b.path] == y[b.path])
  {
    assert IsDirectory(t, b.path) == IsDirectory(u, b.path);
    assert HasFileAbove(t, b.path) == HasFileAbove(u, b.path);
  }

  lemma PatchedPair(t: Tree, a: FilePatch, b: FilePatch, maxBytes: nat)
    ensures PatchedAll(t, [a, b], maxBytes) ==
            match Patched(t, a, maxBytes)
            case Failure(e) => Failure(e)
            case Success(next) => Patched(next, b, maxBytes)
  {
    assert [a, b][1..] == [b] && [b][1..] == [];
    assert forall u :: PatchedAll(u, [], maxBytes) == Success(u);
  }

  /** Trees that agree at every path but one. */
  ghost predicate SameElsewhere(t: Tree, u: Tree, p: string) {
    forall q :: q != p ==> (q in t <==> q in u) && (q in t ==> t[q] == u[q])
  }

  lemma PatchedStays(t: Tree, patch: FilePatch, maxBytes: nat)
    requires Patched(t, patch, maxBytes).Success?
    ensures SameElsewhere(t, Patched(t, patch, maxBytes).value, patch.path)
  {
  }

  lemma OtherOrder(t: Tree, a: FilePatch, b: FilePatch, maxBytes: nat)
    requires Incomparable(a.path, b.path)
    requires PatchedAll(t, [a, b], maxBytes).Success?
    ensures PatchedAll(t, [b, a], maxBytes) == PatchedAll(t, [a, b], maxBytes)
  {
    PatchedPair(t, a, b, maxBytes);
    PatchedPair(t, b, a, maxBytes);
    var ta := Patched(t, a, maxBytes).value;
    PatchedStays(t, a, maxBytes);
    PatchedElsewhere(t, ta, b, a.path, maxBytes);
    var tb := Patched(t, b, maxBytes).value;
    PatchedStays(t, b, maxBytes);
    PatchedElsewhere(t, tb, a, b.path, maxBytes);
    var tab, tba := Patched(ta, b, maxBytes).value, Patched(tb, a, maxBytes).value;
    PatchedStays(ta, b, maxBytes);
    PatchedStays(tb, a, maxBytes);
    SameTrees(t, ta, tb, tab, tba, a.path, b.path);
  }

  /** Patches to incomparable paths commute: either order succeeds exactly when the other
      does, with the same tree. */
  lemma PatchesCommute(t: Tree, a: FilePatch, b: FilePatch, maxBytes: nat)
    requires Incomparable(a.path, b.path)
    ensures PatchedAll(t, [a, b], maxBytes).Success? <==> PatchedAll(t, [b, a], maxBytes).Success?
    ensures PatchedAll(t, [a, b], maxBytes).Success? ==>
              PatchedAll(t, [b, a], maxBytes) == PatchedAll(t, [a, b], maxBytes)
  {
    if PatchedAll(t, [a, b], maxBytes).Success? { OtherOrder(t, a, b, maxBytes); }
    if PatchedAll(t, [b, a], maxBytes).Success? { OtherOrder(t, b, a, maxBytes); }
  }

  lemma SameTrees(t: Tree, ta: Tree, tb: Tree, tab: Tree, tba: Tree, p: string, q: string)
    requires p != q
    requires SameElsewhere(t, ta, p) && SameElsewhere(t, tb, q)
    requires SameElsewhere(ta, tab, q) && SameElsewhere(tb, tba, p)
    requires (q in tab <==> q in tb) && (q in tab ==> tab[q] == tb[q])
    requires (p in tba <==> p in ta) && (p in tba ==> tba[p] == ta[p])
    ensures tab == tba
  {
  }

  // ---- any order ----

  ghost predicate AllIncomparable(ps: seq<FilePatch>) {
    forall i, j :: 0 <= i < j < |ps| ==> Incomparable(ps[i].path, ps[j].path)
  }

  /** Both orders fail, or both succeed with the same tree. */
  predicate SameOutcome(a: Result<Tree, EditError>, b: Result<Tree, EditError>) {
    if a.Success? then b == a else b.Failure?
  }

  /** Going on with more patches. */
  function Then(r: Result<Tree, EditError>, rest: seq<FilePatch>, max: nat): Result<Tree, EditError> {
    if r.Failure? then r else PatchedAll(r.value, rest, max)
  }

  lemma PatchedCons(t: Tree, p: FilePatch, rest: seq<FilePatch>, max: nat)
    ensures PatchedAll(t, [p] + rest, max) == Then(Patched(t, p, max), rest, max)
  {
    assert ([p] + rest)[0] == p && ([p] + rest)[1..] == rest;
  }

  /** Exchanging the first two patches. */
  lemma SwapFirst(t: Tree, a: FilePatch, b: FilePatch, rest: seq<FilePatch>, max: nat)
    requires Incomparable(a.path, b.path)
    ensures SameOutcome(PatchedAll(t, [a] + ([b] + rest), max), PatchedAll(t, [b] + ([a] + rest), max))
  {
    PatchedPair(t, a, b, max);
    PatchedPair(t, b, a, max);
    PatchesCommute(t, a, b, max);
    PatchedTwo(t, a, b, rest, max);
    PatchedTwo(t, b, a, rest, max);
  }

  lemma PatchedTwo(t: Tree, a: FilePatch, b: FilePatch, rest: seq<FilePatch>, max: nat)
    ensures PatchedAll(t, [a] + ([b] + rest), max) == Then(PatchedAll(t, [a, b], max), rest, max)
  {
    PatchedPair(t, a, b, max);
    PatchedCons(t, a, [b] + rest, max);
    if Patched(t, a, max).Success? { PatchedCons(Patched(t, a, max).value, b, rest, max); }
  }

  /** Moving one patch to the front. */
  lemma {:induction false} MoveToFront(t: Tree, before: seq<FilePatch>, p: FilePatch, after: seq<FilePatch>, max: nat)
    requires forall i :: 0 <= i < |before| ==> Incomparable(before[i].path, p.path)
    ensures SameOutcome(PatchedAll(t, before + ([p] + after), max), PatchedAll(t, [p] + (before + after), max))
    decreases |before|
  {
    if before == [] {
      EmptyBefore([p] + after);
      EmptyBefore(after);
    } else {
      var first, rest := before[0], before[1..];
      Uncons(before, [p] + after);
      Uncons(before, after);
      PatchedCons(t, first, rest + ([p] + after), max);
      PatchedCons(t, first, [p] + (rest + after), max);
      if Patched(t, first, max).Success? { MoveToFront(Patched(t, first, max).value, rest, p, after, max); }
      SwapFirst(t, first, p, rest + after, max);
    }
  }

  lemma EmptyBefore<T>(xs: seq<T>)
    ensures [] + xs == xs
  {
  }

  lemma Uncons<T>(xs: seq<T>, ys: seq<T>)
    requires xs != []
    ensures xs + ys == [xs[0]] + (xs[1..] + ys)
  {
  }

  /** A permutation of pairwise incomparable patches is pairwise incomparable. */
  lemma StillIncomparable(ps: seq<FilePatch>, qs: seq<FilePatch>)
    requires AllIncomparable(ps) && multiset(ps) == multiset(qs)
    ensures AllIncomparable(qs)
  {
    forall i, j | 0 <= i < j < |qs| ensures Incomparable(qs[i].path, qs[j].path) {
      assert qs[i] in multiset(ps) && qs[j] in multiset(ps);
      var k :| 0 <= k < |ps| && ps[k] == qs[i];
      var l :| 0 <= l < |ps| && ps[l] == qs[j];
      OccursOnce(ps, k);
      if qs[i] == qs[j] { OccursTwice(qs, i, j); }
    }
  }

  lemma OccursTwice<T>(xs: seq<T>, i: nat, j: nat)
    requires i < j < |xs| && xs[i] == xs[j]
    ensures multiset(xs)[xs[i]] >= 2
  {
    assert xs == xs[..j] + [xs[j]] + xs[j + 1..];
    assert xs[i] in multiset(xs[..j]) by { assert xs[..j][i] == xs[i]; }
  }

  lemma OccursOnce(ps: seq<FilePatch>, k: nat)
    requires AllIncomparable(ps) && k < |ps|
    ensures multiset(ps)[ps[k]] == 1
  {
    assert ps == ps[..k] + [ps[k]] + ps[k + 1..];
    assert ps[k] !in ps[..k] && ps[k] !in ps[k + 1..];
  }

  /** A sequence without one of its elements. */
  function Without<T>(xs: seq<T>, i: nat): seq<T>
    requires i < |xs|
  {
    xs[..i] + xs[i + 1..]
  }

  lemma TakeOut<T>(xs: seq<T>, i: nat)
    requires i < |xs|
    ensures xs == xs[..i] + ([xs[i]] + xs[i + 1..])
    ensures multiset(xs) == multiset{xs[i]} + multiset(Without(xs, i))
  {
    assert xs == xs[..i] + [xs[i]] + xs[i + 1..];
  }

  /** The first of these patches, taken out of a permutation of them. */
  lemma FirstOut(ps: seq<FilePatch>, qs: seq<FilePatch>) returns (i: nat)
    requires ps != [] && AllIncomparable(ps) && multiset(ps) == multiset(qs)
    ensures i < |qs| && qs[i] == ps[0]
    ensures AllIncomparable(ps[1..]) && multiset(ps[1..]) == multiset(Without(qs, i))
    ensures forall k :: 0 <= k < i ==> Incomparable(qs[k].path, qs[i].path)
  {
    i := FindIn(ps[0], ps, qs);
    SameRest(ps, qs, i);
    StillIncomparable(ps, qs);
    TailIncomparable(ps);
  }

  lemma FindIn<T>(x: T, xs: seq<T>, ys: seq<T>) returns (i: nat)
    requires x in xs && multiset(xs) == multiset(ys)
    ensures i < |ys| && ys[i] == x
  {
    assert x in multiset(xs);
    i :| 0 <= i < |ys| && ys[i] == x;
  }

  lemma SameRest<T>(xs: seq<T>, ys: seq<T>, i: nat)
    requires xs != [] && i < |ys| && ys[i] == xs[0] && multiset(xs) == multiset(ys)
    ensures multiset(xs[1..]) == multiset(Without(ys, i))
  {
    TakeOut(xs, 0);
    assert Without(xs, 0) == xs[1..];
    TakeOut(ys, i);
    Cancel(xs[0], multiset(xs[1..]), multiset(Without(ys, i)));
  }

  lemma Cancel<T>(x: T, a: multiset<T>, b: multiset<T>)
    requires multiset{x} + a == multiset{x} + b
    ensures a == b
  {
    assert a == (multiset{x} + a) - multiset{x};
    assert b == (multiset{x} + b) - multiset{x};
  }

  lemma TailIncomparable(ps: seq<FilePatch>)
    requires ps != [] && AllIncomparable(ps)
    ensures AllIncomparable(ps[1..])
  {
  }

  /** The order of patches to pairwise incomparable paths does not matter: any two orders
      both fail, or both succeed with the same tree. */
  lemma {:induction false} AnyOrder(t: Tree, ps: seq<FilePatch>, qs: seq<FilePatch>, max: nat)
    requires AllIncomparable(ps) && multiset(ps) == multiset(qs)
    ensures SameOutcome(PatchedAll(t, ps, max), PatchedAll(t, qs, max))
    decreases |ps|
  {
    if ps == [] {
      assert |multiset(qs)| == 0;
    } else {
      var p, rest := ps[0], ps[1..];
      var i := FirstOut(ps, qs);
      var others := Without(qs, i);
      TakeOut(qs, i);
      assert ps == [p] + rest;
      MoveToFront(t, qs[..i], p, qs[i + 1..], max);
      PatchedCons(t, p, rest, max);
      PatchedCons(t, p, others, max);
      if Patched(t, p, max).Success? { AnyOrder(Patched(t, p, max).value, rest, others, max); }
    }
  }

  // ---- the diff of two generations ----

  predicate Ascending(paths: seq<string>) {
    forall i, j :: 0 <= i < j < |paths| ==> Precedes(paths[i], paths[j])
  }

  /** Two generations, the sorted union of their paths, and an alignment per path. */
  datatype Comparison = Comparison(original: Tree, current: Tree, paths: seq<string>, aligned: map<string, seq<Group>>)

  predicate Changed(c: Comparison, p: string) {
    (p in c.original) != (p in c.current) || (p in c.original && c.original[p] != c.current[p])
  }

  function ChangeAt(c: Comparison, p: string): FileChange
    requires p in c.aligned
  {
    FileChange(p, ContentOf(c.original, p), ContentOf(c.current, p), c.aligned[p])
  }

  /** What `build_diff` works from: sound trees, every path listed once in order, and
      for each changed path editable contents and some valid alignment. As in
      `difflib`, identical line lists have no groups. */
  ghost predicate ValidComparison(c: Comparison, maxBytes: nat) {
    && WellFormed(c.original) && WellFormed(c.current)
    && Ascending(c.paths)
    && (forall p :: p in c.paths <==> p in c.original || p in c.current)
    && forall p :: p in c.paths && Changed(c, p) ==>
         && (p in c.original ==> Editable(c.original[p], maxBytes))
         && (p in c.current ==> Editable(c.current[p], maxBytes))
         && p in c.aligned
         && ValidChange(ChangeAt(c, p))
         && (c.aligned[p] == [] <==> LinesOf(ContentOf(c.original, p)) == LinesOf(ContentOf(c.current, p)))
  }

  /** The file patches a comparison prints, in path order. */
  function PatchesFor(c: Comparison, paths: seq<string>): seq<FilePatch>
    requires forall p :: p in paths && Changed(c, p) ==> p in c.aligned && ValidChange(ChangeAt(c, p))
  {
    if paths == [] then [] else
      var p := paths[0];
      (if Changed(c, p) && c.aligned[p] != [] then [PatchOf(ChangeAt(c, p))] else [])
      + PatchesFor(c, paths[1..])
  }

  /** `build_diff`: the loop over the sorted paths. */
  method BuildDiff(c: Comparison, ghost maxBytes: nat) returns (diff: string)
    requires ValidComparison(c, maxBytes)
    ensures diff == Payload(PatchesFor(c, c.paths))
  {
    var output: seq<string> := [];
    for k := 0 to |c.paths|
      invariant output + EmitFiles(PatchesFor(c, c.paths[k..])) == EmitFiles(PatchesFor(c, c.paths))
    {
      var p := c.paths[k];
      assert c.paths[k..][0] == p && c.paths[k..][1..] == c.paths[k + 1..];
      ghost var rest := PatchesFor(c, c.paths[k + 1..]);
      if Changed(c, p) {
        var patch := PatchOf(ChangeAt(c, p));
        ghost var before := output;
        output := EmitLines(RawLines(patch), output);
        if c.aligned[p] != [] {
          EmitRaw(patch);
          EmitFirst(patch, rest);
          ConcatAssoc(before, EmitFile(patch), EmitFiles(rest));
        } else {
          assert patch.hunks == [] && RawLines(patch) == [];
          NoTail(before);
          assert [] + rest == rest;
        }
      } else {
        assert [] + rest == rest;
      }
    }
    NoTail(output);
    return Join(output);
  }

  lemma EmitFirst(p: FilePatch, rest: seq<FilePatch>)
    ensures EmitFiles([p] + rest) == EmitFile(p) + EmitFiles(rest)
  {
    assert ([p] + rest)[0] == p && ([p] + rest)[1..] == rest;
  }
}
