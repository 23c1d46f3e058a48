/** `WorkspaceEditor.apply` with the contents it works on (src/ulg/workspace/editor.py): the
    publication of `Generations`, whose staging directory is edited by the file patches of
    `TreeDiff`. */
module PatchedGenerations {
  import opened Wrappers
  import opened Patches
  import opened DiffParser
  import opened Generations
  import opened GenerationLaws
  import opened GenerationWitnesses
  import T = TreeDiff

  /** The digest of a tree. */
  type Digest = T.Tree -> nat

  /** What one call of `apply` is given: the tree of generation `n`, and the file patches. */
  datatype Task = Task(n: nat, source: T.Tree, patches: seq<FilePatch>, maxBytes: nat, digest: Digest)

  function Goal(k: Task): Result<T.Tree, T.EditError> {
    T.PatchedAll(k.source, k.patches, k.maxBytes)
  }

  /** A publication under way. In the patch loop `applied` patches are done and left `tree`;
      `touched` says that the next one is half way. */
  datatype Edit = Edit(pub: PubState, tree: T.Tree, applied: nat, touched: bool)

  datatype Act =
    | Machine(choice: Choice)
    | Touch(contents: nat)
    | PatchNext
    | Scan

  /** Inside the loop: change some contents, finish a file patch or fail at it, or, after the
      last one, scan and rename. An exception may strike at any point. */
  function LoopNext(k: Task, e: Edit, act: Act): Edit {
    match act
    case Machine(ch) => if ch.Raise? || ch.CloseFails? then e.(pub := PubNext(k.n, e.pub, Raise)) else e
    case Touch(contents) => e.(pub := PubNext(k.n, e.pub, Chew(contents)), touched := true)
    case PatchNext =>
      if e.applied >= |k.patches| then e else
        (match T.Patched(e.tree, k.patches[e.applied], k.maxBytes)
         case Failure(_) => e.(pub := PubNext(k.n, e.pub, Reject))
         case Success(next) => Edit(PubNext(k.n, e.pub, Chew(k.digest(next))), next, e.applied + 1, false))
    case Scan => if e.applied == |k.patches| && !e.touched then e.(pub := PubNext(k.n, e.pub, Go)) else e
  }

  function EditNext(k: Task, e: Edit, act: Act): Edit {
    if e.pub.pc == Patching then LoopNext(k, e, act)
    else if !act.Machine? then e
    else
      var next := PubNext(k.n, e.pub, act.choice);
      if next.pc == Patching then Edit(next, k.source, 0, false) else e.(pub := next)
  }

  function EditRun(k: Task, e: Edit, acts: seq<Act>): Edit
    decreases |acts|
  {
    if acts == [] then e else EditRun(k, EditNext(k, e, acts[0]), acts[1..])
  }

  function Begin(k: Task, d: Disk): Edit {
    Edit(PubState(d, ClearStaging), k.source, 0, false)
  }

  // ---- every such run is a publication ----

  ghost predicate IsPubStep(n: nat, s: PubState, next: PubState) {
    next == s || exists ch :: next == PubNext(n, s, ch)
  }

  lemma EditIsPub(k: Task, e: Edit, act: Act)
    ensures IsPubStep(k.n, e.pub, EditNext(k, e, act).pub)
  {
  }

  lemma {:induction false} RunIsPubRun(k: Task, e: Edit, acts: seq<Act>) returns (choices: seq<Choice>)
    ensures EditRun(k, e, acts).pub == PubRun(k.n, e.pub, choices)
    decreases |acts|
  {
    if acts == [] {
      choices := [];
    } else {
      var next := EditNext(k, e, acts[0]);
      choices := RunIsPubRun(k, next, acts[1..]);
      EditIsPub(k, e, acts[0]);
      if next.pub != e.pub {
        var ch :| next.pub == PubNext(k.n, e.pub, ch);
        assert ([ch] + choices)[1..] == choices;
        choices := [ch] + choices;
      }
    }
  }

  // ---- what each point knows about the contents ----

  /** The patch after those applied. */
  function Current(k: Task, e: Edit): Result<T.Tree, T.EditError>
    requires e.applied < |k.patches|
  {
    T.Patched(e.tree, k.patches[e.applied], k.maxBytes)
  }

  /** What the patches still to come make of the tree at hand. */
  function Rest(k: Task, tree: T.Tree, applied: nat): Result<T.Tree, T.EditError>
    requires applied <= |k.patches|
  {
    T.PatchedAll(tree, k.patches[applied..], k.maxBytes)
  }

  /** The patches still to come take the tree at hand to the goal; and the staging directory
      holds that tree, unless a patch is half way. */
  ghost predicate InLoop(k: Task, e: Edit) {
    && e.applied <= |k.patches|
    && Goal(k) == Rest(k, e.tree, e.applied)
    && (!e.touched && k.n + 1 in e.pub.disk.stagings ==> e.pub.disk.stagings[k.n + 1] == k.digest(e.tree))
  }

  /** A renamed directory holds the patched tree, and so does what a complete manifest names. */
  ghost predicate Outcome(k: Task, s: PubState) {
    var g := k.n + 1;
    && (s.pc.Renamed? || s.pc.Writing? ==>
         Goal(k).Success? && g in s.disk.finals && s.disk.finals[g] == k.digest(Goal(k).value))
    && (g in s.disk.manifests ==> Goal(k).Success?)
    && (g in s.disk.manifests && s.disk.manifests[g].Complete? ==> s.disk.manifests[g].tree == k.digest(Goal(k).value))
  }

  ghost predicate Faithful(k: Task, d0: Disk, e: Edit) {
    && PubInv(d0, k.n, e.pub)
    && (e.pub.pc == Patching ==> InLoop(k, e))
    && Outcome(k, e.pub)
  }

  /** Generation `n` is the source. */
  ghost predicate From(k: Task, d0: Disk) {
    Intact(d0, k.n) && Unpublished(d0, k.n) && k.n in d0.finals && d0.finals[k.n] == k.digest(k.source)
  }

  lemma SourceStays(k: Task, d0: Disk, d: Disk)
    requires From(k, d0) && SameBut(d0, d, k.n)
    ensures Reopens(d, k.n) && d.finals[k.n] == d.manifests[k.n].tree == k.digest(k.source)
  {
    assert Reopens(d0, k.n);
    SameButReopens(d0, d, k.n, k.n);
    assert d.finals[k.n] == (d.finals - {k.n + 1})[k.n];
    assert d0.finals[k.n] == (d0.finals - {k.n + 1})[k.n];
  }

  // ---- every step keeps it ----

  lemma NextPatch(k: Task, e: Edit)
    requires e.applied < |k.patches|
    ensures Current(k, e).Failure? ==> Rest(k, e.tree, e.applied).Failure?
    ensures Current(k, e).Success? ==> Rest(k, e.tree, e.applied) == Rest(k, Current(k, e).value, e.applied + 1)
  {
    var left := k.patches[e.applied..];
    assert left[0] == k.patches[e.applied] && left[1..] == k.patches[e.applied + 1..];
  }

  lemma PatchShape(k: Task, e: Edit)
    requires e.pub.pc == Patching && e.applied < |k.patches|
    ensures Current(k, e).Failure? ==>
              LoopNext(k, e, PatchNext) == e.(pub := PubState(e.pub.disk, Unwinding(true, false)))
    ensures Current(k, e).Success? ==>
              var tree := Current(k, e).value;
              LoopNext(k, e, PatchNext) ==
              Edit(PubState(SetStaging(e.pub.disk, k.n + 1, k.digest(tree)), Patching), tree, e.applied + 1, false)
  {
  }

  lemma PatchKeeps(k: Task, e: Edit)
    requires e.pub.pc == Patching && At(e.pub.disk, k.n, Patching) && InLoop(k, e) && Outcome(k, e.pub)
    ensures var next := LoopNext(k, e, PatchNext);
            (next.pub.pc == Patching ==> InLoop(k, next)) && Outcome(k, next.pub)
  {
    if e.applied < |k.patches| {
      NextPatch(k, e);
      PatchShape(k, e);
    }
  }

  lemma ScanKeeps(k: Task, e: Edit)
    requires e.pub.pc == Patching && At(e.pub.disk, k.n, Patching) && InLoop(k, e) && Outcome(k, e.pub)
    ensures var next := LoopNext(k, e, Scan);
            (next.pub.pc == Patching ==> InLoop(k, next)) && Outcome(k, next.pub)
  {
    if e.applied == |k.patches| { assert k.patches[e.applied..] == []; }
  }

  lemma OtherKeeps(k: Task, e: Edit, act: Act)
    requires e.pub.pc == Patching && At(e.pub.disk, k.n, Patching) && InLoop(k, e) && Outcome(k, e.pub)
    requires act.Machine? || act.Touch?
    ensures var next := LoopNext(k, e, act);
            (next.pub.pc == Patching ==> InLoop(k, next)) && Outcome(k, next.pub)
  {
  }

  lemma LoopKeeps(k: Task, e: Edit, act: Act)
    requires e.pub.pc == Patching && At(e.pub.disk, k.n, Patching) && InLoop(k, e) && Outcome(k, e.pub)
    ensures var next := LoopNext(k, e, act);
            (next.pub.pc == Patching ==> InLoop(k, next)) && Outcome(k, next.pub)
  {
    match act {
      case Machine(_) => OtherKeeps(k, e, act);
      case Touch(_) => OtherKeeps(k, e, act);
      case PatchNext => PatchKeeps(k, e);
      case Scan => ScanKeeps(k, e);
    }
  }

  lemma MachineKeeps(k: Task, d0: Disk, s: PubState, ch: Choice)
    requires From(k, d0) && PubInv(d0, k.n, s) && s.pc != Patching && Outcome(k, s)
    ensures var next := PubNext(k.n, s, ch);
            && Outcome(k, next)
            && (next.pc == Patching ==> InLoop(k, Edit(next, k.source, 0, false)))
  {
    SourceStays(k, d0, s.disk);
    assert k.patches[0..] == k.patches;
  }

  lemma EditKeeps(k: Task, d0: Disk, e: Edit, act: Act)
    requires From(k, d0) && Faithful(k, d0, e)
    ensures Faithful(k, d0, EditNext(k, e, act))
  {
    var next := EditNext(k, e, act);
    EditIsPub(k, e, act);
    if next.pub != e.pub {
      var ch :| next.pub == PubNext(k.n, e.pub, ch);
      PubStep(d0, k.n, e.pub, ch);
    }
    if e.pub.pc == Patching {
      LoopKeeps(k, e, act);
    } else if act.Machine? {
      MachineKeeps(k, d0, e.pub, act.choice);
    }
  }

  lemma {:induction false} EditRunKeeps(k: Task, d0: Disk, e: Edit, acts: seq<Act>)
    requires From(k, d0) && Faithful(k, d0, e)
    ensures Faithful(k, d0, EditRun(k, e, acts))
    decreases |acts|
  {
    if acts != [] {
      EditKeeps(k, d0, e, acts[0]);
      EditRunKeeps(k, d0, EditNext(k, e, acts[0]), acts[1..]);
    }
  }

  /** Stop `apply` anywhere. Recovery goes on to generation `n + 1` only if every file patch
      applied in turn, and then it is exactly the patched tree of generation `n`, and its
      manifest names both; if some patch does not apply, recovery stays at generation `n`. */
  lemma PublishedIsPatched(k: Task, d0: Disk, max: nat, acts: seq<Act>)
    requires From(k, d0) && k.n < max
    ensures var end := EditRun(k, Begin(k, d0), acts).pub;
            var d, r := end.disk, Recovered(end.disk, k.n, max);
            && k.n in d.finals && d.finals[k.n] == k.digest(k.source)
            && (r == Success(k.n + 1) ==>
                 && Goal(k).Success?
                 && k.n + 1 in d.finals && d.finals[k.n + 1] == k.digest(Goal(k).value)
                 && k.n + 1 in d.manifests
                 && d.manifests[k.n + 1] == Complete(Some(k.digest(k.source)), k.digest(Goal(k).value)))
            && (Goal(k).Failure? ==> r == Success(k.n))
            && (end.pc == Done(Published) ==> r == Success(k.n + 1))
  {
    var start := Begin(k, d0);
    var end := EditRun(k, start, acts);
    EditRunKeeps(k, d0, start, acts);
    SourceStays(k, d0, end.pub.disk);
    var choices := RunIsPubRun(k, start, acts);
    PublishAndRecover(d0, k.n, max, choices);
    VerdictIsTrue(d0, k.n, max, choices);
  }

  /** The same for a whole patch text: what is published is generation `n` with the parsed
      file patches applied in turn. */
  lemma PublishedPayload(payload: string, k: Task, d0: Disk, max: nat, acts: seq<Act>)
    requires Parsed(payload) == Success(k.patches)
    requires From(k, d0) && k.n < max
    requires Recovered(EditRun(k, Begin(k, d0), acts).pub.disk, k.n, max) == Success(k.n + 1)
    ensures var d := EditRun(k, Begin(k, d0), acts).pub.disk;
            var patched := T.PatchedAll(k.source, Parsed(payload).value, k.maxBytes);
            && patched.Success?
            && k.n + 1 in d.finals && d.finals[k.n + 1] == k.digest(patched.value)
  {
    PublishedIsPatched(k, d0, max, acts);
  }

  // ---- and every applicable patch can be published ----

  lemma {:induction false} EditRunAppend(k: Task, e: Edit, first: seq<Act>, second: seq<Act>)
    ensures EditRun(k, e, first + second) == EditRun(k, EditRun(k, e, first), second)
    decreases |first|
  {
    if first == [] {
      assert first + second == second;
    } else {
      assert (first + second)[0] == first[0] && (first + second)[1..] == first[1..] + second;
      EditRunAppend(k, EditNext(k, e, first[0]), first[1..], second);
    }
  }

  lemma OneAct(k: Task, e: Edit, a: Act)
    ensures EditRun(k, e, [a]) == EditNext(k, e, a)
  {
    assert [a][1..] == [];
  }

  lemma TwoActs(k: Task, e: Edit, a: Act, b: Act)
    ensures EditRun(k, e, [a, b]) == EditNext(k, EditNext(k, e, a), b)
  {
    assert [a, b][1..] == [b];
    OneAct(k, EditNext(k, e, a), b);
  }

  /** The loop entered on a clean disk. */
  function Preparing(k: Task): seq<Act> {
    [Machine(Go), Machine(Go)] + [Machine(Chew(k.digest(k.source))), Machine(Go)]
  }

  lemma Prepares(k: Task, d0: Disk)
    requires From(k, d0) && Clean(d0, k.n)
    ensures var e := EditRun(k, Begin(k, d0), Preparing(k));
            e == Edit(e.pub, k.source, 0, false) && Staged(d0, k.n, e.pub, Patching, k.digest(k.source))
  {
    var e := Begin(k, d0);
    SourceStays(k, d0, d0);
    EditRunAppend(k, e, [Machine(Go), Machine(Go)], [Machine(Chew(k.digest(k.source))), Machine(Go)]);
    TwoActs(k, e, Machine(Go), Machine(Go));
    TwoActs(k, EditRun(k, e, [Machine(Go), Machine(Go)]), Machine(Chew(k.digest(k.source))), Machine(Go));
  }

  /** Every file patch in turn. */
  function PatchingAll(count: nat): seq<Act> {
    if count == 0 then [] else [PatchNext] + PatchingAll(count - 1)
  }

  lemma PatchesOne(k: Task, d0: Disk, e: Edit)
    requires e.applied < |k.patches| && !e.touched
    requires Staged(d0, k.n, e.pub, Patching, k.digest(e.tree))
    requires Rest(k, e.tree, e.applied).Success?
    ensures var next := EditNext(k, e, PatchNext);
            && !next.touched && next.applied == e.applied + 1
            && Staged(d0, k.n, next.pub, Patching, k.digest(next.tree))
            && Rest(k, e.tree, e.applied) == Rest(k, next.tree, next.applied)
  {
    NextPatch(k, e);
    PatchShape(k, e);
  }

  lemma {:induction false} PatchesAll(k: Task, d0: Disk, e: Edit)
    requires e.applied <= |k.patches| && !e.touched
    requires Staged(d0, k.n, e.pub, Patching, k.digest(e.tree))
    requires Rest(k, e.tree, e.applied).Success?
    ensures var goal := Rest(k, e.tree, e.applied).value;
            var end := EditRun(k, e, PatchingAll(|k.patches| - e.applied));
            end == Edit(end.pub, goal, |k.patches|, false) && Staged(d0, k.n, end.pub, Patching, k.digest(goal))
    decreases |k.patches| - e.applied
  {
    if e.applied < |k.patches| {
      PatchesOne(k, d0, e);
      PatchesAll(k, d0, EditNext(k, e, PatchNext));
      PatchFirst(k, e, |k.patches| - e.applied);
    } else {
      assert k.patches[e.applied..] == [];
    }
  }

  lemma PatchFirst(k: Task, e: Edit, count: nat)
    requires count > 0
    ensures EditRun(k, e, PatchingAll(count)) == EditRun(k, EditNext(k, e, PatchNext), PatchingAll(count - 1))
  {
    assert PatchingAll(count)[0] == PatchNext && PatchingAll(count)[1..] == PatchingAll(count - 1);
  }

  lemma Finishes(k: Task, d0: Disk, e: Edit, contents: nat)
    requires Clean(d0, k.n) && Staged(d0, k.n, e.pub, Patching, contents)
    requires e.applied == |k.patches| && !e.touched
    ensures EditRun(k, e, [Scan, Machine(Go)] + [Machine(Go), Machine(Go)]).pub.pc == Done(Published)
  {
    assert Reopens(d0, k.n);
    EditRunAppend(k, e, [Scan, Machine(Go)], [Machine(Go), Machine(Go)]);
    TwoActs(k, e, Scan, Machine(Go));
    TwoActs(k, EditRun(k, e, [Scan, Machine(Go)]), Machine(Go), Machine(Go));
  }

  function Publishing(k: Task): seq<Act> {
    Preparing(k) + PatchingAll(|k.patches|) + ([Scan, Machine(Go)] + [Machine(Go), Machine(Go)])
  }

  /** On a clean disk `apply` can publish exactly the patches that apply in turn. */
  lemma PublishableExactly(k: Task, d0: Disk, max: nat)
    requires From(k, d0) && Clean(d0, k.n) && k.n < max
    ensures Goal(k).Success? <==> exists acts :: EditRun(k, Begin(k, d0), acts).pub.pc == Done(Published)
  {
    if Goal(k).Success? {
      var e := Begin(k, d0);
      Prepares(k, d0);
      var entered := EditRun(k, e, Preparing(k));
      assert k.patches[0..] == k.patches;
      PatchesAll(k, d0, entered);
      Finishes(k, d0, EditRun(k, entered, PatchingAll(|k.patches|)), k.digest(Goal(k).value));
      EditRunAppend(k, e, Preparing(k) + PatchingAll(|k.patches|), [Scan, Machine(Go)] + [Machine(Go), Machine(Go)]);
      EditRunAppend(k, e, Preparing(k), PatchingAll(|k.patches|));
      assert EditRun(k, e, Publishing(k)).pub.pc == Done(Published);
    }
    if acts :| EditRun(k, Begin(k, d0), acts).pub.pc == Done(Published) {
      PublishedIsPatched(k, d0, max, acts);
    }
  }
}
