/** Exactly when a retained task can be resumed. */
module ProtocolResume {
  import opened Wrappers
  import opened TaskState
  import opened TaskStateLaws
  import opened Generations
  import opened Protocol
  import opened ProtocolInv
  import opened ProtocolHistory

  /** How a start resumes a task when nothing fails. `RevokeRecipe` does nothing unless a
      recipe was interrupted. */
  const RESUME: seq<Move> :=
    [Start, RecoverWorkspace, ReconcileJournal(Landed), RevokeRecipe(Landed), EnterExecute(Landed)]

  predicate InTurn(w: World) {
    w.proc.Some? && w.proc.value.pc == Turn
  }

  /** The open effect can be closed: there is room for its record, and the phase table
      allows the move that its outcome needs. */
  predicate Resolvable(s: State, recovered: nat)
    requires s.pending.Some?
  {
    && |s.effects| < MAX_EFFECTS
    && (s.phase in {Execute, Review}
        || (s.phase == Retry && ReconciledOutcome(s.pending.value, recovered) != Succeeded))
  }

  /** Not exported or discarded, a workspace that recovers, and no open effect or one that
      can be closed. */
  predicate CanResume(w: World)
    requires w.file.Some?
  {
    var s := w.file.value;
    var r := Generations.Recovered(w.disk, s.generation, w.max);
    s.phase !in {Export, Discard} && r.Success? && (s.pending.None? || Resolvable(s, r.value))
  }

  lemma Stopped(w: World, m: Move)
    requires w.proc.None? && !m.Start?
    ensures Next(w, m) == w
  {
  }

  /** The process stands at `pc`, with its session on disk. */
  predicate At(w: World, s: State, workspace: nat, pc: Pc) {
    w.file == Some(s) && w.proc == Some(Proc(s, workspace, pc))
  }

  lemma RecoverStep(w: World, s: State)
    requires At(w, s, s.generation, Leased)
    ensures var r := Generations.Recovered(w.disk, s.generation, w.max);
            var v := Next(w, RecoverWorkspace);
            if s.phase !in {Export, Discard} && r.Success? then At(v, s, r.value, Protocol.Recovered) else v.proc.None?
  {
  }

  lemma NothingToReconcile(w: World, s: State)
    requires At(w, s, s.generation, Protocol.Recovered) && s.pending.None?
    ensures At(Next(w, ReconcileJournal(Landed)), s, s.generation, Entering)
  {
  }

  /** A task whose journal is closed, about to enter `Execute`. */
  predicate Closed(w: World) {
    && w.proc.Some? && (w.proc.value.pc == Entering || w.proc.value.pc.Revoking?)
    && w.file == Some(w.proc.value.session) && ValidState(w.proc.value.session)
    && w.proc.value.session.phase !in {Export, Discard}
  }

  lemma ReconcileStep(w: World, s: State, recovered: nat)
    requires At(w, s, recovered, Protocol.Recovered) && s.pending.Some? && ValidState(s)
    ensures var v := Next(w, ReconcileJournal(Landed));
            if Resolvable(s, recovered) then Closed(v) else v.proc.None?
  {
    ReconcileResolves(CellOf(w), recovered, Landed);
    var r := Reconciled(CellOf(w), recovered, Landed);
    OneRequest(CellOf(w), Reconcile(recovered), Landed);
    assert r.error.None? ==> r.cell.session.phase in {Review, Retry};
  }

  lemma RevokeStep(w: World)
    requires Closed(w)
    ensures var v := Next(w, RevokeRecipe(Landed)); Closed(v) && v.proc.value.pc == Entering
  {
  }

  lemma EnterStep(w: World)
    requires Closed(w) && w.proc.value.pc == Entering
    ensures InTurn(Next(w, EnterExecute(Landed)))
  {
  }

  lemma LastSteps(w: World)
    requires w.proc.None? || Closed(w)
    ensures InTurn(Next(Next(w, RevokeRecipe(Landed)), EnterExecute(Landed))) <==> w.proc.Some?
  {
    if w.proc.None? {
      Stopped(w, RevokeRecipe(Landed));
      Stopped(w, EnterExecute(Landed));
    } else {
      RevokeStep(w);
      EnterStep(Next(w, RevokeRecipe(Landed)));
    }
  }

  lemma FirstSteps(w: World, s: State)
    requires Inv(w) && w.proc.None? && w.file == Some(s)
    ensures var v := Next(Next(Next(w, Start), RecoverWorkspace), ReconcileJournal(Landed));
            (v.proc.None? || Closed(v)) && (v.proc.Some? <==> CanResume(w))
  {
    var leased := Next(w, Start);
    var recovered := Next(leased, RecoverWorkspace);
    RecoverStep(leased, s);
    SoundFile(w, s);
    var r := Generations.Recovered(w.disk, s.generation, w.max);
    if recovered.proc.None? {
      Stopped(recovered, ReconcileJournal(Landed));
    } else if s.pending.None? {
      RecoversItself(w, s);
      NothingToReconcile(recovered, s);
    } else {
      ReconcileStep(recovered, s, r.value);
    }
  }

  lemma SoundFile(w: World, s: State)
    requires Inv(w) && w.file == Some(s)
    ensures Sound(s) && FileOk(w, s)
  {
  }

  /** With nothing open, recovery finds the recorded generation or nothing. */
  lemma RecoversItself(w: World, s: State)
    requires FileOk(w, s) && s.pending.None?
    ensures var r := Generations.Recovered(w.disk, s.generation, w.max); r.Success? ==> r.value == s.generation
  {
    WalkAdopts(w.disk, s.generation, w.max, Top(s));
  }

  lemma RunResume(w: World)
    ensures Run(w, RESUME) ==
            Next(Next(Next(Next(Next(w, Start), RecoverWorkspace), ReconcileJournal(Landed)), RevokeRecipe(Landed)),
                 EnterExecute(Landed))
  {
    RunTwoMore(w, Start, RecoverWorkspace, [ReconcileJournal(Landed), RevokeRecipe(Landed), EnterExecute(Landed)]);
    var v := Next(Next(w, Start), RecoverWorkspace);
    RunTwoMore(v, ReconcileJournal(Landed), RevokeRecipe(Landed), [EnterExecute(Landed)]);
    var u := Next(Next(v, ReconcileJournal(Landed)), RevokeRecipe(Landed));
    assert [EnterExecute(Landed)][1..] == [];
    assert Run(u, [EnterExecute(Landed)]) == Next(u, EnterExecute(Landed));
  }

  lemma RunTwoMore(w: World, a: Move, b: Move, rest: seq<Move>)
    ensures Run(w, [a, b] + rest) == Run(Next(Next(w, a), b), rest)
  {
    assert ([a, b] + rest)[1..] == [b] + rest;
    assert ([b] + rest)[1..] == rest;
  }

  /** Whatever a task went through, starting it again leads back into the controller loop, if
      nothing fails on the way, exactly when it was not exported or discarded, its workspace
      recovers, and its open effect, if any, can be closed. */
  lemma ResumesExactly(w: World, before: seq<Move>)
    requires Created(w)
    requires Run(w, before).file.Some? && Run(w, before).proc.None?
    ensures InTurn(Run(Run(w, before), RESUME)) <==> CanResume(Run(w, before))
  {
    Reachable(w, before);
    var now := Run(w, before);
    RunResume(now);
    FirstSteps(now, now.file.value);
    LastSteps(Next(Next(Next(now, Start), RecoverWorkspace), ReconcileJournal(Landed)));
  }
}
