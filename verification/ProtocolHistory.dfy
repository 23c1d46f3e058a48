/** How the state file of a task may change, one step at a time and over whole runs. */
module ProtocolHistory {
  import opened Wrappers
  import opened TaskState
  import opened TaskStateLaws
  import opened Protocol
  import opened ProtocolInv
  import opened ProtocolSteps

  // ---- one step ----

  /** Nothing scheduled and nothing completed. An open effect stays open, and then the
      phase can only move towards the end of the task. */
  predicate Carries(a: State, b: State) {
    && b.effects == a.effects && b.pending == a.pending
    && (a.pending.Some? ==> b.phase == a.phase || b.phase in {Retry, Cancel, Export, Discard})
  }

  /** An effect never recorded before is opened. */
  predicate Opens(a: State, b: State) {
    && b.effects == a.effects && a.pending.None? && b.pending.Some?
    && a.phase in {Execute, Review} && b.phase == Execute
    && b.pending.value.before == a.generation && !Recorded(a.effects, b.pending.value.id)
  }

  /** The open effect is closed: exactly one record is appended, for that effect. */
  predicate Closes(a: State, b: State) {
    && a.pending.Some? && b.pending.None?
    && |b.effects| == |a.effects| + 1 && b.effects[..|a.effects|] == a.effects
    && (var e := b.effects[|a.effects|]; e == Completed(a.pending.value, e.outcome, e.after) && e.after == b.generation)
    && (if a.phase == Execute then b.phase in {Execute, Review, Retry} else b.phase in {Review, Retry})
  }

  /** One landed write after another. */
  predicate Follows(a: State, b: State) {
    || b == a
    || (b.revision == a.revision + 1 && Allowed(a.phase, b.phase) && a.phase != Discard
        && (Carries(a, b) || Opens(a, b) || Closes(a, b)))
  }

  predicate FileFollows(a: Option<State>, b: Option<State>) {
    b.Some? ==> a.Some? && Follows(a.value, b.value)
  }

  /** If an update, when it lands, follows the session, then the file follows. */
  lemma EndsFollow(c: Cell, r: Step, t: State)
    requires InSync(c) && Ends(c, r, t)
    requires r.cell != c ==> Follows(c.session, t)
    ensures FileFollows(c.durable, r.cell.durable)
  {
  }

  lemma UpdateFollows(c: Cell, changed: State, wr: Write)
    requires (InSync(c) && Carries(c.session, changed) && changed.phase == c.session.phase != Discard) || Stale(c)
    ensures FileFollows(c.durable, Updated(c, changed, wr).cell.durable)
  {
    UpdateEnds(c, changed, wr);
    if InSync(c) { EndsFollow(c, Updated(c, changed, wr), Candidate(c, changed)); }
  }

  lemma TransitionFollows(c: Cell, phase: Phase, changed: State, wr: Write)
    requires InSync(c) || Stale(c)
    requires InSync(c) ==>
               && changed.effects == c.session.effects && changed.pending == c.session.pending
               && (c.session.pending.Some? ==> phase in {Retry, Cancel, Export, Discard})
               && c.session.phase != Discard
    ensures FileFollows(c.durable, Transitioned(c, phase, changed, wr).cell.durable)
  {
    TransitionEnds(c, phase, changed, wr);
    if InSync(c) {
      EndsFollow(c, Transitioned(c, phase, changed, wr), Candidate(c, changed.(phase := phase)));
    }
  }

  lemma ScheduleFollows(c: Cell, a: Action, wr: Write)
    requires InSync(c) && c.session.phase in {Execute, Review}
    ensures FileFollows(c.durable, Scheduled(c, a, wr).cell.durable)
  {
    ScheduledEnds(c, a, wr);
    EndsFollow(c, Scheduled(c, a, wr), ScheduleTarget(c, a));
  }

  lemma FinishFollows(c: Cell, a: Action, ok: bool, published: nat, wr: Write)
    requires InSync(c) && Scheduling(c.session, a)
    ensures FileFollows(c.durable, Finished(c, a, ok, published, wr).cell.durable)
  {
    var t := FinishTarget(c, ok, published);
    FinishedEnds(c, a, ok, published, wr);
    assert t.effects[..|c.session.effects|] == c.session.effects;
    EndsFollow(c, Finished(c, a, ok, published, wr), t);
  }

  lemma ReconcileFollows(c: Cell, m: nat, wr: Write)
    requires InSync(c) && (c.session.pending.None? ==> m == c.session.generation)
    requires c.session.phase != Discard
    ensures FileFollows(c.durable, Reconciled(c, m, wr).cell.durable)
  {
    if c.session.pending.Some? {
      var t := ReconcileTarget(c, m);
      ReconciledEnds(c, m, wr);
      assert t.effects[..|c.session.effects|] == c.session.effects;
      ReconcileAllowed(c, m, wr);
      EndsFollow(c, Reconciled(c, m, wr), t);
    }
  }

  lemma ReconcileAllowed(c: Cell, m: nat, wr: Write)
    requires InSync(c) && c.session.pending.Some?
    ensures Reconciled(c, m, wr).cell != c ==> Allowed(c.session.phase, ReconcileTarget(c, m).phase)
  {
  }

  lemma ResumeFollows(w: World, p: Proc, m: Move)
    requires Inv(w) && w.proc == Some(p)
    requires (p.pc.Leased? || p.pc == Protocol.Recovered || p.pc.Revoking? || p.pc == Entering)
    ensures FileFollows(w.file, (if p.pc.Leased? then LeasedNext(w, p, m) else ResumeNext(w, p, m)).file)
  {
    var c := CellOf(w);
    if p.pc == Leased && m.Override? && p.session.phase !in {Export, Discard} {
      UpdateFollows(c, p.session.(settings := m.settings), m.w);
    } else if p.pc == Protocol.Recovered && m.ReconcileJournal? {
      ReconcileFollows(c, p.workspace, m.w);
    } else if p.pc == Entering && m.EnterExecute? {
      TransitionFollows(c, Execute, p.session.(lastError := None), m.w);
    }
  }

  lemma TurnFollows(w: World, p: Proc, m: Move)
    requires Inv(w) && w.proc == Some(p) && (p.pc.Turn? || p.pc.Asking? || p.pc.Authorised?)
    ensures FileFollows(w.file, TurnNext(w, p, m).file)
  {
    if p.pc.Authorised? && m.Schedule? { ScheduleFollows(CellOf(w), p.pc.action, m.w); }
  }

  lemma EffectFollows(w: World, p: Proc, m: Move)
    requires Inv(w) && w.proc == Some(p) && (p.pc.Ready? || p.pc.Publishing? || p.pc.InSandbox? || p.pc.Ran?)
    ensures FileFollows(w.file, EffectNext(w, p, m).file)
  {
    if p.pc.Ran? && m.FinishEffect? {
      FinishFollows(CellOf(w), p.pc.action, p.pc.ok, p.workspace, m.w);
    } else {
      assert EffectNext(w, p, m).file == w.file;
    }
  }

  lemma FailureFollows(w: World, p: Proc, m: Move)
    requires Inv(w) && w.proc == Some(p) && (p.pc.Failing? || p.pc.Rescuing?)
    ensures FileFollows(w.file, EndNext(w, p, m).file)
  {
    var c := CellOf(w);
    if p.pc.Failing? && m.SafeTransition? {
      var code := if p.pc.cancelled then TaskCancelled else OtherFailure;
      TransitionFollows(c, if p.pc.cancelled then Cancel else Retry, p.session.(lastError := Some(code)), m.w);
    } else if p.pc.Rescuing? && m.RescueExport? {
      TransitionFollows(c, Export, Labelled(p.session), m.w);
    }
  }

  lemma EndFollows(w: World, p: Proc, m: Move)
    requires Inv(w) && w.proc == Some(p) && (p.pc.Completing? || p.pc.Exporting? || p.pc.Closing?)
    ensures FileFollows(w.file, EndNext(w, p, m).file)
  {
    var c := CellOf(w);
    if p.pc.Completing? && m.EnterReview? {
      TransitionFollows(c, Review, p.session.(generation := p.workspace), m.w);
    } else if p.pc.Exporting? && m.EnterExport? {
      TransitionFollows(c, Export, p.session, m.w);
    } else if p.pc.Closing? && m.FinishDiscard? {
      TransitionFollows(c, Discard, p.session.(generation := p.workspace), m.w);
    }
  }

  lemma RemovalFollows(w: World, p: Proc, m: Move)
    requires w.proc == Some(p) && (p.pc.Discarding? || p.pc.Cleaning? || p.pc.Deleting?)
    ensures FileFollows(w.file, EndNext(w, p, m).file)
  {
  }

  /** The state file changes only by one landed write after another. */
  lemma StepFollows(w: World, m: Move)
    requires Inv(w)
    ensures FileFollows(w.file, Next(w, m).file)
  {
    if w.proc.Some? && !m.Crash? && !m.Fail? {
      var p := w.proc.value;
      if p.pc.Leased? || p.pc == Protocol.Recovered || p.pc.Revoking? || p.pc == Entering {
        ResumeFollows(w, p, m);
      } else if p.pc.Turn? || p.pc.Asking? || p.pc.Authorised? {
        TurnFollows(w, p, m);
      } else if p.pc.Ready? || p.pc.Publishing? || p.pc.InSandbox? || p.pc.Ran? {
        EffectFollows(w, p, m);
      } else if p.pc.Failing? || p.pc.Rescuing? {
        FailureFollows(w, p, m);
      } else if p.pc.Completing? || p.pc.Exporting? || p.pc.Closing? {
        EndFollows(w, p, m);
      } else {
        RemovalFollows(w, p, m);
      }
    }
  }

  // ---- whole runs ----

  lemma {:induction false} RunAppend(w: World, before: seq<Move>, more: seq<Move>)
    ensures Run(w, before + more) == Run(Run(w, before), more)
    decreases |before|
  {
    if before == [] {
      assert before + more == more;
    } else {
      assert (before + more)[0] == before[0] && (before + more)[1..] == before[1..] + more;
      RunAppend(Next(w, before[0]), before[1..], more);
    }
  }

  lemma Reachable(w: World, moves: seq<Move>)
    requires Created(w)
    ensures Inv(Run(w, moves))
  {
    CreatedInv(w);
    RunKeeps(w, moves);
  }

  /** Every durable history is a path in the phase table, one revision per landed write,
      each write opening one new effect, closing the open one, or neither; a deleted
      task never comes back. */
  lemma DurableHistory(w: World, before: seq<Move>, m: Move)
    requires Created(w)
    ensures FileFollows(Run(w, before).file, Run(w, before + [m]).file)
  {
    Reachable(w, before);
    RunAppend(w, before, [m]);
    var now := Run(w, before);
    StepFollows(now, m);
    assert Run(now, [m]) == Next(now, m);
  }

  /** What is true of a state and of everything that may follow it. */
  predicate Lasting(a: State, b: State) {
    && a.revision <= b.revision
    && a.effects <= b.effects
    && (a.phase == Discard ==> b == a)
    && (a.pending.Some? ==> b.pending == a.pending || Recorded(b.effects, a.pending.value.id))
    && (a.pending.Some? && a.phase in {Cancel, Export, Discard} ==>
         b.pending == a.pending && b.effects == a.effects && b.phase in {Cancel, Export, Discard})
  }

  lemma FollowsLasts(a: State, b: State, c: State)
    requires Lasting(a, b) && Follows(b, c)
    ensures Lasting(a, c)
  {
    if b != c {
      if Closes(b, c) {
        assert c.effects[..|b.effects|] == b.effects;
        ClosedLasts(a, b, c);
      }
    }
  }

  lemma ClosedLasts(a: State, b: State, c: State)
    requires Lasting(a, b) && Closes(b, c)
    ensures a.pending.Some? ==> Recorded(c.effects, a.pending.value.id)
  {
    if a.pending.Some? {
      if b.pending == a.pending {
        assert c.effects[|b.effects|].id == a.pending.value.id;
      } else {
        var i :| 0 <= i < |b.effects| && b.effects[i].id == a.pending.value.id;
        assert c.effects[i] == c.effects[..|b.effects|][i];
      }
    }
  }

  lemma {:induction false} RunLasts(w: World, a: State, moves: seq<Move>)
    requires Inv(w) && (w.file.Some? ==> Lasting(a, w.file.value))
    ensures var end := Run(w, moves).file; end.Some? ==> w.file.Some? && Lasting(a, end.value)
    decreases |moves|
  {
    if moves != [] {
      var next := Next(w, moves[0]);
      StepKeeps(w, moves[0]);
      StepFollows(w, moves[0]);
      if next.file.Some? { FollowsLasts(a, w.file.value, next.file.value); }
      RunLasts(next, a, moves[1..]);
    }
  }

  /** Between any two points of any run: revisions never fall; the effects list only
      grows; a discarded task never changes again; an open effect stays open until it is
      recorded; and once a task with an open effect has reached `Cancel` or `Export`,
      that effect is never resolved. */
  lemma HistoryLasts(w: World, before: seq<Move>, more: seq<Move>)
    requires Created(w)
    ensures var a, b := Run(w, before).file, Run(w, before + more).file;
            b.Some? ==> a.Some? && Lasting(a.value, b.value)
  {
    Reachable(w, before);
    RunAppend(w, before, more);
    var now := Run(w, before);
    if now.file.Some? {
      RunLasts(now, now.file.value, more);
    } else {
      RunLasts(now, w.file.value, more);
    }
  }
}
