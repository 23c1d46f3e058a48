/** Every step of the task protocol keeps the invariant. */
module ProtocolSteps {
  import opened Wrappers
  import opened TaskState
  import opened TaskStateLaws
  import opened Generations
  import opened GenerationLaws
  import opened Protocol
  import opened ProtocolInv
  import G = Grants
  import L = GrantLaws

  // ---- small steps ----

  /** Changing only the place of the process leaves everything durable alone. */
  lemma MoveTo(w: World, p: Proc, pc: Pc)
    requires Inv(w) && w.proc == Some(p)
    requires ProcInv(Moved(w, pc), p.(pc := pc))
    ensures Inv(Moved(w, pc))
  {
    var next := Moved(w, pc);
  }

  // ---- the grant ledger ----

  lemma PaidMore(used: seq<L.Use>, more: seq<L.Use>, id: ActionId)
    requires used <= more && Paid(used, id)
    ensures Paid(more, id)
  {
    var u :| u in used && u.action == id;
    assert u in more;
  }

  /** An event of the grant store leaves everything else alone. */
  lemma LedgerStep(w: World, e: L.Event)
    requires Inv(w) && L.FreshEvent(w.ledger, e)
    ensures var l := L.Happened(w.ledger, e);
            && L.LedgerInv(l) && w.ledger.used <= l.used
            && ExecutedPaid(l.used, w.executed)
            && (w.file.Some? ==> FileOk(w.(ledger := l), w.file.value))
  {
    L.EventKeeps(w.ledger, e);
    var l := L.Happened(w.ledger, e);
    var next := w.(ledger := l);
    forall i | 0 <= i < |next.executed| && next.executed[i].asked ensures Paid(l.used, next.executed[i].action.id) {
      assert w.executed[i].asked;
      PaidMore(w.ledger.used, l.used, w.executed[i].action.id);
    }
  }

  // ---- starting and resuming ----

  lemma LeasedOverride(w: World, p: Proc, settings: nat, wr: Write)
    requires Inv(w) && w.proc == Some(p) && p.pc == Leased
    ensures Inv(LeasedNext(w, p, Override(settings, wr)))
  {
    var c := CellOf(w);
    if p.session.phase !in {Export, Discard} {
      var changed := p.session.(settings := settings);
      var t := Candidate(c, changed);
      UpdateEnds(c, changed, wr);
      HarmlessKeeps(w, p.session, t);
      var r := Updated(c, changed, wr);
      if r.error.Some? { AfterExitKeeps(w, r, t, Leased); } else { AfterKeeps(w, r, t, Leased); }
    } else {
      ExitKeeps(w);
    }
  }

  /** Recovery leaves the manifests alone and the adopted generation intact. */
  lemma RecoveredDiskOk(w: World, s: State, max: nat)
    requires FileOk(w, s) && s.phase != Discard && max == w.max
    ensures var r, d := Generations.Recovered(w.disk, s.generation, max), RecoveredDisk(w.disk, s.generation, max);
            && FileOk(w.(disk := d), s)
            && (r.Success? ==>
                 && ManifestsUpTo(d, r.value)
                 && s.generation == End(s.effects)
                 && (r.value == s.generation || (PatchPending(s) && r.value == Top(s)))
                 && (!w.wrecked ==> Intact(d, r.value)))
  {
    var n := s.generation;
    var r, d := Generations.Recovered(w.disk, n, max), RecoveredDisk(w.disk, n, max);
    assert n == End(s.effects);
    WalkAdopts(w.disk, n, max, Top(s));
    if r.Success? && !w.wrecked {
      if r.value == n + 1 { AdoptIntact(w.disk, n); }
      CleanIntact(w.disk, r.value);
      IntactBelow(d, r.value, n);
    }
    forall i | 0 <= i < |w.executed| ensures Known(s, w.(disk := d).executed[i].action.id) {
      assert Known(s, w.executed[i].action.id);
    }
  }

  lemma IntactBelow(d: Disk, m: nat, n: nat)
    requires Intact(d, m) && n <= m
    ensures Intact(d, n)
  {
  }

  lemma AdoptKeeps(w: World, p: Proc)
    requires Inv(w) && w.proc == Some(p) && p.pc == Leased
    ensures Inv(LeasedNext(w, p, RecoverWorkspace))
  {
    ExitKeeps(w);
    if p.session.phase !in {Export, Discard} {
      RecoveredDiskOk(w, p.session, w.max);
    }
  }

  lemma ShowDiffKeeps(w: World, p: Proc)
    requires Inv(w) && w.proc == Some(p) && p.pc == Leased
    ensures Inv(LeasedNext(w, p, ShowDiff))
  {
    ExitKeeps(w);
    if p.session.phase != Discard {
      RecoveredDiskOk(w, p.session, w.max);
      ExitKeeps(w.(disk := RecoveredDisk(w.disk, p.session.generation, w.max)));
    }
  }

  lemma DiscardCommandKeeps(w: World, p: Proc)
    requires Inv(w) && w.proc == Some(p) && p.pc == Leased
    ensures Inv(LeasedNext(w, p, DiscardCommand))
  {
    ExitKeeps(w);
  }

  /** The commands that do not resume the task. */
  lemma CommandKeeps(w: World, p: Proc, m: Move)
    requires Inv(w) && w.proc == Some(p) && p.pc == Leased
    requires !m.Override? && !m.RecoverWorkspace?
    ensures Inv(LeasedNext(w, p, m))
  {
    if m.ShowDiff? {
      ShowDiffKeeps(w, p);
    } else if m.DiscardCommand? {
      DiscardCommandKeeps(w, p);
    } else if m.CleanCommand? {
      MoveTo(w, p, Cleaning);
    } else {
      assert LeasedNext(w, p, m) == w;
    }
  }

  lemma LeasedKeeps(w: World, p: Proc, m: Move)
    requires Inv(w) && w.proc == Some(p) && p.pc == Leased
    ensures Inv(LeasedNext(w, p, m))
  {
    if m.Override? {
      LeasedOverride(w, p, m.settings, m.w);
    } else if m.RecoverWorkspace? {
      AdoptKeeps(w, p);
    } else {
      CommandKeeps(w, p, m);
    }
  }

  /** A reconciled state is sound, on a disk recovered to the same generation. */
  lemma ReconciledOk(w: World, s: State, m: nat, t: State)
    requires FileOk(w, s) && s.pending.Some? && s.phase != Discard && s.generation == End(s.effects)
    requires m == s.generation || (PatchPending(s) && m == Top(s))
    requires ManifestsUpTo(w.disk, m) && (!w.wrecked ==> Intact(w.disk, m))
    requires var p := s.pending.value;
             && t.effects == s.effects + [Completed(p, ReconciledOutcome(p, m), m)]
             && t.generation == m && t.pending.None? && ValidState(t)
    ensures FileOk(w, t)
  {
    var p := s.pending.value;
    var e := Completed(p, ReconciledOutcome(p, m), m);
    ChainSnoc(s.effects, e);
    KnownSnoc(s, e, t);
    forall i | 0 <= i < |w.executed| ensures Known(t, w.executed[i].action.id) {
      assert Known(s, w.executed[i].action.id);
    }
  }

  /** What reconciling an interrupted effect would write. */
  function ReconcileTarget(c: Cell, m: nat): State
    requires c.session.pending.Some?
  {
    var s := c.session;
    var outcome := ReconciledOutcome(s.pending.value, m);
    Candidate(c, s.(phase := if outcome == Succeeded then Review else Retry,
      generation := m, pending := None,
      effects := s.effects + [Completed(s.pending.value, outcome, m)],
      lastError := if outcome == Succeeded then None else Some(EffectOutcomeUnknown)))
  }

  lemma ReconciledEnds(c: Cell, m: nat, wr: Write)
    requires InSync(c) && c.session.pending.Some?
    ensures Ends(c, Reconciled(c, m, wr), ReconcileTarget(c, m))
    ensures Reconciled(c, m, wr).cell != c ==> ValidState(ReconcileTarget(c, m))
  {
  }

  lemma PendingReconcileKeeps(w: World, p: Proc, wr: Write)
    requires Inv(w) && w.proc == Some(p) && p.pc == Protocol.Recovered && p.session.pending.Some?
    ensures var r := Reconciled(CellOf(w), p.workspace, wr);
            && (r.error.Some? ==> Inv(Exit(Carry(w, r, Protocol.Recovered))))
            && (r.error.None? ==> forall pc :: pc == Entering || pc.Revoking? ==> Inv(Carry(w, r, pc)))
  {
    var c := CellOf(w);
    var r, t := Reconciled(c, p.workspace, wr), ReconcileTarget(c, p.workspace);
    ReconciledEnds(c, p.workspace, wr);
    if ValidState(t) { ReconciledOk(w, p.session, p.workspace, t); }
    if r.error.Some? {
      AfterExitKeeps(w, r, t, Protocol.Recovered);
    } else {
      forall pc | pc == Entering || pc.Revoking? ensures Inv(Carry(w, r, pc)) {
        AfterKeeps(w, r, t, pc);
      }
    }
  }

  lemma ReconcileKeeps(w: World, p: Proc, wr: Write)
    requires Inv(w) && w.proc == Some(p) && p.pc == Protocol.Recovered
    ensures Inv(ResumeNext(w, p, ReconcileJournal(wr)))
  {
    LedgerStep(w, L.Reload);
    var loaded := w.(ledger := L.Happened(w.ledger, L.Reload));
    assert Inv(loaded);
    if p.session.pending.Some? {
      PendingReconcileKeeps(loaded, p, wr);
    } else {
      assert Reconciled(CellOf(w), p.workspace, wr) == Step(CellOf(w), None);
    }
  }

  lemma RevokeKeeps(w: World, p: Proc, recipe: string, wr: Write)
    requires Inv(w) && w.proc == Some(p) && p.pc == Revoking(recipe)
    ensures Inv(ResumeNext(w, p, RevokeRecipe(wr)))
  {
    var next := w.(ledger := L.Happened(w.ledger, L.Revoke(TASK, recipe, wr)));
    LedgerStep(w, L.Revoke(TASK, recipe, wr));
    ExitKeeps(next);
    assert Inv(next);
    MoveTo(next, p, Entering);
  }

  lemma EnterExecuteKeeps(w: World, p: Proc, wr: Write)
    requires Inv(w) && w.proc == Some(p) && p.pc == Entering
    ensures Inv(ResumeNext(w, p, EnterExecute(wr)))
  {
    var c := CellOf(w);
    var changed := p.session.(lastError := None);
    var t := Candidate(c, changed.(phase := Execute));
    TransitionEnds(c, Execute, changed, wr);
    HarmlessKeeps(w, p.session, t);
    var r := Transitioned(c, Execute, changed, wr);
    if r.error.Some? { AfterExitKeeps(w, r, t, Entering); } else { AfterKeeps(w, r, t, Turn); }
  }

  lemma ResumeKeeps(w: World, p: Proc, m: Move)
    requires Inv(w) && w.proc == Some(p) && (p.pc == Protocol.Recovered || p.pc.Revoking? || p.pc == Entering)
    ensures Inv(ResumeNext(w, p, m))
  {
    if p.pc == Protocol.Recovered && m.ReconcileJournal? {
      ReconcileKeeps(w, p, m.w);
    } else if p.pc.Revoking? && m.RevokeRecipe? {
      RevokeKeeps(w, p, p.pc.recipe, m.w);
    } else if p.pc == Entering && m.EnterExecute? {
      EnterExecuteKeeps(w, p, m.w);
    } else {
      assert ResumeNext(w, p, m) == w;
    }
  }

  // ---- the controller loop ----

  lemma IssueStepKeeps(w: World, p: Proc, a: Action, g: G.Grant, wr: Write)
    requires Inv(w) && w.proc == Some(p) && p.pc == Asking(a)
    ensures Inv(TurnNext(w, p, IssueGrant(g, wr)))
  {
    if !L.Offered(w.ledger.issued, g.id) {
      LedgerStep(w, L.Issue(g, wr));
    }
  }

  lemma UseStepKeeps(w: World, p: Proc, a: Action, m: Move)
    requires Inv(w) && w.proc == Some(p) && p.pc == Asking(a) && m.UseGrant?
    ensures Inv(TurnNext(w, p, m))
  {
    LedgerStep(w, L.Consume(m.id, GrantAction(a), m.config, m.now, m.asRecipe, m.w));
  }

  /** The candidate that schedules an action. */
  function ScheduleTarget(c: Cell, a: Action): State {
    Candidate(c, c.session.(phase := Execute, pending := Some(PendingFor(a, c.session.generation))))
  }

  lemma ScheduledEnds(c: Cell, a: Action, wr: Write)
    requires InSync(c)
    ensures Ends(c, Scheduled(c, a, wr), ScheduleTarget(c, a))
    ensures Scheduled(c, a, wr).cell != c ==>
              !Recorded(c.session.effects, a.id) && c.session.pending.None? && ValidState(ScheduleTarget(c, a))
  {
  }

  lemma ScheduleOk(w: World, s: State, a: Action, t: State)
    requires FileOk(w, s) && s.pending.None?
    requires ValidState(t) && t.effects == s.effects && t.generation == s.generation && t.phase == Execute
    requires t.pending == Some(PendingFor(a, s.generation))
    ensures FileOk(w, t)
  {
    forall i | 0 <= i < |w.executed| ensures Known(t, w.executed[i].action.id) {
      assert Known(s, w.executed[i].action.id);
    }
  }

  /** A freshly scheduled action was never executed before. */
  lemma NotExecuted(w: World, s: State, id: ActionId)
    requires ExecutedKnown(w.executed, s) && s.pending.None? && !Recorded(s.effects, id)
    ensures !Executed(w.executed, id)
  {
    forall i | 0 <= i < |w.executed| ensures w.executed[i].action.id != id {
      assert Known(s, w.executed[i].action.id);
    }
  }

  lemma ScheduleFile(w: World, p: Proc, a: Action, asked: bool, wr: Write)
    requires Inv(w) && w.proc == Some(p) && p.pc == Authorised(a, asked)
    ensures var c := CellOf(w);
            var r, t := Scheduled(c, a, wr), ScheduleTarget(c, a);
            && Ends(c, r, t)
            && (r.cell != c ==> FileOk(w, t) && !Executed(w.executed, a.id))
  {
    var c := CellOf(w);
    ScheduledEnds(c, a, wr);
    if Scheduled(c, a, wr).cell != c {
      ScheduleOk(w, p.session, a, ScheduleTarget(c, a));
      NotExecuted(w, p.session, a.id);
    }
  }

  lemma ScheduleProc(w: World, p: Proc, a: Action, asked: bool, wr: Write)
    requires Inv(w) && w.proc == Some(p) && p.pc == Authorised(a, asked)
    ensures var r := Scheduled(CellOf(w), a, wr);
            var t := ScheduleTarget(CellOf(w), a);
            && (r.error.None? ==>
                 r.cell == Cell(Some(t), t)
                 && ProcInv(Carry(w, r, Ready(a, asked)), Proc(t, p.workspace, Ready(a, asked))))
            && (r.error.Some? ==> ProcAt(Carry(w, r, Failing(false)), Proc(p.session, p.workspace, Failing(false))))
  {
    ScheduleFile(w, p, a, asked, wr);
  }

  lemma ScheduleKeeps(w: World, p: Proc, a: Action, asked: bool, wr: Write)
    requires Inv(w) && w.proc == Some(p) && p.pc == Authorised(a, asked)
    ensures Inv(TurnNext(w, p, Schedule(wr)))
  {
    var r, t := Scheduled(CellOf(w), a, wr), ScheduleTarget(CellOf(w), a);
    ScheduleFile(w, p, a, asked, wr);
    ScheduleProc(w, p, a, asked, wr);
    AfterKeeps(w, r, t, if r.error.Some? then Failing(false) else Ready(a, asked));
  }

  lemma ProposeKeeps(w: World, p: Proc, a: Action, decision: Decision)
    requires Inv(w) && w.proc == Some(p) && p.pc == Turn
    ensures Inv(TurnNext(w, p, Propose(a, decision)))
  {
    if ValidAction(a) && !(a.kind == RunTask && decision == Allow) && decision != Deny {
      MoveTo(w, p, if decision == Allow then Authorised(a, false) else Asking(a));
    }
  }

  lemma ProposalKeeps(w: World, p: Proc, m: Move)
    requires Inv(w) && w.proc == Some(p) && p.pc.Turn?
    ensures Inv(TurnNext(w, p, m))
  {
    if m.Propose? {
      ProposeKeeps(w, p, m.action, m.decision);
    } else if m == Move.Complete {
      MoveTo(w, p, Completing);
    } else {
      assert TurnNext(w, p, m) == w;
    }
  }

  lemma AskingKeeps(w: World, p: Proc, m: Move)
    requires Inv(w) && w.proc == Some(p) && p.pc.Asking?
    ensures Inv(TurnNext(w, p, m))
  {
    if m.IssueGrant? {
      IssueStepKeeps(w, p, p.pc.action, m.grant, m.w);
    } else if m.UseGrant? {
      UseStepKeeps(w, p, p.pc.action, m);
    } else if m == Refuse {
      MoveTo(w, p, Turn);
    } else {
      assert TurnNext(w, p, m) == w;
    }
  }

  lemma AuthorisedKeeps(w: World, p: Proc, m: Move)
    requires Inv(w) && w.proc == Some(p) && p.pc.Authorised?
    ensures Inv(TurnNext(w, p, m))
  {
    if m.Schedule? {
      ScheduleKeeps(w, p, p.pc.action, p.pc.asked, m.w);
    } else {
      assert TurnNext(w, p, m) == w;
    }
  }

  lemma TurnKeeps(w: World, p: Proc, m: Move)
    requires Inv(w) && w.proc == Some(p) && (p.pc.Turn? || p.pc.Asking? || p.pc.Authorised?)
    ensures Inv(TurnNext(w, p, m))
  {
    if p.pc.Turn? {
      ProposalKeeps(w, p, m);
    } else if p.pc.Asking? {
      AskingKeeps(w, p, m);
    } else {
      AuthorisedKeeps(w, p, m);
    }
  }

  // ---- executing ----

  lemma ExecuteKeeps(w: World, p: Proc, a: Action, asked: bool, rejectedEarly: bool)
    requires Inv(w) && w.proc == Some(p) && p.pc == Ready(a, asked)
    ensures Inv(EffectNext(w, p, ExecuteTool(rejectedEarly)))
  {
    var x := Execution(a, asked);
    var next := EffectNext(w, p, ExecuteTool(rejectedEarly));
    var n := |w.executed|;
    assert next.executed == w.executed + [x];
    assert next.executed[n].action.id == a.id;
    forall i | 0 <= i < n ensures next.executed[i].action.id != a.id {
      assert w.executed[i].action.id != a.id;
    }
    forall i | 0 <= i < |next.executed|
      ensures (next.executed[i].asked ==> Paid(next.ledger.used, next.executed[i].action.id))
           && (next.executed[i].action.kind == RunTask ==> next.executed[i].asked)
    {
      if i < n {
        assert next.executed[i] == w.executed[i];
      } else if asked {
        var used := w.ledger.used;
        assert used[|used| - 1] in used;
      }
    }
    forall i | 0 <= i < |next.executed| ensures Known(p.session, next.executed[i].action.id) {
      if i < n { assert Known(p.session, w.executed[i].action.id); }
    }
    assert FileOk(next, next.file.value);
  }

  lemma PublishDisk(w: World, s: State, n: nat, pub: Pub, ch: Choice)
    requires FileOk(w, s) && PatchPending(s) && n == End(s.effects) < w.max
    requires GenerationLaws.At(w.disk, n, pub)
    ensures var next := PubNext(n, PubState(w.disk, pub), ch);
            && GenerationLaws.At(next.disk, n, next.pc)
            && FileOk(w.(disk := next.disk), s)
            && (next.pc == Done(Published) && !w.wrecked ==> Intact(next.disk, n + 1))
  {
    var st := PubState(w.disk, pub);
    var next := PubNext(n, st, ch);
    PubFrame(n, st, ch);
    AtStep(n, st, ch);
    forall k | k in next.disk.manifests ensures k <= n + 1 {
      assert k in next.disk.manifests - {n + 1} || k == n + 1;
    }
    if !w.wrecked {
      SameButIntact(w.disk, next.disk, n);
      if next.pc == Done(Published) { AdoptIntact(next.disk, n); }
    }
    forall i | 0 <= i < |w.executed| ensures Known(s, w.(disk := next.disk).executed[i].action.id) {
      assert Known(s, w.executed[i].action.id);
    }
  }

  /** A step of the disk and the process, with the session untouched. */
  lemma DiskMove(w: World, p: Proc, disk: Disk, q: Proc)
    requires Inv(w) && w.proc == Some(p) && w.file.Some?
    requires FileOk(w.(disk := disk), w.file.value)
    requires ProcInv(w.(disk := disk, proc := Some(q)), q)
    ensures Inv(w.(disk := disk, proc := Some(q)))
  {
    var next := w.(disk := disk, proc := Some(q));
  }

  /** Where the process goes after a step of the publication. */
  function AfterPublish(p: Proc, a: Action, pub: Pub): Proc {
    match pub
    case Done(Published) => p.(workspace := p.workspace + 1, pc := Ran(a, true))
    case Done(Rejected) => p.(pc := Ran(a, false))
    case Done(Raised) => p.(pc := Failing(false))
    case _ => p.(pc := Publishing(a, pub))
  }

  lemma PublishShape(w: World, p: Proc, a: Action, pub: Pub, ch: Choice)
    requires w.proc == Some(p) && p.pc == Publishing(a, pub)
    ensures var next := PubNext(p.workspace, PubState(w.disk, pub), ch);
            EffectNext(w, p, PublishStep(ch)) == w.(disk := next.disk, proc := Some(AfterPublish(p, a, next.pc)))
  {
  }

  lemma PublishKnows(w: World, p: Proc, a: Action, pub: Pub, disk: Disk, after: Pub)
    requires Inv(w) && w.proc == Some(p) && p.pc == Publishing(a, pub)
    requires GenerationLaws.At(disk, p.workspace, after)
    requires after == Done(Published) && !w.wrecked ==> Intact(disk, p.workspace + 1)
    ensures var q := AfterPublish(p, a, after); ProcInv(w.(disk := disk, proc := Some(q)), q)
  {
    var q := AfterPublish(p, a, after);
  }

  lemma PublishKeeps(w: World, p: Proc, a: Action, pub: Pub, ch: Choice)
    requires Inv(w) && w.proc == Some(p) && p.pc == Publishing(a, pub)
    ensures Inv(EffectNext(w, p, PublishStep(ch)))
  {
    var next := PubNext(p.workspace, PubState(w.disk, pub), ch);
    PublishDisk(w, p.session, p.workspace, pub, ch);
    PublishShape(w, p, a, pub, ch);
    PublishKnows(w, p, a, pub, next.disk, next.pc);
    DiskMove(w, p, next.disk, AfterPublish(p, a, next.pc));
  }

  /** The candidate that records a finished effect. */
  function FinishTarget(c: Cell, ok: bool, published: nat): State
    requires c.session.pending.Some?
  {
    var s := c.session;
    var q := s.pending.value;
    var generation := if q.kind == ApplyPatch && ok then published else s.generation;
    Candidate(c, s.(phase := if generation > 0 then Review else Execute, generation := generation, pending := None,
      effects := s.effects + [Completed(q, if ok then Succeeded else Failed, generation)]))
  }

  lemma FinishedEnds(c: Cell, a: Action, ok: bool, published: nat, wr: Write)
    requires InSync(c) && Scheduling(c.session, a)
    ensures Ends(c, Finished(c, a, ok, published, wr), FinishTarget(c, ok, published))
    ensures Finished(c, a, ok, published, wr).cell != c ==> ValidState(FinishTarget(c, ok, published))
  {
  }

  lemma FinishOk(w: World, s: State, a: Action, ok: bool, workspace: nat, t: State)
    requires FileOk(w, s) && Scheduling(s, a) && s.generation == End(s.effects)
    requires if a.kind == ApplyPatch && ok
             then workspace == s.generation + 1 && (!w.wrecked ==> Intact(w.disk, workspace))
             else workspace == s.generation && !HasManifest(w.disk, workspace)
    requires ValidState(t) && t.pending.None? && t.generation == workspace
    requires t.effects == s.effects + [Completed(s.pending.value, if ok then Succeeded else Failed, workspace)]
    ensures FileOk(w, t)
  {
    var e := Completed(s.pending.value, if ok then Succeeded else Failed, workspace);
    ChainSnoc(s.effects, e);
    KnownSnoc(s, e, t);
    forall i | 0 <= i < |w.executed| ensures Known(t, w.executed[i].action.id) {
      assert Known(s, w.executed[i].action.id);
    }
  }

  /** With the effect recorded, the session and the workspace agree again. */
  lemma FinishProc(w: World, p: Proc, a: Action, ok: bool, wr: Write)
    requires Inv(w) && w.proc == Some(p) && p.pc == Ran(a, ok)
    ensures var r := Finished(CellOf(w), a, ok, p.workspace, wr);
            var t := FinishTarget(CellOf(w), ok, p.workspace);
            && (r.error.None? ==> r.cell == Cell(Some(t), t) && ProcInv(Carry(w, r, Turn), Proc(t, p.workspace, Turn)))
            && (r.error.Some? ==> ProcAt(Carry(w, r, Failing(false)), Proc(p.session, p.workspace, Failing(false))))
  {
    FinishedEnds(CellOf(w), a, ok, p.workspace, wr);
  }

  lemma FinishFile(w: World, p: Proc, a: Action, ok: bool, wr: Write)
    requires Inv(w) && w.proc == Some(p) && p.pc == Ran(a, ok)
    ensures var c := CellOf(w);
            var r, t := Finished(c, a, ok, p.workspace, wr), FinishTarget(c, ok, p.workspace);
            Ends(c, r, t) && (r.cell != c ==> FileOk(w, t))
  {
    var c := CellOf(w);
    var t := FinishTarget(c, ok, p.workspace);
    FinishedEnds(c, a, ok, p.workspace, wr);
    if Finished(c, a, ok, p.workspace, wr).cell != c {
      FinishTargetShape(c, a, ok, p.workspace);
      FinishOk(w, p.session, a, ok, p.workspace, t);
    }
  }

  lemma FinishKeeps(w: World, p: Proc, a: Action, ok: bool, wr: Write)
    requires Inv(w) && w.proc == Some(p) && p.pc == Ran(a, ok)
    ensures var r := Finished(CellOf(w), a, ok, p.workspace, wr);
            Inv(Carry(w, r, if r.error.Some? then Failing(false) else Turn))
  {
    FinishFile(w, p, a, ok, wr);
    FinishProc(w, p, a, ok, wr);
    var r, t := Finished(CellOf(w), a, ok, p.workspace, wr), FinishTarget(CellOf(w), ok, p.workspace);
    AfterKeeps(w, r, t, if r.error.Some? then Failing(false) else Turn);
  }

  lemma FinishTargetShape(c: Cell, a: Action, ok: bool, published: nat)
    requires Scheduling(c.session, a)
    requires !(a.kind == ApplyPatch && ok) ==> published == c.session.generation
    ensures var t := FinishTarget(c, ok, published);
            && t.pending.None? && t.generation == published
            && t.effects == c.session.effects +
               [Completed(c.session.pending.value, if ok then Succeeded else Failed, published)]
  {
  }

  lemma SandboxEndKeeps(w: World, p: Proc, a: Action, ok: bool)
    requires Inv(w) && w.proc == Some(p) && p.pc == InSandbox(a)
    ensures Inv(Moved(w, Ran(a, ok)))
  {
    MoveTo(w, p, Ran(a, ok));
  }

  lemma ToolKeeps(w: World, p: Proc, m: Move)
    requires Inv(w) && w.proc == Some(p) && (p.pc.Ready? || p.pc.InSandbox?)
    ensures Inv(EffectNext(w, p, m))
  {
    if p.pc.Ready? && m.ExecuteTool? {
      ExecuteKeeps(w, p, p.pc.action, p.pc.asked, m.rejectedEarly);
    } else if p.pc.InSandbox? && m.SandboxEnds? {
      SandboxEndKeeps(w, p, p.pc.action, m.ok);
    } else {
      assert EffectNext(w, p, m) == w;
    }
  }

  lemma OutcomeKeeps(w: World, p: Proc, m: Move)
    requires Inv(w) && w.proc == Some(p) && (p.pc.Publishing? || p.pc.Ran?)
    ensures Inv(EffectNext(w, p, m))
  {
    if p.pc.Publishing? && m.PublishStep? {
      PublishKeeps(w, p, p.pc.action, p.pc.pub, m.choice);
    } else if p.pc.Ran? && m.FinishEffect? {
      FinishKeeps(w, p, p.pc.action, p.pc.ok, m.w);
    } else {
      assert EffectNext(w, p, m) == w;
    }
  }

  lemma EffectKeeps(w: World, p: Proc, m: Move)
    requires Inv(w) && w.proc == Some(p) && (p.pc.Ready? || p.pc.Publishing? || p.pc.InSandbox? || p.pc.Ran?)
    ensures Inv(EffectNext(w, p, m))
  {
    if p.pc.Ready? || p.pc.InSandbox? { ToolKeeps(w, p, m); } else { OutcomeKeeps(w, p, m); }
  }

  // ---- failing, exporting, discarding ----

  /** A transition that leaves the journal alone: how it ends, and that its candidate is fine
      as durable state. */
  lemma HarmlessEnds(w: World, p: Proc, phase: Phase, changed: State, wr: Write)
    requires Inv(w) && w.proc == Some(p) && p.session.phase != Discard
    requires Harmless(p.session, changed.(phase := phase))
    ensures var c := CellOf(w);
            var r, t := Transitioned(c, phase, changed, wr), Candidate(c, changed.(phase := phase));
            Ends(c, r, t) && (r.cell != c ==> FileOk(w, t))
  {
    var c := CellOf(w);
    TransitionEnds(c, phase, changed, wr);
    if InSync(c) { HarmlessKeeps(w, p.session, Candidate(c, changed.(phase := phase))); }
  }

  /** On the failure and discard paths a process goes on whatever became of its write. */
  lemma GoesOn(w: World, r: Step, t: State, pc: Pc)
    requires Inv(w) && w.proc.Some? && w.file.Some? && Ends(CellOf(w), r, t)
    requires r.cell != CellOf(w) ==> FileOk(w, t)
    requires MayBeStale(pc) && w.proc.value.session.phase != Discard && t.phase != Discard
    requires Working(w.proc.value.session, w.proc.value.workspace) && Working(t, w.proc.value.workspace)
    ensures Inv(Carry(w, r, pc))
  {
    AfterKeeps(w, r, t, pc);
  }

  lemma SafeShape(w: World, p: Proc, cancelled: bool, recover: bool, wr: Write)
    requires w.proc == Some(p) && p.pc == Failing(cancelled)
    ensures var r := Transitioned(CellOf(w), if cancelled then Cancel else Retry,
                       p.session.(lastError := Some(if cancelled then TaskCancelled else OtherFailure)), wr);
            var next := EndNext(w, p, SafeTransition(recover, wr));
            next == Exit(Carry(w, r, Rescuing)) || next == Carry(w, r, Rescuing)
  {
  }

  lemma SafeTransitionKeeps(w: World, p: Proc, cancelled: bool, recover: bool, wr: Write)
    requires Inv(w) && w.proc == Some(p) && p.pc == Failing(cancelled)
    ensures Inv(EndNext(w, p, SafeTransition(recover, wr)))
  {
    var c := CellOf(w);
    var phase := if cancelled then Cancel else Retry;
    var changed := p.session.(lastError := Some(if cancelled then TaskCancelled else OtherFailure));
    var r, t := Transitioned(c, phase, changed, wr), Candidate(c, changed.(phase := phase));
    HarmlessEnds(w, p, phase, changed, wr);
    GoesOn(w, r, t, Rescuing);
    AfterExitKeeps(w, r, t, Rescuing);
    SafeShape(w, p, cancelled, recover, wr);
  }

  lemma ExportStep(w: World, p: Proc, changed: State, wr: Write, good: Pc, bad: Pc)
    requires changed == p.session || changed == Labelled(p.session)
    requires Inv(w) && w.proc == Some(p) && (p.pc.Rescuing? || p.pc.Exporting?)
    requires good.Discarding? && MayBeStale(bad) && (bad.Discarding? || bad.Failing?)
    ensures var r := Transitioned(CellOf(w), Export, changed, wr);
            Inv(Carry(w, r, if r.error.Some? then bad else good))
  {
    var c := CellOf(w);
    var r, t := Transitioned(c, Export, changed, wr), Candidate(c, changed.(phase := Export));
    HarmlessEnds(w, p, Export, changed, wr);
    GoesOn(w, r, t, if r.error.Some? then bad else good);
  }

  lemma EnterReviewKeeps(w: World, p: Proc, wr: Write)
    requires Inv(w) && w.proc == Some(p) && p.pc == Completing
    ensures Inv(EndNext(w, p, EnterReview(wr)))
  {
    var c := CellOf(w);
    var changed := p.session.(generation := p.workspace);
    var r, t := Transitioned(c, Review, changed, wr), Candidate(c, changed.(phase := Review));
    HarmlessEnds(w, p, Review, changed, wr);
    AfterKeeps(w, r, t, if r.error.Some? then Failing(false) else Exporting);
  }

  lemma RemoveKeeps(w: World, p: Proc, left: Disk)
    requires Inv(w) && w.proc == Some(p) && (p.pc.Discarding? || p.pc.Cleaning?) && PartOf(left, w.disk)
    ensures Inv(w.(disk := left, wrecked := true))
  {
    var next := w.(disk := left, wrecked := true);
    if w.file.Some? {
      forall i | 0 <= i < |w.executed| ensures Known(w.file.value, next.executed[i].action.id) {
        assert Known(w.file.value, w.executed[i].action.id);
      }
      assert ManifestsUpTo(left, Top(w.file.value)) && ManifestsUpTo(left, w.max);
    }
  }

  lemma DeleteGrantsKeeps(w: World, p: Proc)
    requires Inv(w) && w.proc == Some(p) && (p.pc.Discarding? || p.pc.Cleaning?)
    ensures Inv(EndNext(w, p, DeleteGrants))
  {
    RemoveKeeps(w, p, w.disk);
    LedgerStep(w.(disk := w.disk, wrecked := true), L.DeleteFile);
  }

  lemma DiscardedOk(w: World, s: State, workspace: nat, t: State)
    requires FileOk(w, s) && s.phase != Discard && Working(s, workspace)
    requires ValidState(t) && t.phase == Discard && t.generation == workspace
    requires t.effects == s.effects && t.pending == s.pending
    ensures FileOk(w, t)
  {
    forall i | 0 <= i < |w.executed| ensures Known(t, w.executed[i].action.id) {
      assert Known(s, w.executed[i].action.id);
    }
  }

  /** The candidate that ends a discard. */
  function DiscardTarget(p: Proc): State {
    p.session.(revision := p.session.revision + 1, phase := Discard, generation := p.workspace)
  }

  lemma DiscardEnds(w: World, p: Proc, insideTry: bool, wr: Write)
    requires Inv(w) && w.proc == Some(p) && p.pc == Closing(insideTry)
    ensures var c := CellOf(w);
            var r := Transitioned(c, Discard, p.session.(generation := p.workspace), wr);
            Ends(c, r, DiscardTarget(p)) && (r.cell != c ==> FileOk(w, DiscardTarget(p)))
  {
    var c := CellOf(w);
    var changed := p.session.(generation := p.workspace);
    TransitionEnds(c, Discard, changed, wr);
    if Transitioned(c, Discard, changed, wr).cell != c { DiscardedOk(w, p.session, p.workspace, DiscardTarget(p)); }
  }

  lemma FinishDiscardShape(w: World, p: Proc, insideTry: bool, wr: Write)
    requires w.proc == Some(p) && p.pc == Closing(insideTry)
    ensures var r := Transitioned(CellOf(w), Discard, p.session.(generation := p.workspace), wr);
            EndNext(w, p, FinishDiscard(wr)) ==
            if r.error.Some? && insideTry then Carry(w, r, Failing(false)) else Exit(Carry(w, r, p.pc))
  {
  }

  lemma DiscardFails(w: World, p: Proc, insideTry: bool, wr: Write)
    requires Inv(w) && w.proc == Some(p) && p.pc == Closing(insideTry)
    requires Transitioned(CellOf(w), Discard, p.session.(generation := p.workspace), wr).error.Some?
    ensures Inv(Carry(w, Transitioned(CellOf(w), Discard, p.session.(generation := p.workspace), wr), Failing(false)))
  {
    DiscardEnds(w, p, insideTry, wr);
    AfterKeeps(w, Transitioned(CellOf(w), Discard, p.session.(generation := p.workspace), wr),
      DiscardTarget(p), Failing(false));
  }

  lemma FinishDiscardKeeps(w: World, p: Proc, insideTry: bool, wr: Write)
    requires Inv(w) && w.proc == Some(p) && p.pc == Closing(insideTry)
    ensures Inv(EndNext(w, p, FinishDiscard(wr)))
  {
    var r := Transitioned(CellOf(w), Discard, p.session.(generation := p.workspace), wr);
    DiscardEnds(w, p, insideTry, wr);
    FinishDiscardShape(w, p, insideTry, wr);
    if r.error.Some? { DiscardFails(w, p, insideTry, wr); }
    AfterExitKeeps(w, r, DiscardTarget(p), p.pc);
  }

  lemma RescueKeeps(w: World, p: Proc, exported: bool, wr: Write)
    requires Inv(w) && w.proc == Some(p) && p.pc == Rescuing
    ensures Inv(EndNext(w, p, RescueExport(exported, wr)))
  {
    if exported {
      ExportStep(w, p, Labelled(p.session), wr, Discarding(false), Discarding(false));
    } else {
      MoveTo(w, p, Discarding(false));
    }
  }

  lemma DeleteStateKeeps(w: World, p: Proc)
    requires Inv(w) && w.proc == Some(p) && p.pc == Deleting
    ensures Inv(EndNext(w, p, DeleteState))
  {
    ExitKeeps(w);
    var gone := w.(file := None);
    ExitKeeps(gone);
  }

  lemma ClosingKeeps(w: World, p: Proc, m: Move)
    requires Inv(w) && w.proc == Some(p) && p.pc.Closing?
    ensures Inv(EndNext(w, p, m))
  {
    if m.FinishDiscard? {
      FinishDiscardKeeps(w, p, p.pc.insideTry, m.w);
    } else {
      assert EndNext(w, p, m) == w;
    }
  }

  lemma DeletingKeeps(w: World, p: Proc, m: Move)
    requires Inv(w) && w.proc == Some(p) && p.pc.Deleting?
    ensures Inv(EndNext(w, p, m))
  {
    if m == DeleteState {
      DeleteStateKeeps(w, p);
    } else {
      assert EndNext(w, p, m) == w;
    }
  }

  lemma FinalKeeps(w: World, p: Proc, m: Move)
    requires Inv(w) && w.proc == Some(p) && (p.pc.Closing? || p.pc.Deleting? || p.pc.Discarding? || p.pc.Cleaning?)
    ensures Inv(EndNext(w, p, m))
  {
    if p.pc.Closing? {
      ClosingKeeps(w, p, m);
    } else if p.pc.Deleting? {
      DeletingKeeps(w, p, m);
    } else {
      RemovalKeeps(w, p, m);
    }
  }

  lemma EndKeeps(w: World, p: Proc, m: Move)
    requires Inv(w) && w.proc == Some(p)
    requires p.pc.Failing? || p.pc.Rescuing? || p.pc.Completing? || p.pc.Exporting?
    ensures Inv(EndNext(w, p, m))
  {
    if p.pc.Failing? && m.SafeTransition? {
      SafeTransitionKeeps(w, p, p.pc.cancelled, m.recover, m.w);
    } else if p.pc.Rescuing? && m.RescueExport? {
      RescueKeeps(w, p, m.exported, m.w);
    } else if p.pc.Completing? && m.EnterReview? {
      EnterReviewKeeps(w, p, m.w);
    } else if p.pc.Exporting? && m.EnterExport? {
      ExportStep(w, p, p.session, m.w, Discarding(true), Failing(false));
    } else {
      assert EndNext(w, p, m) == w;
    }
  }

  lemma RemovalKeeps(w: World, p: Proc, m: Move)
    requires Inv(w) && w.proc == Some(p) && (p.pc.Discarding? || p.pc.Cleaning?)
    ensures Inv(EndNext(w, p, m))
  {
    if m.RemoveFiles? {
      if PartOf(m.left, w.disk) { RemoveKeeps(w, p, m.left); }
    } else if m == DeleteGrants {
      DeleteGrantsKeeps(w, p);
    }
  }

  lemma FailKeeps(w: World, p: Proc, cancelled: bool)
    requires Inv(w) && w.proc == Some(p) && MayFail(p.pc)
    ensures Inv(Moved(w, Failing(cancelled)))
  {
    MoveTo(w, p, Failing(cancelled));
  }

  /** Any step, from any world that satisfies the invariant. */
  lemma StepKeeps(w: World, m: Move)
    requires Inv(w)
    ensures Inv(Next(w, m))
  {
    if w.proc.Some? {
      var p := w.proc.value;
      if m.Crash? {
        ExitKeeps(w);
      } else if m.Fail? {
        if MayFail(p.pc) { FailKeeps(w, p, m.cancelled); }
      } else if p.pc == Leased {
        LeasedKeeps(w, p, m);
      } else if p.pc == Protocol.Recovered || p.pc.Revoking? || p.pc == Entering {
        ResumeKeeps(w, p, m);
      } else if p.pc.Turn? || p.pc.Asking? || p.pc.Authorised? {
        TurnKeeps(w, p, m);
      } else if p.pc.Ready? || p.pc.Publishing? || p.pc.InSandbox? || p.pc.Ran? {
        EffectKeeps(w, p, m);
      } else if p.pc.Failing? || p.pc.Rescuing? || p.pc.Completing? || p.pc.Exporting? {
        EndKeeps(w, p, m);
      } else {
        FinalKeeps(w, p, m);
      }
    } else if m.Start? && w.file.Some? {
    }
  }

  lemma {:induction false} RunKeeps(w: World, moves: seq<Move>)
    requires Inv(w)
    ensures Inv(Run(w, moves))
    decreases |moves|
  {
    if moves != [] {
      StepKeeps(w, moves[0]);
      RunKeeps(Next(w, moves[0]), moves[1..]);
    }
  }

  lemma CreatedInv(w: World)
    requires Created(w)
    ensures Inv(w)
  {
    L.EmptyLedger();
  }
}
