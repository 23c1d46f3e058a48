/** What the task protocol guarantees over every run: crashes, restarts and failing or
    landed-but-failed writes at any point, from the moment a task is created. */
module ProtocolTheorems {
  import opened Wrappers
  import opened TaskState
  import opened TaskStateLaws
  import opened Generations
  import opened GenerationLaws
  import opened Protocol
  import opened ProtocolInv
  import opened ProtocolHistory
  import L = GrantLaws

  // ---- at most once ----

  /** No action reaches the patch or sandbox tool twice, and every one that reached it is
      in the durable journal for as long as the task exists. */
  lemma AtMostOnce(w: World, moves: seq<Move>)
    requires Created(w)
    ensures var end := Run(w, moves);
            && (forall i, j :: 0 <= i < j < |end.executed| ==> end.executed[i].action.id != end.executed[j].action.id)
            && (end.file.Some? ==>
                forall i :: 0 <= i < |end.executed| ==> Known(end.file.value, end.executed[i].action.id))
  {
    Reachable(w, moves);
  }

  /** A tool only ever runs the action that the state file already holds as pending, and
      the action is in no completed record. */
  lemma PendingBeforeExecution(w: World, before: seq<Move>, m: Move)
    requires Created(w)
    ensures var a, b := Run(w, before), Run(w, before + [m]);
            a.executed == b.executed ||
            (&& |b.executed| == |a.executed| + 1 && b.executed[..|a.executed|] == a.executed
             && var x := b.executed[|a.executed|];
             && a.file.Some? && a.file.value.pending == Some(PendingFor(x.action, a.file.value.generation))
             && !Recorded(a.file.value.effects, x.action.id) && !Executed(a.executed, x.action.id))
  {
    Reachable(w, before);
    RunAppend(w, before, [m]);
    var a := Run(w, before);
    assert Run(a, [m]) == Next(a, m);
    ExecutionStep(a, m);
  }

  lemma StartQuiet(a: World, p: Proc, m: Move)
    requires a.proc == Some(p)
    ensures LeasedNext(a, p, m).executed == ResumeNext(a, p, m).executed == TurnNext(a, p, m).executed == a.executed
  {
  }

  lemma EndQuiet(a: World, p: Proc, m: Move)
    requires a.proc == Some(p)
    ensures EndNext(a, p, m).executed == a.executed
  {
  }

  lemma EffectQuiet(a: World, p: Proc, m: Move)
    requires a.proc == Some(p) && !p.pc.Ready?
    ensures EffectNext(a, p, m).executed == a.executed
  {
  }

  /** Only the step out of `Ready` executes anything. */
  lemma OnlyReadyExecutes(a: World, p: Proc, m: Move)
    requires a.proc == Some(p) && !p.pc.Ready?
    ensures Next(a, m).executed == a.executed
  {
    StartQuiet(a, p, m);
    EffectQuiet(a, p, m);
    EndQuiet(a, p, m);
  }

  lemma ReadyStep(a: World, p: Proc, m: Move)
    requires a.proc == Some(p) && p.pc.Ready?
    ensures var b := Next(a, m);
            a.executed == b.executed ||
            (b.executed == a.executed + [Execution(p.pc.action, p.pc.asked)] && b.ledger == a.ledger)
  {
  }

  lemma ReadyKnows(a: World, p: Proc)
    requires Inv(a) && a.proc == Some(p) && p.pc.Ready?
    ensures a.file == Some(p.session) && Scheduling(p.session, p.pc.action) && ValidState(p.session)
    ensures !Executed(a.executed, p.pc.action.id) && Approved(a, p.pc.action, p.pc.asked)
  {
    assert FileOk(a, a.file.value);
  }

  lemma ExecutionStep(a: World, m: Move)
    requires Inv(a)
    ensures var b := Next(a, m);
            a.executed == b.executed ||
            (&& a.proc.Some? && a.proc.value.pc.Ready?
             && b.executed == a.executed + [Execution(a.proc.value.pc.action, a.proc.value.pc.asked)]
             && b.ledger == a.ledger
             && a.file == Some(a.proc.value.session)
             && Scheduling(a.proc.value.session, a.proc.value.pc.action)
             && !Executed(a.executed, a.proc.value.pc.action.id)
             && ValidState(a.proc.value.session)
             && Approved(a, a.proc.value.pc.action, a.proc.value.pc.asked))
  {
    if a.proc.Some? {
      var p := a.proc.value;
      if p.pc.Ready? {
        ReadyStep(a, p, m);
        ReadyKnows(a, p);
      } else {
        OnlyReadyExecutes(a, p, m);
      }
    }
  }

  // ---- journal and workspace ----

  /** How many patches the journal says succeeded. */
  function Patches(effects: seq<Effect>): nat
    decreases |effects|
  {
    if effects == [] then 0 else
      Patches(effects[..|effects| - 1]) + if Advances(effects[|effects| - 1]) then 1 else 0
  }

  lemma {:induction false} EndCountsPatches(effects: seq<Effect>)
    requires Chain(effects)
    ensures End(effects) == Patches(effects)
    decreases |effects|
  {
    if effects != [] {
      EndCountsPatches(effects[..|effects| - 1]);
    }
  }

  lemma {:induction false} ChainLinks(effects: seq<Effect>, i: nat)
    requires Chain(effects) && i < |effects|
    ensures effects[i].before == if i == 0 then 0 else effects[i - 1].after
    decreases |effects|
  {
    var n := |effects| - 1;
    if i < n {
      ChainLinks(effects[..n], i);
    }
  }

  predicate Linear(effects: seq<Effect>) {
    forall i {:trigger effects[i].before} :: 0 <= i < |effects| ==>
      effects[i].before == if i == 0 then 0 else effects[i - 1].after
  }

  lemma ChainIsLinear(effects: seq<Effect>)
    requires Chain(effects)
    ensures Linear(effects)
  {
    forall i {:trigger effects[i].before} | 0 <= i < |effects|
      ensures effects[i].before == if i == 0 then 0 else effects[i - 1].after
    {
      ChainLinks(effects, i);
    }
  }

  /** In every reachable state the effects chain from generation 0, each starting where
      the one before it ended; with nothing pending, the recorded generation is the
      number of succeeded patches and, while the directory is whole, it is the newest
      published generation; with a patch pending the workspace is ahead by at most one. */
  lemma JournalConservation(w: World, moves: seq<Move>)
    requires Created(w) && Run(w, moves).file.Some?
    ensures var end := Run(w, moves);
            var s := end.file.value;
            var n := Patches(s.effects);
            && Linear(s.effects)
            && (s.pending.None? ==> s.generation == n)
            && (forall k :: k in end.disk.manifests ==> k <= n + if PatchPending(s) then 1 else 0)
            && (!end.wrecked ==> Intact(end.disk, n))
            && (!end.wrecked && s.pending.None? ==>
                 Generations.Recovered(end.disk, s.generation, end.max) == Success(s.generation))
  {
    Reachable(w, moves);
    var end := Run(w, moves);
    var s := end.file.value;
    assert FileOk(end, s);
    EndCountsPatches(s.effects);
    ChainIsLinear(s.effects);
    if !end.wrecked && s.pending.None? {
      assert Reopens(end.disk, s.generation);
      assert s.generation + 1 !in end.disk.manifests;
    }
  }

  // ---- the loop ----

  lemma LoopKnows(w: World, p: Proc)
    requires Inv(w) && w.proc == Some(p) && InLoop(p.pc)
    ensures InSync(CellOf(w)) && p.session.phase in {Execute, Review}
    ensures p.pc.Ran? ==> Scheduling(p.session, p.pc.action)
  {
  }

  lemma ScheduleRefusals(c: Cell, a: Action, wr: Write)
    requires InSync(c) && c.session.phase in {Execute, Review}
    ensures Scheduled(c, a, wr).error in {None, Some(EffectReplay), Some(InvalidState), Some(WriteFailed)}
  {
  }

  lemma FinishRefusals(c: Cell, a: Action, ok: bool, published: nat, wr: Write)
    requires InSync(c) && Scheduling(c.session, a)
    ensures Finished(c, a, ok, published, wr).error in {None, Some(InvalidState), Some(WriteFailed)}
  {
  }

  /** Inside the controller loop the session is the durable state and its phase is
      `Execute` or `Review`; so the phase table never refuses a journal hook, the file
      is never missing or at another revision, and a completion always matches the
      pending effect. */
  lemma LoopPhases(w: World, moves: seq<Move>, wr: Write)
    requires Created(w) && Run(w, moves).proc.Some? && InLoop(Run(w, moves).proc.value.pc)
    ensures var end := Run(w, moves);
            var p := end.proc.value;
            && end.file == Some(p.session) && p.session.phase in {Execute, Review}
            && (p.pc.Authorised? ==>
                 Scheduled(CellOf(end), p.pc.action, wr).error
                   in {None, Some(EffectReplay), Some(InvalidState), Some(WriteFailed)})
            && (p.pc.Ran? ==>
                 Finished(CellOf(end), p.pc.action, p.pc.ok, p.workspace, wr).error
                   in {None, Some(InvalidState), Some(WriteFailed)})
  {
    Reachable(w, moves);
    var end := Run(w, moves);
    var p := end.proc.value;
    LoopKnows(end, p);
    if p.pc.Authorised? { ScheduleRefusals(CellOf(end), p.pc.action, wr); }
    if p.pc.Ran? { FinishRefusals(CellOf(end), p.pc.action, p.pc.ok, p.workspace, wr); }
  }

  /** A live session equals the durable state, or exactly one write of its own landed
      but reported failure; then the file never changes again while it lives. */
  lemma StaleWritesNothing(w: World, moves: seq<Move>, m: Move)
    requires Created(w) && Run(w, moves).proc.Some?
    ensures var end := Run(w, moves);
            var c := CellOf(end);
            && (InSync(c) || Stale(c))
            && (Stale(c) ==> Next(end, m).file == end.file)
            && (Stale(c) && Next(end, m).proc.Some? ==> Next(end, m).proc.value.session == c.session)
  {
    Reachable(w, moves);
    var end := Run(w, moves);
    if Stale(CellOf(end)) { StaleStep(end, end.proc.value, m); }
  }

  lemma StaleEnd(w: World, p: Proc, m: Move)
    requires w.proc == Some(p) && Stale(CellOf(w)) && MayBeStale(p.pc)
    ensures EndNext(w, p, m).file == w.file
    ensures EndNext(w, p, m).proc.Some? ==> EndNext(w, p, m).proc.value.session == p.session
  {
    match p.pc {
      case Failing(cancelled) => StaleFails(w, p, m);
      case _ => StaleCloses(w, p, m);
    }
  }

  lemma StaleFails(w: World, p: Proc, m: Move)
    requires w.proc == Some(p) && Stale(CellOf(w)) && p.pc.Failing?
    ensures EndNext(w, p, m).file == w.file
    ensures EndNext(w, p, m).proc.Some? ==> EndNext(w, p, m).proc.value.session == p.session
  {
  }

  lemma StaleCloses(w: World, p: Proc, m: Move)
    requires w.proc == Some(p) && Stale(CellOf(w)) && (p.pc.Rescuing? || p.pc.Discarding? || p.pc.Closing?)
    ensures EndNext(w, p, m).file == w.file
    ensures EndNext(w, p, m).proc.Some? ==> EndNext(w, p, m).proc.value.session == p.session
  {
  }

  lemma StaleStep(w: World, p: Proc, m: Move)
    requires Inv(w) && w.proc == Some(p) && Stale(CellOf(w))
    ensures Next(w, m).file == w.file
    ensures Next(w, m).proc.Some? ==> Next(w, m).proc.value.session == p.session
  {
    assert MayBeStale(p.pc);
    StaleEnd(w, p, m);
  }

  // ---- what a failing write leaves ----

  /** The same move with its write landed. */
  function Lands(m: Move): Move {
    match m
    case Override(settings, _) => Override(settings, Landed)
    case ReconcileJournal(_) => ReconcileJournal(Landed)
    case RevokeRecipe(_) => RevokeRecipe(Landed)
    case EnterExecute(_) => EnterExecute(Landed)
    case IssueGrant(grant, _) => IssueGrant(grant, Landed)
    case UseGrant(id, config, now, asRecipe, _) => UseGrant(id, config, now, asRecipe, Landed)
    case Schedule(_) => Schedule(Landed)
    case FinishEffect(_) => FinishEffect(Landed)
    case SafeTransition(recover, _) => SafeTransition(recover, Landed)
    case RescueExport(exported, _) => RescueExport(exported, Landed)
    case EnterReview(_) => EnterReview(Landed)
    case EnterExport(_) => EnterExport(Landed)
    case FinishDiscard(_) => FinishDiscard(Landed)
    case _ => m
  }

  /** The file after this step is the file before, or the one that the landed write leaves. */
  predicate OldOrLanded(before: Option<State>, after: World, landed: World) {
    after.file == before || after.file == landed.file
  }

  lemma LandsLeased(w: World, p: Proc, m: Move)
    requires w.proc == Some(p)
    ensures OldOrLanded(w.file, LeasedNext(w, p, m), LeasedNext(w, p, Lands(m)))
  {
  }

  /** Every request of a session leaves the file as it was or as its landed write would. */
  lemma ServedLands(c: Cell, q: Request, wr: Write)
    ensures var r := Served(c, q, wr);
            r.cell.durable == c.durable || r.cell.durable == Served(c, q, Landed).cell.durable
  {
  }

  lemma LandsResumed(w: World, p: Proc, m: Move)
    requires w.proc == Some(p)
    ensures OldOrLanded(w.file, ResumeNext(w, p, m), ResumeNext(w, p, Lands(m)))
  {
    if p.pc == Protocol.Recovered && m.ReconcileJournal? {
      ServedLands(CellOf(w), Reconcile(p.workspace), m.w);
      assert ResumeNext(w, p, m).file == Reconciled(CellOf(w), p.workspace, m.w).cell.durable;
    } else if p.pc == Entering && m.EnterExecute? {
      TransitionLands(CellOf(w), Execute, p.session.(lastError := None), m.w);
    } else {
      assert ResumeNext(w, p, m).file == w.file;
    }
  }

  lemma LandsInTurn(w: World, p: Proc, m: Move)
    requires w.proc == Some(p)
    ensures OldOrLanded(w.file, TurnNext(w, p, m), TurnNext(w, p, Lands(m)))
  {
    if p.pc.Authorised? && m.Schedule? {
      ServedLands(CellOf(w), Before(p.pc.action), m.w);
    } else {
      assert TurnNext(w, p, m).file == w.file;
    }
  }

  lemma LandsInEffect(w: World, p: Proc, m: Move)
    requires w.proc == Some(p)
    ensures OldOrLanded(w.file, EffectNext(w, p, m), EffectNext(w, p, Lands(m)))
  {
    if p.pc.Ran? && m.FinishEffect? {
      ServedLands(CellOf(w), After(p.pc.action, p.pc.ok, p.workspace), m.w);
    } else {
      assert EffectNext(w, p, m).file == w.file;
    }
  }

  lemma TransitionLands(c: Cell, phase: Phase, changed: State, wr: Write)
    ensures var r := Transitioned(c, phase, changed, wr);
            r.cell.durable == c.durable || r.cell.durable == Transitioned(c, phase, changed, Landed).cell.durable
  {
  }

  lemma LandsFailing(w: World, p: Proc, m: Move)
    requires w.proc == Some(p) && (p.pc.Failing? || p.pc.Rescuing?)
    ensures OldOrLanded(w.file, EndNext(w, p, m), EndNext(w, p, Lands(m)))
  {
    var c := CellOf(w);
    if p.pc.Failing? && m.SafeTransition? {
      var code := if p.pc.cancelled then TaskCancelled else OtherFailure;
      TransitionLands(c, if p.pc.cancelled then Cancel else Retry, p.session.(lastError := Some(code)), m.w);
    } else if p.pc.Rescuing? && m.RescueExport? {
      TransitionLands(c, Export, Labelled(p.session), m.w);
    }
  }

  lemma LandsClosing(w: World, p: Proc, m: Move)
    requires w.proc == Some(p) && !p.pc.Failing? && !p.pc.Rescuing?
    ensures OldOrLanded(w.file, EndNext(w, p, m), EndNext(w, p, Lands(m)))
  {
    var c := CellOf(w);
    var changed := p.session.(generation := p.workspace);
    if p.pc.Completing? && m.EnterReview? {
      TransitionLands(c, Review, changed, m.w);
    } else if p.pc.Exporting? && m.EnterExport? {
      TransitionLands(c, Export, p.session, m.w);
    } else if p.pc.Closing? && m.FinishDiscard? {
      TransitionLands(c, Discard, changed, m.w);
    }
  }

  lemma LandsAtEnd(w: World, p: Proc, m: Move)
    requires w.proc == Some(p)
    ensures OldOrLanded(w.file, EndNext(w, p, m), EndNext(w, p, Lands(m)))
  {
    if p.pc.Failing? || p.pc.Rescuing? { LandsFailing(w, p, m); } else { LandsClosing(w, p, m); }
  }

  lemma StepLands(w: World, m: Move)
    ensures OldOrLanded(w.file, Next(w, m), Next(w, Lands(m)))
  {
    if w.proc.Some? {
      LandsLeased(w, w.proc.value, m);
      LandsResumed(w, w.proc.value, m);
      LandsInTurn(w, w.proc.value, m);
      LandsInEffect(w, w.proc.value, m);
      LandsAtEnd(w, w.proc.value, m);
    }
  }

  /** However a write ends, the state file after a step is what it was, or exactly what the
      same step leaves when its write succeeds. So a session that falls behind its file does
      so by the one candidate it was writing, and keeps its own state. */
  lemma StaleIsCandidate(w: World, moves: seq<Move>, m: Move)
    requires Created(w)
    ensures var end := Run(w, moves);
            var next := Next(end, m);
            && (next.file == end.file || next.file == Next(end, Lands(m)).file)
            && (end.proc.Some? && InSync(CellOf(end)) && next.proc.Some? && Stale(CellOf(next)) ==>
                 next.file == Next(end, Lands(m)).file && next.proc.value.session == end.proc.value.session)
  {
    Reachable(w, moves);
    var end := Run(w, moves);
    StepLands(end, m);
    StepKeepsOrWrites(end, m);
  }

  /** The session changes only together with its file. */
  lemma StepKeepsOrWrites(w: World, m: Move)
    requires Inv(w)
    ensures w.proc.Some? && Next(w, m).proc.Some? ==>
              Next(w, m).proc.value.session == w.proc.value.session || InSync(CellOf(Next(w, m)))
  {
    if w.proc.Some? {
      SessionEarly(w, w.proc.value, m);
      SessionInLoop(w, w.proc.value, m);
      SessionAtEnd(w, w.proc.value, m);
    }
  }

  predicate SameSession(p: Proc, next: World) {
    next.proc.Some? ==> next.proc.value.session == p.session || InSync(CellOf(next))
  }

  lemma SessionEarly(w: World, p: Proc, m: Move)
    requires w.proc == Some(p)
    ensures SameSession(p, LeasedNext(w, p, m)) && SameSession(p, ResumeNext(w, p, m))
  {
  }

  lemma SessionInLoop(w: World, p: Proc, m: Move)
    requires w.proc == Some(p)
    ensures SameSession(p, TurnNext(w, p, m)) && SameSession(p, EffectNext(w, p, m))
  {
  }

  lemma SessionAtEnd(w: World, p: Proc, m: Move)
    requires w.proc == Some(p)
    ensures SameSession(p, EndNext(w, p, m))
  {
  }

  // ---- authorisation ----

  /** Whatever is executed after the user was asked was paid for by the last consumption
      that returned, made for this very action; and a sandbox run is always asked for. */
  lemma AuthorisedExecution(w: World, before: seq<Move>, m: Move)
    requires Created(w) && Run(w, before).executed != Run(w, before + [m]).executed
    ensures var a, b := Run(w, before), Run(w, before + [m]);
            && |b.executed| == |a.executed| + 1
            && var x := b.executed[|a.executed|];
            && (x.action.kind == RunTask ==> x.asked)
            && (x.asked ==> JustPaid(a.ledger.used, x.action.id) && b.ledger == a.ledger)
  {
    Reachable(w, before);
    RunAppend(w, before, [m]);
    var a := Run(w, before);
    assert Run(a, [m]) == Next(a, m);
    ExecutionStep(a, m);
  }

  function SandboxRuns(xs: seq<Execution>): nat
    decreases |xs|
  {
    if xs == [] then 0 else
      SandboxRuns(xs[..|xs| - 1]) + if xs[|xs| - 1].action.kind == RunTask then 1 else 0
  }

  function SandboxIds(xs: seq<Execution>): set<ActionId> {
    set i | 0 <= i < |xs| && xs[i].action.kind == RunTask :: xs[i].action.id
  }

  lemma SandboxIdsSnoc(xs: seq<Execution>, x: Execution)
    ensures SandboxIds(xs + [x]) == SandboxIds(xs) + if x.action.kind == RunTask then {x.action.id} else {}
  {
    var ys := xs + [x];
    forall id | id in SandboxIds(xs) ensures id in SandboxIds(ys) {
      var i :| 0 <= i < |xs| && xs[i].action.kind == RunTask && xs[i].action.id == id;
      assert ys[i] == xs[i];
    }
    assert x.action.kind == RunTask ==> ys[|xs|].action.id in SandboxIds(ys);
  }

  lemma {:induction false} DistinctRuns(xs: seq<Execution>)
    requires forall i, j :: 0 <= i < j < |xs| ==> xs[i].action.id != xs[j].action.id
    ensures SandboxRuns(xs) == |SandboxIds(xs)|
    decreases |xs|
  {
    if xs != [] {
      var n := |xs| - 1;
      DistinctRuns(xs[..n]);
      SandboxIdsSnoc(xs[..n], xs[n]);
      assert xs == xs[..n] + [xs[n]];
      assert xs[n].action.id !in SandboxIds(xs[..n]);
    }
  }

  function UsedIds(used: seq<L.Use>): set<ActionId> {
    set u | u in used :: u.action
  }

  lemma {:induction false} FewIds(used: seq<L.Use>)
    ensures |UsedIds(used)| <= |used|
    decreases |used|
  {
    if used != [] {
      var n := |used| - 1;
      FewIds(used[..n]);
      assert used == used[..n] + [used[n]];
      assert UsedIds(used) == UsedIds(used[..n]) + {used[n].action};
    } else {
      assert UsedIds(used) == {};
    }
  }

  /** Over the whole life of a task, the sandbox runs at most as often as the grants
      issued for it allow, all crashes and restarts included. */
  lemma SandboxBound(w: World, moves: seq<Move>)
    requires Created(w)
    ensures var end := Run(w, moves);
            SandboxRuns(end.executed) <= |end.ledger.used| <= L.TotalUses(end.ledger.issued)
  {
    Reachable(w, moves);
    var end := Run(w, moves);
    L.LedgerTotal(end.ledger);
    DistinctRuns(end.executed);
    forall id | id in SandboxIds(end.executed) ensures id in UsedIds(end.ledger.used) {
      var i :| 0 <= i < |end.executed| && end.executed[i].action.kind == RunTask && end.executed[i].action.id == id;
      assert end.executed[i].asked;
      var u :| u in end.ledger.used && u.action == id;
    }
    L.SubsetSize(SandboxIds(end.executed), UsedIds(end.ledger.used));
    FewIds(end.ledger.used);
  }
}
