/** The life of one durable task as a step machine: its files, the live process that
    works on them, and a crash between any two writes
    (`_execute_task_session`, `_recover_and_discard_task`, `_discard_coding` and
    `_clean_tasks` in src/ulg/cli.py, around the controller loop). */
module Protocol {
  import opened Wrappers
  import opened TaskState
  import opened Generations
  import G = Grants
  import L = GrantLaws

  datatype Decision = Allow | Ask | Deny

  /** An effect handed to the patch or sandbox tool. */
  datatype Execution = Execution(action: Action, asked: bool)

  /** Where the live process is. */
  datatype Pc =
    | Leased
    | Recovered
    | Revoking(recipe: string)
    | Entering
    | Turn
    | Asking(action: Action)
    | Authorised(action: Action, asked: bool)
    | Ready(action: Action, asked: bool)
    | Publishing(action: Action, pub: Pub)
    | InSandbox(action: Action)
    | Ran(action: Action, ok: bool)
    | Failing(cancelled: bool)
    | Rescuing
    | Completing
    | Exporting
    | Discarding(insideTry: bool)
    | Closing(insideTry: bool)
    | Cleaning
    | Deleting

  /** A process: its session state and the generation its tools work on. */
  datatype Proc = Proc(session: State, workspace: nat, pc: Pc)

  /** The files, the grants with their history, the live process if any, and the history
      of executed effects. `wrecked` records that a discard began to delete directories. */
  datatype World = World(file: Option<State>, ledger: L.Ledger, disk: Disk, wrecked: bool, max: nat,
                         proc: Option<Proc>, executed: seq<Execution>)

  const TASK: nat := 0

  function GrantAction(a: Action): G.Action {
    G.Action(a.id, TASK, a.digest, a.recipe)
  }

  datatype Move =
    | Start
    | Crash
    | Override(settings: nat, w: Write)
    | RecoverWorkspace
    | ShowDiff
    | DiscardCommand
    | CleanCommand
    | ReconcileJournal(w: Write)
    | RevokeRecipe(w: Write)
    | EnterExecute(w: Write)
    | Propose(action: Action, decision: Decision)
    | IssueGrant(grant: G.Grant, w: Write)
    | UseGrant(id: G.GrantId, config: G.Config, now: G.Time, asRecipe: bool, w: Write)
    | Refuse
    | Schedule(w: Write)
    | ExecuteTool(rejectedEarly: bool)
    | PublishStep(choice: Choice)
    | SandboxEnds(ok: bool)
    | FinishEffect(w: Write)
    | Fail(cancelled: bool)
    | SafeTransition(recover: bool, w: Write)
    | RescueExport(exported: bool, w: Write)
    | Complete
    | EnterReview(w: Write)
    | EnterExport(w: Write)
    | RemoveFiles(left: Disk)
    | DeleteGrants
    | FinishDiscard(w: Write)
    | DeleteState

  function CellOf(w: World): Cell
    requires w.proc.Some?
  {
    Cell(w.file, w.proc.value.session)
  }

  /** Adopt what a journal or session call did to the file and the session. */
  function Carry(w: World, s: Step, pc: Pc): World
    requires w.proc.Some?
  {
    w.(file := s.cell.durable, proc := Some(w.proc.value.(session := s.cell.session, pc := pc)))
  }

  function Moved(w: World, pc: Pc): World
    requires w.proc.Some?
  {
    w.(proc := Some(w.proc.value.(pc := pc)))
  }

  function Exit(w: World): World { w.(proc := None) }

  /** What is left when some files of the task directory are gone and some directory
      contents are half removed. */
  predicate PartOf(left: Disk, d: Disk) {
    && left.finals.Keys <= d.finals.Keys && left.stagings.Keys <= d.stagings.Keys
    && forall k :: k in left.manifests ==> k in d.manifests && left.manifests[k] == d.manifests[k]
  }

  /** Points in the controller loop where an exception or interrupt may strike, with
      either flag. During a publication it may also skip what is left of the rollback,
      which only adds runs. */
  predicate MayFail(pc: Pc) {
    pc.Turn? || pc.Asking? || pc.Authorised? || pc.Ready? || pc.Publishing? || pc.InSandbox? || pc.Ran?
    || pc.Completing? || pc.Exporting?
    || pc == Discarding(true) || pc == Closing(true)
  }

  // ---- moves, by place ----

  function LeasedNext(w: World, p: Proc, m: Move): World
    requires w.proc == Some(p)
  {
    match m
    case Override(settings, wr) =>
      if p.session.phase in {Export, Discard} then Exit(w) else
        var s := Updated(CellOf(w), p.session.(settings := settings), wr);
        if s.error.Some? then Exit(Carry(w, s, Leased)) else Carry(w, s, Leased)
    case RecoverWorkspace =>
      if p.session.phase in {Export, Discard} then Exit(w) else
        var r := Generations.Recovered(w.disk, p.session.generation, w.max);
        if r.Failure? then Exit(w)
        else w.(disk := RecoveredDisk(w.disk, p.session.generation, w.max),
                proc := Some(p.(workspace := r.value, pc := Recovered)))
    case ShowDiff =>
      if p.session.phase == Discard then Exit(w)
      else Exit(w.(disk := RecoveredDisk(w.disk, p.session.generation, w.max)))
    case DiscardCommand =>
      if p.session.phase == Discard then Exit(w)
      else w.(proc := Some(p.(workspace := p.session.generation, pc := Discarding(false))))
    case CleanCommand => Moved(w, Cleaning)
    case _ => w
  }

  function ResumeNext(w: World, p: Proc, m: Move): World
    requires w.proc == Some(p)
  {
    match (p.pc, m)
    case (Recovered, ReconcileJournal(wr)) =>
      var loaded := w.(ledger := L.Happened(w.ledger, L.Reload));
      var s := Reconciled(CellOf(w), p.workspace, wr);
      if s.error.Some? then Exit(Carry(loaded, s, Recovered))
      else if p.session.pending.Some? && p.session.pending.value.recipe.Some? then
        Carry(loaded, s, Revoking(p.session.pending.value.recipe.value))
      else Carry(loaded, s, Entering)
    case (Revoking(recipe), RevokeRecipe(wr)) =>
      var next := w.(ledger := L.Happened(w.ledger, L.Revoke(TASK, recipe, wr)));
      if wr != Landed && G.Retained(w.ledger.book.memory, TASK, recipe) != w.ledger.book.memory then Exit(next)
      else Moved(next, Entering)
    case (Entering, EnterExecute(wr)) =>
      var s := Transitioned(CellOf(w), Execute, p.session.(lastError := None), wr);
      if s.error.Some? then Exit(Carry(w, s, Entering)) else Carry(w, s, Turn)
    case _ => w
  }

  function TurnNext(w: World, p: Proc, m: Move): World
    requires w.proc == Some(p)
  {
    match (p.pc, m)
    case (Turn, Propose(a, decision)) =>
      // policy never allows a sandbox run without asking (src/ulg/policy/engine.py:76-81)
      if !ValidAction(a) || (a.kind == RunTask && decision == Allow) || decision == Deny then w
      else if decision == Allow then Moved(w, Authorised(a, false)) else Moved(w, Asking(a))
    case (Turn, Complete) => Moved(w, Completing)
    case (Asking(a), IssueGrant(g, wr)) =>
      if L.Offered(w.ledger.issued, g.id) then w else
        var ok := G.Registered(w.ledger.book, g, wr).outcome.Success?;
        Moved(w.(ledger := L.Happened(w.ledger, L.Issue(g, wr))), if ok then p.pc else Failing(false))
    case (Asking(a), UseGrant(id, config, now, asRecipe, wr)) =>
      var r := G.Consumed(w.ledger.book, id, GrantAction(a), config, now, asRecipe, wr);
      Moved(w.(ledger := L.Happened(w.ledger, L.Consume(id, GrantAction(a), config, now, asRecipe, wr))),
         if r.outcome.Success? then Authorised(a, true)
         else if r.outcome.error in {G.PersistFailed, G.RecipeUnknown} then Failing(false) else p.pc)
    case (Asking(a), Refuse) => Moved(w, Turn)
    case (Authorised(a, asked), Schedule(wr)) =>
      var s := Scheduled(CellOf(w), a, wr);
      Carry(w, s, if s.error.Some? then Failing(false) else Ready(a, asked))
    case _ => w
  }

  function EffectNext(w: World, p: Proc, m: Move): World
    requires w.proc == Some(p)
  {
    match (p.pc, m)
    case (Ready(a, asked), ExecuteTool(rejectedEarly)) =>
      Moved(w.(executed := w.executed + [Execution(a, asked)]),
         if a.kind == RunTask then InSandbox(a)
         else if rejectedEarly || p.workspace + 1 > w.max then Ran(a, false)
         else Publishing(a, ClearStaging))
    case (Publishing(a, pub), PublishStep(ch)) =>
      var next := PubNext(p.workspace, PubState(w.disk, pub), ch);
      var moved := w.(disk := next.disk);
      (match next.pc
       case Done(Published) => moved.(proc := Some(p.(workspace := p.workspace + 1, pc := Ran(a, true))))
       case Done(Rejected) => Moved(moved, Ran(a, false))
       case Done(Raised) => Moved(moved, Failing(false))
       case _ => Moved(moved, Publishing(a, next.pc)))
    case (InSandbox(a), SandboxEnds(ok)) => Moved(w, Ran(a, ok))
    case (Ran(a, ok), FinishEffect(wr)) =>
      var s := Finished(CellOf(w), a, ok, p.workspace, wr);
      Carry(w, s, if s.error.Some? then Failing(false) else Turn)
    case _ => w
  }

  /** A rescued export keeps the error code, or records the reason if there is none. */
  function Labelled(s: State): State {
    if s.lastError.Some? then s else s.(lastError := Some(OtherFailure))
  }

  function EndNext(w: World, p: Proc, m: Move): World
    requires w.proc == Some(p)
  {
    match (p.pc, m)
    case (Failing(cancelled), SafeTransition(recover, wr)) =>
      // a refused or failed transition is suppressed
      var s := Transitioned(CellOf(w), if cancelled then Cancel else Retry,
                 p.session.(lastError := Some(if cancelled then TaskCancelled else OtherFailure)), wr);
      var next := Carry(w, s, Rescuing);
      if !recover || s.error == Some(InvalidState) then Exit(next) else next
    case (Rescuing, RescueExport(exported, wr)) =>
      if !exported then Moved(w, Discarding(false)) else
        var s := Transitioned(CellOf(w), Export, Labelled(p.session), wr);
        Carry(w, s, Discarding(false))
    case (Completing, EnterReview(wr)) =>
      var s := Transitioned(CellOf(w), Review, p.session.(generation := p.workspace), wr);
      Carry(w, s, if s.error.Some? then Failing(false) else Exporting)
    case (Exporting, EnterExport(wr)) =>
      var s := Transitioned(CellOf(w), Export, p.session, wr);
      Carry(w, s, if s.error.Some? then Failing(false) else Discarding(true))
    case (Discarding(insideTry), RemoveFiles(left)) =>
      if PartOf(left, w.disk) then w.(disk := left, wrecked := true) else w
    case (Discarding(insideTry), DeleteGrants) =>
      Moved(w.(ledger := L.Happened(w.ledger, L.DeleteFile), wrecked := true), Closing(insideTry))
    case (Closing(insideTry), FinishDiscard(wr)) =>
      var s := Transitioned(CellOf(w), Discard, p.session.(generation := p.workspace), wr);
      if s.error.Some? && insideTry then Carry(w, s, Failing(false)) else Exit(Carry(w, s, p.pc))
    case (Cleaning, RemoveFiles(left)) =>
      if PartOf(left, w.disk) then w.(disk := left, wrecked := true) else w
    case (Cleaning, DeleteGrants) =>
      Moved(w.(ledger := L.Happened(w.ledger, L.DeleteFile), wrecked := true), Deleting)
    case (Deleting, DeleteState) =>
      if w.file.Some? && w.file.value.revision == p.session.revision then Exit(w.(file := None)) else Exit(w)
    case _ => w
  }

  /** One step. A move that does not apply where the process is changes nothing. */
  function Next(w: World, m: Move): World {
    match w.proc
    case None =>
      if m.Start? && w.file.Some? then w.(proc := Some(Proc(w.file.value, w.file.value.generation, Leased))) else w
    case Some(p) =>
      if m.Crash? then Exit(w)
      else if m.Fail? then (if MayFail(p.pc) then Moved(w, Failing(m.cancelled)) else w)
      else match p.pc
        case Leased => LeasedNext(w, p, m)
        case Recovered => ResumeNext(w, p, m)
        case Revoking(_) => ResumeNext(w, p, m)
        case Entering => ResumeNext(w, p, m)
        case Turn => TurnNext(w, p, m)
        case Asking(_) => TurnNext(w, p, m)
        case Authorised(_, _) => TurnNext(w, p, m)
        case Ready(_, _) => EffectNext(w, p, m)
        case Publishing(_, _) => EffectNext(w, p, m)
        case InSandbox(_) => EffectNext(w, p, m)
        case Ran(_, _) => EffectNext(w, p, m)
        case _ => EndNext(w, p, m)
  }

  function Run(w: World, moves: seq<Move>): World
    decreases |moves|
  {
    if moves == [] then w else Run(Next(w, moves[0]), moves[1..])
  }

  /** A task just created: phase `Plan`, generation 0 published, nothing else. */
  ghost predicate Created(w: World) {
    && w.file.Some?
    && w.file.value.revision == 0 && w.file.value.phase == Plan && w.file.value.generation == 0
    && w.file.value.pending.None? && w.file.value.effects == []
    && w.ledger == L.EMPTY
    && Reopens(w.disk, 0) && w.disk.manifests.Keys == {0}
    && !w.wrecked && w.proc.None? && w.executed == []
  }
}
