/** Durable task state, its phase table and its effect journal
    (src/ulg/tasks/state.py). */
module TaskState {
  import opened Wrappers

  // ---- records ----

  datatype Phase = Plan | Execute | Review | Retry | Cancel | Export | Discard

  function Transitions(p: Phase): set<Phase> {
    match p
    case Plan => {Execute, Cancel, Discard}
    case Execute => {Review, Retry, Cancel, Discard}
    case Review => {Execute, Export, Retry, Discard}
    case Retry => {Execute, Export, Cancel, Discard}
    case Cancel => {Execute, Export, Discard}
    case Export => {Discard}
    case Discard => {}
  }

  /** `TaskSession.transition` accepts a move to the same phase or along the table. */
  predicate Allowed(from: Phase, to: Phase) {
    to == from || to in Transitions(from)
  }

  type ActionId = nat

  datatype ActionType = ApplyPatch | RunTask

  /** An action the journal records. The digest identifies the whole payload. */
  datatype Action = Action(id: ActionId, kind: ActionType, recipe: Option<string>, digest: nat)

  predicate ValidAction(a: Action) {
    a.kind == RunTask <==> a.recipe.Some?
  }

  datatype Outcome = Succeeded | Failed | Interrupted | Unknown

  datatype Pending = Pending(id: ActionId, digest: nat, kind: ActionType, before: nat, recipe: Option<string>)

  datatype Effect = Effect(id: ActionId, digest: nat, kind: ActionType, outcome: Outcome,
                           before: nat, after: nat, recipe: Option<string>)

  datatype ErrorCode = EffectOutcomeUnknown | TaskCancelled | OtherFailure

  /** `settings` stands for the paths and model name a resume may override. */
  datatype State = State(revision: nat, phase: Phase, settings: nat, generation: nat,
                         pending: Option<Pending>, effects: seq<Effect>, lastError: Option<ErrorCode>)

  const MAX_EFFECTS := 1000

  predicate DistinctIds(effects: seq<Effect>) {
    forall i, j :: 0 <= i < j < |effects| ==> effects[i].id != effects[j].id
  }

  predicate Recorded(effects: seq<Effect>, id: ActionId) {
    exists i :: 0 <= i < |effects| && effects[i].id == id
  }

  /** The model validators: bounded, distinct effects; a pending one is not complete. */
  predicate ValidState(s: State) {
    && |s.effects| <= MAX_EFFECTS
    && DistinctIds(s.effects)
    && (s.pending.Some? ==> !Recorded(s.effects, s.pending.value.id))
  }

  // ---- writes ----

  datatype TaskError =
    | StateMissing
    | RevisionChanged
    | WriteFailed
    | InvalidState
    | InvalidTransition
    | EffectReplay
    | CompletionMismatch

  /** The state file of one task and the live session's copy of it. */
  datatype Cell = Cell(durable: Option<State>, session: State)

  datatype Step = Step(cell: Cell, error: Option<TaskError>)

  /** `TaskStore.save` as a function: what the file holds afterwards. */
  function Saved(durable: Option<State>, candidate: State, expected: nat, w: Write)
    : (Option<State>, Option<TaskError>)
  {
    if durable.None? then (durable, Some(StateMissing))
    else if durable.value.revision != expected || candidate.revision != expected + 1
      then (durable, Some(RevisionChanged))
    else match w
      case NotLanded => (durable, Some(WriteFailed))
      case LandedThenFailed => (Some(candidate), Some(WriteFailed))
      case Landed => (Some(candidate), None)
  }

  /** `TaskSession.update`: `changed` is the session's state with the new field values. */
  function Updated(c: Cell, changed: State, w: Write): Step {
    var candidate := changed.(revision := c.session.revision + 1);
    if !ValidState(candidate) then Step(c, Some(InvalidState)) else
      var (durable, error) := Saved(c.durable, candidate, c.session.revision, w);
      Step(Cell(durable, if error.None? then candidate else c.session), error)
  }

  /** `TaskSession.transition` */
  function Transitioned(c: Cell, phase: Phase, changed: State, w: Write): Step {
    if !Allowed(c.session.phase, phase) then Step(c, Some(InvalidTransition))
    else Updated(c, changed.(phase := phase), w)
  }

  // ---- the journal ----

  function PendingFor(a: Action, generation: nat): Pending {
    Pending(a.id, a.digest, a.kind, generation, a.recipe)
  }

  /** `DurableEffectJournal.before_execute` */
  function Scheduled(c: Cell, a: Action, w: Write): Step {
    if Recorded(c.session.effects, a.id) then Step(c, Some(EffectReplay))
    else if c.session.pending.Some? then Step(c, Some(EffectReplay))
    else Transitioned(c, Execute, c.session.(pending := Some(PendingFor(a, c.session.generation))), w)
  }

  function Completed(p: Pending, outcome: Outcome, after: nat): Effect {
    Effect(p.id, p.digest, p.kind, outcome, p.before, after, p.recipe)
  }

  /** `DurableEffectJournal.after_execute`; `published` is the generation reported by a
      successful patch. */
  function Finished(c: Cell, a: Action, ok: bool, published: nat, w: Write): Step {
    var s := c.session;
    if s.pending.None? || s.pending.value.id != a.id then Step(c, Some(CompletionMismatch)) else
      var generation := if a.kind == ApplyPatch && ok then published else s.generation;
      var effect := Completed(s.pending.value, if ok then Succeeded else Failed, generation);
      Transitioned(c, if generation > 0 then Review else Execute,
        s.(generation := generation, pending := None, effects := s.effects + [effect]), w)
  }

  function ReconciledOutcome(p: Pending, recovered: nat): Outcome {
    if p.kind == ApplyPatch then (if recovered > p.before then Succeeded else Interrupted) else Unknown
  }

  /** `DurableEffectJournal.reconcile` */
  function Reconciled(c: Cell, recovered: nat, w: Write): Step {
    var s := c.session;
    if s.pending.None? then
      if recovered == s.generation then Step(c, None)
      else Updated(c, s.(generation := recovered), w)
    else
      var p := s.pending.value;
      var outcome := ReconciledOutcome(p, recovered);
      Transitioned(c, if outcome == Succeeded then Review else Retry,
        s.(generation := recovered, pending := None, effects := s.effects + [Completed(p, outcome, recovered)],
           lastError := if outcome == Succeeded then None else Some(EffectOutcomeUnknown)), w)
  }

  // ---- the mutable objects ----

  /** The state file of one task. */
  class TaskStore {
    var file: Option<State>

    constructor ()
      ensures file == None
    {
      file := None;
    }

    /** `TaskStore.save`; `w` is how the underlying write ends. */
    method Save(candidate: State, expected: nat, w: Write) returns (error: Option<TaskError>)
      modifies this
      ensures (file, error) == Saved(old(file), candidate, expected, w)
    {
      if file.None? { return Some(StateMissing); }
      if file.value.revision != expected || candidate.revision != expected + 1 { return Some(RevisionChanged); }
      if w == NotLanded { return Some(WriteFailed); }
      file := Some(candidate);
      return if w == Landed then None else Some(WriteFailed);
    }
  }

  /** A live session: every update becomes one atomic state revision. */
  class TaskSession {
    const store: TaskStore
    var state: State

    constructor (store: TaskStore, state: State)
      ensures this.store == store && this.state == state
    {
      this.store := store;
      this.state := state;
    }

    ghost function View(): Cell
      reads this, store
    {
      Cell(store.file, state)
    }

    /** `TaskSession.update` */
    method Update(changed: State, w: Write) returns (error: Option<TaskError>)
      modifies this, store
      ensures Step(View(), error) == Updated(old(View()), changed, w)
    {
      var candidate := changed.(revision := state.revision + 1);
      if !ValidState(candidate) { return Some(InvalidState); }
      error := store.Save(candidate, state.revision, w);
      if error.None? {
        state := candidate;
      }
    }

    /** `TaskSession.transition` */
    method Transition(phase: Phase, changed: State, w: Write) returns (error: Option<TaskError>)
      modifies this, store
      ensures Step(View(), error) == Transitioned(old(View()), phase, changed, w)
    {
      if phase != state.phase && phase !in Transitions(state.phase) { return Some(InvalidTransition); }
      error := Update(changed.(phase := phase), w);
    }
  }

  /** Persists at-most-once effect scheduling around tool execution. */
  class DurableEffectJournal {
    const session: TaskSession

    constructor (session: TaskSession)
      ensures this.session == session
    {
      this.session := session;
    }

    method BeforeExecute(a: Action, w: Write) returns (error: Option<TaskError>)
      modifies session, session.store
      ensures Step(session.View(), error) == Scheduled(old(session.View()), a, w)
    {
      var state := session.state;
      if Recorded(state.effects, a.id) { return Some(EffectReplay); }
      if state.pending.Some? { return Some(EffectReplay); }
      error := session.Transition(Execute, state.(pending := Some(PendingFor(a, state.generation))), w);
    }

    method AfterExecute(a: Action, ok: bool, published: nat, w: Write) returns (error: Option<TaskError>)
      modifies session, session.store
      ensures Step(session.View(), error) == Finished(old(session.View()), a, ok, published, w)
    {
      var state := session.state;
      if state.pending.None? || state.pending.value.id != a.id { return Some(CompletionMismatch); }
      var generation := state.generation;
      if a.kind == ApplyPatch && ok {
        generation := published;
      }
      var effect := Completed(state.pending.value, if ok then Succeeded else Failed, generation);
      error := session.Transition(if generation > 0 then Review else Execute,
        state.(generation := generation, pending := None, effects := state.effects + [effect]), w);
    }

    method Reconcile(recovered: nat, w: Write) returns (interrupted: Option<Pending>, error: Option<TaskError>)
      modifies session, session.store
      ensures Step(session.View(), error) == Reconciled(old(session.View()), recovered, w)
      ensures interrupted == if error.None? then old(session.state).pending else None
    {
      var state := session.state;
      if state.pending.None? {
        if recovered != state.generation {
          error := session.Update(state.(generation := recovered), w);
          return None, error;
        }
        return None, None;
      }
      var p := state.pending.value;
      var outcome := ReconciledOutcome(p, recovered);
      var effect := Completed(p, outcome, recovered);
      error := session.Transition(if outcome == Succeeded then Review else Retry,
        state.(generation := recovered, pending := None, effects := state.effects + [effect],
               lastError := if outcome == Succeeded then None else Some(EffectOutcomeUnknown)), w);
      interrupted := if error.None? then Some(p) else None;
    }
  }
}
