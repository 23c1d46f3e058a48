/** Laws of the durable state: revision discipline, the phase table, and exactly when
    an interrupted effect can be resolved. */
module TaskStateLaws {
  import opened Wrappers
  import opened TaskState

  // ---- revision discipline ----

  predicate InSync(c: Cell) {
    c.durable == Some(c.session)
  }

  /** The file is one revision ahead: a write landed but reported failure. */
  predicate Stale(c: Cell) {
    c.durable.Some? && c.durable.value.revision == c.session.revision + 1
  }

  /** Anything a session may ask of its state. */
  datatype Request =
    | Update(changed: State)
    | Transition(phase: Phase, changed: State)
    | Before(action: Action)
    | After(action: Action, ok: bool, published: nat)
    | Reconcile(recovered: nat)

  function Served(c: Cell, q: Request, w: Write): Step {
    match q
    case Update(changed) => Updated(c, changed, w)
    case Transition(phase, changed) => Transitioned(c, phase, changed, w)
    case Before(a) => Scheduled(c, a, w)
    case After(a, ok, published) => Finished(c, a, ok, published, w)
    case Reconcile(recovered) => Reconciled(c, recovered, w)
  }

  /** The outcome of one request on a session in step with its file: nothing happened;
      or the file and the session moved to the same valid next revision; or only the
      file did, to the very state that the session would have had, and the session is
      stale from then on. */
  lemma OneRequest(c: Cell, q: Request, w: Write)
    requires InSync(c)
    ensures var r := Served(c, q, w);
            || r.cell == c
            || (InSync(r.cell) && r.error.None?
                && r.cell.session.revision == c.session.revision + 1 && ValidState(r.cell.session))
            || (Stale(r.cell) && r.error == Some(WriteFailed) && r.cell.session == c.session
                && ValidState(r.cell.durable.value)
                && r.cell.durable == Some(Served(c, q, Landed).cell.session))
  {
  }

  /** A stale session is finished: every request that would write is refused and
      changes nothing. */
  lemma StaleIsRefused(c: Cell, q: Request, w: Write)
    requires Stale(c)
    ensures Served(c, q, w).cell == c
    ensures Served(c, q, w).error.Some? ||
            (q.Reconcile? && c.session.pending.None? && q.recovered == c.session.generation)
  {
  }

  function ServedAll(c: Cell, qs: seq<(Request, Write)>): Cell
    decreases |qs|
  {
    if qs == [] then c else ServedAll(Served(c, qs[0].0, qs[0].1).cell, qs[1..])
  }

  /** How many of these requests changed the file. */
  function LandedCount(c: Cell, qs: seq<(Request, Write)>): nat
    decreases |qs|
  {
    if qs == [] then 0 else
      var next := Served(c, qs[0].0, qs[0].1).cell;
      (if next.durable != c.durable then 1 else 0) + LandedCount(next, qs[1..])
  }

  /** Over a whole session, durable and session state agree or the session is stale for
      good; and the durable revision rises by exactly one per landed write. */
  lemma {:induction false} RevisionDiscipline(c: Cell, qs: seq<(Request, Write)>)
    requires InSync(c) || Stale(c)
    ensures var end := ServedAll(c, qs);
            && (InSync(end) || Stale(end))
            && (Stale(c) ==> end == c)
            && end.durable.value.revision == c.durable.value.revision + LandedCount(c, qs)
    decreases |qs|
  {
    if qs != [] {
      var (q, w) := qs[0];
      if InSync(c) {
        OneRequest(c, q, w);
      } else {
        StaleIsRefused(c, q, w);
      }
      RevisionDiscipline(Served(c, q, w).cell, qs[1..]);
    }
  }

  // ---- phases ----

  /** `Discard` is absorbing and one step away from every phase. */
  lemma DiscardAbsorbs(p: Phase)
    ensures Allowed(p, Discard)
    ensures Allowed(Discard, p) <==> p == Discard
  {
  }

  /** Reconciling a pending effect gets past the phase table exactly from `Execute` or
      `Review`, or from `Retry` with an outcome other than success; from anywhere else
      the table refuses and nothing changes, on every later attempt too. */
  lemma ReconcileResolves(c: Cell, recovered: nat, w: Write)
    requires InSync(c) && c.session.pending.Some? && ValidState(c.session)
    ensures var r := Reconciled(c, recovered, w);
            var outcome := ReconciledOutcome(c.session.pending.value, recovered);
            var open := c.session.phase in {Execute, Review} || (c.session.phase == Retry && outcome != Succeeded);
            && (!open ==> r.cell == c && r.error.Some?)
            && (r.error.None? <==> open && |c.session.effects| < MAX_EFFECTS && w == Landed)
            && (r.error.None? ==>
                 && r.cell.session.pending.None?
                 && r.cell.session.generation == recovered
                 && r.cell.session.effects == c.session.effects +
                    [Completed(c.session.pending.value, outcome, recovered)])
  {
    var s := c.session;
    var p := s.pending.value;
    var outcome := ReconciledOutcome(p, recovered);
    var effects := s.effects + [Completed(p, outcome, recovered)];
    assert forall i :: 0 <= i < |s.effects| ==> effects[i] == s.effects[i];
    assert forall i :: 0 <= i < |s.effects| ==> s.effects[i].id != p.id;
    assert DistinctIds(effects);
  }

  /** A patch that was published before its completion was recorded, in a task moved to
      `Retry` meanwhile, can never be reconciled: the table has no way from `Retry` to
      `Review`. */
  lemma PublishedThenRetryIsStuck(c: Cell, recovered: nat, w: Write)
    requires InSync(c) && ValidState(c.session) && c.session.phase == Retry
    requires c.session.pending.Some? && c.session.pending.value.kind == ApplyPatch
    requires recovered > c.session.pending.value.before
    ensures Reconciled(c, recovered, w) == Step(c, Some(InvalidTransition))
  {
    ReconcileResolves(c, recovered, w);
  }

  /** Recording a completion: with the matching effect open, in the phases of the
      controller loop, it succeeds if and only if the journal has room and the write
      lands. */
  lemma CompletionIsRecorded(c: Cell, a: Action, ok: bool, published: nat, w: Write)
    requires InSync(c) && ValidState(c.session) && c.session.phase in {Execute, Review}
    requires c.session.pending.Some? && c.session.pending.value.id == a.id
    ensures Finished(c, a, ok, published, w).error.None? <==> |c.session.effects| < MAX_EFFECTS && w == Landed
    ensures Finished(c, a, ok, published, w).error.None? ==>
              Finished(c, a, ok, published, w).cell.session.pending.None?
  {
    var s := c.session;
    var generation := if a.kind == ApplyPatch && ok then published else s.generation;
    RoomForOne(s, Completed(s.pending.value, if ok then Succeeded else Failed, generation));
  }

  /** A record of the open effect keeps the identifiers distinct. */
  lemma RoomForOne(s: State, e: Effect)
    requires ValidState(s) && s.pending.Some? && e.id == s.pending.value.id
    ensures DistinctIds(s.effects + [e])
  {
    var effects := s.effects + [e];
    forall i, j | 0 <= i < j < |effects| ensures effects[i].id != effects[j].id {
      assert effects[i] == s.effects[i];
      assert Recorded(s.effects, effects[i].id);
    }
  }

  /** Opening an effect: it succeeds if and only if the action is new, nothing is open, the
      table allows `Execute` and the write lands; the room left in the journal plays no
      part. */
  lemma EffectIsOpened(c: Cell, a: Action, w: Write)
    requires InSync(c) && ValidState(c.session)
    ensures Scheduled(c, a, w).error.None? <==>
            && !Recorded(c.session.effects, a.id) && c.session.pending.None?
            && Allowed(c.session.phase, Execute) && w == Landed
  {
  }

  /** A state with a full journal. */
  function ManyEffects(n: nat): seq<Effect> {
    seq(n, (i: nat) => Effect(i, 0, RunTask, Failed, 0, 0, Some("check")))
  }

  const FULL_STATE := State(2001, Execute, 0, 0, None, ManyEffects(MAX_EFFECTS), None)

  const ONE_MORE := Action(MAX_EFFECTS, RunTask, Some("check"), 0)

  /** So a valid task with 1000 recorded effects opens one more, and then neither its
      completion nor its reconciliation can ever be recorded. */
  lemma OneMoreIsStuck(ok: bool, w: Write)
    ensures ValidState(FULL_STATE)
    ensures var after := Scheduled(Cell(Some(FULL_STATE), FULL_STATE), ONE_MORE, Landed);
            && after.error.None? && InSync(after.cell)
            && after.cell.session.pending == Some(PendingFor(ONE_MORE, 0))
            && Finished(after.cell, ONE_MORE, ok, 0, w) == Step(after.cell, Some(InvalidState))
            && Reconciled(after.cell, 0, w) == Step(after.cell, Some(InvalidState))
  {
    assert forall i :: 0 <= i < MAX_EFFECTS ==> ManyEffects(MAX_EFFECTS)[i].id == i;
  }

  /** The journal is full at 1000 effects: whatever the phase and the session ask, neither a
      completion nor a reconciliation is recorded. */
  lemma FullJournalCannotComplete(c: Cell, a: Action, ok: bool, published: nat, w: Write)
    requires InSync(c) && |c.session.effects| == MAX_EFFECTS
    ensures Finished(c, a, ok, published, w).cell == c && Finished(c, a, ok, published, w).error.Some?
    ensures c.session.pending.Some? ==> Reconciled(c, published, w).cell == c && Reconciled(c, published, w).error.Some?
  {
  }
}
