/** What every step of the task protocol keeps. */
module ProtocolInv {
  import opened Wrappers
  import opened TaskState
  import opened TaskStateLaws
  import opened Generations
  import opened GenerationLaws
  import opened Protocol
  import L = GrantLaws

  // ---- the journal ----

  /** The generation the recorded effects lead to. */
  function End(effects: seq<Effect>): nat {
    if effects == [] then 0 else effects[|effects| - 1].after
  }

  predicate Advances(e: Effect) {
    e.kind == ApplyPatch && e.outcome == Succeeded
  }

  /** Each effect starts where the one before it ended, from 0, and exactly a succeeded
      patch moves on, by one. */
  predicate Chain(effects: seq<Effect>)
    decreases |effects|
  {
    effects == [] ||
    var n := |effects| - 1;
    && Chain(effects[..n])
    && effects[n].before == End(effects[..n])
    && effects[n].after == effects[n].before + if Advances(effects[n]) then 1 else 0
  }

  /** Phases in which an unresolved effect can be found. */
  predicate PendingPhase(p: Phase) {
    p in {Execute, Retry, Cancel, Export, Discard}
  }

  predicate PatchPending(s: State) {
    s.pending.Some? && s.pending.value.kind == ApplyPatch
  }

  /** The newest generation that may have been published. */
  function Top(s: State): nat {
    End(s.effects) + if PatchPending(s) then 1 else 0
  }

  predicate Sound(s: State) {
    && ValidState(s) && Chain(s.effects)
    && (s.pending.None? ==> s.generation == End(s.effects))
    && (s.pending.Some? ==>
         && s.pending.value.before == End(s.effects)
         && PendingPhase(s.phase)
         && (s.generation == End(s.effects) || (s.phase == Discard && s.generation == Top(s))))
  }

  // ---- the disk ----

  predicate ManifestsUpTo(d: Disk, n: nat) {
    forall k :: k in d.manifests ==> k <= n
  }

  ghost predicate DiskInv(d: Disk, wrecked: bool, max: nat, s: State) {
    && ManifestsUpTo(d, Top(s)) && ManifestsUpTo(d, max)
    && (!wrecked ==> Intact(d, End(s.effects)))
  }

  // ---- executions and grants ----

  predicate Known(s: State, id: ActionId) {
    Recorded(s.effects, id) || (s.pending.Some? && s.pending.value.id == id)
  }

  predicate Executed(xs: seq<Execution>, id: ActionId) {
    exists i :: 0 <= i < |xs| && xs[i].action.id == id
  }

  ghost predicate ExecutedOnce(xs: seq<Execution>) {
    forall i, j :: 0 <= i < j < |xs| ==> xs[i].action.id != xs[j].action.id
  }

  /** Every executed effect is in the durable journal, complete or pending. */
  ghost predicate ExecutedKnown(xs: seq<Execution>, s: State) {
    forall i :: 0 <= i < |xs| ==> Known(s, xs[i].action.id)
  }

  /** A grant was consumed for this action. */
  ghost predicate Paid(used: seq<L.Use>, id: ActionId) {
    exists u :: u in used && u.action == id
  }

  ghost predicate ExecutedPaid(used: seq<L.Use>, xs: seq<Execution>) {
    forall i {:trigger xs[i]} :: 0 <= i < |xs| ==>
      && (xs[i].asked ==> Paid(used, xs[i].action.id))
      && (xs[i].action.kind == RunTask ==> xs[i].asked)
  }

  /** The last consumption that returned was for this action. */
  predicate JustPaid(used: seq<L.Use>, id: ActionId) {
    used != [] && used[|used| - 1].action == id
  }

  // ---- the process ----

  predicate InLoop(pc: Pc) {
    pc.Turn? || pc.Asking? || pc.Authorised? || pc.Ready? || pc.Publishing? || pc.InSandbox? || pc.Ran?
  }

  /** Only the failure and discard paths outlive a write that landed but failed. */
  predicate MayBeStale(pc: Pc) {
    pc.Failing? || pc.Rescuing? || pc.Discarding? || pc.Closing?
  }

  predicate Settled(s: State, workspace: nat) {
    s.pending.None? && workspace == s.generation
  }

  /** The effect at hand is the durable pending one. */
  predicate Scheduling(s: State, a: Action) {
    ValidAction(a) && s.phase == Execute && s.pending == Some(PendingFor(a, s.generation))
  }

  predicate Approved(w: World, a: Action, asked: bool) {
    && ValidAction(a)
    && (a.kind == RunTask ==> asked)
    && (asked ==> JustPaid(w.ledger.used, a.id))
  }

  predicate Working(s: State, workspace: nat) {
    workspace == s.generation || (PatchPending(s) && workspace == s.generation + 1)
  }

  /** What each point of the process knows. */
  ghost predicate ProcAt(w: World, p: Proc) {
    var s := p.session;
    match p.pc
    case Leased => true
    case Recovered =>
      && (p.workspace == s.generation || (PatchPending(s) && p.workspace == Top(s)))
      && p.workspace <= Top(s) && s.generation <= p.workspace
      && s.generation == End(s.effects)
      && ManifestsUpTo(w.disk, p.workspace)
      && (!w.wrecked ==> Intact(w.disk, p.workspace))
    case Revoking(_) => Settled(s, p.workspace)
    case Entering => Settled(s, p.workspace)
    case Turn => Settled(s, p.workspace) && s.phase in {Execute, Review}
    case Asking(a) => Settled(s, p.workspace) && s.phase in {Execute, Review} && ValidAction(a)
    case Authorised(a, asked) => Settled(s, p.workspace) && s.phase in {Execute, Review} && Approved(w, a, asked)
    case Ready(a, asked) =>
      && Scheduling(s, a) && p.workspace == s.generation && !Executed(w.executed, a.id) && Approved(w, a, asked)
      && ManifestsUpTo(w.disk, p.workspace)
    case Publishing(a, pub) =>
      && Scheduling(s, a) && a.kind == ApplyPatch && p.workspace == s.generation < w.max && Executed(w.executed, a.id)
      && GenerationLaws.At(w.disk, p.workspace, pub)
    case InSandbox(a) =>
      Scheduling(s, a) && a.kind == RunTask && p.workspace == s.generation && Executed(w.executed, a.id)
    case Ran(a, ok) =>
      && Scheduling(s, a) && Executed(w.executed, a.id)
      && (if a.kind == ApplyPatch && ok
          then p.workspace == s.generation + 1 && (!w.wrecked ==> Intact(w.disk, p.workspace))
          else p.workspace == s.generation && !HasManifest(w.disk, p.workspace))
    case Completing => Settled(s, p.workspace)
    case Exporting => Settled(s, p.workspace)
    case Failing(_) => Working(s, p.workspace)
    case Rescuing => Working(s, p.workspace)
    case Discarding(_) => Working(s, p.workspace)
    case Closing(_) => Working(s, p.workspace)
    case Cleaning => true
    case Deleting => true
  }

  ghost predicate ProcInv(w: World, p: Proc) {
    var c := Cell(w.file, p.session);
    && (InSync(c) || (Stale(c) && MayBeStale(p.pc)))
    && (p.session.phase == Discard ==> p.pc.Leased? || p.pc.Cleaning? || p.pc.Deleting?)
    && ProcAt(w, p)
  }

  /** What holds of the durable state in every reachable world. */
  ghost predicate FileOk(w: World, s: State) {
    Sound(s) && DiskInv(w.disk, w.wrecked, w.max, s) && ExecutedKnown(w.executed, s)
  }

  ghost predicate Inv(w: World) {
    && L.LedgerInv(w.ledger)
    && ExecutedOnce(w.executed) && ExecutedPaid(w.ledger.used, w.executed)
    && (w.file.Some? ==> FileOk(w, w.file.value))
    && (w.proc.Some? ==> ProcInv(w, w.proc.value))
  }

  // ---- helpers ----

  lemma ChainSnoc(effects: seq<Effect>, e: Effect)
    requires Chain(effects) && e.before == End(effects)
    requires e.after == e.before + if Advances(e) then 1 else 0
    ensures Chain(effects + [e]) && End(effects + [e]) == e.after
  {
    assert (effects + [e])[..|effects|] == effects;
  }

  lemma KnownSnoc(s: State, e: Effect, t: State)
    requires s.pending.Some? && e.id == s.pending.value.id
    requires t.effects == s.effects + [e]
    ensures forall id :: Known(s, id) ==> Known(t, id)
  {
    forall id | Known(s, id) ensures Known(t, id) {
      if Recorded(s.effects, id) {
        var i :| 0 <= i < |s.effects| && s.effects[i].id == id;
        assert t.effects[i].id == id;
      } else {
        assert t.effects[|s.effects|].id == id;
      }
    }
  }

  /** An update that leaves the journal and, in effect, the phase's company alone. */
  predicate Harmless(s: State, t: State) {
    && t.effects == s.effects && t.pending == s.pending && t.generation == s.generation
    && (t.pending.Some? ==> PendingPhase(t.phase))
  }

  lemma HarmlessKeeps(w: World, s: State, t: State)
    requires FileOk(w, s) && Harmless(s, t) && s.phase != Discard
    ensures FileOk(w, t)
  {
    forall i | 0 <= i < |w.executed| ensures Known(t, w.executed[i].action.id) {
      assert Known(s, w.executed[i].action.id);
    }
  }

  /** Recovery never goes past the manifests, and what it adopts is linked. */
  lemma WalkAdopts(d: Disk, n: nat, max: nat, top: nat)
    requires ManifestsUpTo(d, top) && ManifestsUpTo(d, max) && n <= top <= n + 1
    ensures var r := Generations.Recovered(d, n, max);
            r.Success? ==> ManifestsUpTo(d, r.value)
                           && (r.value == n || (r.value == n + 1 == top && Reopens(d, n + 1) && Linked(d, n)))
  {
    if n < max && n + 1 in d.finals && n + 1 in d.manifests && Reopens(d, n + 1) && Linked(d, n) {
      assert n + 2 !in d.manifests;
      assert Walk(d, n, max) == Walk(d, n + 1, max);
    }
  }

  /** The three ways an update of a session in step with its file can end. */
  predicate Ends(c: Cell, r: Step, t: State) {
    || (r.cell == c && r.error.Some?)
    || (r == Step(Cell(Some(t), c.session), Some(WriteFailed)) && t.revision == c.session.revision + 1 && ValidState(t))
    || (r == Step(Cell(Some(t), t), None) && t.revision == c.session.revision + 1 && ValidState(t))
  }

  function Candidate(c: Cell, changed: State): State {
    changed.(revision := c.session.revision + 1)
  }

  lemma UpdateEnds(c: Cell, changed: State, wr: Write)
    requires InSync(c) || Stale(c)
    ensures Ends(c, Updated(c, changed, wr), Candidate(c, changed))
    ensures Stale(c) ==> Updated(c, changed, wr).cell == c && Updated(c, changed, wr).error.Some?
  {
  }

  lemma TransitionEnds(c: Cell, phase: Phase, changed: State, wr: Write)
    requires InSync(c) || Stale(c)
    ensures Ends(c, Transitioned(c, phase, changed, wr), Candidate(c, changed.(phase := phase)))
    ensures Stale(c) ==>
              Transitioned(c, phase, changed, wr).cell == c && Transitioned(c, phase, changed, wr).error.Some?
    ensures !Allowed(c.session.phase, phase) ==> Transitioned(c, phase, changed, wr).cell == c
  {
  }

  /** Carrying an update over to the world: if the candidate is fine as durable state,
      and each of the two ways to go on is fine for the process, the invariant holds. */
  lemma AfterKeeps(w: World, r: Step, t: State, pc: Pc)
    requires Inv(w) && w.proc.Some? && w.file.Some?
    requires Ends(CellOf(w), r, t)
    requires r.cell != CellOf(w) ==> FileOk(w, t)
    requires var p := w.proc.value;
             && (r.error.None? ==> ProcInv(Carry(w, r, pc), Proc(t, p.workspace, pc)))
             && (r.error.Some? ==>
                  && ProcAt(Carry(w, r, pc), Proc(p.session, p.workspace, pc))
                  && MayBeStale(pc) && p.session.phase != Discard)
    ensures Inv(Carry(w, r, pc))
  {
    var next := Carry(w, r, pc);
    assert r.cell == CellOf(w) ==> FileOk(w, w.file.value);
    assert FileOk(next, next.file.value);
  }

  /** Leaving the process behind: a crash, an exit. */
  lemma ExitKeeps(w: World)
    requires L.LedgerInv(w.ledger) && ExecutedOnce(w.executed) && ExecutedPaid(w.ledger.used, w.executed)
    requires w.file.Some? ==> FileOk(w, w.file.value)
    ensures Inv(Exit(w))
  {
  }

  /** An update after which the process exits whatever happened. */
  lemma AfterExitKeeps(w: World, r: Step, t: State, pc: Pc)
    requires Inv(w) && w.proc.Some? && w.file.Some?
    requires Ends(CellOf(w), r, t)
    requires r.cell != CellOf(w) ==> FileOk(w, t)
    ensures Inv(Exit(Carry(w, r, pc)))
  {
    ExitKeeps(Carry(w, r, pc));
  }
}
