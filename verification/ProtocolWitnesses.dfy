/** Runs that lose the outcome of a published patch. Every new task with room for one
    generation can come to each of them, and what is lost stays lost. */
module ProtocolWitnesses {
  import opened Wrappers
  import opened TaskState
  import opened Generations
  import opened GenerationLaws
  import opened GenerationWitnesses
  import opened Protocol
  import opened ProtocolInv
  import opened ProtocolHistory

  // ---- short runs ----

  lemma RunOne(w: World, a: Move)
    ensures Run(w, [a]) == Next(w, a)
  {
    assert [a][1..] == [];
  }

  lemma RunTwo(w: World, a: Move, b: Move)
    ensures Run(w, [a, b]) == Next(Next(w, a), b)
  {
    assert [a, b][1..] == [b];
    RunOne(Next(w, a), b);
  }

  // ---- from a new task into the loop ----

  /** The process stands at `pc` with this session, which is also the durable state. */
  predicate StandsAt(w: World, s: State, workspace: nat, pc: Pc) {
    w.file == Some(s) && w.proc == Some(Proc(s, workspace, pc)) && !w.wrecked
  }

  lemma RecoversClean(d: Disk, max: nat)
    requires Reopens(d, 0) && Unpublished(d, 0) && max >= 1
    ensures Generations.Recovered(d, 0, max) == Success(0)
    ensures Clean(RecoveredDisk(d, 0, max), 0)
  {
    assert Walk(d, 0, max) == Success(0);
    assert RecoveredDisk(d, 0, max) == WithoutLeftovers(d, 1);
    assert Reopens(WithoutLeftovers(d, 1), 0);
  }

  lemma Starts(w: World)
    requires Created(w) && w.max >= 1
    ensures var v := Run(w, [Start, RecoverWorkspace]);
            StandsAt(v, w.file.value, 0, Protocol.Recovered) && Clean(v.disk, 0) && v.max == w.max
  {
    RunTwo(w, Start, RecoverWorkspace);
    RecoversClean(w.disk, w.max);
    assert Next(w, Start) == w.(proc := Some(Proc(w.file.value, 0, Leased)));
  }

  lemma Enters(w: World, s: State)
    requires StandsAt(w, s, 0, Protocol.Recovered) && s.generation == 0 && s.phase == Plan
    requires s.pending.None? && s.effects == []
    ensures var v := Run(w, [ReconcileJournal(Landed), EnterExecute(Landed)]);
            && StandsAt(v, Entered(s), 0, Turn)
            && v.disk == w.disk && v.max == w.max
  {
    RunTwo(w, ReconcileJournal(Landed), EnterExecute(Landed));
  }

  lemma Schedules(w: World, s: State, a: Action)
    requires StandsAt(w, s, 0, Turn) && s.generation == 0 && s.phase == Execute
    requires s.pending.None? && s.effects == []
    requires ValidAction(a) && a.kind == ApplyPatch
    ensures var v := Run(w, [Propose(a, Allow), Schedule(Landed)]);
            && StandsAt(v, s.(revision := s.revision + 1, pending := Some(PendingFor(a, 0))), 0, Ready(a, false))
            && v.disk == w.disk && v.max == w.max
  {
    RunTwo(w, Propose(a, Allow), Schedule(Landed));
  }

  lemma Executes(w: World, s: State, a: Action)
    requires StandsAt(w, s, 0, Ready(a, false)) && a.kind == ApplyPatch && w.max >= 1
    ensures var v := Run(w, [ExecuteTool(false)]);
            StandsAt(v, s, 0, Publishing(a, ClearStaging)) && v.disk == w.disk && v.max == w.max
  {
    RunOne(w, ExecuteTool(false));
  }

  lemma RunParts(w: World, a: seq<Move>, b: seq<Move>, c: seq<Move>)
    ensures Run(w, a + b + c) == Run(Run(Run(w, a), b), c)
  {
    RunAppend(w, a + b, c);
    RunAppend(w, a, b);
  }

  function Entry(): seq<Move> {
    [Start, RecoverWorkspace] + [ReconcileJournal(Landed), EnterExecute(Landed)]
  }

  /** The session of a new task in the loop. */
  function Entered(s: State): State {
    s.(revision := s.revision + 1, phase := Execute, lastError := None)
  }

  lemma RunsEntry(w: World)
    requires Created(w) && w.max >= 1
    ensures var v := Run(w, Entry());
            && StandsAt(v, Entered(w.file.value), 0, Turn)
            && Clean(v.disk, 0) && v.max == w.max
  {
    var m1, m2 := [Start, RecoverWorkspace], [ReconcileJournal(Landed), EnterExecute(Landed)];
    Starts(w);
    Enters(Run(w, m1), w.file.value);
    RunAppend(w, m1, m2);
  }

  function Into(a: Action): seq<Move> {
    Entry() + [Propose(a, Allow), Schedule(Landed)] + [ExecuteTool(false)]
  }

  /** The session of a new task whose first patch is scheduled. */
  function FirstPatch(s: State, a: Action): State {
    Entered(s).(revision := s.revision + 2, pending := Some(PendingFor(a, 0)))
  }

  lemma RunsInto(w: World, a: Action)
    requires Created(w) && w.max >= 1 && ValidAction(a) && a.kind == ApplyPatch
    ensures var v := Run(w, Into(a));
            && StandsAt(v, FirstPatch(w.file.value, a), 0, Publishing(a, ClearStaging))
            && Clean(v.disk, 0) && v.max == w.max
  {
    var s := w.file.value;
    var entered, scheduling, executing := Entry(), [Propose(a, Allow), Schedule(Landed)], [ExecuteTool(false)];
    RunsEntry(w);
    var u := Run(w, entered);
    Schedules(u, Entered(s), a);
    Executes(Run(u, scheduling), FirstPatch(s, a), a);
    RunParts(w, entered, scheduling, executing);
  }

  // ---- publishing inside the protocol ----

  function PublishMoves(choices: seq<Choice>): seq<Move> {
    if choices == [] then [] else [PublishStep(choices[0])] + PublishMoves(choices[1..])
  }

  /** The publication goes on at least until the last of these choices. */
  predicate Ongoing(n: nat, s: PubState, choices: seq<Choice>)
    decreases |choices|
  {
    choices == [] || (!s.pc.Done? && Ongoing(n, PubNext(n, s, choices[0]), choices[1..]))
  }

  /** Where the process stands after a part of the publication. */
  function AfterPub(s: State, n: nat, a: Action, pub: Pub): Proc {
    match pub
    case Done(Published) => Proc(s, n + 1, Ran(a, true))
    case Done(Rejected) => Proc(s, n, Ran(a, false))
    case Done(Raised) => Proc(s, n, Failing(false))
    case _ => Proc(s, n, Publishing(a, pub))
  }

  lemma {:induction false} PublishTracks(w: World, s: State, n: nat, a: Action, pub: Pub, choices: seq<Choice>)
    requires w.proc == Some(AfterPub(s, n, a, pub))
    requires Ongoing(n, PubState(w.disk, pub), choices)
    ensures var end := PubRun(n, PubState(w.disk, pub), choices);
            Run(w, PublishMoves(choices)) == w.(disk := end.disk, proc := Some(AfterPub(s, n, a, end.pc)))
    decreases |choices|
  {
    if choices != [] {
      var next := PubNext(n, PubState(w.disk, pub), choices[0]);
      var v := Next(w, PublishStep(choices[0]));
      PublishOne(w, s, n, a, pub, choices[0]);
      PublishTracks(v, s, n, a, next.pc, choices[1..]);
      var moves := PublishMoves(choices);
      assert moves[0] == PublishStep(choices[0]) && moves[1..] == PublishMoves(choices[1..]);
    }
  }

  lemma PublishOne(w: World, s: State, n: nat, a: Action, pub: Pub, ch: Choice)
    requires w.proc == Some(AfterPub(s, n, a, pub)) && !pub.Done?
    ensures var next := PubNext(n, PubState(w.disk, pub), ch);
            Next(w, PublishStep(ch)) == w.(disk := next.disk, proc := Some(AfterPub(s, n, a, next.pc)))
  {
  }

  lemma {:induction false} OngoingPrefix(n: nat, s: PubState, choices: seq<Choice>, last: Choice)
    requires Ongoing(n, s, choices) && !PubRun(n, s, choices).pc.Done?
    ensures Ongoing(n, s, choices + [last])
    decreases |choices|
  {
    var all := choices + [last];
    if choices == [] {
      assert all[1..] == [];
    } else {
      assert all[0] == choices[0] && all[1..] == choices[1..] + [last];
      OngoingPrefix(n, PubNext(n, s, choices[0]), choices[1..], last);
    }
  }

  /** A run that has not ended was under way all along. */
  lemma {:induction false} NotDoneIsOngoing(n: nat, s: PubState, choices: seq<Choice>)
    requires !PubRun(n, s, choices).pc.Done?
    ensures Ongoing(n, s, choices)
    decreases |choices|
  {
    if choices != [] {
      if s.pc.Done? {
        DoneStays(n, s, choices);
      } else {
        NotDoneIsOngoing(n, PubNext(n, s, choices[0]), choices[1..]);
      }
    }
  }

  lemma {:induction false} DoneStays(n: nat, s: PubState, choices: seq<Choice>)
    requires s.pc.Done?
    ensures PubRun(n, s, choices) == s
    decreases |choices|
  {
    if choices != [] { DoneStays(n, s, choices[1..]); }
  }

  function Publication(d: Disk, contents: Tree): seq<Choice>
    requires Reopens(d, 0)
  {
    (Renaming(d, 0, contents) + [Go, Go]) + [Go]
  }

  /** Publishing on a clean disk, inside the protocol. */
  lemma Publishes(w: World, s: State, a: Action, contents: Tree)
    requires StandsAt(w, s, 0, Publishing(a, ClearStaging)) && Clean(w.disk, 0) && w.max >= 1
    ensures Reopens(w.disk, 0)
    ensures var v := Run(w, PublishMoves(Publication(w.disk, contents)));
            && StandsAt(v, s, 1, Ran(a, true)) && v.max == w.max
            && Reopens(v.disk, 1) && Generations.Recovered(v.disk, 0, v.max) == Success(1)
  {
    var start, before := PubState(w.disk, ClearStaging), Renaming(w.disk, 0, contents) + [Go, Go];
    WritingRun(w.disk, 0, contents);
    NotDoneIsOngoing(0, start, before);
    OngoingPrefix(0, start, before, Go);
    PublishedIsReachable(w.disk, 0, contents);
    PublishTracks(w, s, 0, a, ClearStaging, before + [Go]);
    VerdictIsTrue(w.disk, 0, w.max, before + [Go]);
  }

  // ---- the completion cannot be recorded ----

  /** The first patch is published and its completion not yet recorded. */
  predicate Unrecorded(w: World, s: State, a: Action) {
    && StandsAt(w, s, 1, Ran(a, true)) && ValidAction(a) && a.kind == ApplyPatch
    && s.phase == Execute && s.pending == Some(PendingFor(a, 0)) && s.effects == [] && s.generation == 0
    && Reopens(w.disk, 1) && Generations.Recovered(w.disk, 0, w.max) == Success(1)
  }

  /** The task is left in `phase`, with the patch still pending. */
  predicate LeftIn(w: World, v: World, s: State, phase: Phase, code: ErrorCode) {
    && v.proc.None? && v.disk == w.disk && v.max == w.max && !v.wrecked
    && v.file == Some(s.(revision := s.revision + 1, phase := phase, lastError := Some(code)))
  }

  lemma CompletionFails(w: World, s: State, a: Action)
    requires Unrecorded(w, s, a)
    ensures Next(w, FinishEffect(NotLanded)) == Moved(w, Failing(false))
  {
    assert Finished(CellOf(w), a, true, 1, NotLanded).error.Some?;
    assert Finished(CellOf(w), a, true, 1, NotLanded).cell == CellOf(w);
  }

  lemma FailingEnds(w: World, s: State, cancelled: bool)
    requires StandsAt(w, s, 1, Failing(cancelled)) && s.phase == Execute
    requires s.effects == []
    ensures LeftIn(w, Next(w, SafeTransition(false, Landed)), s, if cancelled then Cancel else Retry,
              if cancelled then TaskCancelled else OtherFailure)
  {
  }

  /** The write of the completion fails, and so the task is moved to `Retry`. */
  lemma LosesToRetry(w: World, s: State, a: Action)
    requires Unrecorded(w, s, a)
    ensures LeftIn(w, Run(w, [FinishEffect(NotLanded), SafeTransition(false, Landed)]), s, Retry, OtherFailure)
  {
    RunTwo(w, FinishEffect(NotLanded), SafeTransition(false, Landed));
    CompletionFails(w, s, a);
    FailingEnds(Moved(w, Failing(false)), s, false);
  }

  /** The user interrupts before the completion is recorded, and so the task is moved to
      `Cancel`. */
  lemma LosesToCancel(w: World, s: State, a: Action)
    requires Unrecorded(w, s, a)
    ensures LeftIn(w, Run(w, [Fail(true), SafeTransition(false, Landed)]), s, Cancel, TaskCancelled)
  {
    RunTwo(w, Fail(true), SafeTransition(false, Landed));
    FailingEnds(Moved(w, Failing(true)), s, true);
  }

  /** A whole run: create, publish one patch, and then these moves. */
  ghost function LosingRun(w: World, a: Action, contents: Tree, ending: seq<Move>): seq<Move>
    requires Created(w) && w.max >= 1 && ValidAction(a) && a.kind == ApplyPatch
  {
    RunsInto(w, a);
    Into(a) + PublishMoves(Publication(Run(w, Into(a)).disk, contents)) + ending
  }

  lemma RunsToEnd(w: World, a: Action, contents: Tree, ending: seq<Move>)
    requires Created(w) && w.max >= 1 && ValidAction(a) && a.kind == ApplyPatch
    ensures exists v :: Unrecorded(v, FirstPatch(w.file.value, a), a)
              && Run(w, LosingRun(w, a, contents, ending)) == Run(v, ending)
  {
    RunsInto(w, a);
    var u := Run(w, Into(a));
    var publish := PublishMoves(Publication(u.disk, contents));
    Publishes(u, FirstPatch(w.file.value, a), a, contents);
    RunParts(w, Into(a), publish, ending);
    var v := Run(u, publish);
    assert Unrecorded(v, FirstPatch(w.file.value, a), a);
    assert Run(w, LosingRun(w, a, contents, ending)) == Run(v, ending);
  }

  // ---- and never will be ----

  /** A patch was published and is pending in a task moved to `Retry`. */
  ghost predicate Stuck(w: World) {
    && !w.wrecked && w.file.Some?
    && (var s := w.file.value;
        && s.phase == Retry && PatchPending(s) && s.pending.value.before == s.generation
        && Generations.Recovered(w.disk, s.generation, w.max) == Success(s.generation + 1)
        && (w.proc.Some? ==>
             && w.proc.value.session == s
             && (w.proc.value.pc == Leased || w.proc.value.pc == Cleaning || w.proc.value.pc == Discarding(false)
                 || (w.proc.value.pc == Protocol.Recovered && w.proc.value.workspace == s.generation + 1))))
  }

  /** Recovery leaves a directory in which recovery finds the same. */
  lemma RecoversAgain(d: Disk, n: nat, max: nat)
    requires Generations.Recovered(d, n, max) == Success(n + 1)
    ensures Generations.Recovered(RecoveredDisk(d, n, max), n, max) == Success(n + 1)
  {
    assert Walk(d, n, max) == Walk(d, n + 1, max);
    WalkForward(d, n + 2, max);
    var e := RecoveredDisk(d, n, max);
    assert Walk(e, n, max) == Walk(e, n + 1, max);
  }

  lemma {:induction false} WalkForward(d: Disk, g: nat, max: nat)
    ensures Walk(d, g, max).Success? ==> Walk(d, g, max).value >= g
    decreases max - g
  {
    if g < max { WalkForward(d, g + 1, max); }
  }

  lemma StuckLeased(w: World, m: Move)
    requires Stuck(w) && w.proc.Some? && w.proc.value.pc == Leased
    ensures var v := LeasedNext(w, w.proc.value, m);
            Stuck(v) && v.file.value.pending == w.file.value.pending && v.file.value.effects == w.file.value.effects
  {
    RecoversAgain(w.disk, w.file.value.generation, w.max);
  }

  lemma StuckResumed(w: World, m: Move)
    requires Stuck(w) && w.proc.Some? && w.proc.value.pc == Protocol.Recovered
    ensures var v := ResumeNext(w, w.proc.value, m); Stuck(v) && v.file == w.file
  {
  }

  lemma StuckEnding(w: World, m: Move)
    requires Stuck(w) && w.proc.Some? && (w.proc.value.pc == Cleaning || w.proc.value.pc == Discarding(false))
    ensures var v := EndNext(w, w.proc.value, m); v.wrecked || v == w
  {
  }

  lemma StuckStep(w: World, m: Move)
    requires Stuck(w)
    ensures var v := Next(w, m);
            v.wrecked ||
            (Stuck(v) && v.file.value.pending == w.file.value.pending && v.file.value.effects == w.file.value.effects)
  {
    if w.proc.Some? && !m.Crash? && !m.Fail? {
      var pc := w.proc.value.pc;
      if pc == Leased {
        StuckLeased(w, m);
      } else if pc == Protocol.Recovered {
        StuckResumed(w, m);
      } else {
        StuckEnding(w, m);
        assert Next(w, m) == EndNext(w, w.proc.value, m);
      }
    }
  }

  lemma WreckedBefore(w: World, p: Proc, m: Move)
    requires w.wrecked && w.proc == Some(p)
    ensures LeasedNext(w, p, m).wrecked && ResumeNext(w, p, m).wrecked && TurnNext(w, p, m).wrecked
  {
  }

  lemma WreckedAfter(w: World, p: Proc, m: Move)
    requires w.wrecked && w.proc == Some(p)
    ensures EffectNext(w, p, m).wrecked && EndNext(w, p, m).wrecked
  {
  }

  lemma WreckedStays(w: World, m: Move)
    requires w.wrecked
    ensures Next(w, m).wrecked
  {
    if w.proc.Some? {
      WreckedBefore(w, w.proc.value, m);
      WreckedAfter(w, w.proc.value, m);
    }
  }

  lemma {:induction false} WreckedRun(w: World, moves: seq<Move>)
    requires w.wrecked
    ensures Run(w, moves).wrecked
    decreases |moves|
  {
    if moves != [] {
      WreckedStays(w, moves[0]);
      WreckedRun(Next(w, moves[0]), moves[1..]);
    }
  }

  /** Whatever is tried afterwards, until a discard begins to delete directories the effect
      is neither recorded nor given up. */
  lemma {:induction false} StuckForever(w: World, moves: seq<Move>)
    requires Stuck(w)
    ensures var end := Run(w, moves);
            end.wrecked ||
            (Stuck(end) && end.file.value.pending == w.file.value.pending
             && end.file.value.effects == w.file.value.effects)
    decreases |moves|
  {
    if moves != [] {
      StuckStep(w, moves[0]);
      var next := Next(w, moves[0]);
      if next.wrecked { WreckedRun(next, moves[1..]); } else { StuckForever(next, moves[1..]); }
    }
  }

  lemma LeftInRetryIsStuck(w: World, v: World, s: State, a: Action)
    requires Unrecorded(w, s, a) && LeftIn(w, v, s, Retry, OtherFailure)
    ensures Stuck(v) && v.file.value.pending == Some(PendingFor(a, 0)) && Reopens(v.disk, 1)
  {
  }

  /** Every new task with room for one generation can come to this: its first patch is
      published, the write of the completion fails, the task is moved to `Retry`; and then,
      however often it is resumed, the patch stays pending until a discard begins. */
  lemma PublishedThenRetry(w: World, a: Action, contents: Tree, more: seq<Move>)
    requires Created(w) && w.max >= 1 && ValidAction(a) && a.kind == ApplyPatch
    ensures var lost := Run(w, LosingRun(w, a, contents, [FinishEffect(NotLanded), SafeTransition(false, Landed)]));
            && Stuck(lost) && lost.file.value.pending == Some(PendingFor(a, 0)) && Reopens(lost.disk, 1)
            && var end := Run(lost, more);
               end.wrecked || (Stuck(end) && end.file.value.pending == Some(PendingFor(a, 0)))
  {
    var ending := [FinishEffect(NotLanded), SafeTransition(false, Landed)];
    var s := FirstPatch(w.file.value, a);
    RunsToEnd(w, a, contents, ending);
    var v :| Unrecorded(v, s, a) && Run(w, LosingRun(w, a, contents, ending)) == Run(v, ending);
    LosesToRetry(v, s, a);
    LeftInRetryIsStuck(v, Run(v, ending), s, a);
    StuckForever(Run(v, ending), more);
  }

  /** And to this: an interrupt instead of the failing write moves the task to `Cancel`, and
      the published patch stays pending for as long as the task exists, a discard included. */
  lemma PublishedThenCancel(w: World, a: Action, contents: Tree, more: seq<Move>)
    requires Created(w) && w.max >= 1 && ValidAction(a) && a.kind == ApplyPatch
    ensures var lost := Run(w, LosingRun(w, a, contents, [Fail(true), SafeTransition(false, Landed)]));
            && lost.proc.None? && lost.file.Some? && lost.file.value.phase == Cancel && Reopens(lost.disk, 1)
            && lost.file.value.pending == Some(PendingFor(a, 0)) && lost.file.value.effects == []
            && var end := Run(lost, more);
               end.file.Some? ==> end.file.value.pending == Some(PendingFor(a, 0)) && end.file.value.effects == []
  {
    var ending := [Fail(true), SafeTransition(false, Landed)];
    var s := FirstPatch(w.file.value, a);
    RunsToEnd(w, a, contents, ending);
    var v :| Unrecorded(v, s, a) && Run(w, LosingRun(w, a, contents, ending)) == Run(v, ending);
    LosesToCancel(v, s, a);
    HistoryLasts(w, LosingRun(w, a, contents, ending), more);
    RunAppend(w, LosingRun(w, a, contents, ending), more);
  }
}
