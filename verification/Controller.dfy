/** The bounded model and tool loop (src/ulg/controller.py). What the model, the policy,
    the user, the clock and the tools answer comes from a script, one entry a turn; the
    grant store is the real one. */
module Controller {
  import opened Wrappers
  import opened ControllerTrace
  import G = Grants
  import L = GrantLaws

  /** Everything the loop asks of its surroundings in one turn. `feedback`, `dump` and
      the sizes in results are message lengths in bytes. */
  datatype Turn = Turn(
    elapsed: int,
    answer: Answer,
    feedback: nat,
    decision: Decision,
    reuse: Clocked,
    resolution: Resolution,
    grantId: G.GrantId,
    ttl: int,
    maxUses: nat,
    issue: Clocked,
    consume: Clocked,
    scheduled: bool,
    result: Option<ToolResult>,
    completed: bool)

  /** A clock reading and how the grant file write made then ends. */
  datatype Clocked = Clocked(now: G.Time, w: Write)

  datatype Answer = Proposed(p: Proposal) | InvalidAction | OtherProtocolError | ModelCrash

  datatype Resolution = Denied | ApproveOnce | ApproveRecipe

  datatype Settings = Settings(maxTurns: nat, maxDuration: int, maxModelFailures: nat,
                               maxRepeated: nat, maxToolCalls: nat, maxContext: nat)

  datatype Stop = ContextLimit | WallClock | ModelError | RepeatLimit | ToolLimit | TurnLimit | Broken

  datatype Report = Report(summary: string, turns: nat, toolCalls: nat, denied: nat, modelFailures: nat,
                           filesRead: set<string>, changedFiles: set<string>, generation: nat,
                           approved: nat, sandboxRuns: nat, sandboxSuccesses: nat)

  /** The local variables of the loop. */
  datatype Progress = Progress(messages: seq<nat>, toolCalls: nat, denied: nat, modelFailures: nat, approved: nat,
                               filesRead: set<string>, changedFiles: set<string>, generation: nat,
                               sandboxRuns: nat, sandboxSuccesses: nat, previous: Option<nat>, repeated: nat)

  const START := Progress([], 0, 0, 0, 0, {}, {}, 0, 0, 0, None, 0)

  /** How a turn ends: the next turn, an exception, or a report. */
  datatype Outcome = Next(progress: Progress) | Stopped(stop: Stop) | Done(report: Report)

  /** What the variables say about the trace, after `calls` calls to the model. */
  predicate InStep(g: Progress, tally: Tally, calls: nat) {
    && tally == Tally(1, 0, calls, g.modelFailures, tally.fingerprints, g.approved, g.toolCalls, g.toolCalls,
                      g.generation, g.sandboxRuns, g.sandboxSuccesses)
    && |tally.fingerprints| == g.toolCalls + g.denied
    && Remembers(tally.fingerprints, g.previous, g.repeated)
  }

  predicate WithinLimits(g: Progress, s: Settings) {
    Total(g.messages) <= s.maxContext && g.toolCalls <= s.maxToolCalls && g.modelFailures <= s.maxModelFailures
  }

  /** The counters after a tool result. */
  function WithResult(g: Progress, result: ToolResult): Progress {
    var counted := g.(toolCalls := g.toolCalls + 1);
    match result
    case ReadResult(ok, path, _) =>
      if ok then counted.(filesRead := g.filesRead + {path}) else counted
    case PatchResult(ok, changed, generation, _, _) =>
      if ok then counted.(changedFiles := g.changedFiles + changed, generation := generation) else counted
    case TaskResult(ok, _) =>
      counted.(sandboxRuns := g.sandboxRuns + 1, sandboxSuccesses := g.sandboxSuccesses + if ok then 1 else 0)
    case OtherResult(_, _) => counted
  }

  /** A counted result keeps the counters and the trace in step. */
  lemma ResultInStep(g: Progress, result: ToolResult, tally: Tally, calls: nat)
    requires InStep(g.(denied := g.denied + 1), tally, calls)
    ensures InStep(WithResult(g, result), Counted(tally, result), calls)
  {
  }

  /** One turn later. */
  predicate Advanced(g: Progress, tally: Tally, calls: nat, s: Settings) {
    && InStep(g, tally, calls) && WithinLimits(g, s)
    && calls == g.toolCalls + g.denied + g.modelFailures
  }

  /** The report matches the trace. */
  predicate Accounts(r: Report, t: Tally, s: Settings) {
    && r.turns == r.toolCalls + r.denied + r.modelFailures + 1
    && r.turns == t.calls <= s.maxTurns
    && r.toolCalls == t.executed == t.finished <= s.maxToolCalls
    && r.modelFailures == t.modelFailures <= s.maxModelFailures
    && r.toolCalls + r.denied + 1 == |t.fingerprints|
    && r.approved == t.consumed
    && r.sandboxRuns == t.sandboxRuns && r.sandboxSuccesses == t.sandboxSuccesses
    && r.generation == t.generation
  }

  function Total(messages: seq<nat>): nat {
    if messages == [] then 0 else Total(messages[..|messages| - 1]) + messages[|messages| - 1]
  }

  /** What one more event does to a lawful trace. */
  lemma NoteEvent(initial: G.Records, events: seq<Event>, e: Event, states: G.Records, max: Limits)
    requires Lawful(events, states, max) && MayFollow(events, e, states, max)
    requires Accounted(initial, events, states) && NewSince(initial, e)
    ensures var more := events + [e];
            && Lawful(more, states, max) && Accounted(initial, more, states)
            && TallyOf(more) == Add(TallyOf(events), e) && SameStart(events, more)
            && more[|more| - 1] == e && (events == [] ==> more[0] == e)
  {
    TallySnoc(events, e);
    LawfulSnoc(events, e, states, max);
  }

  datatype Authorisation = Granted | Refused | Raised

  /** The controller of one task. `config` stands for the configuration, approval service
      and grant store, which coding tasks have and inspections have not. */
  class ReadOnlyController {
    const settings: Settings
    const config: Option<G.Config>
    const task: nat
    const grants: G.ScopedGrantStore
    var recipeGrants: map<string, G.GrantId>
    var events: seq<Event>
    ghost var tally: Tally
    ghost var initial: G.Records

    constructor (settings: Settings, config: Option<G.Config>, task: nat, grants: G.ScopedGrantStore)
      ensures this.settings == settings && this.config == config && this.task == task && this.grants == grants
      ensures events == [] && tally == NOTHING
    {
      this.settings := settings;
      this.config := config;
      this.task := task;
      this.grants := grants;
      this.recipeGrants := map[];
      this.events := [];
      this.tally := NOTHING;
      this.initial := map[];
    }

    function Max(): Limits { Limits(settings.maxContext, settings.maxRepeated) }

    ghost predicate Consistent()
      reads this, grants
    {
      && Lawful(events, grants.states, Max()) && tally == TallyOf(events)
      && Accounted(initial, events, grants.states)
    }

    /** Note an event, or a call to the model or a tool. */
    method Append(e: Event)
      requires Consistent() && MayFollow(events, e, grants.states, Max()) && NewSince(initial, e)
      modifies this`events, this`tally
      ensures Consistent() && SameStart(old(events), events)
      ensures events != [] && events[|events| - 1] == e
      ensures old(events) == [] ==> events[0] == e
      ensures tally == Add(old(tally), e)
    {
      NoteEvent(initial, events, e, grants.states, Max());
      events := events + [e];
      tally := Add(tally, e);
    }

    /** `_append_message`: the message is added first, then the context is checked. */
    method AppendMessage(messages: seq<nat>, size: nat) returns (more: seq<nat>, ok: bool)
      ensures more == messages + [size]
      ensures ok <==> Total(more) <= settings.maxContext
    {
      more := messages + [size];
      ok := Total(more) <= settings.maxContext;
    }

    /** One use of a grant, from the store. */
    method Spend(id: G.GrantId, p: Proposal, c: Clocked, asRecipe: bool) returns (r: Result<G.Grant, G.GrantError>)
      requires Consistent() && config.Some?
      modifies grants, grants.file
      ensures Consistent()
      ensures r.Success? ==>
                MayFollow(events, Consumed(p.id, id), grants.states, Max()) && NewSince(initial, Consumed(p.id, id))
    {
      r := grants.Consume(id, ActionOf(p, task), config.value, c.now, asRecipe, c.w);
      L.RejectionChangesNothing(old(grants.View()), id, ActionOf(p, task), config.value, c.now, asRecipe, c.w);
      if r.Success? {
        LawfulMore(events, old(grants.states), grants.states, Max());
        AccountedMore(initial, events, old(grants.states), grants.states);
        NotConsumedYet(events, old(grants.states), Max(), p.id, id);
      }
    }

    /** `_consume_grant` */
    method ConsumeGrant(id: G.GrantId, p: Proposal, c: Clocked) returns (a: Authorisation)
      requires Consistent()
      modifies this`events, this`tally, grants, grants.file
      ensures Consistent() && SameStart(old(events), events)
      ensures tally == WithUses(old(tally), if a.Granted? then 1 else 0)
      ensures a.Granted? ==> LastConsumed(events, p.id)
      ensures config.None? ==> a == Refused && events == old(events)
    {
      if config.None? { return Refused; }
      var asRecipe := p.kind.Task? && p.kind.recipe in recipeGrants && recipeGrants[p.kind.recipe] == id;
      var r := Spend(id, p, c, asRecipe);
      if r.Failure? {
        if r.error in {G.RecipeUnknown, G.PersistFailed} { return Raised; }
        Append(Rejected(p.id, id));
        return Refused;
      }
      Append(Consumed(p.id, id));
      return Granted;
    }

    /** A new grant for the action at hand. */
    method IssueGrant(p: Proposal, t: Turn, asRecipe: bool) returns (issued: Result<G.Grant, G.GrantError>)
      requires Consistent() && config.Some? && (asRecipe ==> p.kind.Task?)
      modifies this`recipeGrants, grants, grants.file
      ensures Consistent()
      ensures issued.Success? ==> issued.value.id == t.grantId && t.grantId in grants.states
    {
      if asRecipe {
        issued := grants.IssueRecipe(t.grantId, ActionOf(p, task), config.value, t.ttl, t.maxUses,
          t.issue.now, t.issue.w);
        if issued.Success? {
          recipeGrants := recipeGrants[p.kind.recipe := issued.value.id];
        }
      } else {
        issued := grants.IssueAction(t.grantId, ActionOf(p, task), config.value, t.ttl, t.issue.now, t.issue.w);
      }
      LawfulMore(events, old(grants.states), grants.states, Max());
      AccountedMore(initial, events, old(grants.states), grants.states);
    }

    /** The rest of `_authorize`, when no grant at hand covers the action. */
    method AskUser(p: Proposal, t: Turn) returns (a: Authorisation)
      requires Consistent() && (p.kind.Patch? || p.kind.Task?) && config.Some?
      modifies this`events, this`tally, this`recipeGrants, grants, grants.file
      ensures Consistent() && SameStart(old(events), events)
      ensures tally == WithUses(old(tally), if a.Granted? then 1 else 0)
      ensures a.Granted? ==> LastConsumed(events, p.id)
    {
      var resolution := if p.kind.Patch? && t.resolution == ApproveRecipe then Denied else t.resolution;
      Append(Requested(p.id));
      Append(Resolved(p.id, resolution != Denied));
      if resolution == Denied { return Refused; }
      var issued := IssueGrant(p, t, resolution == ApproveRecipe && p.kind.Task?);
      if issued.Failure? { return Raised; }
      Append(Issued(p.id, t.grantId));
      a := ConsumeGrant(t.grantId, p, t.consume);
    }

    /** `_authorize` */
    method Authorize(p: Proposal, t: Turn) returns (a: Authorisation)
      requires Consistent()
      modifies this`events, this`tally, this`recipeGrants, grants, grants.file
      ensures Consistent() && SameStart(old(events), events)
      ensures tally == WithUses(old(tally), if a.Granted? then 1 else 0)
      ensures a.Granted? ==> LastConsumed(events, p.id) && (p.kind.Patch? || p.kind.Task?)
      ensures a.Refused? || config.Some?
    {
      if !(p.kind.Patch? || p.kind.Task?) { return Refused; }
      if config.None? { return Refused; }
      if p.kind.Task? && p.kind.recipe in recipeGrants {
        a := ConsumeGrant(recipeGrants[p.kind.recipe], p, t.reuse);
        if a != Refused { return; }
        recipeGrants := map recipe | recipe in recipeGrants && recipe != p.kind.recipe :: recipeGrants[recipe];
      }
      a := AskUser(p, t);
    }

    /** What one tool call leaves in the trace once the tool has returned. */
    method Finish(p: Proposal, result: ToolResult) returns (ok: bool)
      requires Consistent()
      modifies this`events, this`tally
      ensures Consistent() && SameStart(old(events), events)
      ensures var before, after := old(tally), tally;
              && after.openings == before.openings && after.endings == before.endings
              && (ok ==> after.(executed := after.executed + 1) == Counted(before, result))
      ensures !ok <==> result.PatchResult? && result.ok && !result.metadata
    {
      Append(ToolFinished(p.id, result.ok));
      if result.PatchResult? && result.ok {
        if !result.metadata { return false; }
        Append(Published(p.id, result.generation));
      }
      if result.TaskResult? {
        Append(SandboxFinished(p.id, result.ok));
      }
      return true;
    }

    /** Policy and approval: may the action go ahead? `used` says that a grant was
        consumed for it. */
    method Decide(p: Proposal, t: Turn) returns (a: Authorisation, used: bool)
      requires Consistent()
      requires Trailing(tally.fingerprints + [p.fingerprint]) <= settings.maxRepeated
      modifies this`events, this`tally, this`recipeGrants, grants, grants.file
      ensures Consistent() && SameStart(old(events), events)
      ensures tally == WithUses(Add(old(tally), Decided(p.id, p.fingerprint, t.decision)), if used then 1 else 0)
      ensures used <==> a.Granted? && t.decision == Ask
      ensures a.Granted? ==> t.decision != Deny && (t.decision == Ask ==> LastConsumed(events, p.id))
      ensures p.kind.Complete? && a.Granted? ==> t.decision == Allow
    {
      Append(Decided(p.id, p.fingerprint, t.decision));
      if t.decision == Allow { return Granted, false; }
      if t.decision == Deny { return Refused, false; }
      a := Authorize(p, t);
      used := a == Granted;
    }

    /** Journal, tool, journal, and the events that report the result; `None` when
        anything raises.  */
    method Execute(p: Proposal, t: Turn) returns (result: Option<ToolResult>)
      requires Consistent()
      requires t.decision != Deny && (t.decision == Ask ==> LastConsumed(events, p.id))
      modifies this`events, this`tally
      ensures Consistent() && SameStart(old(events), events)
      ensures var before, after := old(tally), tally;
              && after.openings == before.openings && after.endings == before.endings
              && (result.Some? ==> after == Counted(before, result.value))
    {
      if !t.scheduled { return None; }
      Append(Executed(p.id, t.decision));
      if t.result.None? || !t.completed { return None; }
      var ok := Finish(p, t.result.value);
      return if ok then t.result else None;
    }

    /** The model broke its protocol: retried while the limit lasts. */
    method ModelFails(g: Progress, t: Turn, ghost calls: nat) returns (o: Outcome)
      requires Consistent() && InStep(g, tally, calls + 1) && WithinLimits(g, settings)
      requires calls == g.toolCalls + g.denied + g.modelFailures
      modifies this`events, this`tally
      ensures Consistent() && SameStart(old(events), events)
      ensures o.Next? ==> Advanced(o.progress, tally, calls + 1, settings)
      ensures !o.Done? && tally.openings == 1 && tally.endings == 0
    {
      var modelFailures := g.modelFailures + 1;
      var retrying := t.answer.InvalidAction? && modelFailures <= settings.maxModelFailures;
      Append(ModelFailed(retrying));
      if !retrying { return Stopped(ModelError); }
      var messages, within := AppendMessage(g.messages, t.feedback);
      if !within { return Stopped(ContextLimit); }
      return Next(g.(messages := messages, modelFailures := modelFailures));
    }

    /** A tool call, and the messages that follow it. */
    method CallTool(g: Progress, p: Proposal, t: Turn, ghost calls: nat) returns (o: Outcome)
      requires Consistent() && WithinLimits(g, settings)
      requires InStep(g.(denied := g.denied + 1), tally, calls + 1)
      requires calls == g.toolCalls + g.denied + g.modelFailures
      requires t.decision != Deny && (t.decision == Ask ==> LastConsumed(events, p.id))
      modifies this`events, this`tally
      ensures Consistent() && SameStart(old(events), events)
      ensures o.Next? ==> Advanced(o.progress, tally, calls + 1, settings)
      ensures !o.Done? && tally.openings == 1 && tally.endings == 0
    {
      if g.toolCalls >= settings.maxToolCalls { return Stopped(ToolLimit); }
      var executed := Execute(p, t);
      if executed.None? { return Stopped(Broken); }
      var result := executed.value;
      var next := WithResult(g, result);
      ResultInStep(g, result, old(tally), calls + 1);
      var messages, within := AppendMessage(g.messages, p.dump);
      if !within { return Stopped(ContextLimit); }
      messages, within := AppendMessage(messages, result.size);
      if !within { return Stopped(ContextLimit); }
      return Next(next.(messages := messages));
    }

    /** A valid proposal: repeats, policy and approval, then completion or a tool call. */
    method Act(g0: Progress, p: Proposal, t: Turn, turn: nat) returns (o: Outcome)
      requires 1 <= turn <= settings.maxTurns
      requires Consistent() && InStep(g0, tally, turn) && WithinLimits(g0, settings)
      requires turn == g0.toolCalls + g0.denied + g0.modelFailures + 1
      modifies this`events, this`tally, this`recipeGrants, grants, grants.file
      ensures Consistent() && SameStart(old(events), events)
      ensures o.Next? ==> Advanced(o.progress, tally, turn, settings)
      ensures o.Done? ==> Accounts(o.report, tally, settings) && events[|events| - 1] == Completed
      ensures tally.openings == 1 && tally.endings == if o.Done? then 1 else 0
    {
      RememberNext(tally.fingerprints, g0.previous, g0.repeated, p.fingerprint);
      var g := g0.(previous := Some(p.fingerprint),
                   repeated := if g0.previous == Some(p.fingerprint) then g0.repeated + 1 else 1);
      if g.repeated > settings.maxRepeated { return Stopped(RepeatLimit); }
      var a, used := Decide(p, t);
      if a == Raised { return Stopped(Broken); }
      if used {
        g := g.(approved := g.approved + 1);
      }
      if a == Refused {
        var messages, within := AppendMessage(g.messages, t.feedback);
        if !within { return Stopped(ContextLimit); }
        return Next(g.(messages := messages, denied := g.denied + 1));
      }
      if p.kind.Complete? {
        Append(Completed);
        return Done(Report(p.kind.summary, turn, g.toolCalls, g.denied, g.modelFailures, g.filesRead, g.changedFiles,
          g.generation, g.approved, g.sandboxRuns, g.sandboxSuccesses));
      }
      o := CallTool(g, p, t, turn - 1);
    }

    /** The body of `run`, between the opening event and the handler. */
    method Loop(first: nat, script: nat -> Turn) returns (r: Result<Report, Stop>)
      requires Consistent() && tally == NOTHING.(openings := 1)
      modifies this`events, this`tally, this`recipeGrants, grants, grants.file
      ensures Consistent() && SameStart(old(events), events)
      ensures r.Success? ==> Accounts(r.value, tally, settings) && events[|events| - 1] == Completed
      ensures tally.openings == 1 && tally.endings == if r.Success? then 1 else 0
    {
      var g := START.(messages := [first]);
      if Total(g.messages) > settings.maxContext { return Failure(ContextLimit); }
      for turn := 1 to settings.maxTurns + 1
        invariant Consistent() && SameStart(old(events), events)
        invariant Advanced(g, tally, turn - 1, settings)
      {
        var t := script(turn);
        if t.elapsed > settings.maxDuration { return Failure(WallClock); }
        Append(ModelCalled(Total(g.messages)));
        if t.answer.ModelCrash? { return Failure(Broken); }
        var o: Outcome;
        if t.answer.Proposed? {
          o := Act(g, t.answer.p, t, turn);
        } else {
          o := ModelFails(g, t, turn - 1);
        }
        match o {
          case Stopped(stop) => return Failure(stop);
          case Done(report) => return Success(report);
          case Next(progress) => g := progress;
        }
      }
      return Failure(TurnLimit);
    }

    /** `run`. Whatever the script: the trace opens once, with the opening event, and ends
        once, with the terminal one; a completed run's report adds up and agrees with the
        trace; every call to the model stays within the context limit; no more than
        `maxRepeated` equal proposals in a row reach the policy; nothing that was denied is
        executed; everything asked for is executed right after a consumption made for it;
        every consumption is in the grant store; no grant is consumed twice for one action;
        and the uses of a grant before and in the run are at most what it allows. */
    method Run(first: nat, resumed: bool, restored: G.Time, script: nat -> Turn) returns (r: Result<Report, Stop>)
      requires events == [] && tally == NOTHING && ValidRecords(grants.states)
      modifies this, grants, grants.file
      ensures 2 <= |events| && events[0] == Started(resumed)
      ensures events[|events| - 1] == if r.Success? then Completed else Failed
      ensures TallyOf(events).openings == 1 && TallyOf(events).endings == 1
      ensures r.Success? ==> Accounts(r.value, TallyOf(events), settings)
      ensures Consistent()
      ensures forall id: G.GrantId ::
                UsesIn(old(grants.states), id) + Consumptions(events, id) <=
                if id in grants.states then grants.states[id].grant.maxUses else 0
    {
      initial := grants.states;
      if config.Some? {
        recipeGrants := grants.ActiveRecipeGrants(task, config.value, restored);
      }
      Append(Started(resumed));
      r := Loop(first, script);
      if r.Failure? {
        Append(Failed);
      }
      forall id: G.GrantId
        ensures UsesIn(initial, id) + Consumptions(events, id) <=
                if id in grants.states then grants.states[id].grant.maxUses else 0
      {
        ConsumptionBound(initial, events, grants.states, Max(), id);
      }
    }
  }
}
