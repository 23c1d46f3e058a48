/** The trace of a controller run: audit events together with the calls to the model and
    to the tools. */
module ControllerTrace {
  import opened Wrappers
  import G = Grants
  import L = GrantLaws

  datatype Kind = Patch | Task(recipe: string) | Complete(summary: string) | Other

  /** A valid action. The fingerprint identifies it up to its id and rationale. */
  datatype Proposal = Proposal(id: G.ActionId, kind: Kind, digest: G.Digest, fingerprint: nat, dump: nat)

  function ActionOf(p: Proposal, task: nat): G.Action {
    G.Action(p.id, task, p.digest, if p.kind.Task? then Some(p.kind.recipe) else None)
  }

  datatype Decision = Allow | Ask | Deny

  datatype ToolResult =
    | ReadResult(ok: bool, path: string, size: nat)
    | PatchResult(ok: bool, changed: set<string>, generation: nat, metadata: bool, size: nat)
    | TaskResult(ok: bool, size: nat)
    | OtherResult(ok: bool, size: nat)

  datatype Event =
    | Started(resumed: bool)
    | Failed
    | Completed
    | ModelCalled(context: nat)
    | ModelFailed(retrying: bool)
    | Decided(action: G.ActionId, fingerprint: nat, decision: Decision)
    | Requested(action: G.ActionId)
    | Resolved(action: G.ActionId, approved: bool)
    | Issued(action: G.ActionId, grant: G.GrantId)
    | Rejected(action: G.ActionId, grant: G.GrantId)
    | Consumed(action: G.ActionId, grant: G.GrantId)
    | Executed(action: G.ActionId, decision: Decision)
    | ToolFinished(action: G.ActionId, ok: bool)
    | Published(action: G.ActionId, generation: nat)
    | SandboxFinished(action: G.ActionId, ok: bool)

  /** What a trace adds up to. `fingerprints` are those of the proposals that reached the
      policy; `generation` is the last one published, 0 if none was. */
  datatype Tally = Tally(openings: nat, endings: nat, calls: nat, modelFailures: nat, fingerprints: seq<nat>,
                         consumed: nat, executed: nat, finished: nat, generation: nat,
                         sandboxRuns: nat, sandboxSuccesses: nat)

  const NOTHING := Tally(0, 0, 0, 0, [], 0, 0, 0, 0, 0, 0)

  function Add(t: Tally, e: Event): Tally {
    match e
    case Started(_) => t.(openings := t.openings + 1)
    case Failed => t.(endings := t.endings + 1)
    case Completed => t.(endings := t.endings + 1)
    case ModelCalled(_) => t.(calls := t.calls + 1)
    case ModelFailed(_) => t.(modelFailures := t.modelFailures + 1)
    case Decided(_, fingerprint, _) => t.(fingerprints := t.fingerprints + [fingerprint])
    case Requested(_) => t
    case Resolved(_, _) => t
    case Issued(_, _) => t
    case Rejected(_, _) => t
    case Consumed(_, _) => t.(consumed := t.consumed + 1)
    case Executed(_, _) => t.(executed := t.executed + 1)
    case ToolFinished(_, _) => t.(finished := t.finished + 1)
    case Published(_, generation) => t.(generation := generation)
    case SandboxFinished(_, ok) =>
      t.(sandboxRuns := t.sandboxRuns + 1, sandboxSuccesses := t.sandboxSuccesses + if ok then 1 else 0)
  }

  function TallyOf(events: seq<Event>): Tally {
    if events == [] then NOTHING else Add(TallyOf(events[..|events| - 1]), events[|events| - 1])
  }

  lemma TallySnoc(events: seq<Event>, e: Event)
    ensures TallyOf(events + [e]) == Add(TallyOf(events), e)
  {
    assert (events + [e])[..|events|] == events;
  }

  predicate LastConsumed(events: seq<Event>, action: G.ActionId) {
    events != [] && events[|events| - 1].Consumed? && events[|events| - 1].action == action
  }

  // ---- laws of a trace ----

  ghost predicate Grows(before: G.Records, after: G.Records) {
    forall id :: id in before ==>
      id in after && after[id].grant == before[id].grant && before[id].actions <= after[id].actions
  }

  /** How many times the last entry is repeated at the end. */
  function Trailing(f: seq<nat>): nat {
    var n := |f|;
    if n <= 1 then n
    else if f[n - 1] == f[n - 2] then Trailing(f[..n - 1]) + 1
    else 1
  }

  datatype Limits = Limits(context: nat, repeated: nat)

  /** When an event may come next. The model is called within the context limit; a
      proposal reaches the policy only so often in a row; nothing denied is executed, and
      what was asked for is executed immediately after a consumption made for it; a
      consumption is on record in the grant store and happens once. */
  predicate MayFollow(events: seq<Event>, e: Event, states: G.Records, max: Limits) {
    match e
    case ModelCalled(context) => context <= max.context
    case Decided(_, fingerprint, _) => Trailing(TallyOf(events).fingerprints + [fingerprint]) <= max.repeated
    case Executed(action, decision) => decision != Deny && (decision == Ask ==> LastConsumed(events, action))
    case Consumed(action, grant) => e !in events && grant in states && action in states[grant].actions
    case _ => true
  }

  predicate Lawful(events: seq<Event>, states: G.Records, max: Limits)
    decreases |events|
  {
    events == [] ||
    var n := |events| - 1;
    Lawful(events[..n], states, max) && MayFollow(events[..n], events[n], states, max)
  }

  lemma LawfulSnoc(events: seq<Event>, e: Event, states: G.Records, max: Limits)
    requires Lawful(events, states, max) && MayFollow(events, e, states, max)
    ensures Lawful(events + [e], states, max)
  {
    assert (events + [e])[..|events|] == events;
  }

  lemma {:induction false} LawfulMore(events: seq<Event>, before: G.Records, after: G.Records, max: Limits)
    requires Lawful(events, before, max) && Grows(before, after)
    ensures Lawful(events, after, max)
    decreases |events|
  {
    if events != [] {
      LawfulMore(events[..|events| - 1], before, after, max);
    }
  }

  lemma {:induction false} LawfulAt(events: seq<Event>, states: G.Records, max: Limits, i: nat)
    requires Lawful(events, states, max) && i < |events|
    ensures MayFollow(events[..i], events[i], states, max)
    decreases |events|
  {
    var n := |events| - 1;
    if i < n {
      LawfulAt(events[..n], states, max, i);
      assert events[..n][..i] == events[..i];
    }
  }

  /** A grant not yet used for an action is not in the trace for it. */
  lemma NotConsumedYet(events: seq<Event>, states: G.Records, max: Limits, action: G.ActionId, grant: G.GrantId)
    requires Lawful(events, states, max) && grant in states && action !in states[grant].actions
    ensures Consumed(action, grant) !in events
  {
    forall i | 0 <= i < |events| ensures events[i] != Consumed(action, grant) {
      LawfulAt(events, states, max, i);
    }
  }

  lemma TrailingSnoc(f: seq<nat>, x: nat)
    ensures Trailing(f + [x]) == if f != [] && f[|f| - 1] == x then Trailing(f) + 1 else 1
  {
    assert (f + [x])[..|f|] == f;
  }

  // ---- what a lawful trace means ----

  lemma {:induction false} TrailsWithin(events: seq<Event>, states: G.Records, max: Limits, n: nat)
    requires Lawful(events, states, max) && n <= |TallyOf(events).fingerprints|
    ensures Trailing(TallyOf(events).fingerprints[..n]) <= max.repeated
    decreases |events|
  {
    if events != [] {
      var before, e := events[..|events| - 1], events[|events| - 1];
      var f, g := TallyOf(before).fingerprints, TallyOf(events).fingerprints;
      if e.Decided? && n == |g| {
        assert g[..n] == f + [e.fingerprint];
      } else {
        TrailsWithin(before, states, max, n);
        assert g[..n] == f[..n];
      }
    }
  }

  lemma {:induction false} LongRunsTrail(f: seq<nat>, i: nat, k: nat)
    requires i + k <= |f| && forall j :: i <= j < i + k ==> f[j] == f[i]
    ensures Trailing(f[..i + k]) >= k
    decreases k
  {
    if k > 1 {
      LongRunsTrail(f, i, k - 1);
      assert f[..i + k][..i + k - 1] == f[..i + k - 1];
    }
  }

  /** Of any `repeated + 1` consecutive proposals that reached the policy, two differ. */
  lemma RepeatsAreBounded(events: seq<Event>, states: G.Records, max: Limits, i: nat)
    requires Lawful(events, states, max)
    requires i + max.repeated < |TallyOf(events).fingerprints|
    ensures var f := TallyOf(events).fingerprints; exists j :: i < j <= i + max.repeated && f[j] != f[i]
  {
    var f := TallyOf(events).fingerprints;
    if forall j :: i <= j < i + (max.repeated + 1) ==> f[j] == f[i] {
      LongRunsTrail(f, i, max.repeated + 1);
      TrailsWithin(events, states, max, i + max.repeated + 1);
    }
  }

  /** Authorised execution and bounded grants, read off a lawful trace: whatever was
      executed was allowed, or asked for with a consumption for it as the event just
      before; and all consumptions of a grant are of different actions, each on record
      in the store. */
  lemma {:induction false} LawfulMeans(events: seq<Event>, states: G.Records, max: Limits)
    requires Lawful(events, states, max)
    ensures forall i :: 0 <= i < |events| && events[i].Executed? ==>
              events[i].decision == Allow ||
              (events[i].decision == Ask && LastConsumed(events[..i], events[i].action))
    ensures forall i :: 0 <= i < |events| && events[i].ModelCalled? ==> events[i].context <= max.context
    ensures forall i :: 0 <= i < |events| && events[i].Consumed? ==>
              events[i].grant in states && events[i].action in states[events[i].grant].actions
    ensures forall i, j :: 0 <= i < j < |events| && events[i].Consumed? ==> events[i] != events[j]
  {
    forall i | 0 <= i < |events| ensures MayFollow(events[..i], events[i], states, max) {
      LawfulAt(events, states, max, i);
    }
    forall i, j | 0 <= i < j < |events| && events[i].Consumed? ensures events[i] != events[j] {
      assert events[..j][i] == events[i];
    }
  }

  function ConsumedActions(events: seq<Event>, grant: G.GrantId): set<G.ActionId> {
    if events == [] then {} else
      var e := events[|events| - 1];
      ConsumedActions(events[..|events| - 1], grant) + if e.Consumed? && e.grant == grant then {e.action} else {}
  }

  function Consumptions(events: seq<Event>, grant: G.GrantId): nat {
    if events == [] then 0 else
      var e := events[|events| - 1];
      Consumptions(events[..|events| - 1], grant) + if e.Consumed? && e.grant == grant then 1 else 0
  }

  lemma {:induction false} ConsumptionsDiffer(events: seq<Event>, states: G.Records, max: Limits, grant: G.GrantId)
    requires Lawful(events, states, max)
    ensures Consumptions(events, grant) == |ConsumedActions(events, grant)|
    ensures if grant in states then ConsumedActions(events, grant) <= states[grant].actions
            else ConsumedActions(events, grant) == {}
    ensures forall action :: action in ConsumedActions(events, grant) ==> Consumed(action, grant) in events
    decreases |events|
  {
    if events != [] {
      ConsumptionsDiffer(events[..|events| - 1], states, max, grant);
    }
  }

  // ---- the trace and the grants it uses ----

  ghost predicate ValidRecords(records: G.Records) {
    forall id :: id in records ==> G.ValidRecord(records[id])
  }

  /** The action was not among those its grant had been used for before the run. */
  predicate NewSince(initial: G.Records, e: Event) {
    e.Consumed? && e.grant in initial ==> e.action !in initial[e.grant].actions
  }

  /** From the records at the start of a run to those now: all valid, none lost, and every
      consumption is a new use. */
  ghost predicate Accounted(initial: G.Records, events: seq<Event>, states: G.Records) {
    && ValidRecords(initial) && ValidRecords(states) && Grows(initial, states)
    && forall i :: 0 <= i < |events| ==> NewSince(initial, events[i])
  }

  lemma AccountedMore(initial: G.Records, events: seq<Event>, before: G.Records, after: G.Records)
    requires Accounted(initial, events, before) && Grows(before, after) && ValidRecords(after)
    ensures Accounted(initial, events, after)
  {
  }

  function UsesIn(records: G.Records, grant: G.GrantId): nat {
    if grant in records then records[grant].uses else 0
  }

  /** The uses a grant had before the run, and those it was put to in the run, are together
      at most what the grant allows; a grant that is not in the store is not used. */
  lemma ConsumptionBound(initial: G.Records, events: seq<Event>, states: G.Records, max: Limits, grant: G.GrantId)
    requires Lawful(events, states, max) && Accounted(initial, events, states)
    ensures UsesIn(initial, grant) + Consumptions(events, grant) <=
            if grant in states then states[grant].grant.maxUses else 0
  {
    ConsumptionsDiffer(events, states, max, grant);
    if grant in states {
      var used := ConsumedActions(events, grant);
      var earlier := if grant in initial then initial[grant].actions else {};
      forall action | action in used ensures action !in earlier {
        var i :| 0 <= i < |events| && events[i] == Consumed(action, grant);
        assert NewSince(initial, events[i]);
      }
      assert |earlier + used| == |earlier| + |used|;
      L.SubsetSize(earlier + used, states[grant].actions);
    }
  }

  // ---- the loop's variables and the trace ----

  predicate SameStart(before: seq<Event>, after: seq<Event>) {
    before != [] ==> after != [] && after[0] == before[0]
  }

  function WithUses(t: Tally, uses: nat): Tally { t.(consumed := t.consumed + uses) }

  /** What a counted tool call adds. */
  function Counted(t: Tally, result: ToolResult): Tally {
    t.(executed := t.executed + 1, finished := t.finished + 1,
       generation := if result.PatchResult? && result.ok then result.generation else t.generation,
       sandboxRuns := t.sandboxRuns + if result.TaskResult? then 1 else 0,
       sandboxSuccesses := t.sandboxSuccesses + if result.TaskResult? && result.ok then 1 else 0)
  }

  /** The loop's two variables against the proposals so far. */
  predicate Remembers(f: seq<nat>, previous: Option<nat>, repeated: nat) {
    repeated == Trailing(f) && previous == if f == [] then None else Some(f[|f| - 1])
  }

  lemma RememberNext(f: seq<nat>, previous: Option<nat>, repeated: nat, x: nat)
    requires Remembers(f, previous, repeated)
    ensures Remembers(f + [x], Some(x), if previous == Some(x) then repeated + 1 else 1)
  {
    TrailingSnoc(f, x);
  }
}
