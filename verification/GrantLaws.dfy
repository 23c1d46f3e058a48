/** Grants stay bounded over a whole task: every interleaving of issues, consumptions,
    rejections, failing writes, revocations, deletions and reloads. */
module GrantLaws {
  import opened Wrappers
  import opened Grants

  /** A consumption that returned, with the grant and the clock it was checked against. */
  datatype Use = Use(grant: Grant, action: ActionId, task: nat, config: Digest, at: Time)

  /** A book together with all grants that ever reached it, in memory or on file, and all
      uses that ever returned. A grant that was refused, or whose write did not land, is
      not among them. */
  datatype Ledger = Ledger(book: Book, issued: seq<Grant>, used: seq<Use>)

  datatype Event =
    | Issue(grant: Grant, w: Write)
    | Consume(id: GrantId, action: Action, config: Config, now: Time, asRecipe: bool, w: Write)
    | Revoke(task: nat, recipe: string, w: Write)
    | DeleteFile
    | Reload

  function Happened(l: Ledger, e: Event): Ledger {
    match e
    case Issue(g, w) =>
      var book := Registered(l.book, g, w).book;
      l.(book := book, issued := if book == l.book then l.issued else l.issued + [g])
    case Consume(id, a, config, now, asRecipe, w) =>
      var r := Consumed(l.book, id, a, config, now, asRecipe, w);
      l.(book := r.book,
         used := if r.outcome.Success? then l.used + [Use(r.outcome.value, a.id, a.task, config.digest, now)]
                  else l.used)
    case Revoke(task, recipe, w) => l.(book := Revoked(l.book, task, recipe, w))
    case DeleteFile => l.(book := l.book.(durable := map[]))
    case Reload => l.(book := Book(l.book.durable, l.book.durable))
  }

  predicate Offered(issued: seq<Grant>, id: GrantId) {
    exists i :: 0 <= i < |issued| && issued[i].id == id
  }

  /** Grant identifiers are fresh (they are random UUIDs). */
  predicate FreshEvent(l: Ledger, e: Event) {
    e.Issue? ==> !Offered(l.issued, e.grant.id)
  }

  /** The actions that returned from consuming a grant. */
  function ActionsOf(used: seq<Use>, id: GrantId): set<ActionId> {
    set u | u in used && u.grant.id == id :: u.action
  }

  function UsesOf(used: seq<Use>, id: GrantId): nat {
    if used == [] then 0 else
      UsesOf(used[..|used| - 1], id) + if used[|used| - 1].grant.id == id then 1 else 0
  }

  /** A record agrees with what was issued and covers every use that returned. */
  ghost predicate Covers(issued: seq<Grant>, used: seq<Use>, id: GrantId, r: Record) {
    && ValidRecord(r) && r.grant.id == id && r.grant in issued
    && ActionsOf(used, id) <= r.actions
  }

  ghost predicate AllCovered(issued: seq<Grant>, used: seq<Use>, records: Records) {
    forall id :: id in records ==> Covers(issued, used, id, records[id])
  }

  lemma CoveredUpdate(issued: seq<Grant>, used: seq<Use>, records: Records, id: GrantId, r: Record)
    requires AllCovered(issued, used, records) && Covers(issued, used, id, r)
    ensures AllCovered(issued, used, records[id := r])
  {
  }

  lemma CoveredMoreIssued(issued: seq<Grant>, used: seq<Use>, records: Records, g: Grant)
    requires AllCovered(issued, used, records)
    ensures AllCovered(issued + [g], used, records)
  {
    forall id | id in records ensures Covers(issued + [g], used, id, records[id]) {
      assert Covers(issued, used, id, records[id]);
    }
  }

  lemma CoveredUse(issued: seq<Grant>, used: seq<Use>, records: Records, u: Use)
    requires AllCovered(issued, used, records)
    requires u.grant.id in records ==> u.action in records[u.grant.id].actions
    ensures AllCovered(issued, used + [u], records)
  {
    forall id | id in records ensures Covers(issued, used + [u], id, records[id]) {
      assert Covers(issued, used, id, records[id]);
      UsesSnoc(used, u, id);
    }
  }

  /** A returned use happened in time, under the issuing task and configuration. */
  ghost predicate UseInTime(l: Ledger, u: Use) {
    && u.grant in l.issued
    && u.at < u.grant.expiresAt && u.task == u.grant.task && u.config == u.grant.config
  }

  ghost predicate DistinctGrants(issued: seq<Grant>) {
    forall i, j :: 0 <= i < j < |issued| ==> issued[i].id != issued[j].id
  }

  ghost predicate Bounded(l: Ledger) {
    forall g :: g in l.issued ==> Counts(l.used, g)
  }

  ghost predicate LedgerInv(l: Ledger) {
    && DistinctGrants(l.issued)
    && AllCovered(l.issued, l.used, l.book.memory) && AllCovered(l.issued, l.used, l.book.durable)
    && (forall u :: u in l.used ==> UseInTime(l, u))
    && Bounded(l)
  }

  const EMPTY := Ledger(Book(map[], map[]), [], [])

  lemma EmptyLedger()
    ensures LedgerInv(EMPTY)
  {
  }

  /** A rejected or failed consumption leaves the memory as it was; a rejected one leaves
      the file as well. */
  lemma RejectionChangesNothing(b: Book, id: GrantId, a: Action, config: Config, now: Time, asRecipe: bool, w: Write)
    ensures var r := Consumed(b, id, a, config, now, asRecipe, w);
            && (r.outcome.Failure? ==> r.book.memory == b.memory)
            && (r.outcome.Failure? && r.outcome.error != PersistFailed ==> r.book == b)
            && (r.outcome.Success? ==>
                 && id in b.memory && r.outcome.value == b.memory[id].grant
                 && r.book.memory == r.book.durable == b.memory[id := Spent(b.memory[id], a.id)]
                 && a.id !in b.memory[id].actions)
  {
  }

  lemma UsesSnoc(used: seq<Use>, u: Use, id: GrantId)
    ensures UsesOf(used + [u], id) == UsesOf(used, id) + if u.grant.id == id then 1 else 0
    ensures ActionsOf(used + [u], id) == ActionsOf(used, id) + if u.grant.id == id then {u.action} else {}
  {
    assert (used + [u])[..|used|] == used;
    assert forall x :: x in used + [u] <==> x in used || x == u;
  }

  lemma SubsetSize<T>(a: set<T>, b: set<T>)
    requires a <= b
    ensures |a| <= |b|
    decreases |a|
  {
    if a != {} {
      var x :| x in a;
      SubsetSize(a - {x}, b - {x});
    }
  }

  lemma SameGrant(issued: seq<Grant>, g: Grant, h: Grant)
    requires DistinctGrants(issued) && g in issued && h in issued && g.id == h.id
    ensures g == h
  {
  }

  lemma SpentCovers(l: Ledger, id: GrantId, a: Action, config: Config, now: Time)
    requires LedgerInv(l) && Checked(l.book, id, a, config, now).Success?
    ensures Covers(l.issued, l.used, id, Spent(l.book.memory[id], a.id))
    ensures AllCovered(l.issued, l.used, l.book.memory[id := Spent(l.book.memory[id], a.id)])
  {
    assert Covers(l.issued, l.used, id, l.book.memory[id]);
    CoveredUpdate(l.issued, l.used, l.book.memory, id, Spent(l.book.memory[id], a.id));
  }

  lemma ConsumeKeeps(l: Ledger, e: Event)
    requires LedgerInv(l) && e.Consume?
    ensures LedgerInv(Happened(l, e))
  {
    var r := Consumed(l.book, e.id, e.action, e.config, e.now, e.asRecipe, e.w);
    if Checked(l.book, e.id, e.action, e.config, e.now).Success? {
      SpentCovers(l, e.id, e.action, e.config, e.now);
      if r.outcome.Success? {
        UseCounted(l, e.id, e.action, e.config, e.now);
        var use := Use(r.outcome.value, e.action.id, e.action.task, e.config.digest, e.now);
        assert Covers(l.issued, l.used, e.id, l.book.memory[e.id]);
        CoveredUse(l.issued, l.used, r.book.memory, use);
      }
    }
  }

  /** A use that returns keeps every count within its grant. */
  lemma UseCounted(l: Ledger, id: GrantId, a: Action, config: Config, now: Time)
    requires LedgerInv(l)
    requires Checked(l.book, id, a, config, now).Success?
    ensures var g := l.book.memory[id].grant;
            var next := l.(used := l.used + [Use(g, a.id, a.task, config.digest, now)]);
            Bounded(next) && forall u :: u in next.used ==> UseInTime(next, u)
  {
    var before := l.book.memory[id];
    var use := Use(before.grant, a.id, a.task, config.digest, now);
    assert Covers(l.issued, l.used, id, before);
    SubsetSize(ActionsOf(l.used, id), before.actions);
    forall g | g in l.issued ensures Counts(l.used + [use], g) {
      assert Counts(l.used, g);
      if g.id == id { SameGrant(l.issued, g, before.grant); }
      OneMoreUse(l.used, use, g);
    }
    TimelyUse(l, use);
  }

  /** The uses of a grant are distinct actions, no more than it allows. */
  ghost predicate Counts(used: seq<Use>, g: Grant) {
    UsesOf(used, g.id) == |ActionsOf(used, g.id)| && UsesOf(used, g.id) <= g.maxUses
  }

  lemma OneMoreUse(used: seq<Use>, u: Use, g: Grant)
    requires Counts(used, g)
    requires u.grant.id == g.id ==> u.action !in ActionsOf(used, g.id) && UsesOf(used, g.id) < g.maxUses
    ensures Counts(used + [u], g)
  {
    UsesSnoc(used, u, g.id);
  }

  lemma TimelyUse(l: Ledger, u: Use)
    requires forall x :: x in l.used ==> UseInTime(l, x)
    requires UseInTime(l, u)
    ensures forall x :: x in l.used + [u] ==> UseInTime(l.(used := l.used + [u]), x)
  {
    forall x | x in l.used + [u] ensures UseInTime(l.(used := l.used + [u]), x) {
      assert UseInTime(l, x);
    }
  }

  lemma IssueKeeps(l: Ledger, g: Grant, w: Write)
    requires LedgerInv(l) && !Offered(l.issued, g.id)
    ensures LedgerInv(Happened(l, Issue(g, w)))
  {
    NoUses(l, g.id);
    CoveredMoreIssued(l.issued, l.used, l.book.memory, g);
    CoveredMoreIssued(l.issued, l.used, l.book.durable, g);
    if ValidGrant(g) {
      CoveredUpdate(l.issued + [g], l.used, l.book.memory, g.id, Record(g, 0, {}));
    }
    IssueBounded(l, g);
  }

  lemma IssueBounded(l: Ledger, g: Grant)
    requires LedgerInv(l) && !Offered(l.issued, g.id)
    requires UsesOf(l.used, g.id) == 0 && ActionsOf(l.used, g.id) == {}
    ensures DistinctGrants(l.issued + [g])
    ensures Bounded(l.(issued := l.issued + [g]))
    ensures forall u :: u in l.used ==> UseInTime(l.(issued := l.issued + [g]), u)
  {
    forall u | u in l.used ensures UseInTime(l.(issued := l.issued + [g]), u) {
      assert UseInTime(l, u);
    }
  }

  /** A grant that was never issued has no uses. */
  lemma NoUses(l: Ledger, id: GrantId)
    requires LedgerInv(l) && !Offered(l.issued, id)
    ensures UsesOf(l.used, id) == 0 && ActionsOf(l.used, id) == {}
  {
    forall u | u in l.used ensures u.grant.id != id {
      assert UseInTime(l, u);
    }
    NoUsesIn(l.used, id);
  }

  lemma {:induction false} NoUsesIn(used: seq<Use>, id: GrantId)
    requires forall u :: u in used ==> u.grant.id != id
    ensures UsesOf(used, id) == 0
    decreases |used|
  {
    if used != [] {
      NoUsesIn(used[..|used| - 1], id);
    }
  }

  lemma OthersKeep(l: Ledger, e: Event)
    requires LedgerInv(l) && (e.Revoke? || e.DeleteFile? || e.Reload?)
    ensures LedgerInv(Happened(l, e))
  {
    assert forall id :: id in l.book.memory ==> Covers(l.issued, l.used, id, l.book.memory[id]);
  }

  lemma EventKeeps(l: Ledger, e: Event)
    requires LedgerInv(l) && FreshEvent(l, e)
    ensures LedgerInv(Happened(l, e))
  {
    match e {
      case Issue(g, w) => IssueKeeps(l, g, w);
      case Consume(_, _, _, _, _, _) => ConsumeKeeps(l, e);
      case _ => OthersKeep(l, e);
    }
  }

  function HappenedAll(l: Ledger, events: seq<Event>): Ledger
    decreases |events|
  {
    if events == [] then l else HappenedAll(Happened(l, events[0]), events[1..])
  }

  predicate FreshEvents(l: Ledger, events: seq<Event>)
    decreases |events|
  {
    events == [] || (FreshEvent(l, events[0]) && FreshEvents(Happened(l, events[0]), events[1..]))
  }

  lemma {:induction false} EventsKeep(l: Ledger, events: seq<Event>)
    requires LedgerInv(l) && FreshEvents(l, events)
    ensures LedgerInv(HappenedAll(l, events))
    decreases |events|
  {
    if events != [] {
      EventKeeps(l, events[0]);
      EventsKeep(Happened(l, events[0]), events[1..]);
    }
  }

  // ---- totals ----

  function TotalUses(issued: seq<Grant>): nat {
    if issued == [] then 0 else TotalUses(issued[..|issued| - 1]) + issued[|issued| - 1].maxUses
  }

  function TotalUsed(used: seq<Use>, issued: seq<Grant>): nat {
    if issued == [] then 0 else TotalUsed(used, issued[..|issued| - 1]) + UsesOf(used, issued[|issued| - 1].id)
  }

  lemma {:induction false} TotalUsedSnoc(used: seq<Use>, u: Use, issued: seq<Grant>)
    requires DistinctGrants(issued)
    ensures TotalUsed(used + [u], issued)
         == TotalUsed(used, issued) + if Offered(issued, u.grant.id) then 1 else 0
    decreases |issued|
  {
    if issued != [] {
      var n := |issued| - 1;
      TotalUsedSnoc(used, u, issued[..n]);
      UsesSnoc(used, u, issued[n].id);
      assert Offered(issued[..n], u.grant.id) ==> Offered(issued, u.grant.id) && issued[n].id != u.grant.id by {
        if Offered(issued[..n], u.grant.id) {
          var i :| 0 <= i < n && issued[..n][i].id == u.grant.id;
          assert issued[i].id == u.grant.id;
        }
      }
      if Offered(issued, u.grant.id) && issued[n].id != u.grant.id {
        var i :| 0 <= i < |issued| && issued[i].id == u.grant.id;
        assert issued[..n][i].id == u.grant.id;
      }
    }
  }

  lemma {:induction false} NothingUsed(issued: seq<Grant>)
    ensures TotalUsed([], issued) == 0
    decreases |issued|
  {
    if issued != [] {
      NothingUsed(issued[..|issued| - 1]);
    }
  }

  /** Every use belongs to some issued grant, so the uses add up. */
  lemma {:induction false} UsesAddUp(used: seq<Use>, issued: seq<Grant>)
    requires DistinctGrants(issued) && forall u :: u in used ==> u.grant in issued
    ensures |used| == TotalUsed(used, issued)
    decreases |used|
  {
    if used == [] {
      NothingUsed(issued);
    } else {
      var n := |used| - 1;
      UsesAddUp(used[..n], issued);
      TotalUsedSnoc(used[..n], used[n], issued);
      assert used == used[..n] + [used[n]];
      assert used[n].grant in issued;
    }
  }

  lemma {:induction false} TotalsCompare(used: seq<Use>, issued: seq<Grant>)
    requires forall g :: g in issued ==> Counts(used, g)
    ensures TotalUsed(used, issued) <= TotalUses(issued)
    decreases |issued|
  {
    if issued != [] {
      TotalsCompare(used, issued[..|issued| - 1]);
      assert Counts(used, issued[|issued| - 1]);
    }
  }

  lemma LedgerTotal(l: Ledger)
    requires LedgerInv(l)
    ensures |l.used| <= TotalUses(l.issued)
  {
    forall u | u in l.used ensures u.grant in l.issued { assert UseInTime(l, u); }
    UsesAddUp(l.used, l.issued);
    TotalsCompare(l.used, l.issued);
  }

  /** The grant bound, across restarts: whatever happens, the consumptions of a grant
      that returned concern distinct actions, number at most `maxUses`, each happened
      before expiry under the issuing task and configuration, and every record of the
      grant, in memory or on file, contains them all; altogether they number at most the
      sum of `maxUses` over the grants. */
  lemma GrantBound(events: seq<Event>, g: Grant)
    requires FreshEvents(EMPTY, events)
    requires g in HappenedAll(EMPTY, events).issued
    ensures var l := HappenedAll(EMPTY, events);
            && UsesOf(l.used, g.id) == |ActionsOf(l.used, g.id)| <= g.maxUses
            && (forall u :: u in l.used && u.grant.id == g.id ==>
                 u.grant == g && u.at < g.expiresAt && u.task == g.task && u.config == g.config)
            && (g.id in l.book.durable ==> ActionsOf(l.used, g.id) <= l.book.durable[g.id].actions)
            && (g.id in l.book.memory ==> ActionsOf(l.used, g.id) <= l.book.memory[g.id].actions)
            && |l.used| <= TotalUses(l.issued)
  {
    EmptyLedger();
    EventsKeep(EMPTY, events);
    var l := HappenedAll(EMPTY, events);
    LedgerTotal(l);
    assert Counts(l.used, g);
    forall u | u in l.used && u.grant.id == g.id
      ensures u.grant == g && u.at < g.expiresAt && u.task == g.task && u.config == g.config
    {
      assert UseInTime(l, u);
      SameGrant(l.issued, u.grant, g);
    }
    assert g.id in l.book.durable ==> Covers(l.issued, l.used, g.id, l.book.durable[g.id]);
    assert g.id in l.book.memory ==> Covers(l.issued, l.used, g.id, l.book.memory[g.id]);
  }
}
