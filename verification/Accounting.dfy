/**
 * Folding usage events into budgets.
 *
 * The request id is the primary key of the usage table, and spend is charged only
 * for rows that were inserted.  A batch is applied in one transaction together
 * with one version bump per touched tenant.
 */
module Accounting {
  import opened Sums

  datatype Event = Event(requestId: string, tenant: string, price: int, budgets: seq<string>)

  datatype Budget = Budget(tenant: string, spent: int)

  type Budgets = map<string, Budget>

  /** The usage table in insertion order, the budgets, and the tenants' layer versions. */
  datatype Db = Db(usage: seq<Event>, budgets: Budgets, versions: map<string, nat>)

  predicate Recorded(usage: seq<Event>, id: string) {
    exists i :: 0 <= i < |usage| && usage[i].requestId == id
  }

  /** An insert that carries an id and does not conflict. */
  predicate Inserts(usage: seq<Event>, e: Event) {
    e.requestId != [] && !Recorded(usage, e.requestId)
  }

  predicate Hits(budgets: Budgets, e: Event, id: string) {
    id in budgets && budgets[id].tenant == e.tenant
  }

  /** UPDATE … SET spent = spent + price WHERE id = … AND tenant_id = … */
  function ChargeOne(budgets: Budgets, e: Event, id: string): Budgets {
    if Hits(budgets, e, id) then budgets[id := budgets[id].(spent := budgets[id].spent + e.price)] else budgets
  }

  function ChargeFirst(budgets: Budgets, e: Event, k: nat): Budgets
    requires k <= |e.budgets|
  {
    if k == 0 then budgets else ChargeOne(ChargeFirst(budgets, e, k - 1), e, e.budgets[k - 1])
  }

  function Charged(budgets: Budgets, e: Event): Budgets {
    if e.price <= 0 then budgets else ChargeFirst(budgets, e, |e.budgets|)
  }

  /** The event's tenant, if some budget it names is charged. */
  function TouchedBy(budgets: Budgets, e: Event): set<string> {
    if e.price > 0 && exists k :: 0 <= k < |e.budgets| && Hits(budgets, e, e.budgets[k]) then {e.tenant} else {}
  }

  /** How many of the first `k` listings name no budget of the event's tenant. */
  function Unknown(budgets: Budgets, e: Event, k: nat): nat
    requires k <= |e.budgets|
  {
    if k == 0 then 0 else Unknown(budgets, e, k - 1) + if Hits(budgets, e, e.budgets[k - 1]) then 0 else 1
  }

  /** Usage and budgets after a batch, and the tenants it touched. */
  datatype Progress = Progress(usage: seq<Event>, budgets: Budgets, touched: set<string>)

  function AfterEvent(p: Progress, e: Event): Progress {
    if !Inserts(p.usage, e) then p
    else Progress(p.usage + [e], Charged(p.budgets, e), p.touched + TouchedBy(p.budgets, e))
  }

  function AfterEvents(p: Progress, events: seq<Event>): Progress {
    if events == [] then p else AfterEvent(AfterEvents(p, events[..|events| - 1]), events[|events| - 1])
  }

  function Bumped(versions: map<string, nat>, tenants: set<string>): map<string, nat> {
    map t | t in versions :: versions[t] + if t in tenants then 1 else 0
  }

  function Applied(db: Db, events: seq<Event>): Db {
    var p := AfterEvents(Progress(db.usage, db.budgets, {}), events);
    Db(p.usage, p.budgets, Bumped(db.versions, p.touched))
  }

  lemma AfterEventsStep(p: Progress, events: seq<Event>, i: nat)
    requires i < |events|
    ensures AfterEvents(p, events[..i + 1]) == AfterEvent(AfterEvents(p, events[..i]), events[i])
  {
    assert events[..i + 1][..i] == events[..i];
  }

  class Accountant {
    var usage: seq<Event>
    var budgets: Budgets
    var versions: map<string, nat>
    var duplicates: nat
    var unknownBudgets: nat
    var touched: set<string>

    constructor (db: Db)
      ensures Value() == db
    {
      usage, budgets, versions := db.usage, db.budgets, db.versions;
      duplicates, unknownBudgets, touched := 0, 0, {};
    }

    function Value(): Db
      reads this
    {
      Db(usage, budgets, versions)
    }

    function Now(): Progress
      reads this
    {
      Progress(usage, budgets, touched)
    }

    /** Inserts the usage record, reporting whether it was new. */
    method Record(e: Event) returns (isNew: bool)
      modifies this`usage, this`duplicates
      ensures isNew == Inserts(old(usage), e)
      ensures usage == if isNew then old(usage) + [e] else old(usage)
      ensures duplicates == old(duplicates) + if isNew then 0 else 1
    {
      if e.requestId == [] || Recorded(usage, e.requestId) {
        duplicates := duplicates + 1;
        return false;
      }
      usage := usage + [e];
      return true;
    }

    /** Adds the request's price to every budget it names. */
    method Charge(e: Event)
      modifies this`budgets, this`unknownBudgets, this`touched
      ensures budgets == Charged(old(budgets), e)
      ensures touched == old(touched) + TouchedBy(old(budgets), e)
      ensures unknownBudgets
           == old(unknownBudgets) + if e.price > 0 then Unknown(old(budgets), e, |e.budgets|) else 0
    {
      if e.budgets == [] || e.price <= 0 {
        return;
      }
      ghost var start := budgets;
      for k := 0 to |e.budgets|
        invariant budgets == ChargeFirst(start, e, k)
        invariant unknownBudgets == old(unknownBudgets) + Unknown(start, e, k)
        invariant touched == old(touched)
                             + if exists j :: 0 <= j < k && Hits(start, e, e.budgets[j]) then {e.tenant} else {}
      {
        ChargeKeepsHits(start, e, k);
        if Hits(budgets, e, e.budgets[k]) {
          touched := touched + {e.tenant};
        } else {
          unknownBudgets := unknownBudgets + 1;
        }
        budgets := ChargeOne(budgets, e, e.budgets[k]);
      }
    }

    method Apply(events: seq<Event>)
      modifies this
      ensures Value() == Applied(old(Value()), events)
      ensures |usage| + duplicates == |old(usage)| + |events|
    {
      hide Inserts, Charged, TouchedBy, AfterEvents;
      duplicates, unknownBudgets, touched := 0, 0, {};
      ghost var start := Now();
      NoEvents(start, events[..0]);
      for i := 0 to |events|
        invariant Now() == AfterEvents(start, events[..i])
        invariant versions == old(versions)
        invariant |usage| + duplicates == |start.usage| + i
      {
        AfterEventsStep(start, events, i);
        var isNew := Record(events[i]);
        if isNew {
          Charge(events[i]);
        }
      }
      assert events[..|events|] == events;
      versions := Bumped(versions, touched);
    }
  }

  lemma NoEvents(p: Progress, events: seq<Event>)
    requires events == []
    ensures AfterEvents(p, events) == p
  {
  }

  lemma {:induction false} ChargeKeepsHits(budgets: Budgets, e: Event, k: nat)
    requires k <= |e.budgets|
    ensures ChargeFirst(budgets, e, k).Keys == budgets.Keys
    ensures forall id :: id in budgets ==> ChargeFirst(budgets, e, k)[id].tenant == budgets[id].tenant
  {
    if k > 0 { ChargeKeepsHits(budgets, e, k - 1); }
  }

  // ---- the ledger ----

  function Listings(ids: seq<string>, id: string): nat {
    if ids == [] then 0 else Listings(ids[..|ids| - 1], id) + if ids[|ids| - 1] == id then 1 else 0
  }

  /** What one recorded request owes one budget. */
  function Owed(e: Event, id: string, tenant: string): int {
    if e.price > 0 && e.tenant == tenant then e.price * Listings(e.budgets, id) else 0
  }

  function TotalOwed(usage: seq<Event>, id: string, tenant: string): int {
    Sum(usage, (e: Event) => Owed(e, id, tenant))
  }

  lemma {:induction false} ChargeFirstAdds(budgets: Budgets, e: Event, k: nat, id: string)
    requires k <= |e.budgets| && id in budgets
    ensures id in ChargeFirst(budgets, e, k)
    ensures ChargeFirst(budgets, e, k)[id]
            == budgets[id].(spent := budgets[id].spent
                 + if e.tenant == budgets[id].tenant then e.price * Listings(e.budgets[..k], id) else 0)
  {
    if k > 0 {
      ChargeFirstAdds(budgets, e, k - 1, id);
      assert e.budgets[..k][..k - 1] == e.budgets[..k - 1];
      var n := Listings(e.budgets[..k - 1], id);
      assert e.price * (n + 1) == e.price * n + e.price;
    }
  }

  /** Charging an event adds its price once per listing to exactly its own tenant's budgets. */
  lemma ChargeAddsWhatIsOwed(budgets: Budgets, e: Event, id: string)
    requires id in budgets
    ensures id in Charged(budgets, e)
    ensures Charged(budgets, e)[id] == budgets[id].(spent := budgets[id].spent + Owed(e, id, budgets[id].tenant))
  {
    ChargeFirstAdds(budgets, e, |e.budgets|, id);
    assert e.budgets[..|e.budgets|] == e.budgets;
  }

  /** Where a budget began: how many requests were recorded by then, whose it is, and its spend. */
  datatype Opening = Opening(at: nat, tenant: string, spent: int)

  type Openings = map<string, Opening>

  function OpeningsOf(db: Db): Openings {
    map id | id in db.budgets :: Opening(|db.usage|, db.budgets[id].tenant, db.budgets[id].spent)
  }

  /** A budget stands at its opening spend plus what the requests recorded since then owe it. */
  ghost predicate Stands(o: Opening, usage: seq<Event>, id: string, b: Budget) {
    && o.at <= |usage| && o.tenant == b.tenant
    && b.spent == o.spent + TotalOwed(usage[o.at..], id, b.tenant)
  }

  ghost predicate Balanced(openings: Openings, usage: seq<Event>, budgets: Budgets) {
    forall id :: id in budgets ==> id in openings && Stands(openings[id], usage, id, budgets[id])
  }

  ghost predicate DistinctIds(usage: seq<Event>) {
    forall i, j :: 0 <= i < j < |usage| ==> usage[i].requestId != usage[j].requestId
  }

  lemma EventKeepsBalance(openings: Openings, p: Progress, e: Event)
    requires Balanced(openings, p.usage, p.budgets) && DistinctIds(p.usage)
    ensures var q := AfterEvent(p, e);
            Balanced(openings, q.usage, q.budgets) && DistinctIds(q.usage) && p.usage <= q.usage
    ensures e.requestId != [] ==> Recorded(AfterEvent(p, e).usage, e.requestId)
    ensures AfterEvent(p, e).budgets.Keys == p.budgets.Keys
  {
    hide Charged;
    if Inserts(p.usage, e) {
      var q := AfterEvent(p, e);
      assert q.usage[|p.usage|] == e;
      ChargedKeys(p.budgets, e);
      forall id | id in q.budgets ensures id in openings && Stands(openings[id], q.usage, id, q.budgets[id]) {
        BudgetStands(openings[id], p, e, id);
      }
    }
  }

  lemma ChargedKeys(budgets: Budgets, e: Event)
    ensures Charged(budgets, e).Keys == budgets.Keys
  {
    ChargeKeepsHits(budgets, e, |e.budgets|);
  }

  lemma BudgetStands(o: Opening, p: Progress, e: Event, id: string)
    requires id in p.budgets && Stands(o, p.usage, id, p.budgets[id])
    ensures id in Charged(p.budgets, e) && Stands(o, p.usage + [e], id, Charged(p.budgets, e)[id])
  {
    hide Charged, TotalOwed;
    ChargeAddsWhatIsOwed(p.budgets, e, id);
    assert (p.usage + [e])[o.at..] == p.usage[o.at..] + [e];
    OneMore(p.usage[o.at..], e, id, p.budgets[id].tenant);
  }

  lemma OneMore(usage: seq<Event>, e: Event, id: string, tenant: string)
    ensures TotalOwed(usage + [e], id, tenant) == TotalOwed(usage, id, tenant) + Owed(e, id, tenant)
  {
    assert (usage + [e])[..|usage|] == usage;
  }

  /** Applying a batch keeps the ledger, whatever it repeats. */
  lemma {:induction false} EventsKeepBalance(openings: Openings, p: Progress, events: seq<Event>)
    requires Balanced(openings, p.usage, p.budgets) && DistinctIds(p.usage)
    ensures var q := AfterEvents(p, events);
            Balanced(openings, q.usage, q.budgets) && DistinctIds(q.usage) && p.usage <= q.usage
    ensures forall e :: e in events && e.requestId != [] ==> Recorded(AfterEvents(p, events).usage, e.requestId)
    ensures AfterEvents(p, events).budgets.Keys == p.budgets.Keys
    decreases |events|
  {
    hide Balanced, DistinctIds, AfterEvent, Recorded;
    if events != [] {
      var front, last := events[..|events| - 1], events[|events| - 1];
      EventsKeepBalance(openings, p, front);
      EventKeepsBalance(openings, AfterEvents(p, front), last);
      forall e | e in events && e.requestId != []
        ensures Recorded(AfterEvents(p, events).usage, e.requestId)
      {
        if e in front {
          StaysRecorded(AfterEvents(p, front).usage, AfterEvents(p, events).usage, e.requestId);
        } else {
          assert e == last;
        }
      }
    }
  }

  lemma StaysRecorded(before: seq<Event>, after: seq<Event>, id: string)
    requires before <= after && Recorded(before, id)
    ensures Recorded(after, id)
  {
    var i :| 0 <= i < |before| && before[i].requestId == id;
    assert after[i].requestId == id;
  }

  // ---- what a batch touches ----

  lemma {:induction false} ListedExactly(ids: seq<string>, id: string)
    ensures Listings(ids, id) > 0 <==> id in ids
  {
    if ids != [] {
      ListedExactly(ids[..|ids| - 1], id);
      assert ids == ids[..|ids| - 1] + [ids[|ids| - 1]];
    }
  }

  ghost predicate HasSpent(a: Budgets, b: Budgets, tenant: string) {
    exists id :: id in a && id in b && a[id].tenant == tenant && a[id].spent < b[id].spent
  }

  ghost predicate NoneFell(a: Budgets, b: Budgets) {
    forall id :: id in a ==> id in b && b[id].tenant == a[id].tenant && a[id].spent <= b[id].spent
  }

  lemma OwedIsPositive(e: Event, id: string, tenant: string)
    ensures Owed(e, id, tenant) >= 0
    ensures Owed(e, id, tenant) > 0 <==> e.price > 0 && e.tenant == tenant && id in e.budgets
  {
    ListedExactly(e.budgets, id);
    var n := Listings(e.budgets, id);
    if e.price > 0 && n > 0 {
      assert e.price * n > 0;
    }
  }

  /** An event touches its tenant exactly if it raises one of the tenant's spends. */
  lemma EventSpends(budgets: Budgets, e: Event, tenant: string)
    ensures NoneFell(budgets, Charged(budgets, e))
    ensures tenant in TouchedBy(budgets, e) <==> HasSpent(budgets, Charged(budgets, e), tenant)
  {
    hide Charged, Owed;
    var after := Charged(budgets, e);
    forall id | id in budgets
      ensures id in after && after[id].tenant == budgets[id].tenant && budgets[id].spent <= after[id].spent
      ensures budgets[id].spent < after[id].spent <==>
              e.price > 0 && e.tenant == budgets[id].tenant && id in e.budgets
    {
      ChargeAddsWhatIsOwed(budgets, e, id);
      OwedIsPositive(e, id, budgets[id].tenant);
    }
    if tenant in TouchedBy(budgets, e) {
      var k :| 0 <= k < |e.budgets| && Hits(budgets, e, e.budgets[k]);
      assert e.budgets[k] in budgets && budgets[e.budgets[k]].spent < after[e.budgets[k]].spent;
    }
  }

  lemma {:induction false} TouchedHaveSpent(p: Progress, events: seq<Event>, tenant: string)
    requires p.touched == {}
    ensures var q := AfterEvents(p, events);
            NoneFell(p.budgets, q.budgets) && (tenant in q.touched <==> HasSpent(p.budgets, q.budgets, tenant))
    ensures AfterEvents(p, events).budgets.Keys == p.budgets.Keys
    decreases |events|
  {
    hide Inserts, Charged, TouchedBy;
    if events != [] {
      var q, e := AfterEvents(p, events[..|events| - 1]), events[|events| - 1];
      TouchedHaveSpent(p, events[..|events| - 1], tenant);
      EventSpends(q.budgets, e, tenant);
      ChargedKeys(q.budgets, e);
      SpendingAddsUp(p.budgets, q.budgets, Charged(q.budgets, e), tenant);
    }
  }

  lemma SpendingAddsUp(a: Budgets, b: Budgets, c: Budgets, tenant: string)
    requires NoneFell(a, b) && NoneFell(b, c) && b.Keys == a.Keys
    ensures NoneFell(a, c)
    ensures HasSpent(a, c, tenant) <==> HasSpent(a, b, tenant) || HasSpent(b, c, tenant)
  {
    if HasSpent(b, c, tenant) {
      var id :| id in b && id in c && b[id].tenant == tenant && b[id].spent < c[id].spent;
      assert id in a && id in c && a[id].spent < c[id].spent;
    }
    if HasSpent(a, b, tenant) {
      var id :| id in a && id in b && a[id].tenant == tenant && a[id].spent < b[id].spent;
      assert id in c && a[id].spent < c[id].spent;
    }
  }

  /**
   * A batch keeps every tenant, and moves a version by one exactly if it raised a spend of that tenant:
   * a budget that was charged reaches the workers, and nobody else's snapshot is made again.
   */
  lemma VersionMovesWithSpend(db: Db, events: seq<Event>, tenant: string)
    requires tenant in db.versions
    ensures var after := Applied(db, events);
            && after.versions.Keys == db.versions.Keys
            && after.versions[tenant]
               == db.versions[tenant] + if HasSpent(db.budgets, after.budgets, tenant) then 1 else 0
  {
    hide AfterEvents, HasSpent;
    TouchedHaveSpent(Progress(db.usage, db.budgets, {}), events, tenant);
  }

  /** The listings counted as unknown are those that name no budget of the event's tenant. */
  lemma {:induction false} UnknownAreCounted(budgets: Budgets, e: Event, k: nat)
    requires k <= |e.budgets|
    ensures Unknown(budgets, e, k) == |set i | 0 <= i < k && !Hits(budgets, e, e.budgets[i])|
  {
    var all := set i | 0 <= i < k && !Hits(budgets, e, e.budgets[i]);
    if k > 0 {
      UnknownAreCounted(budgets, e, k - 1);
      var before := set i | 0 <= i < k - 1 && !Hits(budgets, e, e.budgets[i]);
      assert all == before + if Hits(budgets, e, e.budgets[k - 1]) then {} else {k - 1};
    }
  }
}
