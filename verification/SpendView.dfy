/**
 * The spend a worker sees, across the two planes.
 *
 * Every charge commits together with a bump of the tenant's layer version, and a
 * worker refuses a snapshot that lowers a version it has.  So, without a rollback
 * and while a tenant stays present, the spend served to that tenant never
 * decreases, however late or out of order snapshots arrive, as long as no other
 * commit writes a lower version back.  Provisioning and key management read a
 * version and write it back one higher, so they do exactly that when two bumps
 * were committed in between, and one version then stands for two spends.
 */
module SpendView {
  import opened Options
  import opened Accounting
  import Holder

  /** Every budget belongs to a tenant that exists. */
  ghost predicate TenantsExist(db: Db) {
    forall id :: id in db.budgets ==> db.budgets[id].tenant in db.versions
  }

  lemma {:induction false} ListedIsNamed(ids: seq<string>, id: string)
    requires Listings(ids, id) > 0
    ensures exists k :: 0 <= k < |ids| && ids[k] == id
  {
    if ids[|ids| - 1] != id {
      ListedIsNamed(ids[..|ids| - 1], id);
      var k :| 0 <= k < |ids| - 1 && ids[..|ids| - 1][k] == id;
      assert ids[k] == id;
    }
  }

  lemma EventTouches(p: Progress, e: Event, id: string)
    requires id in p.budgets
    ensures var q := AfterEvent(p, e);
            && id in q.budgets && q.budgets[id].tenant == p.budgets[id].tenant
            && p.budgets[id].spent <= q.budgets[id].spent
            && p.touched <= q.touched
            && (p.budgets[id].spent != q.budgets[id].spent ==> p.budgets[id].tenant in q.touched)
  {
    hide Charged;
    if Inserts(p.usage, e) {
      ChargeAddsWhatIsOwed(p.budgets, e, id);
      var owed := Owed(e, id, p.budgets[id].tenant);
      if owed != 0 {
        ListedIsNamed(e.budgets, id);
        var k :| 0 <= k < |e.budgets| && e.budgets[k] == id;
        assert Hits(p.budgets, e, e.budgets[k]);
      }
      assert owed >= 0;
    }
  }

  lemma {:induction false} EventsTouch(p: Progress, events: seq<Event>, id: string)
    requires id in p.budgets
    ensures var q := AfterEvents(p, events);
            && id in q.budgets && q.budgets[id].tenant == p.budgets[id].tenant
            && p.budgets[id].spent <= q.budgets[id].spent
            && (p.budgets[id].spent != q.budgets[id].spent ==> p.budgets[id].tenant in q.touched)
    decreases |events|
  {
    hide AfterEvent;
    if events != [] {
      EventsTouch(p, events[..|events| - 1], id);
      EventTouches(AfterEvents(p, events[..|events| - 1]), events[|events| - 1], id);
    }
  }

  /** `b` shows the tenant at a version no lower, and at the same version exactly the same spend. */
  ghost predicate NoNewerThan(a: Db, b: Db, id: string) {
    && id in a.budgets && id in b.budgets
    && var t := a.budgets[id].tenant;
       && b.budgets[id].tenant == t && t in a.versions && t in b.versions
       && a.versions[t] <= b.versions[t]
       && a.budgets[id].spent <= b.budgets[id].spent
       && (a.versions[t] == b.versions[t] ==> a.budgets[id].spent == b.budgets[id].spent)
  }

  /** A commit that changes a budget's spend raises it and its tenant's version with it. */
  lemma CommitRaisesBoth(db: Db, events: seq<Event>, id: string)
    requires TenantsExist(db) && id in db.budgets
    ensures NoNewerThan(db, Applied(db, events), id)
  {
    EventsTouch(Progress(db.usage, db.budgets, {}), events, id);
  }

  /** A committed transaction: a batch of usage events, or a change by provisioning or key management. */
  datatype Commit = Charge(events: seq<Event>) | Change(next: Db)

  /** Existing budgets keep their tenant and spend, new ones belong to a tenant that exists. */
  ghost predicate Administers(a: Db, b: Db) {
    && (forall id :: id in a.budgets ==> id in b.budgets && b.budgets[id] == a.budgets[id])
    && a.versions.Keys <= b.versions.Keys
    && TenantsExist(b)
  }

  ghost predicate LowersNone(a: Db, b: Db) {
    forall t :: t in a.versions && t in b.versions ==> a.versions[t] <= b.versions[t]
  }

  ghost predicate CommitsTo(a: Db, c: Commit, b: Db) {
    match c
    case Charge(events) => b == Applied(a, events)
    case Change(next) => b == next && Administers(a, b)
  }

  /** The states of the database, one after each commit. */
  ghost predicate Ledger(dbs: seq<Db>, commits: seq<Commit>) {
    && |dbs| == |commits| + 1
    && TenantsExist(dbs[0])
    && forall i :: 0 <= i < |commits| ==> CommitsTo(dbs[i], commits[i], dbs[i + 1])
  }

  /** A ledger in which no change lowers a version. */
  ghost predicate History(dbs: seq<Db>, commits: seq<Commit>) {
    && Ledger(dbs, commits)
    && forall i :: 0 <= i < |commits| ==> commits[i].Change? ==> LowersNone(dbs[i], dbs[i + 1])
  }

  lemma CommitKeepsTenants(db: Db, events: seq<Event>)
    requires TenantsExist(db)
    ensures TenantsExist(Applied(db, events))
  {
    hide AfterEvents;
    var p := Progress(db.usage, db.budgets, {});
    BudgetsStay(p, events);
    forall id | id in Applied(db, events).budgets
      ensures Applied(db, events).budgets[id].tenant in db.versions
    {
      EventsTouch(p, events, id);
    }
  }

  lemma {:induction false} BudgetsStay(p: Progress, events: seq<Event>)
    ensures AfterEvents(p, events).budgets.Keys == p.budgets.Keys
    decreases |events|
  {
    if events != [] {
      var front, e := events[..|events| - 1], events[|events| - 1];
      BudgetsStay(p, front);
      ChargeKeepsHits(AfterEvents(p, front).budgets, e, |e.budgets|);
    }
  }

  /** The budget stays, with its tenant, and its spend does not fall. */
  ghost predicate Kept(a: Db, b: Db, id: string) {
    && id in a.budgets && id in b.budgets && b.budgets[id].tenant == a.budgets[id].tenant
    && a.budgets[id].tenant in a.versions && a.budgets[id].tenant in b.versions
    && a.budgets[id].spent <= b.budgets[id].spent
  }

  lemma CommitIsNoNewer(a: Db, c: Commit, b: Db, id: string)
    requires TenantsExist(a) && CommitsTo(a, c, b)
    ensures TenantsExist(b)
    ensures id in a.budgets ==> Kept(a, b, id)
    ensures id in a.budgets && (c.Change? ==> LowersNone(a, b)) ==> NoNewerThan(a, b, id)
  {
    hide Applied;
    if c.Charge? {
      CommitKeepsTenants(a, c.events);
      if id in a.budgets {
        CommitRaisesBoth(a, c.events, id);
      }
    }
  }

  lemma {:induction false} TenantsAlwaysExist(dbs: seq<Db>, commits: seq<Commit>, i: nat)
    requires Ledger(dbs, commits) && i < |dbs|
    ensures TenantsExist(dbs[i])
  {
    hide TenantsExist, CommitsTo, Kept, NoNewerThan, LowersNone;
    if i > 0 {
      TenantsAlwaysExist(dbs, commits, i - 1);
      assert CommitsTo(dbs[i - 1], commits[i - 1], dbs[i - 1 + 1]);
      CommitIsNoNewer(dbs[i - 1], commits[i - 1], dbs[i], "");
    }
  }

  /** Once a budget exists it stays, and its spend never falls, whatever versions changes write. */
  lemma {:induction false} BudgetIsKept(dbs: seq<Db>, commits: seq<Commit>, i: nat, j: nat, id: string)
    requires Ledger(dbs, commits) && i <= j < |dbs| && id in dbs[i].budgets
    ensures Kept(dbs[i], dbs[j], id)
    decreases j - i
  {
    hide CommitsTo, NoNewerThan, LowersNone;
    TenantsAlwaysExist(dbs, commits, i);
    if i < j {
      BudgetIsKept(dbs, commits, i, j - 1, id);
      TenantsAlwaysExist(dbs, commits, j - 1);
      assert CommitsTo(dbs[j - 1], commits[j - 1], dbs[j - 1 + 1]);
      CommitIsNoNewer(dbs[j - 1], commits[j - 1], dbs[j], id);
    }
  }

  /** Once a budget exists, earlier states are no newer, whatever is committed in between. */
  lemma {:induction false} EarlierIsNoNewer(dbs: seq<Db>, commits: seq<Commit>, i: nat, j: nat, id: string)
    requires History(dbs, commits) && i <= j < |dbs| && id in dbs[i].budgets
    ensures NoNewerThan(dbs[i], dbs[j], id)
    decreases j - i
  {
    hide CommitsTo, LowersNone;
    TenantsAlwaysExist(dbs, commits, i);
    if i < j {
      EarlierIsNoNewer(dbs, commits, i, j - 1, id);
      TenantsAlwaysExist(dbs, commits, j - 1);
      assert CommitsTo(dbs[j - 1], commits[j - 1], dbs[j - 1 + 1]);
      assert commits[j - 1].Change? ==> LowersNone(dbs[j - 1], dbs[j - 1 + 1]);
      CommitIsNoNewer(dbs[j - 1], commits[j - 1], dbs[j], id);
    }
  }

  /** A snapshot carries the tenant's layer as the database had it. */
  ghost predicate BuiltFrom(snap: Holder.Snapshot, db: Db, tenant: string) {
    tenant in snap.tenants && tenant in db.versions && snap.tenants[tenant] == db.versions[tenant]
  }

  /** A snapshot shows the budget as the database had it. */
  ghost predicate Shows(snap: Holder.Snapshot, db: Db, id: string) {
    id in db.budgets && BuiltFrom(snap, db, db.budgets[id].tenant)
  }

  /** One accepted swap never lowers the spend, whichever of the two states is the older one. */
  lemma AcceptedSwapKeepsSpend(
    dbs: seq<Db>, commits: seq<Commit>, i: nat, j: nat, id: string, a: Holder.Snapshot, b: Holder.Snapshot)
    requires History(dbs, commits) && i < |dbs| && j < |dbs|
    requires Shows(a, dbs[i], id) && Shows(b, dbs[j], id)
    requires Holder.Monotonic(a, b)
    ensures dbs[i].budgets[id].spent <= dbs[j].budgets[id].spent
  {
    hide History;
    if i <= j {
      EarlierIsNoNewer(dbs, commits, i, j, id);
    } else {
      EarlierIsNoNewer(dbs, commits, j, i, id);
    }
  }

  /**
   * In every run of the holder without a rollback, serving snapshots built from any states of one
   * history in any order, a budget's spend never goes down while its tenant stays present, whatever
   * was served before and after.
   */
  lemma {:induction false} SpendSeenNeverDecreases(
    dbs: seq<Db>, commits: seq<Commit>, id: string,
    moves: seq<Holder.Move>, first: Holder.Snapshot, s: Holder.State, at: seq<nat>, g: nat, g': nat)
    requires History(dbs, commits)
    requires Holder.Reaches(Holder.Init(first), moves, s)
    requires forall i :: 0 <= i < |moves| ==> !moves[i].action.LockForRollback?
    requires |at| == |s.gens| && g <= g' < |s.gens|
    requires forall k :: g <= k <= g' ==> at[k] < |dbs| && Shows(s.gens[k].snap, dbs[at[k]], id)
    ensures Shows(s.gens[g].snap, dbs[at[g]], id) && Shows(s.gens[g'].snap, dbs[at[g']], id)
    ensures dbs[at[g]].budgets[id].spent <= dbs[at[g']].budgets[id].spent
    decreases g'
  {
    hide Holder.Reaches, Holder.Inv, Holder.Monotonic, BuiltFrom, History;
    Holder.InitHolds(first);
    Holder.WithoutRollbackVersionsRise(Holder.Init(first), moves, s);
    if g < g' {
      SpendSeenNeverDecreases(dbs, commits, id, moves, first, s, at, g, g' - 1);
      AcceptedSwapKeepsSpend(dbs, commits, at[g' - 1], at[g'], id, s.gens[g' - 1].snap, s.gens[g'].snap);
    }
  }

  // ---- the three ways it can fail ----

  /** What the holder serves. */
  function Served(s: Holder.State): Holder.Snapshot
    requires s.current < |s.gens|
  {
    s.gens[s.current].snap
  }

  /** Some run without a rollback serves `a` first and `b` at its end. */
  ghost predicate ServesThen(a: Holder.Snapshot, b: Holder.Snapshot) {
    exists moves: seq<Holder.Move>, s: Holder.State ::
      && Holder.Reaches(Holder.Init(a), moves, s)
      && s.current < |s.gens| && Served(s) == b
      && forall i :: 0 <= i < |moves| ==> !moves[i].action.LockForRollback?
  }

  /**
   * The version a key or provisioning change writes: one more than it read, whatever was committed
   * since the read.
   */
  function WriteBack(db: Db, tenant: string, read: nat): Db {
    db.(versions := db.versions[tenant := read + 1])
  }

  /** Such a change lowers a version exactly when at least two bumps were committed since it read. */
  lemma WriteBackLowersExactly(db: Db, tenant: string, read: nat)
    requires TenantsExist(db) && tenant in db.versions
    ensures Administers(db, WriteBack(db, tenant, read))
    ensures LowersNone(db, WriteBack(db, tenant, read)) <==> db.versions[tenant] <= read + 1
  {
    var after := WriteBack(db, tenant, read);
    assert after.versions[tenant] == read + 1;
  }

  /**
   * After a change and one batch that charges the budget, a snapshot of the state before the change
   * shows less spend, and its version is no bar to it exactly when the change lowered the version.
   */
  lemma ReusedExactlyWhenLowered(db: Db, changed: Db, events: seq<Event>, id: string)
    requires TenantsExist(db) && Administers(db, changed) && id in db.budgets
    requires id in Applied(changed, events).budgets
          && Applied(changed, events).budgets[id].spent != changed.budgets[id].spent
    ensures var next, t := Applied(changed, events), db.budgets[id].tenant;
            && db.budgets[id].spent < next.budgets[id].spent
            && t in next.versions && t in changed.versions
            && (next.versions[t] <= db.versions[t] <==> changed.versions[t] < db.versions[t])
  {
    EventsTouch(Progress(changed.usage, changed.budgets, {}), events, id);
  }

  /** A worker that serves the newer state then accepts the stale one, and the spend it shows goes down. */
  lemma LoweredVersionServesLessSpend(
    db: Db, changed: Db, events: seq<Event>, id: string, newer: Holder.Snapshot, stale: Holder.Snapshot)
    requires TenantsExist(db) && Administers(db, changed) && id in db.budgets
    requires id in Applied(changed, events).budgets
          && Applied(changed, events).budgets[id].spent != changed.budgets[id].spent
    requires Shows(newer, Applied(changed, events), id) && Shows(stale, db, id)
    requires newer.global <= stale.global
    requires forall t :: t in newer.tenants && t in stale.tenants && t != db.budgets[id].tenant ==>
               newer.tenants[t] <= stale.tenants[t]
    ensures db.budgets[id].spent < Applied(changed, events).budgets[id].spent
    ensures changed.versions[db.budgets[id].tenant] < db.versions[db.budgets[id].tenant] ==>
              ServesThen(newer, stale)
    ensures Holder.Monotonic(newer, stale) <==>
              changed.versions[db.budgets[id].tenant] < db.versions[db.budgets[id].tenant]
  {
    hide Applied;
    ReusedExactlyWhenLowered(db, changed, events, id);
    TenantOfBudget(changed, events, id);
    if Holder.Monotonic(newer, stale) {
      AcceptedIsServed(newer, stale);
    }
  }

  lemma TenantOfBudget(db: Db, events: seq<Event>, id: string)
    requires id in db.budgets
    ensures id in Applied(db, events).budgets && Applied(db, events).budgets[id].tenant == db.budgets[id].tenant
  {
    EventsTouch(Progress(db.usage, db.budgets, {}), events, id);
  }

  lemma AcceptedIsServed(a: Holder.Snapshot, b: Holder.Snapshot)
    requires Holder.Monotonic(a, b)
    ensures ServesThen(a, b)
  {
    hide Holder.Reaches, Holder.Inv, Holder.Monotonic;
    var moves, s := SwapIn(a, b);
    assert Served(s) == b;
  }

  /** Every accepted swap between two states of the ledger keeps the spend. */
  ghost predicate SwapsKeepSpend(dbs: seq<Db>, id: string) {
    forall i: nat, j: nat, a, b :: i < |dbs| && j < |dbs| ==>
      Shows(a, dbs[i], id) && Shows(b, dbs[j], id) && Holder.Monotonic(a, b) ==>
        dbs[i].budgets[id].spent <= dbs[j].budgets[id].spent
  }

  /** A higher spend always came with a higher version. */
  ghost predicate VersionsFollowSpend(dbs: seq<Db>, id: string) {
    forall i, j :: 0 <= i < j < |dbs| && id in dbs[i].budgets ==> Follows(dbs[i], dbs[j], id)
  }

  ghost predicate Follows(a: Db, b: Db, id: string)
    requires id in a.budgets
  {
    && id in b.budgets
    && (a.budgets[id].spent < b.budgets[id].spent ==>
          var t := a.budgets[id].tenant;
          t in a.versions && t in b.versions && a.versions[t] < b.versions[t])
  }

  /**
   * Over a whole ledger, whatever versions its changes write: every accepted swap between two of its
   * states keeps the spend if and only if a higher spend always came with a higher version.
   */
  lemma SwapsKeepSpendExactly(dbs: seq<Db>, commits: seq<Commit>, id: string)
    requires Ledger(dbs, commits)
    ensures SwapsKeepSpend(dbs, id) <==> VersionsFollowSpend(dbs, id)
  {
    hide Ledger, Holder.Monotonic;
    if VersionsFollowSpend(dbs, id) {
      forall i: nat, j: nat, a, b
        | i < |dbs| && j < |dbs| && Shows(a, dbs[i], id) && Shows(b, dbs[j], id) && Holder.Monotonic(a, b)
        ensures dbs[i].budgets[id].spent <= dbs[j].budgets[id].spent
      {
        FollowingSwapKeepsSpend(dbs, commits, i, j, id, a, b);
      }
    } else {
      var i: nat, j: nat :| i < j < |dbs| && id in dbs[i].budgets && !Follows(dbs[i], dbs[j], id);
      StaleSwapLosesSpend(dbs, commits, i, j, id);
    }
  }

  lemma FollowingSwapKeepsSpend(
    dbs: seq<Db>, commits: seq<Commit>, i: nat, j: nat, id: string, a: Holder.Snapshot, b: Holder.Snapshot)
    requires Ledger(dbs, commits) && VersionsFollowSpend(dbs, id) && i < |dbs| && j < |dbs|
    requires Shows(a, dbs[i], id) && Shows(b, dbs[j], id) && Holder.Monotonic(a, b)
    ensures dbs[i].budgets[id].spent <= dbs[j].budgets[id].spent
  {
    hide Ledger;
    if i <= j {
      BudgetIsKept(dbs, commits, i, j, id);
    } else {
      BudgetIsKept(dbs, commits, j, i, id);
      assert Follows(dbs[j], dbs[i], id);
    }
  }

  /** Where a higher spend came without a higher version, the older state is accepted after the newer. */
  lemma StaleSwapLosesSpend(dbs: seq<Db>, commits: seq<Commit>, i: nat, j: nat, id: string)
    requires Ledger(dbs, commits) && i < j < |dbs| && id in dbs[i].budgets && !Follows(dbs[i], dbs[j], id)
    ensures !SwapsKeepSpend(dbs, id)
  {
    hide Ledger;
    BudgetIsKept(dbs, commits, i, j, id);
    var t := dbs[i].budgets[id].tenant;
    var newer := Holder.Snapshot(0, map[t := dbs[j].versions[t]]);
    var stale := Holder.Snapshot(0, map[t := dbs[i].versions[t]]);
    assert Shows(newer, dbs[j], id) && Shows(stale, dbs[i], id) && Holder.Monotonic(newer, stale);
    assert dbs[i].budgets[id].spent < dbs[j].budgets[id].spent;
  }

  /**
   * The history of a lost update: a change reads the version, two charging batches commit, and the
   * change writes back one more than it read.  That is the version of the state after the first batch,
   * now at the spend of the second, and the stale state is accepted.
   */
  lemma LostUpdateReusesAVersion(d0: Db, b1: seq<Event>, b2: seq<Event>, id: string)
    requires TenantsExist(d0) && id in d0.budgets
    requires var d1 := Applied(d0, b1);
             var d2 := Applied(d1, b2);
             && id in d1.budgets && d1.budgets[id].spent != d0.budgets[id].spent
             && id in d2.budgets && d2.budgets[id].spent != d1.budgets[id].spent
    ensures var t := d0.budgets[id].tenant;
            var d1 := Applied(d0, b1);
            var d2 := Applied(d1, b2);
            var d3 := WriteBack(d2, t, d0.versions[t]);
            && Ledger([d0, d1, d2, d3], [Charge(b1), Charge(b2), Change(d3)])
            && t in d1.versions && d3.versions[t] == d1.versions[t]
            && d1.budgets[id].spent < d3.budgets[id].spent
            && ServesThen(Holder.Snapshot(0, map[t := d3.versions[t]]), Holder.Snapshot(0, map[t := d1.versions[t]]))
  {
    hide Applied;
    var t := d0.budgets[id].tenant;
    var d1 := Applied(d0, b1);
    var d2 := Applied(d1, b2);
    BumpedOnce(d0, b1, id);
    BumpedOnce(d1, b2, id);
    WriteBackLowersExactly(d2, t, d0.versions[t]);
    var d3 := WriteBack(d2, t, d0.versions[t]);
    AcceptedIsServed(Holder.Snapshot(0, map[t := d3.versions[t]]), Holder.Snapshot(0, map[t := d1.versions[t]]));
    FourStates(d0, d1, d2, d3, Charge(b1), Charge(b2), Change(d3));
  }

  lemma FourStates(a: Db, b: Db, c: Db, d: Db, x: Commit, y: Commit, z: Commit)
    requires TenantsExist(a) && CommitsTo(a, x, b) && CommitsTo(b, y, c) && CommitsTo(c, z, d)
    ensures Ledger([a, b, c, d], [x, y, z])
  {
    hide CommitsTo, TenantsExist;
    var dbs, commits := [a, b, c, d], [x, y, z];
    forall i | 0 <= i < |commits| ensures CommitsTo(dbs[i], commits[i], dbs[i + 1]) {
      assert i == 0 || i == 1 || i == 2;
    }
  }

  /** Two requests of price 1 on one budget while a key is changed: the spend seen falls from 2 to 1. */
  lemma LostUpdateForTwoRequests()
    ensures var d0 := Db([], map["b" := Budget("t", 0)], map["t" := 1]);
            var d1 := Applied(d0, [Event("r1", "t", 1, ["b"])]);
            var d2 := Applied(d1, [Event("r2", "t", 1, ["b"])]);
            var d3 := WriteBack(d2, "t", 1);
            && "b" in d1.budgets && d1.budgets["b"].spent == 1 && "t" in d1.versions
            && "b" in d3.budgets && d3.budgets["b"].spent == 2
            && ServesThen(Holder.Snapshot(0, map["t" := d3.versions["t"]]),
                          Holder.Snapshot(0, map["t" := d1.versions["t"]]))
  {
    hide Applied;
    var e1, e2 := Event("r1", "t", 1, ["b"]), Event("r2", "t", 1, ["b"]);
    var d0 := Db([], map["b" := Budget("t", 0)], map["t" := 1]);
    var d1 := Applied(d0, [e1]);
    FreshEventCharges(d0, e1, "b");
    BumpedOnce(d0, [e1], "b");
    FreshEventCharges(d1, e2, "b");
    LostUpdateReusesAVersion(d0, [e1], [e2], "b");
  }

  lemma BumpedOnce(db: Db, events: seq<Event>, id: string)
    requires TenantsExist(db) && id in db.budgets
    requires id in Applied(db, events).budgets && Applied(db, events).budgets[id].spent != db.budgets[id].spent
    ensures var next, t := Applied(db, events), db.budgets[id].tenant;
            && TenantsExist(next)
            && next.budgets[id].tenant == t && t in next.versions && next.versions[t] == db.versions[t] + 1
            && db.budgets[id].spent < next.budgets[id].spent
  {
    EventsTouch(Progress(db.usage, db.budgets, {}), events, id);
    CommitKeepsTenants(db, events);
  }

  /** Such batches exist: an event with a fresh id that names the budget and costs something charges it. */
  lemma FreshEventCharges(db: Db, e: Event, id: string)
    requires id in db.budgets && Inserts(db.usage, e) && e.tenant == db.budgets[id].tenant
    requires e.budgets == [id] && e.price > 0
    ensures id in Applied(db, [e]).budgets && Applied(db, [e]).budgets[id].spent == db.budgets[id].spent + e.price
    ensures Applied(db, [e]).usage == db.usage + [e]
  {
    hide Charged, TouchedBy, Inserts;
    ChargeAddsWhatIsOwed(db.budgets, e, id);
    var p := Progress(db.usage, db.budgets, {});
    assert [id][..0] == [] && Listings([id], id) == 1;
    AfterEventsStep(p, [e], 0);
    assert [e][..1] == [e] && [e][..0] == [];
    NoEvents(p, [e][..0]);
    assert AfterEvents(p, [e]) == AfterEvent(p, e);
  }

  /** While a tenant stays present its version never falls, without a rollback. */
  lemma {:induction false} VersionsRiseWhilePresent(s: Holder.State, tenant: string, g: nat, g': nat)
    requires Holder.Forward(s) && g <= g' < |s.gens|
    requires forall k :: g <= k <= g' ==> tenant in s.gens[k].snap.tenants
    ensures s.gens[g].snap.tenants[tenant] <= s.gens[g'].snap.tenants[tenant]
    decreases g'
  {
    if g < g' {
      VersionsRiseWhilePresent(s, tenant, g, g' - 1);
      assert Holder.Monotonic(s.gens[g' - 1].snap, s.gens[g'].snap);
    }
  }

  /** Without a rollback a version that fell was absent in between. */
  lemma {:induction false} FallsOnlyThroughAbsence(
    first: Holder.Snapshot, moves: seq<Holder.Move>, s: Holder.State, tenant: string, g: nat, g': nat)
    requires Holder.Reaches(Holder.Init(first), moves, s) && g < g' < |s.gens|
    requires forall i :: 0 <= i < |moves| ==> !moves[i].action.LockForRollback?
    requires tenant in s.gens[g].snap.tenants && tenant in s.gens[g'].snap.tenants
    requires s.gens[g'].snap.tenants[tenant] < s.gens[g].snap.tenants[tenant]
    ensures exists k :: g < k < g' && tenant !in s.gens[k].snap.tenants
  {
    hide Holder.Reaches, Holder.Inv;
    Holder.InitHolds(first);
    Holder.WithoutRollbackVersionsRise(Holder.Init(first), moves, s);
    if forall k :: g < k < g' ==> tenant in s.gens[k].snap.tenants {
      VersionsRiseWhilePresent(s, tenant, g, g');
    }
  }

  /**
   * A tenant that leaves and comes back may come back at an older state: whatever the history, if `c`
   * shows less spend than `a` and the tenant is missing from a snapshot accepted between them, some run
   * without a rollback serves `a`, then `c`, at a strictly lower version.
   */
  lemma ReturningTenantMayRegress(
    dbs: seq<Db>, commits: seq<Commit>, i: nat, j: nat, id: string,
    a: Holder.Snapshot, b: Holder.Snapshot, c: Holder.Snapshot)
    requires History(dbs, commits) && i < |dbs| && j < |dbs| && Shows(a, dbs[i], id) && Shows(c, dbs[j], id)
    requires dbs[j].budgets[id].spent < dbs[i].budgets[id].spent
    requires dbs[i].budgets[id].tenant !in b.tenants && Holder.Monotonic(a, b) && Holder.Monotonic(b, c)
    ensures ServesThen(a, c)
    ensures dbs[i].budgets[id].tenant in c.tenants
         && c.tenants[dbs[i].budgets[id].tenant] < a.tenants[dbs[i].budgets[id].tenant]
  {
    hide History, Holder.Reaches, Holder.Inv, Holder.Monotonic;
    if i <= j {
      EarlierIsNoNewer(dbs, commits, i, j, id);
    } else {
      EarlierIsNoNewer(dbs, commits, j, i, id);
    }
    var moves, s := SwapIn(a, b);
    moves, s := RunOn(a, moves, s, Holder.LockForSwap(c));
    moves, s := RunOn(a, moves, s, Holder.ShiftSlots);
    moves, s := RunOn(a, moves, s, Holder.StoreNext);
    assert Served(s) == c;
  }

  /**
   * A rollback serves the older state again: whatever two snapshots were accepted one after the other,
   * a run serves `next`, then `first`, at a version strictly lower for every tenant that had moved.
   */
  lemma RollbackMayRegress(first: Holder.Snapshot, next: Holder.Snapshot, tenant: string)
    requires Holder.Monotonic(first, next)
    requires tenant in first.tenants && tenant in next.tenants && first.tenants[tenant] != next.tenants[tenant]
    ensures exists moves: seq<Holder.Move>, mid: Holder.State, more: seq<Holder.Move>, s: Holder.State ::
              && Holder.Reaches(Holder.Init(first), moves, mid) && mid.current < |mid.gens| && Served(mid) == next
              && Holder.Reaches(mid, more, s) && s.current < |s.gens|
              && tenant in Served(s).tenants && Served(s).tenants[tenant] < Served(mid).tenants[tenant]
  {
    assert first.tenants[tenant] < next.tenants[tenant];
    var moves, mid := SwapIn(first, next);
    var more, s := RollBack(first, next, mid);
    assert Served(mid) == next && Served(s) == first;
  }

  lemma RollBack(first: Holder.Snapshot, next: Holder.Snapshot, mid: Holder.State)
    returns (more: seq<Holder.Move>, s: Holder.State)
    requires Holder.Inv(mid) && Holder.InBounds(mid)
    requires mid == Holder.State([Holder.Generation(first, 1, 0), Holder.Generation(next, 1, 0)], 1, Some(0), None,
                                 map[0 := Holder.Idle], 1)
    ensures Holder.Reaches(mid, more, s) && |s.gens| == 2 && s.current == 0 && s.gens[0].snap == first
  {
    hide Holder.Reaches, Holder.Inv;
    Holder.ReachesSelf(mid);
    Holder.ReachesOn(mid, [], mid, Holder.Move(0, Holder.LockForRollback));
    var locked := Holder.Step(mid, 0, Holder.LockForRollback);
    Holder.StepKeepsInv(mid, 0, Holder.LockForRollback);
    BoundsOf(locked);
    var lock := [] + [Holder.Move(0, Holder.LockForRollback)];
    Holder.ReachesOn(mid, lock, locked, Holder.Move(0, Holder.StorePrevious));
    more, s := lock + [Holder.Move(0, Holder.StorePrevious)], Holder.Step(locked, 0, Holder.StorePrevious);
  }

  lemma BoundsOf(s: Holder.State)
    requires Holder.Inv(s)
    ensures Holder.InBounds(s)
  {
  }

  lemma SwapIn(first: Holder.Snapshot, next: Holder.Snapshot) returns (moves: seq<Holder.Move>, s: Holder.State)
    requires Holder.Monotonic(first, next)
    ensures Holder.Reaches(Holder.Init(first), moves, s) && Holder.Inv(s) && Holder.InBounds(s)
    ensures forall i :: 0 <= i < |moves| ==> !moves[i].action.LockForRollback?
    ensures s == Holder.State([Holder.Generation(first, 1, 0), Holder.Generation(next, 1, 0)], 1, Some(0), None,
                              map[0 := Holder.Idle], 1)
  {
    hide Holder.Reaches, Holder.Inv, Holder.Monotonic;
    Holder.ReachesSelf(Holder.Init(first));
    Holder.InitHolds(first);
    moves, s := RunOn(first, [], Holder.Init(first), Holder.LockForSwap(next));
    moves, s := RunOn(first, moves, s, Holder.ShiftSlots);
    moves, s := RunOn(first, moves, s, Holder.StoreNext);
    moves, s := RunOn(first, moves, s, Holder.Unlock);
  }

  /** Thread 0 takes one more step. */
  lemma RunOn(first: Holder.Snapshot, moves: seq<Holder.Move>, s: Holder.State, a: Holder.Action)
    returns (moves': seq<Holder.Move>, s': Holder.State)
    requires Holder.Reaches(Holder.Init(first), moves, s) && Holder.Inv(s) && Holder.InBounds(s)
    requires Holder.Enabled(s, 0, a)
    ensures Holder.Reaches(Holder.Init(first), moves', s') && Holder.Inv(s') && Holder.InBounds(s')
    ensures s' == Holder.Step(s, 0, a) && moves' == moves + [Holder.Move(0, a)]
  {
    hide Holder.Reaches, Holder.Step, Holder.Enabled, Holder.CountsBalance, Holder.RetiresOnce, Holder.SlotsShifted;
    Holder.ReachesOn(Holder.Init(first), moves, s, Holder.Move(0, a));
    Holder.StepKeepsInv(s, 0, a);
    moves', s' := moves + [Holder.Move(0, a)], Holder.Step(s, 0, a);
  }
}
