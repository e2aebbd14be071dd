/**
 * Any number of accounting replicas over an at-least-once stream.
 *
 * A batch is delivered, applied and committed as one transaction, and only then
 * acknowledged.  A replica may crash at any point, before or after its commit, and
 * whatever was not acknowledged may be delivered again, to anyone, in any batch.
 * Budgets may be created at any time, and charging copes with budgets that are gone.
 */
module AccountingConsumers {
  import opened Accounting
  import opened Sums

  datatype Phase = Idle | Delivered(batch: seq<Event>) | Stored(batch: seq<Event>)

  /** `openings` records where each budget began. */
  datatype State = State(db: Db, openings: Openings, replicas: map<nat, Phase>, acked: seq<Event>)

  /** Creating a budget writes its tenant's version too; deleting one happens outside the control plane. */
  datatype Action =
    | Deliver(batch: seq<Event>) | Commit | Ack | Crash
    | CreateBudget(id: string, tenant: string, version: nat) | DeleteBudget(id: string)

  function Start(db: Db): State {
    State(db, OpeningsOf(db), map[], [])
  }

  function PhaseOf(s: State, r: nat): Phase {
    if r in s.replicas then s.replicas[r] else Idle
  }

  predicate Enabled(s: State, r: nat, a: Action) {
    match a
    case Deliver(_) => PhaseOf(s, r).Idle?
    case Commit => PhaseOf(s, r).Delivered?
    case Ack => PhaseOf(s, r).Stored?
    case Crash => true
    case CreateBudget(id, tenant, _) => id !in s.db.budgets && tenant in s.db.versions
    case DeleteBudget(_) => true
  }

  function Goto(s: State, r: nat, p: Phase): State {
    s.(replicas := s.replicas[r := p])
  }

  function Step(s: State, r: nat, a: Action): State
    requires Enabled(s, r, a)
  {
    var p := PhaseOf(s, r);
    match a
    case Deliver(batch) => Goto(s, r, Delivered(batch))
    case Commit => Goto(s.(db := Applied(s.db, p.batch)), r, Stored(p.batch))
    case Ack => Goto(s.(acked := s.acked + p.batch), r, Idle)
    case Crash => Goto(s, r, Idle)
    case CreateBudget(id, tenant, version) =>
      s.(db := Db(s.db.usage, s.db.budgets[id := Budget(tenant, 0)], s.db.versions[tenant := version]),
         openings := s.openings[id := Opening(|s.db.usage|, tenant, 0)])
    case DeleteBudget(id) => s.(db := s.db.(budgets := s.db.budgets - {id}))
  }

  ghost predicate AllRecorded(usage: seq<Event>, events: seq<Event>) {
    forall e :: e in events && e.requestId != [] ==> Recorded(usage, e.requestId)
  }

  /** A budget began either before the run or, with nothing spent, during it. */
  ghost predicate Opened(start: Db, openings: Openings) {
    forall id :: id in openings ==>
      || (id in start.budgets && openings[id] == OpeningsOf(start)[id])
      || (openings[id].spent == 0 && openings[id].at >= |start.usage|)
  }

  ghost predicate Inv(start: Db, s: State) {
    && start.usage <= s.db.usage
    && Opened(start, s.openings)
    && Balanced(s.openings, s.db.usage, s.db.budgets)
    && DistinctIds(s.db.usage)
    && (forall r :: r in s.replicas && s.replicas[r].Stored? ==> AllRecorded(s.db.usage, s.replicas[r].batch))
    && AllRecorded(s.db.usage, s.acked)
  }

  lemma RecordedForGood(before: seq<Event>, after: seq<Event>, events: seq<Event>)
    requires before <= after && AllRecorded(before, events)
    ensures AllRecorded(after, events)
  {
    forall e | e in events && e.requestId != []
      ensures Recorded(after, e.requestId)
    {
      StaysRecorded(before, after, e.requestId);
    }
  }

  lemma CommitKeepsInv(start: Db, s: State, r: nat)
    requires Inv(start, s) && Enabled(s, r, Commit)
    ensures Inv(start, Step(s, r, Commit))
  {
    hide Balanced, DistinctIds, AfterEvents, AllRecorded, Opened;
    var batch := s.replicas[r].batch;
    EventsKeepBalance(s.openings, Progress(s.db.usage, s.db.budgets, {}), batch);
    var s' := Step(s, r, Commit);
    assert AllRecorded(s'.db.usage, batch) by { hide *; AllOf(s'.db.usage, batch); }
    RecordedForGood(s.db.usage, s'.db.usage, s.acked);
    forall q | q in s'.replicas && s'.replicas[q].Stored?
      ensures AllRecorded(s'.db.usage, s'.replicas[q].batch)
    {
      if q != r { RecordedForGood(s.db.usage, s'.db.usage, s.replicas[q].batch); }
    }
  }

  lemma AllOf(usage: seq<Event>, events: seq<Event>)
    requires forall e :: e in events && e.requestId != [] ==> Recorded(usage, e.requestId)
    ensures AllRecorded(usage, events)
  {
  }

  lemma StepKeepsInv(start: Db, s: State, r: nat, a: Action)
    requires Inv(start, s) && Enabled(s, r, a)
    ensures Inv(start, Step(s, r, a))
  {
    if a.Commit? {
      CommitKeepsInv(start, s, r);
    } else if a.CreateBudget? {
      CreateKeepsInv(start, s, r, a);
    } else {
      hide Stands, DistinctIds, Recorded, OpeningsOf;
    }
  }

  lemma CreateKeepsInv(start: Db, s: State, r: nat, a: Action)
    requires Inv(start, s) && a.CreateBudget? && Enabled(s, r, a)
    ensures Inv(start, Step(s, r, a))
  {
    hide DistinctIds, AllRecorded, OpeningsOf, TotalOwed;
    NothingOwedYet(s.db.usage, a.id, a.tenant);
  }

  lemma NothingOwedYet(usage: seq<Event>, id: string, tenant: string)
    ensures TotalOwed(usage[|usage|..], id, tenant) == 0
  {
    assert usage[|usage|..] == [];
  }

  datatype Move = Move(replica: nat, action: Action)

  ghost predicate Reaches(s: State, moves: seq<Move>, last: State)
    decreases |moves|
  {
    if moves == [] then s == last
    else
      && Enabled(s, moves[0].replica, moves[0].action)
      && Reaches(Step(s, moves[0].replica, moves[0].action), moves[1..], last)
  }

  lemma {:induction false} RunKeepsInv(start: Db, s: State, moves: seq<Move>, last: State)
    requires Inv(start, s) && Reaches(s, moves, last)
    ensures Inv(start, last)
    decreases |moves|
  {
    hide Inv, Step, Enabled;
    if moves != [] {
      StepKeepsInv(start, s, moves[0].replica, moves[0].action);
      RunKeepsInv(start, Step(s, moves[0].replica, moves[0].action), moves[1..], last);
    }
  }

  lemma StartHolds(start: Db)
    requires DistinctIds(start.usage)
    ensures Inv(start, Start(start))
  {
    hide TotalOwed;
    forall id | id in start.budgets
      ensures Stands(OpeningsOf(start)[id], start.usage, id, start.budgets[id])
    {
      NothingOwedYet(start.usage, id, start.budgets[id].tenant);
    }
  }

  /**
   * Under every schedule of batches, replicas, crashes, redeliveries and new budgets, each budget's
   * spend is its opening spend plus, for every distinct request recorded since, its price once per
   * listing of that budget; a budget opened during the run opened at nothing; and every acknowledged
   * event that carries an id is recorded.
   */
  lemma SpendIsExact(start: Db, moves: seq<Move>, s: State)
    requires DistinctIds(start.usage) && Reaches(Start(start), moves, s)
    ensures start.usage <= s.db.usage && DistinctIds(s.db.usage)
    ensures forall id :: id in s.db.budgets ==>
              && id in s.openings
              && var o := s.openings[id];
                 && o.at <= |s.db.usage| && o.tenant == s.db.budgets[id].tenant
                 && s.db.budgets[id].spent == o.spent + TotalOwed(s.db.usage[o.at..], id, o.tenant)
                 && ((id in start.budgets && o == OpeningsOf(start)[id]) || (o.spent == 0 && o.at >= |start.usage|))
    ensures forall e :: e in s.acked && e.requestId != [] ==> Recorded(s.db.usage, e.requestId)
  {
    hide Reaches, TotalOwed, OpeningsOf;
    StartHolds(start);
    RunKeepsInv(start, Start(start), moves, s);
  }

  /** Only creating a budget opens it again. */
  lemma {:induction false} OpeningStays(s: State, moves: seq<Move>, last: State, id: string)
    requires Reaches(s, moves, last)
    requires forall i :: 0 <= i < |moves| && moves[i].action.CreateBudget? ==> moves[i].action.id != id
    ensures id in last.openings <==> id in s.openings
    ensures id in s.openings ==> last.openings[id] == s.openings[id]
    decreases |moves|
  {
    if moves != [] {
      OpeningStays(Step(s, moves[0].replica, moves[0].action), moves[1..], last, id);
    }
  }

  lemma OrderDoesNotMatter(a: seq<Event>, b: seq<Event>, id: string, tenant: string)
    requires multiset(a) == multiset(b)
    ensures TotalOwed(a, id, tenant) == TotalOwed(b, id, tenant)
  {
    SumOfPermutation(a, b, (e: Event) => Owed(e, id, tenant));
  }

  /** Two schedules that recorded the same requests, in whatever order, charged the same. */
  lemma SchedulesAgree(start: Db, moves: seq<Move>, s: State, moves': seq<Move>, s': State, id: string)
    requires DistinctIds(start.usage)
    requires Reaches(Start(start), moves, s) && Reaches(Start(start), moves', s')
    requires forall i :: 0 <= i < |moves| && moves[i].action.CreateBudget? ==> moves[i].action.id != id
    requires forall i :: 0 <= i < |moves'| && moves'[i].action.CreateBudget? ==> moves'[i].action.id != id
    requires multiset(s.db.usage) == multiset(s'.db.usage)
    requires id in s.db.budgets && id in s'.db.budgets
    ensures s.db.budgets[id] == s'.db.budgets[id]
  {
    hide *;
    SpendSinceStart(start, moves, s, id);
    SpendSinceStart(start, moves', s', id);
    SuffixesAgree(start.usage, s.db.usage, s'.db.usage);
    var n := |start.usage|;
    OrderDoesNotMatter(s.db.usage[n..], s'.db.usage[n..], id, s.db.budgets[id].tenant);
  }

  /** A budget nobody creates during the run was there at its start. */
  lemma SpendSinceStart(start: Db, moves: seq<Move>, s: State, id: string)
    requires DistinctIds(start.usage) && Reaches(Start(start), moves, s) && id in s.db.budgets
    requires forall i :: 0 <= i < |moves| && moves[i].action.CreateBudget? ==> moves[i].action.id != id
    ensures start.usage <= s.db.usage && id in start.budgets
    ensures s.db.budgets[id]
         == Budget(start.budgets[id].tenant,
                   start.budgets[id].spent
                   + TotalOwed(s.db.usage[|start.usage|..], id, start.budgets[id].tenant))
  {
    hide Reaches, TotalOwed;
    SpendIsExact(start, moves, s);
    OpeningStays(Start(start), moves, s, id);
  }

  lemma SuffixesAgree(base: seq<Event>, a: seq<Event>, b: seq<Event>)
    requires base <= a && base <= b && multiset(a) == multiset(b)
    ensures multiset(a[|base|..]) == multiset(b[|base|..])
  {
    var n := |base|;
    assert a == base + a[n..] && b == base + b[n..];
    assert multiset(a[n..]) == multiset(a) - multiset(base) && multiset(b[n..]) == multiset(b) - multiset(base);
  }

  // ---- what a schedule can do ----

  /**
   * A replica left alone applies, commits and acknowledges its batch; and wherever it crashes before
   * that, the batch was applied whole or not at all, and the replica can be given it again.
   */
  lemma BatchGoesThrough(s: State, r: nat, batch: seq<Event>)
    requires PhaseOf(s, r).Idle?
    ensures Enabled(s, r, Deliver(batch))
    ensures var s1 := Step(s, r, Deliver(batch));
            && Enabled(s1, r, Commit) && Enabled(s1, r, Crash)
            && Step(s1, r, Crash).db == s.db && PhaseOf(Step(s1, r, Crash), r).Idle?
            && var s2 := Step(s1, r, Commit);
               && Enabled(s2, r, Ack) && Enabled(s2, r, Crash)
               && Step(s2, r, Crash).db == Applied(s.db, batch) && PhaseOf(Step(s2, r, Crash), r).Idle?
               && Step(s2, r, Crash).acked == s.acked
               && var s3 := Step(s2, r, Ack);
                  s3.db == Applied(s.db, batch) && s3.acked == s.acked + batch && PhaseOf(s3, r).Idle?
  {
    hide Applied;
  }

  /** A tenant can be given a budget of a new name at any time; it begins with nothing spent. */
  lemma BudgetsComeAndGo(s: State, r: nat, id: string, tenant: string, version: nat)
    requires id !in s.db.budgets && tenant in s.db.versions
    ensures Enabled(s, r, CreateBudget(id, tenant, version))
    ensures var s1 := Step(s, r, CreateBudget(id, tenant, version));
            && s1.db.budgets == s.db.budgets[id := Budget(tenant, 0)] && s1.db.usage == s.db.usage
            && s1.openings == s.openings[id := Opening(|s.db.usage|, tenant, 0)]
            && Enabled(s1, r, DeleteBudget(id)) && Step(s1, r, DeleteBudget(id)).db.budgets == s.db.budgets
  {
  }
}
