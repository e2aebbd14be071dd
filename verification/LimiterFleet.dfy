/**
 * Any number of workers and goroutines sharing one window key.
 *
 * Each bucket call, and each call to the store, is one step; clock readings are
 * arbitrary.  A store call may fail, and a failed call may or may not have added
 * to the counter.
 */
module LimiterFleet {
  import opened Limiter
  import opened Sums

  /** Where a goroutine is inside `take`. */
  datatype Phase =
    | Ready
    | Took(taken: bool, refill: bool)
    | Refilling(taken: bool)
    | Granting(taken: bool, permits: nat)
    | Retaking

  datatype Routine = Routine(worker: nat, phase: Phase)

  datatype Config = Config(limit: nat, lease: nat)

  /**
   * The shared counter, every worker's bucket and every goroutine, with a tally of what
   * happened: permits granted by successful calls, failed calls, failed calls that counted
   * anyway, permits spent and expired, requests admitted.
   */
  datatype State = State(
    counter: nat, buckets: seq<Bucket>, routines: seq<Routine>,
    granted: nat, failures: nat, phantoms: nat, spent: nat, expired: nat, admitted: nat)

  datatype Action =
    | Take(now: int)
    | Decide
    | Incr
    | IncrFails(counted: bool)
    | Grant(expiresAt: int)
    | Retake(now: int)

  predicate WellFormed(s: State) {
    forall r :: 0 <= r < |s.routines| ==> s.routines[r].worker < |s.buckets|
  }

  predicate Enabled(s: State, r: nat, a: Action) {
    && r < |s.routines|
    && var p := s.routines[r].phase;
       match a
       case Take(_) => p.Ready?
       case Decide => p.Took?
       case Incr => p.Refilling?
       case IncrFails(_) => p.Refilling?
       case Grant(_) => p.Granting?
       case Retake(_) => p.Retaking?
  }

  function Goto(s: State, r: nat, p: Phase): State
    requires r < |s.routines|
  {
    s.(routines := s.routines[r := s.routines[r].(phase := p)])
  }

  /** The end of `take`. */
  function Return(s: State, r: nat, ok: bool): State
    requires r < |s.routines|
  {
    Goto(s.(admitted := s.admitted + if ok then 1 else 0), r, Ready)
  }

  /** Bucket.Take, counting the permit spent and the permits an expired lease forfeits. */
  function SpendFrom(s: State, w: nat, now: int): State
    requires w < |s.buckets|
  {
    var b := s.buckets[w];
    s.(buckets := s.buckets[w := AfterTake(b, now)],
       spent := s.spent + if Takes(b, now) then 1 else 0,
       expired := s.expired + (b.remaining - Live(b, now)))
  }

  function Step(c: Config, s: State, r: nat, a: Action): State
    requires WellFormed(s) && Enabled(s, r, a)
  {
    var w, p := s.routines[r].worker, s.routines[r].phase;
    var b := s.buckets[w];
    match a
    case Take(now) => Goto(SpendFrom(s, w, now), r, Took(Takes(b, now), WantsRefill(b, now)))
    case Decide =>
      if !p.refill || b.refreshing then Return(s, r, p.taken)
      else Goto(s.(buckets := s.buckets[w := b.(refreshing := true)]), r, Refilling(p.taken))
    case Incr =>
      var used := s.counter + c.lease;
      var permits := Granted(used, c.limit, c.lease);
      Goto(s.(counter := used, granted := s.granted + permits), r, Granting(p.taken, permits))
    case IncrFails(counted) =>
      Goto(s.(counter := s.counter + (if counted then c.lease else 0),
              phantoms := s.phantoms + (if counted then 1 else 0),
              failures := s.failures + 1), r, Granting(p.taken, c.lease))
    case Grant(expiresAt) =>
      var after := s.(buckets := s.buckets[w := AfterGrant(b, p.permits, expiresAt)]);
      if p.taken then Return(after, r, true) else Goto(after, r, Retaking)
    case Retake(now) => Return(SpendFrom(s, w, now), r, Takes(b, now))
  }

  // ---- the invariant ----

  function InBuckets(s: State): int {
    Sum(s.buckets, (b: Bucket) => b.remaining)
  }

  /** Permits fetched and not yet in a bucket. */
  function InFlight(s: State): int {
    Sum(s.routines, (r: Routine) => if r.phase.Granting? then r.phase.permits else 0)
  }

  predicate HoldsPermit(p: Phase) {
    match p
    case Took(taken, _) => taken
    case Refilling(taken) => taken
    case Granting(taken, _) => taken
    case _ => false
  }

  /** Requests that have spent a permit and not yet returned. */
  function Undecided(s: State): int {
    Sum(s.routines, (r: Routine) => if HoldsPermit(r.phase) then 1 else 0)
  }

  predicate IsRefill(p: Phase) {
    p.Refilling? || p.Granting?
  }

  function Refills(s: State, w: nat): int {
    Sum(s.routines, (r: Routine) => if r.worker == w && IsRefill(r.phase) then 1 else 0)
  }

  /** Permits are conserved. */
  ghost predicate Conserved(c: Config, s: State) {
    s.granted + c.lease * s.failures == s.spent + s.expired + InBuckets(s) + InFlight(s)
  }

  /** Grants never run past the counter or the limit, and keep up with them unless a failed call counted. */
  ghost predicate KeptUp(c: Config, s: State) {
    && s.granted <= Min(s.counter, c.limit)
    && (s.phantoms == 0 ==> s.granted == Min(s.counter, c.limit))
    && s.phantoms <= s.failures
  }

  ghost predicate OneRefillEach(s: State) {
    forall w :: 0 <= w < |s.buckets| ==> Refills(s, w) == if s.buckets[w].refreshing then 1 else 0
  }

  ghost predicate Inv(c: Config, s: State) {
    && WellFormed(s)
    && Conserved(c, s)
    && KeptUp(c, s)
    && s.spent == s.admitted + Undecided(s)
    && OneRefillEach(s)
  }

  ghost predicate Init(s: State) {
    && WellFormed(s)
    && s.counter == s.granted == s.failures == s.phantoms == s.spent == s.expired == s.admitted == 0
    && (forall w :: 0 <= w < |s.buckets| ==> s.buckets[w].remaining == 0 && !s.buckets[w].refreshing)
    && (forall r :: 0 <= r < |s.routines| ==> s.routines[r].phase.Ready?)
  }

  lemma InitHolds(c: Config, s: State)
    requires Init(s)
    ensures Inv(c, s)
  {
    SumZero(s.buckets, (b: Bucket) => b.remaining);
    SumZero(s.routines, (r: Routine) => if r.phase.Granting? then r.phase.permits else 0);
    SumZero(s.routines, (r: Routine) => if HoldsPermit(r.phase) then 1 else 0);
    forall w | 0 <= w < |s.buckets|
      ensures Refills(s, w) == 0
    {
      SumZero(s.routines, (r: Routine) => if r.worker == w && IsRefill(r.phase) then 1 else 0);
    }
  }

  /** What replacing one goroutine's phase does to the sums over goroutines. */
  lemma RoutineMoves(s: State, s': State, r: nat, p: Phase)
    requires r < |s.routines| && s'.routines == s.routines[r := s.routines[r].(phase := p)]
    ensures var q := s.routines[r].phase;
            && InFlight(s')
               == InFlight(s) - (if q.Granting? then q.permits else 0) + (if p.Granting? then p.permits else 0)
            && Undecided(s') == Undecided(s) - (if HoldsPermit(q) then 1 else 0) + (if HoldsPermit(p) then 1 else 0)
  {
    hide Sum;
    var x := s.routines[r].(phase := p);
    SumUpdate(s.routines, (r: Routine) => if r.phase.Granting? then r.phase.permits else 0, r, x);
    SumUpdate(s.routines, (r: Routine) => if HoldsPermit(r.phase) then 1 else 0, r, x);
  }

  lemma RefillsMove(s: State, s': State, r: nat, p: Phase, w: nat)
    requires r < |s.routines| && s'.routines == s.routines[r := s.routines[r].(phase := p)]
    ensures Refills(s', w) == Refills(s, w)
              - (if s.routines[r].worker == w && IsRefill(s.routines[r].phase) then 1 else 0)
              + (if s.routines[r].worker == w && IsRefill(p) then 1 else 0)
    ensures Refills(s', w) >= 0
  {
    hide Sum;
    SumNonNegative(s'.routines, (r: Routine) => if r.worker == w && IsRefill(r.phase) then 1 else 0);
    SumUpdate(s.routines, (r: Routine) => if r.worker == w && IsRefill(r.phase) then 1 else 0,
              r, s.routines[r].(phase := p));
  }

  lemma BucketMoves(s: State, s': State, w: nat, b: Bucket)
    requires w < |s.buckets| && s'.buckets == s.buckets[w := b]
    ensures InBuckets(s') == InBuckets(s) - s.buckets[w].remaining + b.remaining
  {
    hide Sum;
    SumUpdate(s.buckets, (b: Bucket) => b.remaining, w, b);
  }

  lemma StepConserves(c: Config, s: State, r: nat, a: Action)
    requires Inv(c, s) && Enabled(s, r, a)
    ensures Conserved(c, Step(c, s, r, a))
    ensures Step(c, s, r, a).spent == Step(c, s, r, a).admitted + Undecided(Step(c, s, r, a))
  {
    hide InBuckets, InFlight, Undecided, KeptUp, OneRefillEach, WantsRefill;
    var s' := Step(c, s, r, a);
    var w := s.routines[r].worker;
    RoutineMoves(s, s', r, s'.routines[r].phase);
    assert s'.buckets == s.buckets[w := s'.buckets[w]];
    BucketMoves(s, s', w, s'.buckets[w]);
    assert c.lease * (s.failures + 1) == c.lease * s.failures + c.lease;
  }

  lemma StepLeases(c: Config, s: State, r: nat, a: Action)
    requires Inv(c, s) && Enabled(s, r, a)
    ensures KeptUp(c, Step(c, s, r, a))
  {
    hide Conserved, Undecided, OneRefillEach, WantsRefill;
    GrantedIsTheAdvance(s.counter + c.lease, c.limit, c.lease);
  }

  lemma StepRefillsOnce(c: Config, s: State, r: nat, a: Action)
    requires Inv(c, s) && Enabled(s, r, a)
    ensures OneRefillEach(Step(c, s, r, a))
  {
    hide Conserved, Undecided, KeptUp, Refills, WantsRefill, Granted;
    var s' := Step(c, s, r, a);
    forall w | 0 <= w < |s'.buckets|
      ensures Refills(s', w) == if s'.buckets[w].refreshing then 1 else 0
    {
      RefillsMove(s, s', r, s'.routines[r].phase, w);
    }
  }

  /** Every step of every goroutine keeps the invariant. */
  lemma StepKeepsInv(c: Config, s: State, r: nat, a: Action)
    requires Inv(c, s) && Enabled(s, r, a)
    ensures Inv(c, Step(c, s, r, a))
  {
    StepConserves(c, s, r, a);
    StepLeases(c, s, r, a);
    StepRefillsOnce(c, s, r, a);
    assert WellFormed(Step(c, s, r, a)) by { hide Conserved, Undecided, OneRefillEach, KeptUp, Granted, WantsRefill; }
  }

  // ---- whole runs ----

  datatype Move = Move(routine: nat, action: Action)

  ghost predicate Reaches(c: Config, s: State, moves: seq<Move>, last: State)
    decreases |moves|
  {
    if moves == [] then s == last
    else
      && WellFormed(s) && Enabled(s, moves[0].routine, moves[0].action)
      && Reaches(c, Step(c, s, moves[0].routine, moves[0].action), moves[1..], last)
  }

  lemma {:induction false} RunKeepsInv(c: Config, s: State, moves: seq<Move>, last: State)
    requires Inv(c, s) && Reaches(c, s, moves, last)
    ensures Inv(c, last)
    decreases |moves|
  {
    hide Inv, Step, Enabled, WellFormed;
    if moves != [] {
      StepKeepsInv(c, s, moves[0].routine, moves[0].action);
      RunKeepsInv(c, Step(c, s, moves[0].routine, moves[0].action), moves[1..], last);
    }
  }

  /**
   * In every interleaving the requests admitted under a key never exceed the limit plus one lease
   * per store failure; without failures the permits granted are the smaller of counter and limit;
   * and no bucket has two refills in progress.
   */
  lemma AdmissionIsBounded(c: Config, start: State, moves: seq<Move>, s: State)
    requires Init(start) && Reaches(c, start, moves, s)
    ensures s.admitted <= c.limit + c.lease * s.failures
    ensures s.failures == 0 ==> s.granted == Min(s.counter, c.limit) && s.admitted <= s.granted
    ensures forall w :: 0 <= w < |s.buckets| ==> Refills(s, w) <= 1
  {
    hide Reaches, Init;
    InitHolds(c, start);
    RunKeepsInv(c, start, moves, s);
    SumNonNegative(s.buckets, (b: Bucket) => b.remaining);
    SumNonNegative(s.routines, (r: Routine) => if r.phase.Granting? then r.phase.permits else 0);
    SumNonNegative(s.routines, (r: Routine) => if HoldsPermit(r.phase) then 1 else 0);
  }

  // ---- a request nobody interferes with ----

  lemma ReachesCons(c: Config, s: State, m: Move, rest: seq<Move>, last: State)
    requires WellFormed(s) && Enabled(s, m.routine, m.action)
    requires Reaches(c, Step(c, s, m.routine, m.action), rest, last)
    ensures Reaches(c, s, [m] + rest, last)
  {
    hide Step, WellFormed, Enabled;
    assert ([m] + rest)[1..] == rest;
  }

  lemma ReachesSelf(c: Config, s: State)
    ensures Reaches(c, s, [], s)
  {
  }

  /** What one goroutine's request does to the shared state when it runs alone. */
  ghost predicate AsOneRequest(c: Config, s: State, r: nat, at: Outside, last: State)
    requires r < |s.routines| && s.routines[r].worker < |s.buckets|
  {
    var w := s.routines[r].worker;
    var before := Window(s.buckets[w], s.counter);
    var after := AfterRequest(before, c.limit, c.lease, at);
    && last.buckets == s.buckets[w := after.bucket] && last.counter == after.counter
    && last.routines == s.routines
    && last.admitted == s.admitted + if Admits(before, c.limit, c.lease, at) then 1 else 0
  }

  lemma RestOfRefill(c: Config, s: State, r: nat, at: Outside) returns (moves: seq<Move>, last: State)
    requires WellFormed(s) && r < |s.routines| && s.routines[r].phase.Refilling?
    ensures Reaches(c, s, moves, last)
    ensures var w, taken := s.routines[r].worker, s.routines[r].phase.taken;
            var filled := AfterGrant(s.buckets[w], Leased(s.counter, c.limit, c.lease, at.store), at.end);
            && last.counter == CounterAfter(s.counter, c.lease, at.store)
            && last.routines == s.routines[r := s.routines[r].(phase := Ready)]
            && last.buckets == s.buckets[w := if taken then filled else AfterTake(filled, at.second)]
            && last.admitted == s.admitted + if taken || Takes(filled, at.second) then 1 else 0
  {
    hide Reaches;
    var incr := Move(r, if at.store.Up? then Incr else IncrFails(at.store.counted));
    var s1 := Step(c, s, r, incr.action);
    var grant := Move(r, Grant(at.end));
    var s2 := Step(c, s1, r, grant.action);
    if s.routines[r].phase.taken {
      moves, last := [], s2;
      ReachesSelf(c, s2);
    } else {
      var retake := Move(r, Retake(at.second));
      last := Step(c, s2, r, retake.action);
      ReachesSelf(c, last);
      moves := [retake] + [];
      ReachesCons(c, s2, retake, [], last);
    }
    ReachesCons(c, s1, grant, moves, last);
    moves := [grant] + moves;
    ReachesCons(c, s, incr, moves, last);
    moves := [incr] + moves;
  }

  /** The steps of the fleet are the request of one worker: run alone, they come to the same. */
  lemma AloneIsOneRequest(c: Config, s: State, r: nat, at: Outside) returns (moves: seq<Move>, last: State)
    requires WellFormed(s) && r < |s.routines| && s.routines[r].phase.Ready?
    ensures Reaches(c, s, moves, last) && AsOneRequest(c, s, r, at, last)
  {
    hide Reaches, Granted;
    var take, decide := Move(r, Take(at.first)), Move(r, Decide);
    var s1 := Step(c, s, r, take.action);
    var s2 := Step(c, s1, r, decide.action);
    if s2.routines[r].phase.Refilling? {
      moves, last := RestOfRefill(c, s2, r, at);
    } else {
      moves, last := [], s2;
      ReachesSelf(c, s2);
    }
    ReachesCons(c, s1, decide, moves, last);
    moves := [decide] + moves;
    ReachesCons(c, s, take, moves, last);
    moves := [take] + moves;
  }

  lemma {:induction false} OnlyCountedFailuresAreLost(c: Config, s: State, moves: seq<Move>, last: State)
    requires Reaches(c, s, moves, last) && forall m :: m in moves ==> m.action != IncrFails(true)
    ensures last.phantoms == s.phantoms
    decreases |moves|
  {
    hide Granted;
    if moves != [] {
      assert moves[0] in moves && forall m :: m in moves[1..] ==> m in moves;
      OnlyCountedFailuresAreLost(c, Step(c, s, moves[0].routine, moves[0].action), moves[1..], last);
    }
  }

  /** As long as no failed call was counted, the fleet's grants are the smaller of counter and limit. */
  lemma GrantsKeepUp(c: Config, s: State, moves: seq<Move>, last: State)
    requires Init(s) && Reaches(c, s, moves, last) && forall m :: m in moves ==> m.action != IncrFails(true)
    ensures last.granted == Min(last.counter, c.limit)
  {
    hide Reaches;
    OnlyCountedFailuresAreLost(c, s, moves, last);
    InitHolds(c, s);
    RunKeepsInv(c, s, moves, last);
  }
}
