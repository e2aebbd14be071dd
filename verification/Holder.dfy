/**
 * The snapshot holder: lock-free leases over reference-counted generations.
 *
 * Every shared access is one step: loading the current slot, loading a count,
 * the compare-and-swap, storing the current slot, writing the rollback slot,
 * decrementing a count, running the retire callback.  Any number of threads
 * interleave.  Swap and Rollback hold a mutex; Acquire and Release do not.
 *
 * What is proved over every run: a generation's count is the holder's slot plus
 * the references still owed by threads; a leased generation is never retired; a
 * count that reached zero stays there; the callback runs exactly once, after full
 * drain; and every failed Acquire iteration is paid for by a store to the current slot.
 */
module Holder {

  import opened Options

  type Tenant = string

  /** The versions of one snapshot's layers. */
  datatype Snapshot = Snapshot(global: nat, tenants: map<Tenant, nat>)

  /** No layer's version moves backwards; a tenant may appear or disappear. */
  predicate Monotonic(current: Snapshot, next: Snapshot) {
    && current.global <= next.global
    && forall t :: t in next.tenants && t in current.tenants ==> current.tenants[t] <= next.tenants[t]
  }

  /** Walks the incoming tenants in any order and stops at the first that would regress. */
  method CheckMonotonic(current: Snapshot, next: Snapshot) returns (ok: bool)
    ensures ok <==> Monotonic(current, next)
    ensures !ok <==> next.global < current.global
                     || exists t :: t in current.tenants && t in next.tenants && next.tenants[t] < current.tenants[t]
  {
    if next.global < current.global {
      return false;
    }
    var left := next.tenants.Keys;
    while left != {}
      invariant left <= next.tenants.Keys
      invariant forall t :: t in next.tenants && t !in left && t in current.tenants ==>
                  current.tenants[t] <= next.tenants[t]
    {
      var t :| t in left;
      left := left - {t};
      if t in current.tenants && next.tenants[t] < current.tenants[t] {
        return false;
      }
    }
    return true;
  }

  /** `fired` counts the runs of the retire callback. */
  datatype Generation = Generation(snap: Snapshot, refs: int, fired: nat)

  /** One Acquire call: the number of stores to the current slot when it began, and its failed iterations. */
  datatype Attempt = Attempt(began: nat, failures: nat)

  /** Where a thread is. */
  datatype Pc =
    | Idle
    | Reloading(at: Attempt)
    | Loaded(g: nat, epoch: nat, at: Attempt)
    | Counted(g: nat, n: int, epoch: nat, at: Attempt)
    | Leased(g: nat)
    | Released(g: nat)
    | SwapLocked(next: Snapshot)
    | SwapShifted(next: Snapshot, displaced: Option<nat>)
    | RollbackLocked
    | RollbackStored(failed: nat)
    | Dropping(g: nat)
    | Retiring(g: nat, locked: bool)
    | Unlocking

  type Threads = map<nat, Pc>

  /** `stores` counts the stores to the current slot. */
  datatype State = State(
    gens: seq<Generation>, current: nat, previous: Option<nat>, lock: Option<nat>,
    threads: Threads, stores: nat)

  function PcOf(threads: Threads, t: nat): Pc {
    if t in threads then threads[t] else Idle
  }

  /** A counted reference to `g` that a thread at `pc` will give back. */
  predicate Owes(pc: Pc, g: nat) {
    match pc
    case Leased(h) => h == g
    case SwapShifted(_, d) => d == Some(g)
    case RollbackStored(h) => h == g
    case Dropping(h) => h == g
    case _ => false
  }

  predicate IsRetiring(pc: Pc, g: nat) {
    pc.Retiring? && pc.g == g
  }

  predicate InCritical(pc: Pc) {
    || pc.SwapLocked? || pc.SwapShifted? || pc.RollbackLocked? || pc.RollbackStored?
    || pc.Dropping? || (pc.Retiring? && pc.locked) || pc.Unlocking?
  }

  /** Between the two writes of a Swap or Rollback both slots name one generation. */
  predicate IsShifting(pc: Pc) {
    pc.SwapShifted? || pc.RollbackStored?
  }

  /** How many threads are at a point satisfying `p`. */
  function Tally(threads: Threads, p: Pc -> bool): nat {
    |At(threads, p)|
  }

  function At(threads: Threads, p: Pc -> bool): set<nat> {
    set t | t in threads && p(threads[t])
  }

  function OweCount(threads: Threads, g: nat): nat {
    Tally(threads, pc => Owes(pc, g))
  }

  function RetiringCount(threads: Threads, g: nat): nat {
    Tally(threads, pc => IsRetiring(pc, g))
  }

  /** The holder's own reference: one, however many slots name `g`. */
  function SlotRef(s: State, g: nat): nat {
    if s.current == g || s.previous == Some(g) then 1 else 0
  }

  function Init(snap: Snapshot): State {
    State([Generation(snap, 1, 0)], 0, None, None, map[], 0)
  }

  // ---- steps ----

  datatype Action =
    | StartAcquire | LoadCurrent | LoadCount | CompareAndSwap | Release | ReleaseAgain
    | LockForSwap(next: Snapshot) | ShiftSlots | StoreNext
    | LockForRollback | StorePrevious | ClearPrevious
    | Decrement | RunRetire | Unlock

  predicate Enabled(s: State, t: nat, a: Action) {
    var pc := PcOf(s.threads, t);
    match a
    case StartAcquire => pc.Idle?
    case LoadCurrent => pc.Reloading?
    case LoadCount => pc.Loaded?
    case CompareAndSwap => pc.Counted?
    case Release => pc.Leased?
    case ReleaseAgain => pc.Released?
    case LockForSwap(_) => pc.Idle? && s.lock == None
    case ShiftSlots => pc.SwapLocked?
    case StoreNext => pc.SwapShifted?
    case LockForRollback => pc.Idle? && s.lock == None
    case StorePrevious => pc.RollbackLocked?
    case ClearPrevious => pc.RollbackStored?
    case Decrement => pc.Dropping?
    case RunRetire => pc.Retiring?
    case Unlock => pc.Unlocking?
  }

  function Goto(s: State, t: nat, pc: Pc): State {
    s.(threads := s.threads[t := pc])
  }

  function AddRef(s: State, g: nat, delta: int): State
    requires g < |s.gens|
  {
    s.(gens := s.gens[g := s.gens[g].(refs := s.gens[g].refs + delta)])
  }

  /** unref: decrement, and go on to the callback when the count reached zero. */
  function Unref(s: State, t: nat, g: nat, locked: bool): State
    requires g < |s.gens|
  {
    var after := AddRef(s, g, -1);
    if after.gens[g].refs > 0
    then Goto(after, t, if locked then Unlocking else Released(g))
    else Goto(after, t, Retiring(g, locked))
  }

  function Step(s: State, t: nat, a: Action): State
    requires Enabled(s, t, a) && InBounds(s)
  {
    var pc := PcOf(s.threads, t);
    match a
    case StartAcquire => Goto(s, t, Reloading(Attempt(s.stores, 0)))
    case LoadCurrent => Goto(s, t, Loaded(s.current, s.stores, pc.at))
    case LoadCount =>
      var n := s.gens[pc.g].refs;
      if n <= 0 then Goto(s, t, Reloading(pc.at.(failures := pc.at.failures + 1)))
      else Goto(s, t, Counted(pc.g, n, pc.epoch, pc.at))
    case CompareAndSwap =>
      if s.gens[pc.g].refs == pc.n then Goto(AddRef(s, pc.g, 1), t, Leased(pc.g))
      else Goto(s, t, Loaded(pc.g, pc.epoch, pc.at))
    case Release => Unref(s, t, pc.g, false)
    case ReleaseAgain => s
    case LockForSwap(next) => Goto(s.(lock := Some(t)), t, SwapLocked(next))
    case ShiftSlots =>
      if !Monotonic(s.gens[s.current].snap, pc.next) then Goto(s, t, Unlocking)
      else Goto(s.(previous := Some(s.current)), t, SwapShifted(pc.next, s.previous))
    case StoreNext =>
      var after := s.(gens := s.gens + [Generation(pc.next, 1, 0)], current := |s.gens|, stores := s.stores + 1);
      Goto(after, t, if pc.displaced.Some? then Dropping(pc.displaced.value) else Unlocking)
    case LockForRollback => Goto(s.(lock := Some(t)), t, RollbackLocked)
    case StorePrevious =>
      if s.previous == None then Goto(s, t, Unlocking)
      else Goto(s.(current := s.previous.value, stores := s.stores + 1), t, RollbackStored(s.current))
    case ClearPrevious => Goto(s.(previous := None), t, Dropping(pc.failed))
    case Decrement => Unref(s, t, pc.g, true)
    case RunRetire =>
      var g := s.gens[pc.g];
      // sync.Once: the callback runs only the first time.
      var after := s.(gens := s.gens[pc.g := g.(fired := if g.fired == 0 then 1 else g.fired)]);
      Goto(after, t, if pc.locked then Unlocking else Released(pc.g))
    case Unlock => Goto(s.(lock := None), t, Idle)
  }

  // ---- the invariant ----

  predicate InBounds(s: State) {
    && s.current < |s.gens|
    && (s.previous.Some? ==> s.previous.value < |s.gens|)
    && forall t :: t in s.threads ==> BoundedPc(s.threads[t], |s.gens|)
  }

  predicate BoundedPc(pc: Pc, n: nat) {
    match pc
    case Loaded(g, _, _) => g < n
    case Counted(g, _, _, _) => g < n
    case Leased(g) => g < n
    case Released(g) => g < n
    case SwapShifted(_, d) => d.Some? ==> d.value < n
    case RollbackStored(g) => g < n
    case Dropping(g) => g < n
    case Retiring(g, _) => g < n
    case _ => true
  }

  /** The mutex is held by the one thread inside Swap or Rollback. */
  ghost predicate MutexHeld(s: State) {
    && (forall t :: t in s.threads && InCritical(s.threads[t]) ==> s.lock == Some(t))
    && (s.lock.Some? ==> s.lock.value in s.threads && InCritical(s.threads[s.lock.value]))
  }

  /** The slots coincide exactly between the two writes; a generation about to be dropped is in neither. */
  ghost predicate SlotsShifted(s: State) {
    && (s.previous == Some(s.current) <==> s.lock.Some? && IsShifting(PcOf(s.threads, s.lock.value)))
    && (forall t :: t in s.threads && IsShifting(s.threads[t]) ==> !Owes(s.threads[t], s.current))
    && forall t :: t in s.threads && s.threads[t].Dropping? ==>
         s.threads[t].g != s.current && s.previous != Some(s.threads[t].g)
  }

  ghost predicate CountsBalance(s: State) {
    forall g :: 0 <= g < |s.gens| ==> s.gens[g].refs == SlotRef(s, g) + OweCount(s.threads, g)
  }

  ghost predicate RetiresOnce(s: State) {
    forall g :: 0 <= g < |s.gens| ==>
      s.gens[g].fired + RetiringCount(s.threads, g) == if s.gens[g].refs == 0 then 1 else 0
  }

  /** An Acquire's failures never outnumber the stores to the current slot since it began. */
  predicate Paid(pc: Pc, s: State) {
    match pc
    case Reloading(at) => at.began + at.failures <= s.stores
    case Loaded(g, epoch, at) => at.began + at.failures <= epoch <= s.stores && (epoch == s.stores ==> g == s.current)
    case Counted(g, n, epoch, at) =>
      0 < n && at.began + at.failures <= epoch <= s.stores && (epoch == s.stores ==> g == s.current)
    case _ => true
  }

  ghost predicate FailuresArePaid(s: State) {
    forall t :: t in s.threads ==> Paid(s.threads[t], s)
  }

  ghost predicate Inv(s: State) {
    && InBounds(s)
    && MutexHeld(s)
    && SlotsShifted(s)
    && CountsBalance(s)
    && RetiresOnce(s)
    && FailuresArePaid(s)
  }

  lemma TallyUpdate(threads: Threads, t: nat, pc: Pc, p: Pc -> bool)
    requires !p(Idle)
    ensures Tally(threads[t := pc], p)
            == Tally(threads, p) - (if p(PcOf(threads, t)) then 1 else 0) + (if p(pc) then 1 else 0)
  {
    var threads' := threads[t := pc];
    var before, after := At(threads, p), At(threads', p);
    assert after - {t} == before - {t};
    assert t in before <==> p(PcOf(threads, t));
    assert t in after <==> p(pc);
    OneElementApart(before, after, t);
  }

  lemma OneElementApart(before: set<nat>, after: set<nat>, t: nat)
    requires after - {t} == before - {t}
    ensures |after| == |before| - (if t in before then 1 else 0) + (if t in after then 1 else 0)
  {
    assert |before - {t}| == |before| - if t in before then 1 else 0;
    assert |after - {t}| == |after| - if t in after then 1 else 0;
  }

  lemma NobodyAt(threads: Threads, p: Pc -> bool)
    requires forall t :: t in threads ==> !p(threads[t])
    ensures Tally(threads, p) == 0
  {
    assert At(threads, p) == {};
  }

  lemma SomebodyAt(threads: Threads, p: Pc -> bool, t: nat)
    requires t in threads && p(threads[t])
    ensures Tally(threads, p) > 0
  {
    assert t in At(threads, p);
  }

  /** Nothing named by no thread is owed or being retired. */
  lemma NoneOwed(threads: Threads, g: nat)
    requires forall t :: t in threads ==> BoundedPc(threads[t], g)
    ensures OweCount(threads, g) == 0 && RetiringCount(threads, g) == 0
  {
    NobodyAt(threads, pc => Owes(pc, g));
    NobodyAt(threads, pc => IsRetiring(pc, g));
  }

  lemma InitHolds(snap: Snapshot)
    ensures Inv(Init(snap))
  {
    NoneOwed(map[], 0);
  }

  /** What moving one thread does to the two tallies of one generation. */
  lemma TalliesMove(s: State, t: nat, pc: Pc, g: nat)
    ensures OweCount(s.threads[t := pc], g)
            == OweCount(s.threads, g) - (if Owes(PcOf(s.threads, t), g) then 1 else 0) + (if Owes(pc, g) then 1 else 0)
    ensures RetiringCount(s.threads[t := pc], g)
            == RetiringCount(s.threads, g) - (if IsRetiring(PcOf(s.threads, t), g) then 1 else 0)
               + (if IsRetiring(pc, g) then 1 else 0)
  {
    hide Tally;
    TallyUpdate(s.threads, t, pc, q => Owes(q, g));
    TallyUpdate(s.threads, t, pc, q => IsRetiring(q, g));
  }

  lemma {:induction false} BoundsStep(s: State, t: nat, a: Action)
    requires Inv(s) && Enabled(s, t, a)
    ensures InBounds(Step(s, t, a))
  {
    hide CountsBalance, RetiresOnce, FailuresArePaid, SlotsShifted, MutexHeld;
  }

  /** The steps of Acquire and Release. */
  predicate IsLockFree(a: Action) {
    || a.StartAcquire? || a.LoadCurrent? || a.LoadCount? || a.CompareAndSwap?
    || a.Release? || a.ReleaseAgain?
  }

  lemma {:induction false} LockFreeKeepsMutex(s: State, t: nat, a: Action)
    requires Inv(s) && Enabled(s, t, a) && IsLockFree(a)
    ensures MutexHeld(Step(s, t, a))
  {
    hide CountsBalance, RetiresOnce, FailuresArePaid, SlotsShifted;
  }

  lemma {:induction false} LockFreeKeepsSlots(s: State, t: nat, a: Action)
    requires Inv(s) && Enabled(s, t, a) && IsLockFree(a)
    ensures SlotsShifted(Step(s, t, a))
  {
    hide CountsBalance, RetiresOnce, FailuresArePaid;
  }

  lemma {:induction false} LockedKeepsMutex(s: State, t: nat, a: Action)
    requires Inv(s) && Enabled(s, t, a) && !IsLockFree(a)
    ensures MutexHeld(Step(s, t, a))
  {
    hide CountsBalance, RetiresOnce, FailuresArePaid, SlotsShifted;
  }

  lemma {:induction false} LockedKeepsSlots(s: State, t: nat, a: Action)
    requires Inv(s) && Enabled(s, t, a) && !IsLockFree(a)
    ensures SlotsShifted(Step(s, t, a))
  {
    hide CountsBalance, RetiresOnce, FailuresArePaid;
  }

  lemma {:induction false} PaidStep(s: State, t: nat, a: Action)
    requires Inv(s) && Enabled(s, t, a)
    ensures FailuresArePaid(Step(s, t, a))
  {
    hide OweCount, RetiresOnce, SlotsShifted, MutexHeld;
  }

  lemma {:induction false} LockFreeKeepsCounts(s: State, t: nat, a: Action)
    requires Inv(s) && Enabled(s, t, a) && IsLockFree(a)
    ensures CountsBalance(Step(s, t, a))
  {
    hide OweCount, RetiringCount, RetiresOnce, FailuresArePaid, MutexHeld, SlotsShifted;
    var s' := Step(s, t, a);
    forall g | 0 <= g < |s'.gens|
      ensures s'.gens[g].refs == SlotRef(s', g) + OweCount(s'.threads, g)
    {
      if !a.ReleaseAgain? { TalliesMove(s, t, s'.threads[t], g); }
    }
  }

  lemma {:induction false} LockedKeepsCounts(s: State, t: nat, a: Action)
    requires Inv(s) && Enabled(s, t, a) && !IsLockFree(a)
    ensures CountsBalance(Step(s, t, a))
  {
    hide OweCount, RetiringCount, RetiresOnce, FailuresArePaid;
    var s' := Step(s, t, a);
    NoneOwed(s.threads, |s.gens|);
    forall g | 0 <= g < |s'.gens|
      ensures s'.gens[g].refs == SlotRef(s', g) + OweCount(s'.threads, g)
    {
      TalliesMove(s, t, s'.threads[t], g);
    }
  }

  lemma {:induction false} RetireStep(s: State, t: nat, a: Action)
    requires Inv(s) && Enabled(s, t, a)
    ensures RetiresOnce(Step(s, t, a))
  {
    hide OweCount, RetiringCount, SlotsShifted, MutexHeld;
    var s' := Step(s, t, a);
    NoneOwed(s.threads, |s.gens|);
    forall g | 0 <= g < |s'.gens|
      ensures s'.gens[g].fired + RetiringCount(s'.threads, g) == if s'.gens[g].refs == 0 then 1 else 0
    {
      if !a.ReleaseAgain? { TalliesMove(s, t, s'.threads[t], g); }
    }
  }

  /** Every step of every thread keeps the invariant. */
  lemma StepKeepsInv(s: State, t: nat, a: Action)
    requires Inv(s) && Enabled(s, t, a)
    ensures Inv(Step(s, t, a))
  {
    hide InBounds, MutexHeld, SlotsShifted, CountsBalance, RetiresOnce, FailuresArePaid, Step, Enabled;
    BoundsStep(s, t, a);
    if IsLockFree(a) {
      LockFreeKeepsMutex(s, t, a);
      LockFreeKeepsSlots(s, t, a);
      LockFreeKeepsCounts(s, t, a);
    } else {
      LockedKeepsMutex(s, t, a);
      LockedKeepsSlots(s, t, a);
      LockedKeepsCounts(s, t, a);
    }
    PaidStep(s, t, a);
    RetireStep(s, t, a);
  }

  // ---- whole runs ----

  datatype Move = Move(thread: nat, action: Action)

  /** `moves` is a run from `s` to `last`. */
  ghost predicate Reaches(s: State, moves: seq<Move>, last: State)
    decreases |moves|
  {
    if moves == [] then s == last
    else
      && InBounds(s) && Enabled(s, moves[0].thread, moves[0].action)
      && Reaches(Step(s, moves[0].thread, moves[0].action), moves[1..], last)
  }

  lemma ReachesSelf(s: State)
    ensures Reaches(s, [], s)
  {
  }

  /** A run can be continued by any enabled step. */
  lemma {:induction false} ReachesOn(s: State, moves: seq<Move>, last: State, m: Move)
    requires Reaches(s, moves, last) && InBounds(last) && Enabled(last, m.thread, m.action)
    ensures Reaches(s, moves + [m], Step(last, m.thread, m.action))
    decreases |moves|
  {
    hide InBounds, Enabled, Step;
    var all := moves + [m];
    if moves == [] {
      assert all[1..] == [];
    } else {
      ReachesOn(Step(s, moves[0].thread, moves[0].action), moves[1..], last, m);
      assert all[1..] == moves[1..] + [m];
    }
  }

  lemma {:induction false} RunKeepsInv(s: State, moves: seq<Move>, last: State)
    requires Inv(s) && Reaches(s, moves, last)
    ensures Inv(last)
    decreases |moves|
  {
    hide Inv, Step, Enabled, InBounds;
    if moves != [] {
      StepKeepsInv(s, moves[0].thread, moves[0].action);
      RunKeepsInv(Step(s, moves[0].thread, moves[0].action), moves[1..], last);
    }
  }

  /**
   * In every interleaving: the count of a generation is the holder's reference plus what threads
   * owe; a generation in a slot or under lease has neither been retired nor is being retired;
   * a fully drained generation has its callback run exactly once, or one thread about to run it.
   */
  lemma EveryRunIsSafe(snap: Snapshot, moves: seq<Move>, s: State, g: nat)
    requires Reaches(Init(snap), moves, s) && g < |s.gens|
    ensures s.gens[g].refs == SlotRef(s, g) + OweCount(s.threads, g)
    ensures (s.current == g || s.previous == Some(g) || exists t :: t in s.threads && s.threads[t] == Leased(g)) ==>
              s.gens[g].fired == 0 && forall t :: t in s.threads ==> !IsRetiring(s.threads[t], g)
    ensures s.gens[g].fired <= 1
    ensures s.gens[g].refs == 0 <==> s.gens[g].fired + RetiringCount(s.threads, g) == 1
  {
    hide Reaches;
    InitHolds(snap);
    RunKeepsInv(Init(snap), moves, s);
    if t :| t in s.threads && s.threads[t] == Leased(g) {
      SomebodyAt(s.threads, pc => Owes(pc, g), t);
    }
    if t :| t in s.threads && IsRetiring(s.threads[t], g) {
      SomebodyAt(s.threads, pc => IsRetiring(pc, g), t);
    }
  }

  /** An Acquire has failed at most once per store to the current slot since it began. */
  lemma FailedIterationsArePaidFor(snap: Snapshot, moves: seq<Move>, s: State, t: nat)
    requires Reaches(Init(snap), moves, s) && t in s.threads
    requires s.threads[t].Reloading? || s.threads[t].Loaded? || s.threads[t].Counted?
    ensures s.threads[t].at.failures <= s.stores - s.threads[t].at.began
  {
    hide Reaches;
    InitHolds(snap);
    RunKeepsInv(Init(snap), moves, s);
  }

  lemma {:induction false} StepKeepsDrained(s: State, t: nat, a: Action, g: nat)
    requires Inv(s) && Enabled(s, t, a) && g < |s.gens|
    ensures var s' := Step(s, t, a);
            && g < |s'.gens| && s'.gens[g].snap == s.gens[g].snap && s.gens[g].fired <= s'.gens[g].fired
            && (s.gens[g].refs == 0 ==> s'.gens[g].refs == 0)
  {
    hide OweCount, RetiresOnce, SlotsShifted, MutexHeld;
    var s' := Step(s, t, a);
    if !a.ReleaseAgain? { TalliesMove(s, t, s'.threads[t], g); }
  }

  /** A count that reached zero never rises again, and a generation never changes its snapshot. */
  lemma {:induction false} DrainedStaysDrained(s: State, moves: seq<Move>, last: State, g: nat)
    requires Inv(s) && Reaches(s, moves, last) && g < |s.gens|
    ensures g < |last.gens| && last.gens[g].snap == s.gens[g].snap && s.gens[g].fired <= last.gens[g].fired
    ensures s.gens[g].refs == 0 ==> last.gens[g].refs == 0
    decreases |moves|
  {
    hide Inv, Step, Enabled, InBounds;
    if moves != [] {
      StepKeepsInv(s, moves[0].thread, moves[0].action);
      StepKeepsDrained(s, moves[0].thread, moves[0].action, g);
      DrainedStaysDrained(Step(s, moves[0].thread, moves[0].action), moves[1..], last, g);
    }
  }

  /** A thread inside Swap or Rollback that still has to give back the holder's reference to `g`. */
  predicate IsDropping(pc: Pc, g: nat) {
    Owes(pc, g) && !pc.Leased?
  }

  /** The holder has not yet given back its own reference to `g`. */
  ghost predicate Retained(s: State, g: nat) {
    s.current == g || s.previous == Some(g) || exists t :: t in s.threads && IsDropping(s.threads[t], g)
  }

  function Leases(s: State, g: nat): nat {
    Tally(s.threads, pc => pc == Leased(g))
  }

  lemma OwedIsLeasedOrDropped(s: State, g: nat)
    ensures OweCount(s.threads, g) == Leases(s, g) + Tally(s.threads, pc => IsDropping(pc, g))
  {
    var owed := At(s.threads, pc => Owes(pc, g));
    var leased, dropped := At(s.threads, pc => pc == Leased(g)), At(s.threads, pc => IsDropping(pc, g));
    assert owed == leased + dropped;
    assert leased * dropped == {};
  }

  /** At most one thread is about to give a reference back, and only for a generation in no slot. */
  lemma DroppersHaveNoSlot(s: State, g: nat)
    requires Inv(s)
    ensures SlotRef(s, g) + Tally(s.threads, pc => IsDropping(pc, g)) == if Retained(s, g) then 1 else 0
  {
    hide CountsBalance, RetiresOnce, FailuresArePaid, InBounds;
    var dropping := At(s.threads, pc => IsDropping(pc, g));
    if t :| t in s.threads && IsDropping(s.threads[t], g) {
      assert InCritical(s.threads[t]) && s.lock == Some(t);
      assert dropping == {t};
      assert IsShifting(s.threads[t]) || s.threads[t].Dropping?;
    } else {
      assert dropping == {};
    }
  }

  /**
   * In every reachable state, swaps and rollbacks under way included, a count less the holder's own
   * reference is the number of leases on the generation.  A reader that loads the generation first
   * and the count later reads one too few exactly when that reference was given back in between.
   */
  lemma InFlightIsExact(snap: Snapshot, moves: seq<Move>, s: State, g: nat)
    requires Reaches(Init(snap), moves, s) && g < |s.gens|
    ensures s.gens[g].refs - 1 == Leases(s, g) - if Retained(s, g) then 0 else 1
    ensures s.current == g || s.previous == Some(g) ==> s.gens[g].refs - 1 == Leases(s, g)
  {
    hide Reaches, OweCount, Leases, Tally, Retained;
    InitHolds(snap);
    RunKeepsInv(Init(snap), moves, s);
    OwedIsLeasedOrDropped(s, g);
    DroppersHaveNoSlot(s, g);
    SlotIsRetained(s, g);
  }

  lemma SlotIsRetained(s: State, g: nat)
    ensures s.current == g || s.previous == Some(g) ==> Retained(s, g)
  {
  }

  // ---- what an Acquire leases ----

  /** The number of moves up to and including the last StartAcquire of `t`, 0 if it made none. */
  function LastStart(moves: seq<Move>, t: nat): (n: nat)
    ensures n <= |moves|
  {
    if moves == [] then 0
    else if moves[|moves| - 1] == Move(t, StartAcquire) then |moves|
    else LastStart(moves[..|moves| - 1], t)
  }

  /** In some state of the run, `start` moves or more into it, `g` was the current generation. */
  ghost predicate WasCurrent(first: State, moves: seq<Move>, start: nat, g: nat) {
    exists i, mid: State :: start <= i <= |moves| && Reaches(first, moves[..i], mid) && mid.current == g
  }

  /** The last move of a run, taken apart. */
  lemma {:induction false} ReachesFront(s: State, moves: seq<Move>, last: State) returns (mid: State)
    requires Reaches(s, moves, last) && moves != []
    ensures var m, front := moves[|moves| - 1], moves[..|moves| - 1];
            && Reaches(s, front, mid) && InBounds(mid) && Enabled(mid, m.thread, m.action)
            && last == Step(mid, m.thread, m.action)
    decreases |moves|
  {
    hide InBounds, Enabled, Step;
    var front := moves[..|moves| - 1];
    if |moves| == 1 {
      mid := s;
      assert moves[1..] == [];
    } else {
      mid := ReachesFront(Step(s, moves[0].thread, moves[0].action), moves[1..], last);
      assert moves[1..][..|moves| - 2] == front[1..] && moves[1..][|moves| - 2] == moves[|moves| - 1];
    }
  }

  /** The generation a thread has loaded, is counting or holds a lease on. */
  function Picked(pc: Pc): Option<nat> {
    match pc
    case Loaded(g, _, _) => Some(g)
    case Counted(g, _, _, _) => Some(g)
    case Leased(g) => Some(g)
    case _ => None
  }

  /** A step leaves a thread's pick alone, unless the thread loads the current slot. */
  lemma PickIsLoaded(s: State, m: Move, t: nat)
    requires InBounds(s) && Enabled(s, m.thread, m.action)
    ensures var pick := Picked(PcOf(Step(s, m.thread, m.action).threads, t));
            pick.Some? ==> pick == Picked(PcOf(s.threads, t)) || (m == Move(t, LoadCurrent) && pick == Some(s.current))
    ensures Picked(PcOf(Step(s, m.thread, m.action).threads, t)).Some? ==> m != Move(t, StartAcquire)
  {
    hide Monotonic;
    if m.thread == t && IsLockFree(m.action) {
      PickOfAcquire(s, t, m.action);
    }
  }

  lemma PickOfAcquire(s: State, t: nat, a: Action)
    requires InBounds(s) && Enabled(s, t, a) && IsLockFree(a)
    ensures var pick := Picked(PcOf(Step(s, t, a).threads, t));
            pick.Some? ==>
              && a != StartAcquire
              && (pick == Picked(PcOf(s.threads, t)) || (a == LoadCurrent && pick == Some(s.current)))
  {
  }

  lemma WasCurrentLonger(first: State, moves: seq<Move>, start: nat, g: nat)
    requires moves != [] && WasCurrent(first, moves[..|moves| - 1], start, g)
    ensures WasCurrent(first, moves, start, g)
  {
    hide Reaches;
    var front := moves[..|moves| - 1];
    var i, mid: State :| start <= i <= |front| && Reaches(first, front[..i], mid) && mid.current == g;
    assert front[..i] == moves[..i];
  }

  /**
   * Every lease is on a generation that was current at some moment since its Acquire began: no
   * Acquire is handed a generation that had been displaced before it started.
   */
  lemma {:induction false} LeaseWasCurrent(first: State, moves: seq<Move>, s: State, t: nat)
    requires Reaches(first, moves, s) && Picked(PcOf(first.threads, t)).None?
    ensures Picked(PcOf(s.threads, t)).Some? ==>
              WasCurrent(first, moves, LastStart(moves, t), Picked(PcOf(s.threads, t)).value)
    decreases |moves|
  {
    hide Reaches, Step, Enabled, InBounds, Picked, WasCurrent;
    if moves == [] {
      OnlySelf(first, s);
    } else {
      var m, front := moves[|moves| - 1], moves[..|moves| - 1];
      var mid := ReachesFront(first, moves, s);
      LeaseWasCurrent(first, front, mid, t);
      PickIsLoaded(mid, m, t);
      var pick := Picked(PcOf(s.threads, t));
      if pick.Some? {
        if pick == Picked(PcOf(mid.threads, t)) {
          WasCurrentLonger(first, moves, LastStart(front, t), pick.value);
        } else {
          CurrentBefore(first, moves, mid, LastStart(front, t));
        }
      }
    }
  }

  lemma OnlySelf(s: State, last: State)
    requires Reaches(s, [], last)
    ensures s == last
  {
  }

  lemma CurrentBefore(first: State, moves: seq<Move>, mid: State, start: nat)
    requires moves != [] && Reaches(first, moves[..|moves| - 1], mid) && start <= |moves| - 1
    ensures WasCurrent(first, moves, start, mid.current)
  {
    hide Reaches;
    assert moves[..|moves| - 1] == moves[..|moves| - 1];
  }

  /** The two steps that store to the current slot. */
  predicate IsStore(a: Action) {
    a.StoreNext? || a.StorePrevious?
  }

  lemma {:induction false} NoStoreKeepsCurrent(first: State, moves: seq<Move>, i: nat, mid: State, s: State)
    requires i <= |moves| && Reaches(first, moves[..i], mid) && Reaches(first, moves, s)
    requires forall k :: i <= k < |moves| ==> !IsStore(moves[k].action)
    ensures mid.current == s.current
    decreases |moves|
  {
    hide Reaches, Step, Enabled, InBounds;
    if i == |moves| {
      assert moves[..i] == moves;
      RunIsDeterministic(first, moves, mid, s);
    } else {
      var m, front := moves[|moves| - 1], moves[..|moves| - 1];
      var before := ReachesFront(first, moves, s);
      assert front[..i] == moves[..i];
      NoStoreKeepsCurrent(first, front, i, mid, before);
      OnlyStoresMoveCurrent(before, m);
    }
  }

  lemma OnlyStoresMoveCurrent(s: State, m: Move)
    requires InBounds(s) && Enabled(s, m.thread, m.action) && !IsStore(m.action)
    ensures Step(s, m.thread, m.action).current == s.current
  {
  }

  lemma {:induction false} RunIsDeterministic(s: State, moves: seq<Move>, a: State, b: State)
    requires Reaches(s, moves, a) && Reaches(s, moves, b)
    ensures a == b
    decreases |moves|
  {
    hide InBounds, Enabled, Step;
    if moves != [] {
      RunIsDeterministic(Step(s, moves[0].thread, moves[0].action), moves[1..], a, b);
    }
  }

  /** The stores counted are the times the current generation changed. */
  lemma StoresAreSwitches(s: State, m: Move)
    requires Inv(s) && Enabled(s, m.thread, m.action)
    ensures var s' := Step(s, m.thread, m.action);
            s'.stores == s.stores + if s'.current != s.current then 1 else 0
  {
    hide CountsBalance, RetiresOnce, FailuresArePaid, Monotonic;
  }

  /** With no store since its Acquire began, a lease is on the generation that is current now. */
  lemma UndisturbedLeaseIsCurrent(snap: Snapshot, moves: seq<Move>, s: State, t: nat, g: nat)
    requires Reaches(Init(snap), moves, s) && PcOf(s.threads, t) == Leased(g)
    requires forall k :: LastStart(moves, t) <= k < |moves| ==> !IsStore(moves[k].action)
    ensures g == s.current
  {
    hide Reaches;
    LeaseWasCurrent(Init(snap), moves, s, t);
    var i, mid: State :|
      LastStart(moves, t) <= i <= |moves| && Reaches(Init(snap), moves[..i], mid) && mid.current == g;
    NoStoreKeepsCurrent(Init(snap), moves, i, mid, s);
  }

  // ---- calls nobody interferes with ----

  /** `t` takes the given steps one after the other. */
  function Alone(t: nat, actions: seq<Action>): seq<Move> {
    seq(|actions|, i requires 0 <= i < |actions| => Move(t, actions[i]))
  }

  lemma ReachesOneMore(s: State, t: nat, actions: seq<Action>, mid: State, a: Action)
    requires Reaches(s, Alone(t, actions), mid) && Inv(mid) && Enabled(mid, t, a)
    ensures Reaches(s, Alone(t, actions + [a]), Step(mid, t, a)) && Inv(Step(mid, t, a))
  {
    hide Reaches, Step, Enabled, MutexHeld, SlotsShifted, CountsBalance, RetiresOnce, FailuresArePaid;
    ReachesOn(s, Alone(t, actions), mid, Move(t, a));
    assert Alone(t, actions + [a]) == Alone(t, actions) + [Move(t, a)];
    StepKeepsInv(mid, t, a);
  }

  lemma NothingAlone(s: State, t: nat)
    ensures Reaches(s, Alone(t, []), s)
  {
  }

  lemma CurrentIsCounted(s: State)
    requires Inv(s)
    ensures s.gens[s.current].refs > 0
  {
    hide OweCount;
  }

  /** An Acquire nobody interferes with leases the current generation, and changes only its count. */
  lemma AcquireAlone(s: State, t: nat)
    requires Inv(s) && PcOf(s.threads, t).Idle?
    ensures var g := s.current;
            var s' := Goto(AddRef(s, g, 1), t, Leased(g));
            Reaches(s, Alone(t, [StartAcquire, LoadCurrent, LoadCount, CompareAndSwap]), s') && Inv(s')
  {
    hide Reaches, Inv;
    InvBounds(s);
    CurrentIsCounted(s);
    NothingAlone(s, t);
    assert [] + [StartAcquire] == [StartAcquire];
    assert [StartAcquire] + [LoadCurrent] == [StartAcquire, LoadCurrent];
    assert [StartAcquire, LoadCurrent] + [LoadCount] == [StartAcquire, LoadCurrent, LoadCount];
    assert [StartAcquire, LoadCurrent, LoadCount] + [CompareAndSwap]
        == [StartAcquire, LoadCurrent, LoadCount, CompareAndSwap];
    var s1 := Step(s, t, StartAcquire);
    ReachesOneMore(s, t, [], s, StartAcquire);
    InvBounds(s1);
    var s2 := Step(s1, t, LoadCurrent);
    ReachesOneMore(s, t, [StartAcquire], s1, LoadCurrent);
    InvBounds(s2);
    var s3 := Step(s2, t, LoadCount);
    ReachesOneMore(s, t, [StartAcquire, LoadCurrent], s2, LoadCount);
    InvBounds(s3);
    ReachesOneMore(s, t, [StartAcquire, LoadCurrent, LoadCount], s3, CompareAndSwap);
    assert Step(s3, t, CompareAndSwap).threads == s.threads[t := Leased(s.current)];
  }

  lemma InvBounds(s: State)
    requires Inv(s)
    ensures InBounds(s)
  {
  }

  /**
   * A Swap nobody interferes with is accepted exactly when the new snapshot is monotonic; then the new
   * snapshot is served and the displaced one is kept for a rollback.
   */
  lemma SwapAlone(s: State, t: nat, next: Snapshot)
    requires Inv(s) && PcOf(s.threads, t).Idle? && s.lock == None
    ensures exists s' ::
      && Reaches(s, Alone(t, [LockForSwap(next), ShiftSlots]), s') && Inv(s')
      && (PcOf(s'.threads, t) == Unlocking <==> !Monotonic(s.gens[s.current].snap, next))
      && (PcOf(s'.threads, t) == Unlocking ==>
            s'.gens == s.gens && s'.current == s.current && s'.previous == s.previous)
    ensures Monotonic(s.gens[s.current].snap, next) ==> exists s' ::
      && Reaches(s, Alone(t, [LockForSwap(next), ShiftSlots, StoreNext]), s') && Inv(s')
      && s'.gens[s'.current].snap == next && s'.previous == Some(s.current)
  {
    hide Reaches, Inv, Monotonic;
    InvBounds(s);
    NothingAlone(s, t);
    var s1 := Step(s, t, LockForSwap(next));
    ReachesOneMore(s, t, [], s, LockForSwap(next));
    InvBounds(s1);
    assert [] + [LockForSwap(next)] == [LockForSwap(next)];
    var s2 := Step(s1, t, ShiftSlots);
    ReachesOneMore(s, t, [LockForSwap(next)], s1, ShiftSlots);
    assert [LockForSwap(next)] + [ShiftSlots] == [LockForSwap(next), ShiftSlots];
    InvBounds(s2);
    if Monotonic(s.gens[s.current].snap, next) {
      ReachesOneMore(s, t, [LockForSwap(next), ShiftSlots], s2, StoreNext);
      assert [LockForSwap(next), ShiftSlots] + [StoreNext] == [LockForSwap(next), ShiftSlots, StoreNext];
      InvBounds(Step(s2, t, StoreNext));
    }
  }

  /** A Rollback nobody interferes with serves what was displaced last, once; without one it changes nothing. */
  lemma RollbackAlone(s: State, t: nat)
    requires Inv(s) && PcOf(s.threads, t).Idle? && s.lock == None
    ensures s.previous.Some? ==> exists s' ::
      && Reaches(s, Alone(t, [LockForRollback, StorePrevious, ClearPrevious]), s') && Inv(s')
      && Some(s'.current) == s.previous && s'.previous == None && s'.gens == s.gens
    ensures s.previous.None? ==> exists s' ::
      && Reaches(s, Alone(t, [LockForRollback, StorePrevious]), s') && Inv(s')
      && s'.current == s.current && s'.gens == s.gens && PcOf(s'.threads, t) == Unlocking
  {
    hide Reaches, Inv;
    InvBounds(s);
    NothingAlone(s, t);
    var s1 := Step(s, t, LockForRollback);
    ReachesOneMore(s, t, [], s, LockForRollback);
    InvBounds(s1);
    assert [] + [LockForRollback] == [LockForRollback];
    var s2 := Step(s1, t, StorePrevious);
    ReachesOneMore(s, t, [LockForRollback], s1, StorePrevious);
    assert [LockForRollback] + [StorePrevious] == [LockForRollback, StorePrevious];
    InvBounds(s2);
    if s.previous.Some? {
      ReachesOneMore(s, t, [LockForRollback, StorePrevious], s2, ClearPrevious);
      assert [LockForRollback, StorePrevious] + [ClearPrevious] == [LockForRollback, StorePrevious, ClearPrevious];
    }
  }

  // ---- runs without a rollback ----

  /** The current generation is the newest, and each one accepted only moved versions forward. */
  ghost predicate Forward(s: State) {
    && s.current == |s.gens| - 1
    && (forall g :: 0 < g < |s.gens| ==> Monotonic(s.gens[g - 1].snap, s.gens[g].snap))
    && forall t :: t in s.threads ==>
         && !s.threads[t].RollbackLocked? && !s.threads[t].RollbackStored?
         && (s.threads[t].SwapShifted? ==> Monotonic(s.gens[s.current].snap, s.threads[t].next))
  }

  lemma {:induction false} LockFreeKeepsForward(s: State, t: nat, a: Action)
    requires Inv(s) && Enabled(s, t, a) && Forward(s) && IsLockFree(a)
    ensures Forward(Step(s, t, a))
  {
    hide CountsBalance, RetiresOnce, FailuresArePaid, SlotsShifted, MutexHeld, Monotonic;
    var s' := Step(s, t, a);
    assert forall g :: 0 <= g < |s.gens| ==> s'.gens[g].snap == s.gens[g].snap;
  }

  lemma {:induction false} LockedKeepsForward(s: State, t: nat, a: Action)
    requires Inv(s) && Enabled(s, t, a) && Forward(s) && !IsLockFree(a) && !a.LockForRollback?
    ensures Forward(Step(s, t, a))
  {
    hide CountsBalance, RetiresOnce, FailuresArePaid, SlotsShifted, Monotonic;
    var s' := Step(s, t, a);
    assert forall g :: 0 <= g < |s.gens| ==> s'.gens[g].snap == s.gens[g].snap;
    assert a.StoreNext? ==> forall u :: u in s.threads && u != t ==> !s.threads[u].SwapShifted?;
  }

  /** Without a rollback, every generation a worker ever serves is version-monotonic over the last. */
  lemma {:induction false} WithoutRollbackVersionsRise(s: State, moves: seq<Move>, last: State)
    requires Inv(s) && Forward(s) && Reaches(s, moves, last)
    requires forall i :: 0 <= i < |moves| ==> !moves[i].action.LockForRollback?
    ensures Forward(last)
    decreases |moves|
  {
    hide Inv, Step, Enabled, InBounds, Forward;
    if moves != [] {
      StepKeepsInv(s, moves[0].thread, moves[0].action);
      if IsLockFree(moves[0].action) {
        LockFreeKeepsForward(s, moves[0].thread, moves[0].action);
      } else {
        LockedKeepsForward(s, moves[0].thread, moves[0].action);
      }
      WithoutRollbackVersionsRise(Step(s, moves[0].thread, moves[0].action), moves[1..], last);
    }
  }

  /** So the global version served never falls. */
  lemma {:induction false} GlobalVersionNeverFalls(s: State, g: nat, g': nat)
    requires Forward(s) && g <= g' < |s.gens|
    ensures s.gens[g].snap.global <= s.gens[g'].snap.global
    decreases g'
  {
    if g < g' {
      GlobalVersionNeverFalls(s, g, g' - 1);
      assert Monotonic(s.gens[g' - 1].snap, s.gens[g'].snap);
    }
  }
}
