/**
 * The telemetry ring: any number of emitters, drop-oldest eviction and one draining worker.
 *
 * Each channel operation and each counter update is one step.  The sequences `received`,
 * `lost`, `enqueued`, `removed` and `done` record what happened; the rest is the emitter's
 * own state.
 */
module Telemetry {

  type Event = nat

  /** Where an emitter is between counting an event and being done with it. */
  datatype Phase =
    | Idle
    | Arrived(event: Event)
    | Full(event: Event)
    | Evicted(event: Event, oldest: Event)
    | Retrying(event: Event)
    | Refused(event: Event)

  datatype Worker =
    | Waiting(draining: bool)
    | Writing(next: nat, draining: bool, last: bool)
    | Exited

  /** An event leaving the buffer, to the worker or evicted. */
  datatype Removal = Removal(event: Event, evicted: bool)

  datatype Config = Config(capacity: nat, batchSize: nat, sinks: nat)

  datatype State = State(
    buffer: seq<Event>, dropped: nat, failed: nat, stopped: bool, emitters: seq<Phase>,
    worker: Worker, batch: seq<Event>, offered: seq<seq<Event>>,
    received: seq<Event>, lost: seq<Event>, enqueued: seq<Event>, removed: seq<Removal>, done: seq<Event>)

  datatype EmitAction = Receive(event: Event) | TrySend | Evict | CountEvicted | SendAgain | CountRefused

  datatype WorkAction = Take | Tick | SeeStop | EndDrain | Offer(ok: bool) | Finish

  datatype Action = Emit(t: nat, emit: EmitAction) | Work(work: WorkAction) | Stop

  predicate EmitEnabled(s: State, t: nat, a: EmitAction) {
    && t < |s.emitters|
    && var p := s.emitters[t];
       match a
       case Receive(_) => p.Idle?
       case TrySend => p.Arrived?
       case Evict => p.Full?
       case CountEvicted => p.Evicted?
       case SendAgain => p.Retrying?
       case CountRefused => p.Refused?
  }

  function Goto(s: State, t: nat, p: Phase): State
    requires t < |s.emitters|
  {
    s.(emitters := s.emitters[t := p])
  }

  /** A send that does not block. */
  function Send(c: Config, s: State, t: nat, e: Event, otherwise: Phase): State
    requires t < |s.emitters|
  {
    if |s.buffer| < c.capacity
    then Goto(s.(buffer := s.buffer + [e], enqueued := s.enqueued + [e]), t, Idle)
    else Goto(s, t, otherwise)
  }

  /** One increment of the drop counter. */
  function Count(s: State, e: Event): State {
    s.(dropped := s.dropped + 1, lost := s.lost + [e])
  }

  /** The oldest event leaves the buffer. */
  function Remove(s: State, evicted: bool): State
    requires s.buffer != []
  {
    s.(buffer := s.buffer[1..], removed := s.removed + [Removal(s.buffer[0], evicted)])
  }

  function EmitStep(c: Config, s: State, t: nat, a: EmitAction): State
    requires EmitEnabled(s, t, a)
  {
    var p := s.emitters[t];
    match a
    case Receive(e) => Goto(s.(received := s.received + [e]), t, Arrived(e))
    case TrySend => Send(c, s, t, p.event, Full(p.event))
    case Evict =>
      if s.buffer == [] then Goto(s, t, Retrying(p.event))
      else Goto(Remove(s, true), t, Evicted(p.event, s.buffer[0]))
    case CountEvicted => Goto(Count(s, p.oldest), t, Retrying(p.event))
    case SendAgain => Send(c, s, t, p.event, Refused(p.event))
    case CountRefused => Goto(Count(s, p.event), t, Idle)
  }

  predicate WorkEnabled(c: Config, s: State, a: WorkAction) {
    match a
    case Take => s.worker.Waiting? && s.buffer != []
    case Tick => s.worker == Waiting(false)
    case SeeStop => s.worker == Waiting(false) && s.stopped
    case EndDrain => s.worker == Waiting(true) && s.buffer == []
    case Offer(_) => s.worker.Writing? && s.worker.next < c.sinks && c.sinks == |s.offered|
    case Finish => s.worker.Writing? && s.worker.next >= c.sinks
  }

  function WorkStep(c: Config, s: State, a: WorkAction): State
    requires WorkEnabled(c, s, a)
  {
    match a
    case Take =>
      var after := Remove(s, false).(batch := s.batch + [s.buffer[0]]);
      if |after.batch| >= c.batchSize then after.(worker := Writing(0, s.worker.draining, false)) else after
    case Tick => if s.batch == [] then s else s.(worker := Writing(0, false, false))
    case SeeStop => s.(worker := Waiting(true))
    case EndDrain => s.(worker := if s.batch == [] then Exited else Writing(0, true, true))
    case Offer(ok) =>
      var n := s.worker.next;
      s.(offered := s.offered[n := s.offered[n] + s.batch],
         failed := s.failed + (if ok then 0 else |s.batch|),
         worker := s.worker.(next := n + 1))
    case Finish =>
      s.(done := s.done + s.batch, batch := [],
         worker := if s.worker.last then Exited else Waiting(s.worker.draining))
  }

  predicate Enabled(c: Config, s: State, a: Action) {
    match a
    case Emit(t, e) => EmitEnabled(s, t, e)
    case Work(w) => WorkEnabled(c, s, w)
    case Stop => true
  }

  function Step(c: Config, s: State, a: Action): State
    requires Enabled(c, s, a)
  {
    match a
    case Emit(t, e) => EmitStep(c, s, t, e)
    case Work(w) => WorkStep(c, s, w)
    case Stop => s.(stopped := true)
  }

  // ---- the invariant ----

  function Holding(p: Phase): multiset<Event> {
    match p
    case Idle => multiset{}
    case Arrived(e) => multiset{e}
    case Full(e) => multiset{e}
    case Evicted(e, o) => multiset{o} + multiset{e}
    case Retrying(e) => multiset{e}
    case Refused(e) => multiset{e}
  }

  /** Events in the hands of emitters. */
  function InHand(ps: seq<Phase>): multiset<Event> {
    if ps == [] then multiset{} else InHand(ps[..|ps| - 1]) + Holding(ps[|ps| - 1])
  }

  lemma AddToBoth(a: multiset<Event>, b: multiset<Event>, c: multiset<Event>, d: multiset<Event>, x: multiset<Event>)
    requires a + b == c + d
    ensures (a + x) + b == (c + x) + d
  {
    forall e ensures ((a + x) + b)[e] == ((c + x) + d)[e] {
      assert (a + b)[e] == (c + d)[e];
    }
  }

  lemma {:induction false} InHandUpdate(ps: seq<Phase>, t: nat, p: Phase)
    requires t < |ps|
    ensures InHand(ps[t := p]) + Holding(ps[t]) == InHand(ps) + Holding(p)
  {
    hide Holding;
    var n := |ps| - 1;
    if t < n {
      InHandUpdate(ps[..n], t, p);
      assert ps[t := p][..n] == ps[..n][t := p];
      AddToBoth(InHand(ps[..n][t := p]), Holding(ps[t]), InHand(ps[..n]), Holding(p), Holding(ps[n]));
    } else {
      assert ps[t := p][..n] == ps[..n];
    }
  }

  lemma {:induction false} IdleHandsAreEmpty(ps: seq<Phase>)
    requires forall t :: 0 <= t < |ps| ==> ps[t].Idle?
    ensures InHand(ps) == multiset{}
  {
    if ps != [] {
      IdleHandsAreEmpty(ps[..|ps| - 1]);
    }
  }

  function Left(removed: seq<Removal>): seq<Event> {
    if removed == [] then [] else Left(removed[..|removed| - 1]) + [removed[|removed| - 1].event]
  }

  /** What the worker took, in order. */
  function Taken(removed: seq<Removal>): seq<Event> {
    if removed == [] then []
    else Taken(removed[..|removed| - 1]) + if removed[|removed| - 1].evicted then [] else [removed[|removed| - 1].event]
  }

  /** Every event received is lost, buffered, consumed or in an emitter's hands, exactly once. */
  ghost predicate Conserved(s: State) {
    && multiset(s.received)
       == multiset(s.lost) + multiset(s.buffer) + multiset(s.done) + multiset(s.batch) + InHand(s.emitters)
    && s.dropped == |s.lost|
  }

  /** The buffer is bounded and first in, first out; the worker's events keep that order. */
  ghost predicate Ordered(c: Config, s: State) {
    && |s.buffer| <= c.capacity
    && s.enqueued == Left(s.removed) + s.buffer
    && s.done + s.batch == Taken(s.removed)
  }

  /** Every sink was offered the finished batches once, and the current one if it had its turn. */
  ghost predicate FannedOut(c: Config, s: State) {
    && |s.offered| == c.sinks
    && (s.worker.Writing? ==> s.worker.next <= c.sinks)
    && (forall j :: 0 <= j < |s.offered| ==>
          s.offered[j] == s.done + if s.worker.Writing? && j < s.worker.next then s.batch else [])
    && (s.worker.Exited? ==> s.batch == [])
    && (s.worker == Waiting(true) || (s.worker.Writing? && s.worker.draining) || s.worker.Exited? ==> s.stopped)
    && (s.worker.Writing? && s.worker.last ==> s.worker.draining)
  }

  ghost predicate Inv(c: Config, s: State) {
    Conserved(s) && Ordered(c, s) && FannedOut(c, s)
  }

  ghost predicate Initial(c: Config, s: State) {
    && s.buffer == [] && s.dropped == 0 && !s.stopped && s.worker == Waiting(false) && s.batch == []
    && |s.offered| == c.sinks
    && (forall j :: 0 <= j < |s.offered| ==> s.offered[j] == [])
    && (forall t :: 0 <= t < |s.emitters| ==> s.emitters[t].Idle?)
    && s.received == [] && s.lost == [] && s.enqueued == [] && s.removed == [] && s.done == []
  }

  lemma InitialInv(c: Config, s: State)
    requires Initial(c, s)
    ensures Inv(c, s)
  {
    IdleHandsAreEmpty(s.emitters);
  }

  lemma RemovedGrows(removed: seq<Removal>, r: Removal)
    ensures Left(removed + [r]) == Left(removed) + [r.event]
    ensures Taken(removed + [r]) == Taken(removed) + if r.evicted then [] else [r.event]
  {
    assert (removed + [r])[..|removed|] == removed;
  }

  lemma HeadAndTail(s: seq<Event>)
    requires s != []
    ensures multiset(s) == multiset{s[0]} + multiset(s[1..])
  {
    assert s == [s[0]] + s[1..];
  }

  /** What a step adds on one side of the account it adds on the other. */
  lemma Rebalanced(s: State, next: State, held: multiset<Event>, holds: multiset<Event>)
    requires Conserved(s) && next.done == s.done && next.batch == s.batch && next.dropped == |next.lost|
    requires InHand(next.emitters) + held == InHand(s.emitters) + holds
    requires multiset(next.received) + multiset(s.lost) + multiset(s.buffer) + held
          == multiset(s.received) + multiset(next.lost) + multiset(next.buffer) + holds
    ensures Conserved(next)
  {
    hide InHand;
    forall e
      ensures multiset(next.received)[e]
           == (multiset(next.lost) + multiset(next.buffer) + multiset(next.done) + multiset(next.batch)
               + InHand(next.emitters))[e]
    {
      assert (InHand(next.emitters) + held)[e] == (InHand(s.emitters) + holds)[e];
      assert (multiset(next.received) + multiset(s.lost) + multiset(s.buffer) + held)[e]
          == (multiset(s.received) + multiset(next.lost) + multiset(next.buffer) + holds)[e];
      assert multiset(s.received)[e]
          == (multiset(s.lost) + multiset(s.buffer) + multiset(s.done) + multiset(s.batch) + InHand(s.emitters))[e];
    }
  }

  /** What a step of an emitter leaves alone. */
  lemma EmitFrame(c: Config, s: State, t: nat, a: EmitAction)
    requires EmitEnabled(s, t, a)
    ensures var next := EmitStep(c, s, t, a);
            && |next.emitters| == |s.emitters| && next.emitters == s.emitters[t := next.emitters[t]]
            && next.done == s.done && next.batch == s.batch && next.worker == s.worker
            && next.offered == s.offered && next.stopped == s.stopped
            && next.dropped - |next.lost| == s.dropped - |s.lost|
  {
  }

  lemma EmitConserves(c: Config, s: State, t: nat, a: EmitAction)
    requires Conserved(s) && EmitEnabled(s, t, a)
    ensures Conserved(EmitStep(c, s, t, a))
  {
    hide EmitStep, InHand, Holding;
    var next := EmitStep(c, s, t, a);
    EmitFrame(c, s, t, a);
    InHandUpdate(s.emitters, t, next.emitters[t]);
    EmitMoves(c, s, t, a);
    Rebalanced(s, next, Holding(s.emitters[t]), Holding(next.emitters[t]));
  }

  /** From `s` to `next`, emitter `t` and the shared state exchanged events without loss or gain. */
  ghost predicate Moved(s: State, next: State, t: nat)
    requires t < |s.emitters| == |next.emitters|
  {
    multiset(next.received) + multiset(s.lost) + multiset(s.buffer) + Holding(s.emitters[t])
    == multiset(s.received) + multiset(next.lost) + multiset(next.buffer) + Holding(next.emitters[t])
  }

  lemma ReceiveMoves(s: State, t: nat, e: Event)
    requires t < |s.emitters| && s.emitters[t].Idle?
    ensures Moved(s, Goto(s.(received := s.received + [e]), t, Arrived(e)), t)
  {
    assert multiset(s.received + [e]) == multiset(s.received) + multiset{e};
  }

  lemma SendMoves(c: Config, s: State, t: nat, e: Event, otherwise: Phase)
    requires t < |s.emitters| && Holding(s.emitters[t]) == multiset{e} == Holding(otherwise)
    ensures Moved(s, Send(c, s, t, e, otherwise), t)
  {
    if |s.buffer| < c.capacity {
      assert multiset(s.buffer + [e]) == multiset(s.buffer) + multiset{e};
    }
  }

  lemma NothingMoves(s: State, t: nat, p: Phase)
    requires t < |s.emitters| && Holding(s.emitters[t]) == Holding(p)
    ensures Moved(s, Goto(s, t, p), t)
  {
  }

  lemma EvictMoves(s: State, t: nat, e: Event)
    requires t < |s.emitters| && s.emitters[t] == Full(e) && s.buffer != []
    ensures Moved(s, Goto(Remove(s, true), t, Evicted(e, s.buffer[0])), t)
  {
    HeadAndTail(s.buffer);
  }

  lemma CountMoves(s: State, t: nat, e: Event, then': Phase)
    requires t < |s.emitters| && Holding(s.emitters[t]) == multiset{e} + Holding(then')
    ensures Moved(s, Goto(Count(s, e), t, then'), t)
  {
    assert multiset(s.lost + [e]) == multiset(s.lost) + multiset{e};
  }

  lemma EmitMoves(c: Config, s: State, t: nat, a: EmitAction)
    requires EmitEnabled(s, t, a)
    ensures Moved(s, EmitStep(c, s, t, a), t)
  {
    hide Moved, Send, Remove, Count;
    var p := s.emitters[t];
    EmitFrame(c, s, t, a);
    match a
    case Receive(e) => ReceiveMoves(s, t, e);
    case TrySend => SendMoves(c, s, t, p.event, Full(p.event));
    case Evict =>
      if s.buffer == [] {
        NothingMoves(s, t, Retrying(p.event));
      } else {
        EvictMoves(s, t, p.event);
      }
    case CountEvicted => CountMoves(s, t, p.oldest, Retrying(p.event));
    case SendAgain => SendMoves(c, s, t, p.event, Refused(p.event));
    case CountRefused => CountMoves(s, t, p.event, Idle);
  }

  lemma EmitKeepsOrder(c: Config, s: State, t: nat, a: EmitAction)
    requires Ordered(c, s) && EmitEnabled(s, t, a)
    ensures Ordered(c, EmitStep(c, s, t, a))
  {
    hide Left, Taken;
    if a == Evict && s.buffer != [] {
      RemovedGrows(s.removed, Removal(s.buffer[0], true));
    }
  }

  lemma WorkConserves(c: Config, s: State, a: WorkAction)
    requires Conserved(s) && WorkEnabled(c, s, a)
    ensures Conserved(WorkStep(c, s, a))
  {
    hide InHand;
    var next := WorkStep(c, s, a);
    WorkMoves(c, s, a);
    assert multiset(s.lost) + multiset(s.buffer) + multiset(s.done) + multiset(s.batch)
        == multiset(s.lost) + (multiset(s.buffer) + multiset(s.done) + multiset(s.batch));
    assert multiset(next.lost) + multiset(next.buffer) + multiset(next.done) + multiset(next.batch)
        == multiset(next.lost) + (multiset(next.buffer) + multiset(next.done) + multiset(next.batch));
  }

  lemma WorkMoves(c: Config, s: State, a: WorkAction)
    requires WorkEnabled(c, s, a)
    ensures var next := WorkStep(c, s, a);
            && multiset(next.buffer) + multiset(next.done) + multiset(next.batch)
               == multiset(s.buffer) + multiset(s.done) + multiset(s.batch)
            && next.lost == s.lost && next.received == s.received && next.emitters == s.emitters
            && next.dropped == s.dropped
  {
    if a == Take {
      HeadAndTail(s.buffer);
    }
  }

  lemma WorkKeepsOrder(c: Config, s: State, a: WorkAction)
    requires Ordered(c, s) && WorkEnabled(c, s, a)
    ensures Ordered(c, WorkStep(c, s, a))
  {
    hide Left, Taken;
    if a == Take {
      RemovedGrows(s.removed, Removal(s.buffer[0], false));
      assert s.done + (s.batch + [s.buffer[0]]) == s.done + s.batch + [s.buffer[0]];
    }
  }

  lemma WorkKeepsFanOut(c: Config, s: State, a: WorkAction)
    requires FannedOut(c, s) && WorkEnabled(c, s, a)
    ensures FannedOut(c, WorkStep(c, s, a))
  {
  }

  lemma EmitKeepsFanOut(c: Config, s: State, t: nat, a: EmitAction)
    requires FannedOut(c, s) && EmitEnabled(s, t, a)
    ensures FannedOut(c, EmitStep(c, s, t, a))
  {
    hide EmitStep;
    EmitFrame(c, s, t, a);
  }

  lemma StepKeepsInv(c: Config, s: State, a: Action)
    requires Inv(c, s) && Enabled(c, s, a)
    ensures Inv(c, Step(c, s, a))
  {
    hide Conserved, Ordered, FannedOut, EmitStep, WorkStep;
    match a
    case Emit(t, e) =>
      EmitConserves(c, s, t, e);
      EmitKeepsOrder(c, s, t, e);
      EmitKeepsFanOut(c, s, t, e);
    case Work(w) =>
      WorkConserves(c, s, w);
      WorkKeepsOrder(c, s, w);
      WorkKeepsFanOut(c, s, w);
    case Stop =>
      StopChangesNothing(c, s);
  }

  lemma StopChangesNothing(c: Config, s: State)
    requires Conserved(s) && Ordered(c, s)
    ensures Conserved(s.(stopped := true)) && Ordered(c, s.(stopped := true))
    ensures FannedOut(c, s) ==> FannedOut(c, s.(stopped := true))
  {
  }

  // ---- runs ----

  /** `last` is reached from `s` by the given steps, each enabled when taken. */
  ghost predicate Reaches(c: Config, s: State, steps: seq<Action>, last: State)
    decreases |steps|
  {
    if steps == [] then s == last
    else Enabled(c, s, steps[0]) && Reaches(c, Step(c, s, steps[0]), steps[1..], last)
  }

  lemma {:induction false} RunKeepsInv(c: Config, s: State, steps: seq<Action>, last: State)
    requires Inv(c, s) && Reaches(c, s, steps, last)
    ensures Inv(c, last)
    decreases |steps|
  {
    hide Inv, Step, Enabled;
    if steps != [] {
      StepKeepsInv(c, s, steps[0]);
      RunKeepsInv(c, Step(c, s, steps[0]), steps[1..], last);
    }
  }

  /** In every reachable state the counters add up and the buffer is bounded and first in, first out. */
  lemma CountersAddUp(c: Config, s: State, steps: seq<Action>, last: State)
    requires Initial(c, s) && Reaches(c, s, steps, last)
    ensures |last.received|
         == last.dropped + |last.buffer| + |last.done| + |last.batch| + |InHand(last.emitters)|
    ensures |last.buffer| <= c.capacity
    ensures last.enqueued == Left(last.removed) + last.buffer
    ensures last.done + last.batch == Taken(last.removed)
  {
    hide InHand, Left, Taken, Reaches;
    InitialInv(c, s);
    RunKeepsInv(c, s, steps, last);
    assert |multiset(last.received)|
        == |multiset(last.lost)| + |multiset(last.buffer)| + |multiset(last.done)| + |multiset(last.batch)|
           + |InHand(last.emitters)|;
  }

  // ---- closing ----

  /** No emitter is inside Emit, and a worker on its way out has left nothing behind. */
  ghost predicate Quiet(c: Config, s: State) {
    && Inv(c, s) && s.stopped
    && (forall t :: 0 <= t < |s.emitters| ==> s.emitters[t].Idle?)
    && (s.worker.Exited? || (s.worker.Writing? && s.worker.last) ==> s.buffer == [])
  }

  ghost predicate OnlyWork(steps: seq<Action>) {
    forall i :: 0 <= i < |steps| ==> steps[i].Work?
  }

  lemma WorkStaysQuiet(c: Config, s: State, a: WorkAction)
    requires Quiet(c, s) && WorkEnabled(c, s, a)
    ensures Quiet(c, WorkStep(c, s, a))
  {
    hide Inv;
    StepKeepsInv(c, s, Work(a));
  }

  lemma {:induction false} RunStaysQuiet(c: Config, s: State, steps: seq<Action>, last: State)
    requires Quiet(c, s) && OnlyWork(steps) && Reaches(c, s, steps, last)
    ensures Quiet(c, last)
    decreases |steps|
  {
    hide Quiet, WorkStep, WorkEnabled;
    if steps != [] {
      WorkStaysQuiet(c, s, steps[0].work);
      RunStaysQuiet(c, Step(c, s, steps[0]), steps[1..], last);
    }
  }

  /**
   * Close, once no emitter is inside Emit and none starts again: when the worker has exited, every
   * event ever received was either counted as dropped or offered exactly once to every sink.
   */
  lemma CloseLosesNothing(c: Config, s: State, steps: seq<Action>, mid: State, rest: seq<Action>, last: State, j: nat)
    requires Initial(c, s) && Reaches(c, s, steps, mid)
    requires !mid.stopped && forall t :: 0 <= t < |mid.emitters| ==> mid.emitters[t].Idle?
    requires OnlyWork(rest) && Reaches(c, Step(c, mid, Stop), rest, last) && last.worker.Exited?
    requires j < c.sinks
    ensures j < |last.offered|
    ensures multiset(last.received) == multiset(last.lost) + multiset(last.offered[j])
    ensures last.offered[j] == Taken(last.removed)
    ensures last.dropped == |last.lost| && last.buffer == []
  {
    hide InHand, Left, Taken, Reaches;
    InitialInv(c, s);
    RunKeepsInv(c, s, steps, mid);
    StepKeepsInv(c, mid, Stop);
    RunStaysQuiet(c, Step(c, mid, Stop), rest, last);
    IdleHandsAreEmpty(last.emitters);
    assert last.done + [] == last.done;
  }

  /** Steps the worker still has to take before it exits, once it drains and nobody emits. */
  function Remaining(c: Config, s: State): nat {
    var each := c.sinks + 3;
    match s.worker
    case Waiting(_) => each * |s.buffer| + (if s.batch == [] then 0 else c.sinks + 2) + 1
    case Writing(n, _, last) =>
      each * |s.buffer| + (if n <= c.sinks then c.sinks - n else 0) + (if last then 1 else 2)
    case Exited => 0
  }

  lemma Smaller(each: nat, s: seq<Event>)
    requires s != []
    ensures each * |s[1..]| == each * |s| - each
  {
  }

  /** Draining always advances: each step of the worker brings its exit nearer. */
  lemma DrainTerminates(c: Config, s: State, a: WorkAction)
    requires FannedOut(c, s) && WorkEnabled(c, s, a)
    requires s.worker == Waiting(true) || (s.worker.Writing? && s.worker.draining)
    ensures Remaining(c, WorkStep(c, s, a)) < Remaining(c, s)
  {
    if a == Take {
      Smaller(c.sinks + 3, s.buffer);
    }
  }

  ghost predicate Draining(s: State) {
    s.worker == Waiting(true) || (s.worker.Writing? && s.worker.draining) || s.worker.Exited?
  }

  /** A step the worker can take. */
  function Next(c: Config, s: State): WorkAction {
    if s.worker.Writing? then (if s.worker.next < c.sinks then Offer(true) else Finish)
    else if s.buffer != [] then Take
    else if s.worker == Waiting(true) then EndDrain
    else if s.stopped then SeeStop else Tick
  }

  lemma WorkKeepsDraining(c: Config, s: State, a: WorkAction)
    requires Draining(s) && WorkEnabled(c, s, a)
    ensures Draining(WorkStep(c, s, a)) && !s.worker.Exited?
  {
  }

  /** However the worker runs once it drains, with nobody emitting, it takes at most `Remaining` steps. */
  lemma {:induction false} DrainIsBounded(c: Config, s: State, steps: seq<Action>, last: State)
    requires FannedOut(c, s) && Draining(s) && OnlyWork(steps) && Reaches(c, s, steps, last)
    ensures Draining(last) && |steps| + Remaining(c, last) <= Remaining(c, s)
    decreases |steps|
  {
    hide WorkStep, WorkEnabled, Remaining, FannedOut, Draining;
    if steps != [] {
      var a := steps[0].work;
      WorkKeepsFanOut(c, s, a);
      WorkKeepsDraining(c, s, a);
      assert s.worker == Waiting(true) || (s.worker.Writing? && s.worker.draining) by { DrainingIs(s); }
      DrainTerminates(c, s, a);
      DrainIsBounded(c, WorkStep(c, s, a), steps[1..], last);
    }
  }

  lemma DrainingIs(s: State)
    requires Draining(s) && !s.worker.Exited?
    ensures s.worker == Waiting(true) || (s.worker.Writing? && s.worker.draining)
  {
  }

  /** Steps to the exit along `Next` from any stopped state: first the write under way, then the drain. */
  function ToExit(c: Config, s: State): nat {
    var drain := (c.sinks + 3) * |s.buffer| + 2 * c.sinks + 7;
    match s.worker
    case Waiting(true) => Remaining(c, s)
    case Writing(_, true, _) => Remaining(c, s)
    case Exited => 0
    case _ => Remaining(c, s) + drain
  }

  lemma NextIsNearer(c: Config, s: State)
    requires FannedOut(c, s) && s.stopped && !s.worker.Exited?
    ensures WorkEnabled(c, s, Next(c, s))
    ensures WorkStep(c, s, Next(c, s)).stopped && ToExit(c, WorkStep(c, s, Next(c, s))) < ToExit(c, s)
  {
    if s.worker.Waiting? && s.buffer != [] {
      Smaller(c.sinks + 3, s.buffer);
    }
  }

  /** From every stopped state, however much is buffered, the worker can run to its exit: Close returns. */
  lemma {:induction false} CloseReturns(c: Config, s: State) returns (steps: seq<Action>, last: State)
    requires FannedOut(c, s) && s.stopped
    ensures OnlyWork(steps) && Reaches(c, s, steps, last) && last.worker.Exited?
    decreases ToExit(c, s)
  {
    hide WorkStep, WorkEnabled, ToExit, FannedOut, Next;
    if s.worker.Exited? {
      steps, last := [], s;
    } else {
      var a := Next(c, s);
      NextIsNearer(c, s);
      WorkKeepsFanOut(c, s, a);
      var rest;
      rest, last := CloseReturns(c, WorkStep(c, s, a));
      steps := [Work(a)] + rest;
      assert steps[1..] == rest;
    }
  }

  // ---- drop oldest, batches and failures ----

  /** An emitter alone: with room its event is queued and nothing is lost. */
  lemma RoomKeepsAll(c: Config, s: State, t: nat, e: Event)
    requires t < |s.emitters| && s.emitters[t].Idle? && |s.buffer| < c.capacity
    ensures var s1 := EmitStep(c, s, t, Receive(e));
            var s2 := EmitStep(c, s1, t, TrySend);
            s2.buffer == s.buffer + [e] && s2.lost == s.lost && s2.emitters == s.emitters
  {
    assert s.emitters[t := Arrived(e)][t := Idle] == s.emitters;
  }

  /** An emitter alone: a full buffer loses its oldest event, counted, and keeps the new one. */
  lemma FullDropsTheOldest(c: Config, s: State, t: nat, e: Event)
    requires t < |s.emitters| && s.emitters[t].Idle? && |s.buffer| == c.capacity > 0
    ensures var s1 := EmitStep(c, s, t, Receive(e));
            var s2 := EmitStep(c, s1, t, TrySend);
            var s3 := EmitStep(c, s2, t, Evict);
            var s4 := EmitStep(c, s3, t, CountEvicted);
            var s5 := EmitStep(c, s4, t, SendAgain);
            && s5.buffer == s.buffer[1..] + [e] && s5.emitters == s.emitters
            && s5.lost == s.lost + [s.buffer[0]] && s5.dropped == s.dropped + 1
  {
    var s3 := EmitStep(c, EmitStep(c, EmitStep(c, s, t, Receive(e)), t, TrySend), t, Evict);
    var s4 := EmitStep(c, s3, t, CountEvicted);
    assert s4.emitters == s.emitters[t := Retrying(e)];
    assert s.emitters[t := Retrying(e)][t := Idle] == s.emitters;
  }

  /** A waiting worker holds less than a batch, and nobody is offered more than one. */
  ghost predicate Batched(c: Config, s: State) {
    && |s.batch| <= c.batchSize
    && (s.worker.Waiting? ==> |s.batch| < c.batchSize)
    && (s.worker.Writing? ==> s.batch != [])
  }

  lemma StepKeepsBatches(c: Config, s: State, a: Action)
    requires Batched(c, s) && c.batchSize > 0 && Enabled(c, s, a)
    ensures Batched(c, Step(c, s, a))
  {
    if a.Emit? {
      hide EmitStep;
      EmitFrame(c, s, a.t, a.emit);
    }
  }

  /** No run ever offers an empty batch or one over the batch size, and a full one is written at once. */
  lemma {:induction false} RunKeepsBatches(c: Config, s: State, steps: seq<Action>, last: State)
    requires Batched(c, s) && c.batchSize > 0 && Reaches(c, s, steps, last)
    ensures Batched(c, last)
    decreases |steps|
  {
    hide Batched, Step, Enabled;
    if steps != [] {
      StepKeepsBatches(c, s, steps[0]);
      RunKeepsBatches(c, Step(c, s, steps[0]), steps[1..], last);
    }
  }

  /** A tick writes what has gathered, and a sink's failure counts the whole batch and stops nobody. */
  lemma TicksAndFailures(c: Config, s: State)
    ensures s.worker == Waiting(false) && s.batch != [] ==> WorkStep(c, s, Tick).worker == Writing(0, false, false)
    ensures forall ok :: WorkEnabled(c, s, Offer(ok)) ==>
              && WorkStep(c, s, Offer(ok)).failed == s.failed + (if ok then 0 else |s.batch|)
              && WorkStep(c, s, Offer(ok)).worker.next == s.worker.next + 1
  {
  }
}
