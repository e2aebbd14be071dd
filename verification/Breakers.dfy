/**
 * The three-state circuit breaker, as code and over every history of calls.
 *
 * A history is a sequence of Allow, Succeed and Fail calls with their clock
 * readings.  Outcomes may come late, from anyone, and an admitted probe may never
 * report at all; nothing here assumes otherwise.
 */
module Breakers {

  datatype Mode = Closed | Open | HalfOpen

  datatype Config = Config(failureThreshold: nat, cooldown: int, halfOpenSuccesses: nat)

  datatype Breaker = Breaker(mode: Mode, failures: nat, successes: nat, openedAt: int, probeInFlight: bool)

  const FRESH := Breaker(Closed, 0, 0, 0, false)

  predicate Cooling(c: Config, b: Breaker, now: int) {
    now - b.openedAt < c.cooldown
  }

  predicate Admits(c: Config, b: Breaker, now: int) {
    match b.mode
    case Closed => true
    case Open => !Cooling(c, b, now)
    case HalfOpen => !b.probeInFlight
  }

  function AfterAllow(c: Config, b: Breaker, now: int): Breaker {
    if !Admits(c, b, now) || b.mode == Closed then b
    else if b.mode == Open then b.(mode := HalfOpen, successes := 0, probeInFlight := true)
    else b.(probeInFlight := true)
  }

  function AfterSucceed(c: Config, b: Breaker): Breaker {
    var reset := b.(probeInFlight := false, failures := 0);
    if b.mode != HalfOpen then reset
    else if b.successes + 1 >= c.halfOpenSuccesses then reset.(mode := Closed, successes := 0)
    else reset.(successes := b.successes + 1)
  }

  /** This failure opens the breaker, or opens it again. */
  predicate FailOpens(c: Config, b: Breaker) {
    b.mode == HalfOpen || b.failures + 1 >= c.failureThreshold
  }

  function AfterFail(c: Config, b: Breaker, now: int): Breaker {
    var seen := b.(probeInFlight := false);
    if b.mode == HalfOpen then seen.(mode := Open, openedAt := now, successes := 0)
    else if FailOpens(c, b) then seen.(mode := Open, openedAt := now, failures := 0)
    else seen.(failures := b.failures + 1)
  }

  class CircuitBreaker {
    const config: Config
    var mode: Mode
    var failures: nat
    var successes: nat
    var openedAt: int
    var probeInFlight: bool

    constructor (config: Config)
      ensures this.config == config && Value() == FRESH
    {
      this.config := config;
      mode, failures, successes, openedAt, probeInFlight := Closed, 0, 0, 0, false;
    }

    function Value(): Breaker
      reads this
    {
      Breaker(mode, failures, successes, openedAt, probeInFlight)
    }

    method Allow(now: int) returns (ok: bool)
      modifies this
      ensures ok == Admits(config, old(Value()), now)
      ensures Value() == AfterAllow(config, old(Value()), now)
    {
      match mode
      case Closed =>
        return true;
      case Open =>
        if now - openedAt < config.cooldown {
          return false;
        }
        mode, successes, probeInFlight := HalfOpen, 0, true;
        return true;
      case HalfOpen =>
        if probeInFlight {
          return false;
        }
        probeInFlight := true;
        return true;
    }

    method Succeed()
      modifies this
      ensures Value() == AfterSucceed(config, old(Value()))
    {
      probeInFlight, failures := false, 0;
      if mode == HalfOpen {
        successes := successes + 1;
        if successes >= config.halfOpenSuccesses {
          mode, successes := Closed, 0;
        }
      }
    }

    method Fail(now: int)
      modifies this
      ensures Value() == AfterFail(config, old(Value()), now)
    {
      probeInFlight := false;
      if mode == HalfOpen {
        mode, openedAt, successes := Open, now, 0;
        return;
      }
      failures := failures + 1;
      if failures >= config.failureThreshold {
        mode, openedAt, failures := Open, now, 0;
      }
    }
  }

  // ---- histories ----

  datatype Call = Allow(at: int) | Succeed(at: int) | Fail(at: int)

  function AfterCall(c: Config, b: Breaker, call: Call): Breaker {
    match call
    case Allow(at) => AfterAllow(c, b, at)
    case Succeed(_) => AfterSucceed(c, b)
    case Fail(at) => AfterFail(c, b, at)
  }

  function After(c: Config, calls: seq<Call>): Breaker {
    if calls == [] then FRESH else AfterCall(c, After(c, calls[..|calls| - 1]), calls[|calls| - 1])
  }

  lemma AfterPrefix(c: Config, calls: seq<Call>, n: nat)
    requires n < |calls|
    ensures After(c, calls[..n + 1]) == AfterCall(c, After(c, calls[..n]), calls[n])
  {
    assert calls[..n + 1][..n] == calls[..n];
  }

  ghost predicate ClockRuns(calls: seq<Call>) {
    forall i, j :: 0 <= i < j < |calls| ==> calls[i].at <= calls[j].at
  }

  /** Call `i` opened the breaker. */
  ghost predicate OpensAt(c: Config, calls: seq<Call>, i: nat) {
    i < |calls| && calls[i].Fail? && FailOpens(c, After(c, calls[..i]))
  }

  /** Call `i` was an Allow that said yes. */
  ghost predicate AdmitsAt(c: Config, calls: seq<Call>, i: nat) {
    i < |calls| && calls[i].Allow? && Admits(c, After(c, calls[..i]), calls[i].at)
  }

  lemma {:induction false} CooldownIsKept(c: Config, calls: seq<Call>, i: nat, n: nat)
    requires ClockRuns(calls) && OpensAt(c, calls, i) && i < n <= |calls|
    ensures var b := After(c, calls[..n]);
            calls[i].at <= b.openedAt && (b.mode != Open ==> b.openedAt + c.cooldown <= calls[n - 1].at)
    decreases n
  {
    hide After;
    AfterPrefix(c, calls, n - 1);
    if i < n - 1 { CooldownIsKept(c, calls, i, n - 1); }
  }

  /** Nothing is admitted within a cooldown of any opening, re-openings by late failures included. */
  lemma NothingAdmittedWhileCooling(c: Config, calls: seq<Call>, i: nat, n: nat)
    requires ClockRuns(calls) && OpensAt(c, calls, i) && i < n && AdmitsAt(c, calls, n)
    ensures calls[n].at >= calls[i].at + c.cooldown
  {
    hide After;
    CooldownIsKept(c, calls, i, n);
  }

  /** The Fails since the last Succeed; Allows in between do not interrupt them. */
  function TrailingFails(calls: seq<Call>): nat {
    if calls == [] then 0
    else
      match calls[|calls| - 1]
      case Allow(_) => TrailingFails(calls[..|calls| - 1])
      case Succeed(_) => 0
      case Fail(_) => TrailingFails(calls[..|calls| - 1]) + 1
  }

  lemma {:induction false} ClosedCountsTrailingFails(c: Config, calls: seq<Call>)
    requires c.failureThreshold > 0
    ensures After(c, calls).mode == Closed ==>
              After(c, calls).failures == TrailingFails(calls) < c.failureThreshold
  {
    if calls != [] { ClosedCountsTrailingFails(c, calls[..|calls| - 1]); }
  }

  /** A closed breaker opens exactly when the run of uninterrupted Fails reaches the threshold. */
  lemma OpensAtThreshold(c: Config, calls: seq<Call>, n: nat)
    requires c.failureThreshold > 0 && n < |calls| && After(c, calls[..n]).mode == Closed
    ensures After(c, calls[..n + 1]).mode == Open
            <==> calls[n].Fail? && TrailingFails(calls[..n + 1]) == c.failureThreshold
    ensures After(c, calls[..n + 1]).mode != HalfOpen
  {
    hide After;
    AfterPrefix(c, calls, n);
    ClosedCountsTrailingFails(c, calls[..n]);
    assert calls[..n + 1][..n] == calls[..n];
  }

  /** Where the current half-open stretch began: the Allow that ended the cooldown. */
  function StretchStart(c: Config, calls: seq<Call>): (i: nat)
    requires After(c, calls).mode == HalfOpen
    ensures i < |calls|
  {
    var n := |calls| - 1;
    if After(c, calls[..n]).mode == HalfOpen then StretchStart(c, calls[..n]) else n
  }

  function Outcomes(calls: seq<Call>): nat {
    if calls == [] then 0
    else Outcomes(calls[..|calls| - 1]) + if calls[|calls| - 1].Allow? then 0 else 1
  }

  /** Admissions among calls `from` up to `n`. */
  function Admissions(c: Config, calls: seq<Call>, from: nat, n: nat): nat
    requires from <= n <= |calls|
  {
    if n == from then 0
    else Admissions(c, calls, from, n - 1)
         + if calls[n - 1].Allow? && Admits(c, After(c, calls[..n - 1]), calls[n - 1].at) then 1 else 0
  }

  /** Within a half-open stretch nothing has failed, and every success so far is counted. */
  lemma {:induction false} StretchHasOnlySuccesses(c: Config, calls: seq<Call>)
    requires After(c, calls).mode == HalfOpen && c.halfOpenSuccesses > 0
    ensures var i := StretchStart(c, calls);
            && (forall j :: i <= j < |calls| ==> !calls[j].Fail?)
            && After(c, calls).successes == Outcomes(calls[i..])
            && After(c, calls).successes < c.halfOpenSuccesses
            && calls[i].Allow?
  {
    hide After, Outcomes;
    var n := |calls| - 1;
    var i := StretchStart(c, calls);
    var front := calls[..n];
    assert calls[..n + 1] == calls;
    AfterPrefix(c, calls, n);
    OutcomesStep(calls[i..]);
    assert calls[i..][..n - i] == front[i..];
    if After(c, front).mode == HalfOpen {
      StretchHasOnlySuccesses(c, front);
    } else {
      NoOutcomes(calls[n..n]);
    }
  }

  lemma OutcomesStep(calls: seq<Call>)
    requires calls != []
    ensures Outcomes(calls) == Outcomes(calls[..|calls| - 1]) + if calls[|calls| - 1].Allow? then 0 else 1
  {
  }

  lemma NoOutcomes(calls: seq<Call>)
    requires calls == []
    ensures Outcomes(calls) == 0
  {
  }

  /** A half-open breaker closes exactly at the last of the required successes, none of them failing in between. */
  lemma ClosesAfterSuccesses(c: Config, calls: seq<Call>, n: nat)
    requires n < |calls| && After(c, calls[..n]).mode == HalfOpen && c.halfOpenSuccesses > 0
    ensures var i := StretchStart(c, calls[..n]);
            After(c, calls[..n + 1]).mode == Closed
            <==> calls[n].Succeed? && Outcomes(calls[i..n + 1]) == c.halfOpenSuccesses
    ensures forall j :: StretchStart(c, calls[..n]) <= j < n ==> !calls[j].Fail?
  {
    hide After, Outcomes;
    var i := StretchStart(c, calls[..n]);
    AfterPrefix(c, calls, n);
    StretchHasOnlySuccesses(c, calls[..n]);
    assert forall j :: i <= j < n ==> calls[j] == calls[..n][j];
    assert calls[i..n + 1][..n - i] == calls[..n][i..];
    OutcomesStep(calls[i..n + 1]);
  }

  lemma {:induction false} SameAdmissions(c: Config, calls: seq<Call>, from: nat, n: nat, m: nat)
    requires from <= n <= m <= |calls|
    ensures Admissions(c, calls[..m], from, n) == Admissions(c, calls, from, n)
    decreases n
  {
    hide After;
    if from < n {
      SameAdmissions(c, calls, from, n - 1, m);
      assert calls[..m][..n - 1] == calls[..n - 1];
    }
  }

  /** In a half-open stretch admissions exceed outcomes by one at most, and only while a probe is out. */
  lemma {:induction false} OneProbeAtATime(c: Config, calls: seq<Call>)
    requires After(c, calls).mode == HalfOpen
    ensures var i := StretchStart(c, calls);
            Admissions(c, calls, i, |calls|)
            <= Outcomes(calls[i..]) + if After(c, calls).probeInFlight then 1 else 0
  {
    hide After, Outcomes;
    var n := |calls| - 1;
    var i := StretchStart(c, calls);
    var front := calls[..n];
    assert calls[..n + 1] == calls;
    AfterPrefix(c, calls, n);
    OutcomesStep(calls[i..]);
    assert calls[i..][..n - i] == front[i..];
    SameAdmissions(c, calls, i, n, n);
    if After(c, front).mode == HalfOpen {
      OneProbeAtATime(c, front);
    } else {
      NoOutcomes(calls[n..n]);
    }
  }

  /** A probe that never reports blocks the breaker: until some outcome arrives, every Allow is refused. */
  lemma {:induction false} SilentProbeBlocks(c: Config, calls: seq<Call>, more: seq<Call>)
    requires After(c, calls).mode == HalfOpen && After(c, calls).probeInFlight
    requires forall j :: 0 <= j < |more| ==> more[j].Allow?
    ensures After(c, calls + more) == After(c, calls)
    ensures forall now :: !Admits(c, After(c, calls + more), now)
    decreases |more|
  {
    if more == [] {
      assert calls + more == calls;
    } else {
      SilentProbeBlocks(c, calls, more[..|more| - 1]);
      assert (calls + more)[..|calls + more| - 1] == calls + more[..|more| - 1];
    }
  }

  // ---- admission and late failures ----

  /** An open breaker opened at its last opening, and nothing after it opened it again. */
  lemma {:induction false} LastOpening(c: Config, calls: seq<Call>) returns (i: nat)
    requires After(c, calls).mode == Open
    ensures OpensAt(c, calls, i) && After(c, calls).openedAt == calls[i].at
    ensures forall j :: i < j < |calls| ==> !OpensAt(c, calls, j)
  {
    hide After;
    NeverCalled(c);
    var n := |calls| - 1;
    var front := calls[..n];
    assert calls[..n + 1] == calls;
    AfterPrefix(c, calls, n);
    if OpensAt(c, calls, n) {
      i := n;
    } else {
      i := LastOpening(c, front);
      assert front[..i] == calls[..i];
      forall j | i < j < |calls| ensures !OpensAt(c, calls, j) {
        if j < n {
          assert front[..j] == calls[..j] && !OpensAt(c, front, j);
        }
      }
    }
  }

  lemma NeverCalled(c: Config)
    ensures After(c, []) == FRESH
  {
  }

  /** An open breaker admits exactly from one cooldown after its last opening on; then it is half open. */
  lemma OpenAdmitsAfterItsCooldown(c: Config, calls: seq<Call>, i: nat, now: int)
    requires After(c, calls).mode == Open
    requires OpensAt(c, calls, i) && forall j :: i < j < |calls| ==> !OpensAt(c, calls, j)
    ensures Admits(c, After(c, calls), now) <==> now >= calls[i].at + c.cooldown
    ensures Admits(c, After(c, calls), now) ==>
              AfterAllow(c, After(c, calls), now).mode == HalfOpen && AfterAllow(c, After(c, calls), now).probeInFlight
  {
    hide After;
    var k := LastOpening(c, calls);
    assert k == i;
  }

  /** A closed breaker admits everybody; a half-open one admits exactly when no probe is out. */
  lemma OthersAdmit(c: Config, b: Breaker, now: int)
    requires b.mode != Open
    ensures Admits(c, b, now) <==> b.mode == Closed || !b.probeInFlight
    ensures b.mode == Closed ==> AfterAllow(c, b, now) == b
  {
  }

  /** A failure that arrives while the breaker is open restarts the cooldown only if it is the threshold-th. */
  lemma LateFailure(c: Config, b: Breaker, now: int)
    requires b.mode == Open
    ensures AfterFail(c, b, now).mode == Open && !AfterFail(c, b, now).probeInFlight
    ensures b.failures + 1 >= c.failureThreshold ==>
              AfterFail(c, b, now).openedAt == now && AfterFail(c, b, now).failures == 0
    ensures b.failures + 1 < c.failureThreshold ==>
              AfterFail(c, b, now).openedAt == b.openedAt && AfterFail(c, b, now).failures == b.failures + 1
  {
  }

  /** A failed probe opens the breaker again at once, and a late success leaves an open breaker open. */
  lemma FailedProbeReopens(c: Config, b: Breaker, now: int)
    ensures b.mode == HalfOpen ==> AfterFail(c, b, now).mode == Open && AfterFail(c, b, now).openedAt == now
    ensures b.mode == Open ==> AfterSucceed(c, b) == b.(probeInFlight := false, failures := 0)
  {
  }
}
