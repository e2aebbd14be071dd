/**
 * The failover loop: walking the candidate list until one serves, one rejects, or
 * the budget runs out.
 *
 * What the clock, the backoff wait, the registry and the provider answer at each
 * list position is an arbitrary `Slot`, and other requests may use the same
 * breakers between this one's steps.  A run is recorded as one `Visit` per position.
 */
module Execution {
  import opened Options
  import opened Routing
  import opened Breakers

  /** In milliseconds: the least time worth starting an attempt with. */
  const MIN_ATTEMPT_BUDGET := 250

  /** What a call came to: an answer, an error worth trying elsewhere, or one that is not. */
  datatype Outcome<R, E> = Served(reply: R) | Retryable(error: E) | Rejected(error: E)

  /** One call on one deployment's breaker. */
  datatype Entry = Entry(id: string, call: Call)

  datatype Slot<R, E> = Slot(
    remaining: int, before: seq<Entry>, allowAt: int, waitOk: bool, known: bool, during: seq<Entry>,
    outcome: Outcome<R, E>, endAt: int)

  datatype Visit = Skipped | Abandoned | Vanished | Called

  type Table = map<string, Breaker>

  function BreakerFor(m: Table, id: string): Breaker {
    if id in m then m[id] else FRESH
  }

  function Apply(c: Config, m: Table, e: Entry): Table {
    m[e.id := AfterCall(c, BreakerFor(m, e.id), e.call)]
  }

  function Replay(c: Config, m: Table, entries: seq<Entry>): Table {
    if entries == [] then m else Apply(c, Replay(c, m, entries[..|entries| - 1]), entries[|entries| - 1])
  }

  /** What this request reports to the breaker once its visit is over. */
  function Report<R, E>(id: string, slot: Slot<R, E>, v: Visit): seq<Entry> {
    if v != Called then []
    else match slot.outcome
      case Served(_) => [Entry(id, Succeed(slot.endAt))]
      case Retryable(_) => [Entry(id, Fail(slot.endAt))]
      case Rejected(_) => []
  }

  /** Every breaker call of one visit, this request's and the others'. */
  function Segment<R, E>(id: string, slot: Slot<R, E>, v: Visit): seq<Entry> {
    slot.before + [Entry(id, Allow(slot.allowAt))]
    + (if v == Called then slot.during else [])
    + Report(id, slot, v)
  }

  function Trace<R, E>(cs: seq<Candidate>, slots: seq<Slot<R, E>>, visits: seq<Visit>): seq<Entry>
    requires |visits| <= |cs| && |visits| <= |slots|
  {
    if visits == [] then []
    else
      var k := |visits| - 1;
      Trace(cs, slots, visits[..k]) + Segment(cs[k].deployment.id, slots[k], visits[k])
  }

  /** Whether the breaker of position `k` admits, given what happened before. */
  predicate Admitted<R, E>(c: Config, m: Table, cs: seq<Candidate>, slots: seq<Slot<R, E>>, visits: seq<Visit>)
    requires |visits| < |cs| && |visits| < |slots|
  {
    var k := |visits|;
    var id := cs[k].deployment.id;
    Admits(c, BreakerFor(Replay(c, m, Trace(cs, slots, visits) + slots[k].before), id), slots[k].allowAt)
  }

  /** The visit a position gets once it is reached. */
  function VisitAt<R, E>(c: Config, m: Table, cs: seq<Candidate>, slots: seq<Slot<R, E>>, visits: seq<Visit>): Visit
    requires |visits| < |cs| && |visits| < |slots|
  {
    var k := |visits|;
    if !Admitted(c, m, cs, slots, visits) then Skipped
    else if k > 0 && !slots[k].waitOk then Abandoned
    else if !slots[k].known then Vanished
    else Called
  }

  /** A skipped, vanished or retryably failed position lets the walk go on. */
  predicate Continues<R, E>(slot: Slot<R, E>, v: Visit) {
    v == Skipped || v == Vanished || (v == Called && slot.outcome.Retryable?)
  }

  /** Nothing is left to try at position `k`: the list, the attempts or the budget is used up. */
  predicate Exhausted<R, E>(cs: seq<Candidate>, slots: seq<Slot<R, E>>, max: nat, k: nat)
    requires |slots| == |cs|
  {
    k >= |cs| || k >= max || slots[k].remaining < MIN_ATTEMPT_BUDGET
  }

  /** Positions `0 .. |visits|` were reached one after the other, each for a reason and with budget left. */
  ghost predicate Prefix<R, E>(
    c: Config, m: Table, cs: seq<Candidate>, slots: seq<Slot<R, E>>, max: nat, visits: seq<Visit>)
    requires |slots| == |cs|
  {
    && |visits| <= |cs|
    && (forall k :: 0 <= k < |visits| ==> !Exhausted(cs, slots, max, k))
    && (forall k :: 0 <= k < |visits| ==> visits[k] == VisitAt(c, m, cs, slots, visits[..k]))
    && (forall k :: 0 <= k < |visits| - 1 ==> Continues(slots[k], visits[k]))
  }

  /** The last visit ended the walk by itself. */
  predicate Stopped<R, E>(slots: seq<Slot<R, E>>, visits: seq<Visit>)
    requires |visits| <= |slots|
  {
    visits != [] && !Continues(slots[|visits| - 1], visits[|visits| - 1])
  }

  ghost predicate Walk<R, E>(
    c: Config, m: Table, cs: seq<Candidate>, slots: seq<Slot<R, E>>, max: nat, visits: seq<Visit>)
    requires |slots| == |cs|
  {
    && Prefix(c, m, cs, slots, max, visits)
    && (Stopped(slots, visits) || Exhausted(cs, slots, max, |visits|))
  }

  /** Some call was answered. */
  ghost predicate SomebodyAnswered<R, E>(slots: seq<Slot<R, E>>, visits: seq<Visit>) {
    exists k :: 0 <= k < |visits| && k < |slots| && visits[k] == Called && slots[k].outcome.Served?
  }

  /** What ends a walk before the list is used up: an answer, a final error or a cancelled wait. */
  predicate Ends<R, E>(slot: Slot<R, E>, v: Visit) {
    v == Abandoned || (v == Called && (slot.outcome.Served? || slot.outcome.Rejected?))
  }

  /**
   * Failover goes all the way: a position within the list and the attempts, with budget left up to it
   * and no answer, final error or cancelled wait before it, was visited.
   */
  ghost predicate Thorough<R, E>(cs: seq<Candidate>, slots: seq<Slot<R, E>>, max: nat, visits: seq<Visit>)
    requires |slots| == |cs|
  {
    forall k: nat :: Due(slots, max, visits, k) ==> k < |visits|
  }

  /** Nothing entitled the walk to stop before position `k`. */
  ghost predicate Due<R, E>(slots: seq<Slot<R, E>>, max: nat, visits: seq<Visit>, k: nat) {
    && k < |slots| && k < max
    && (forall j :: 0 <= j <= k ==> slots[j].remaining >= MIN_ATTEMPT_BUDGET)
    && (forall j :: 0 <= j < k && j < |visits| ==> !Ends(slots[j], visits[j]))
  }

  // ---- the result ----

  datatype Failure<E> = ProviderVanished | Failed(error: E) | NoCandidates

  datatype Verdict<R, E> = Success(server: Deployment, reply: R) | Failure(why: Failure<E>)

  /** The error a run would end with if nothing later replaced it. */
  function LastError<R, E>(slots: seq<Slot<R, E>>, visits: seq<Visit>): Option<Failure<E>>
    requires |visits| <= |slots|
  {
    if visits == [] then None
    else
      var k := |visits| - 1;
      if visits[k] == Vanished then Some(ProviderVanished)
      else if visits[k] == Called && !slots[k].outcome.Served? then Some(Failed(slots[k].outcome.error))
      else LastError(slots, visits[..k])
  }

  function VerdictOf<R, E>(cs: seq<Candidate>, slots: seq<Slot<R, E>>, visits: seq<Visit>): Verdict<R, E>
    requires |visits| <= |cs| && |visits| <= |slots|
  {
    var k := |visits| - 1;
    if visits != [] && visits[k] == Called && slots[k].outcome.Served?
    then Success(cs[k].deployment, slots[k].outcome.reply)
    else match LastError(slots, visits)
      case Some(e) => Failure(e)
      case None => Failure(NoCandidates)
  }

  datatype Attempt<E> = Attempt(id: string, skipped: bool, error: Option<E>)

  function AttemptOf<R, E>(id: string, slot: Slot<R, E>, v: Visit): seq<Attempt<E>> {
    if v == Skipped then [Attempt(id, true, None)]
    else if v == Called then [Attempt(id, false, if slot.outcome.Served? then None else Some(slot.outcome.error))]
    else []
  }

  function Attempts<R, E>(cs: seq<Candidate>, slots: seq<Slot<R, E>>, visits: seq<Visit>): seq<Attempt<E>>
    requires |visits| <= |cs| && |visits| <= |slots|
  {
    if visits == [] then []
    else
      var k := |visits| - 1;
      Attempts(cs, slots, visits[..k]) + AttemptOf(cs[k].deployment.id, slots[k], visits[k])
  }

  // ---- the loop ----

  class Router {
    const config: Config
    const maxAttempts: nat
    var breakers: Table

    constructor (config: Config, maxAttempts: nat)
      ensures this.config == config && this.maxAttempts == maxAttempts && breakers == map[]
    {
      this.config, this.maxAttempts, breakers := config, maxAttempts, map[];
    }

    /** Breaker calls of other requests. */
    method Others(entries: seq<Entry>)
      modifies this
      ensures breakers == Replay(config, old(breakers), entries)
    {
      for i := 0 to |entries|
        invariant breakers == Replay(config, old(breakers), entries[..i])
      {
        assert entries[..i + 1][..i] == entries[..i];
        breakers := Apply(config, breakers, entries[i]);
      }
      assert entries[..|entries|] == entries;
    }

    method Ask(id: string, at: int) returns (ok: bool)
      modifies this
      ensures ok == Admits(config, BreakerFor(old(breakers), id), at)
      ensures breakers == Apply(config, old(breakers), Entry(id, Allow(at)))
    {
      ok := Admits(config, BreakerFor(breakers, id), at);
      breakers := Apply(config, breakers, Entry(id, Allow(at)));
    }

    /** One turn of the loop at position `|visits|`. */
    method Turn<R, E>(cs: seq<Candidate>, slots: seq<Slot<R, E>>, ghost m: Table, ghost visits: seq<Visit>, k: nat)
      returns (v: Visit)
      requires k == |visits| && k < |cs| && k < |slots|
      requires breakers == Replay(config, m, Trace(cs, slots, visits))
      modifies this
      ensures v == VisitAt(config, m, cs, slots, visits)
      ensures breakers == Replay(config, m, Trace(cs, slots, visits + [v]))
    {
      hide AfterCall, Admits, Replay, Apply, Trace, Segment, BreakerFor;
      var id, slot := cs[k].deployment.id, slots[k];
      ghost var t := Trace(cs, slots, visits);
      ghost var u := t + slot.before + [Entry(id, Allow(slot.allowAt))];
      Others(slot.before);
      ReplayAppend(config, m, t, slot.before);
      var ok := Ask(id, slot.allowAt);
      ReplayOne(config, m, t + slot.before, Entry(id, Allow(slot.allowAt)));
      if !ok {
        v := Skipped;
      } else if k > 0 && !slot.waitOk {
        v := Abandoned;
      } else if !slot.known {
        v := Vanished;
      } else {
        v := Called;
        Others(slot.during);
        ReplayAppend(config, m, u, slot.during);
        if slot.outcome.Served? {
          breakers := Apply(config, breakers, Entry(id, Succeed(slot.endAt)));
          ReplayOne(config, m, u + slot.during, Entry(id, Succeed(slot.endAt)));
        } else if slot.outcome.Retryable? {
          breakers := Apply(config, breakers, Entry(id, Fail(slot.endAt)));
          ReplayOne(config, m, u + slot.during, Entry(id, Fail(slot.endAt)));
        }
      }
      TraceGrows(cs, slots, visits, v);
      SegmentShape(t, id, slot, v);
    }

    /**
     * Walks the candidates.  The visits are the one valid walk, and the verdict, the attempts and the
     * breakers are what that walk says.
     */
    method Execute<R, E>(cs: seq<Candidate>, slots: seq<Slot<R, E>>)
      returns (verdict: Verdict<R, E>, attempts: seq<Attempt<E>>, visits: seq<Visit>)
      requires |slots| == |cs|
      modifies this
      ensures Walk(config, old(breakers), cs, slots, maxAttempts, visits)
      ensures verdict == VerdictOf(cs, slots, visits)
      ensures attempts == Attempts(cs, slots, visits)
      ensures breakers == Replay(config, old(breakers), Trace(cs, slots, visits))
      ensures Thorough(cs, slots, maxAttempts, visits)
      ensures verdict.Success? <==> SomebodyAnswered(slots, visits)
    {
      hide VisitAt, AttemptOf, Segment, Replay, Trace, Attempts, LastError, Prefix, Thorough, SomebodyAnswered;
      ghost var m := breakers;
      visits, attempts := [], [];
      var lastErr: Option<Failure<E>> := None;
      NothingReplayed(config, m);
      NothingVisited(config, m, cs, slots, maxAttempts);
      for i := 0 to |cs|
        invariant |visits| == i
        invariant Prefix(config, m, cs, slots, maxAttempts, visits)
        invariant !Stopped(slots, visits)
        invariant breakers == Replay(config, m, Trace(cs, slots, visits))
        invariant attempts == Attempts(cs, slots, visits)
        invariant lastErr == LastError(slots, visits)
      {
        if i >= maxAttempts || slots[i].remaining < MIN_ATTEMPT_BUDGET {
          break;
        }
        var v := Turn(cs, slots, m, visits, i);
        ghost var was := visits;
        PrefixGrows(config, m, cs, slots, maxAttempts, was, v);
        RecordsGrow(cs, slots, was, v);
        visits := visits + [v];
        attempts := attempts + AttemptOf(cs[i].deployment.id, slots[i], v);
        match v
        case Skipped =>
        case Abandoned =>
          break;
        case Vanished =>
          lastErr := Some(ProviderVanished);
        case Called =>
          match slots[i].outcome
          case Served(reply) =>
            WalkIsThorough(config, m, cs, slots, maxAttempts, visits);
            AnswerIsSuccess(config, m, cs, slots, maxAttempts, visits);
            return Success(cs[i].deployment, reply), attempts, visits;
          case Retryable(e) =>
            lastErr := Some(Failed(e));
          case Rejected(e) =>
            WalkIsThorough(config, m, cs, slots, maxAttempts, visits);
            AnswerIsSuccess(config, m, cs, slots, maxAttempts, visits);
            return Failure(Failed(e)), attempts, visits;
      }
      PrefixLength(config, m, cs, slots, maxAttempts, visits);
      WalkIsThorough(config, m, cs, slots, maxAttempts, visits);
      AnswerIsSuccess(config, m, cs, slots, maxAttempts, visits);
      verdict := match lastErr case Some(e) => Failure(e) case None => Failure(NoCandidates);
    }
  }

  /** The empty walk. */
  lemma NothingVisited<R, E>(c: Config, m: Table, cs: seq<Candidate>, slots: seq<Slot<R, E>>, max: nat)
    requires |slots| == |cs|
    ensures Prefix(c, m, cs, slots, max, []) && Trace(cs, slots, []) == []
    ensures Attempts(cs, slots, []) == [] && LastError(slots, []) == None
  {
  }

  /** What one more visit adds to the attempts and the error in hand. */
  lemma RecordsGrow<R, E>(cs: seq<Candidate>, slots: seq<Slot<R, E>>, visits: seq<Visit>, v: Visit)
    requires |visits| < |cs| == |slots|
    ensures var k := |visits|;
            && Attempts(cs, slots, visits + [v])
               == Attempts(cs, slots, visits) + AttemptOf(cs[k].deployment.id, slots[k], v)
            && LastError(slots, visits + [v])
               == if v == Vanished then Some(ProviderVanished)
                  else if v == Called && !slots[k].outcome.Served? then Some(Failed(slots[k].outcome.error))
                  else LastError(slots, visits)
  {
    hide AttemptOf;
    assert (visits + [v])[..|visits|] == visits;
  }

  lemma PrefixLength<R, E>(
    c: Config, m: Table, cs: seq<Candidate>, slots: seq<Slot<R, E>>, max: nat, visits: seq<Visit>)
    requires |slots| == |cs| && Prefix(c, m, cs, slots, max, visits)
    ensures |visits| <= |cs|
  {
  }

  lemma NothingReplayed(c: Config, m: Table)
    ensures Replay(c, m, []) == m
  {
  }

  lemma ReplayOne(c: Config, m: Table, t: seq<Entry>, e: Entry)
    ensures Replay(c, m, t + [e]) == Apply(c, Replay(c, m, t), e)
  {
    assert (t + [e])[..|t|] == t;
  }

  lemma {:induction false} ReplayAppend(c: Config, m: Table, t: seq<Entry>, u: seq<Entry>)
    ensures Replay(c, m, t + u) == Replay(c, Replay(c, m, t), u)
    decreases |u|
  {
    hide Apply;
    if u == [] {
      assert t + u == t;
    } else {
      var front := u[..|u| - 1];
      ReplayAppend(c, m, t, front);
      assert (t + u)[..|t + u| - 1] == t + front;
    }
  }

  lemma TraceGrows<R, E>(cs: seq<Candidate>, slots: seq<Slot<R, E>>, visits: seq<Visit>, v: Visit)
    requires |visits| < |cs| && |visits| < |slots|
    ensures Trace(cs, slots, visits + [v])
         == Trace(cs, slots, visits) + Segment(cs[|visits|].deployment.id, slots[|visits|], v)
  {
    assert (visits + [v])[..|visits|] == visits;
  }

  lemma SegmentShape<R, E>(t: seq<Entry>, id: string, slot: Slot<R, E>, v: Visit)
    ensures var u := t + slot.before + [Entry(id, Allow(slot.allowAt))];
            t + Segment(id, slot, v)
            == if v != Called then u
               else if slot.outcome.Rejected? then u + slot.during
               else u + slot.during + Report(id, slot, v)
  {
  }

  lemma PrefixGrows<R, E>(
    c: Config, m: Table, cs: seq<Candidate>, slots: seq<Slot<R, E>>, max: nat, visits: seq<Visit>, v: Visit)
    requires |slots| == |cs| && Prefix(c, m, cs, slots, max, visits) && !Stopped(slots, visits)
    requires !Exhausted(cs, slots, max, |visits|) && v == VisitAt(c, m, cs, slots, visits)
    ensures Prefix(c, m, cs, slots, max, visits + [v])
  {
    hide VisitAt, Continues;
    var longer := visits + [v];
    forall k | 0 <= k < |longer| ensures longer[k] == VisitAt(c, m, cs, slots, longer[..k]) {
      assert k == |visits| || longer[k] == visits[k];
      assert longer[..k] == visits[..k];
    }
    forall k | 0 <= k < |longer| - 1 ensures Continues(slots[k], longer[k]) {
      assert longer[k] == visits[k];
    }
  }

  // ---- what every walk satisfies ----

  /** The environment decides the walk: there is only one. */
  lemma WalkIsUnique<R, E>(
    c: Config, m: Table, cs: seq<Candidate>, slots: seq<Slot<R, E>>, max: nat, v: seq<Visit>, w: seq<Visit>)
    requires |slots| == |cs| && Walk(c, m, cs, slots, max, v) && Walk(c, m, cs, slots, max, w)
    ensures v == w
  {
    hide VisitAt, Continues;
    if |v| <= |w| {
      PrefixesAgree(c, m, cs, slots, max, v, w, |v|);
      SameLength(c, m, cs, slots, max, v, w);
    } else {
      PrefixesAgree(c, m, cs, slots, max, w, v, |w|);
      SameLength(c, m, cs, slots, max, w, v);
    }
  }

  lemma SameLength<R, E>(
    c: Config, m: Table, cs: seq<Candidate>, slots: seq<Slot<R, E>>, max: nat, v: seq<Visit>, w: seq<Visit>)
    requires |slots| == |cs| && Walk(c, m, cs, slots, max, v) && Walk(c, m, cs, slots, max, w)
    requires |v| <= |w| && v == w[..|v|]
    ensures v == w
  {
    hide VisitAt, Continues;
    assert v != [] ==> v[|v| - 1] == w[|v| - 1];
    assert w[..|w|] == w;
  }

  lemma {:induction false} PrefixesAgree<R, E>(
    c: Config, m: Table, cs: seq<Candidate>, slots: seq<Slot<R, E>>, max: nat, v: seq<Visit>, w: seq<Visit>, k: nat)
    requires |slots| == |cs| && Prefix(c, m, cs, slots, max, v) && Prefix(c, m, cs, slots, max, w)
    requires k <= |v| <= |w|
    ensures v[..k] == w[..k]
  {
    hide VisitAt, Continues;
    if k > 0 {
      PrefixesAgree(c, m, cs, slots, max, v, w, k - 1);
      assert v[k - 1] == w[k - 1];
      assert v[..k] == v[..k - 1] + [v[k - 1]] && w[..k] == w[..k - 1] + [w[k - 1]];
    }
  }

  /**
   * A request never uses more positions than it may, calls a deployment only where its breaker
   * admitted, and calls nothing after an answer or a final error.
   */
  lemma WalkIsDisciplined<R, E>(
    c: Config, m: Table, cs: seq<Candidate>, slots: seq<Slot<R, E>>, max: nat, visits: seq<Visit>, k: nat)
    requires |slots| == |cs| && Walk(c, m, cs, slots, max, visits) && k < |visits| && visits[k] == Called
    ensures |visits| <= max && slots[k].remaining >= MIN_ATTEMPT_BUDGET
    ensures Admitted(c, m, cs, slots, visits[..k])
    ensures !slots[k].outcome.Retryable? ==> k == |visits| - 1
  {
    hide Admitted;
    assert !Exhausted(cs, slots, max, k) && !Exhausted(cs, slots, max, |visits| - 1);
  }

  /** The run succeeds exactly when some call was answered, and then that call was the last visit. */
  lemma SuccessIsTheLastVisit<R, E>(
    c: Config, m: Table, cs: seq<Candidate>, slots: seq<Slot<R, E>>, max: nat, visits: seq<Visit>)
    requires |slots| == |cs| && Walk(c, m, cs, slots, max, visits)
    ensures VerdictOf(cs, slots, visits).Success? <==>
            exists k :: 0 <= k < |visits| && visits[k] == Called && slots[k].outcome.Served?
    ensures VerdictOf(cs, slots, visits).Success? ==>
      && visits != []
      && VerdictOf(cs, slots, visits) == Success(cs[|visits| - 1].deployment, slots[|visits| - 1].outcome.reply)
      && forall k :: 0 <= k < |visits| - 1 ==> Continues(slots[k], visits[k])
  {
    hide VisitAt, LastError;
  }

  lemma AnswerIsSuccess<R, E>(
    c: Config, m: Table, cs: seq<Candidate>, slots: seq<Slot<R, E>>, max: nat, visits: seq<Visit>)
    requires |slots| == |cs| && Walk(c, m, cs, slots, max, visits)
    ensures |visits| <= |cs| && (VerdictOf(cs, slots, visits).Success? <==> SomebodyAnswered(slots, visits))
  {
    hide VisitAt, LastError, VerdictOf;
    SuccessIsTheLastVisit(c, m, cs, slots, max, visits);
  }

  lemma {:induction false} ErrorsAreFound<R, E>(slots: seq<Slot<R, E>>, visits: seq<Visit>)
    requires |visits| <= |slots|
    ensures LastError(slots, visits) == None <==>
            forall k :: 0 <= k < |visits| ==>
              visits[k] != Vanished && (visits[k] == Called ==> slots[k].outcome.Served?)
  {
    if visits != [] {
      var front := visits[..|visits| - 1];
      ErrorsAreFound(slots, front);
      assert forall k :: 0 <= k < |front| ==> visits[k] == front[k];
    }
  }

  lemma WalkIsThorough<R, E>(
    c: Config, m: Table, cs: seq<Candidate>, slots: seq<Slot<R, E>>, max: nat, visits: seq<Visit>)
    requires |slots| == |cs| && Walk(c, m, cs, slots, max, visits)
    ensures Thorough(cs, slots, max, visits)
  {
    hide Walk, Due;
    forall k: nat | Due(slots, max, visits, k) ensures k < |visits| {
      DueIsVisited(c, m, cs, slots, max, visits, k);
    }
  }

  lemma DueIsVisited<R, E>(
    c: Config, m: Table, cs: seq<Candidate>, slots: seq<Slot<R, E>>, max: nat, visits: seq<Visit>, k: nat)
    requires |slots| == |cs| && Walk(c, m, cs, slots, max, visits) && Due(slots, max, visits, k)
    ensures k < |visits|
  {
    hide VisitAt;
    if |visits| <= k {
      DueAtTheEnd(slots, max, visits, k);
    }
  }

  lemma DueAtTheEnd<R, E>(slots: seq<Slot<R, E>>, max: nat, visits: seq<Visit>, k: nat)
    requires Due(slots, max, visits, k) && |visits| <= k
    ensures slots[|visits|].remaining >= MIN_ATTEMPT_BUDGET && |visits| < max
    ensures visits != [] ==> !Ends(slots[|visits| - 1], visits[|visits| - 1])
  {
  }

  /** What a visit means, by what surrounds its position. */
  lemma VisitsAreExplained<R, E>(
    c: Config, m: Table, cs: seq<Candidate>, slots: seq<Slot<R, E>>, max: nat, visits: seq<Visit>, k: nat)
    requires |slots| == |cs| && Walk(c, m, cs, slots, max, visits) && k < |visits|
    ensures var id := cs[k].deployment.id;
            var b := BreakerFor(Replay(c, m, Trace(cs, slots, visits[..k]) + slots[k].before), id);
            && (visits[k] == Skipped <==> !Admits(c, b, slots[k].allowAt))
            && (visits[k] == Abandoned <==> Admits(c, b, slots[k].allowAt) && k > 0 && !slots[k].waitOk)
            && (visits[k] == Called <==>
                  Admits(c, b, slots[k].allowAt) && (k == 0 || slots[k].waitOk) && slots[k].known)
            && slots[k].remaining >= MIN_ATTEMPT_BUDGET
  {
    hide Admits, Replay, Trace, BreakerFor;
    assert visits[k] == VisitAt(c, m, cs, slots, visits[..k]);
    assert !Exhausted(cs, slots, max, k);
  }

  /**
   * A failed run tried everything it could: whatever position it had the attempts and the budget for,
   * with no final error and no cancelled wait before it, was refused by its breaker, had lost its
   * provider, had its own wait cancelled, or was called and failed.
   */
  lemma FailureMeansAllWereTried<R, E>(
    c: Config, m: Table, cs: seq<Candidate>, slots: seq<Slot<R, E>>, max: nat, visits: seq<Visit>, k: nat)
    requires |slots| == |cs| && Walk(c, m, cs, slots, max, visits) && VerdictOf(cs, slots, visits).Failure?
    requires k < |cs| && k < max && forall j :: 0 <= j <= k ==> slots[j].remaining >= MIN_ATTEMPT_BUDGET
    requires forall j :: 0 <= j < k && j < |visits| ==>
               visits[j] != Abandoned && !(visits[j] == Called && slots[j].outcome.Rejected?)
    ensures k < |visits|
    ensures visits[k] in {Skipped, Vanished, Abandoned} || !slots[k].outcome.Served?
  {
    hide VisitAt, LastError, VerdictOf, Prefix;
    SuccessIsTheLastVisit(c, m, cs, slots, max, visits);
    PrefixLength(c, m, cs, slots, max, visits);
    DueIsVisited(c, m, cs, slots, max, visits, k);
  }

  /** The error a failed run reports is that of the last position that vanished or failed. */
  lemma {:induction false} ReportedErrorIsTheLast<R, E>(slots: seq<Slot<R, E>>, visits: seq<Visit>, k: nat)
    requires k < |visits| <= |slots|
    requires visits[k] == Vanished || (visits[k] == Called && !slots[k].outcome.Served?)
    requires forall j :: k < j < |visits| ==>
               visits[j] != Vanished && (visits[j] == Called ==> slots[j].outcome.Served?)
    ensures LastError(slots, visits)
         == Some(if visits[k] == Vanished then ProviderVanished else Failed(slots[k].outcome.error))
    decreases |visits|
  {
    if k < |visits| - 1 {
      ReportedErrorIsTheLast(slots, visits[..|visits| - 1], k);
    }
  }

  /** "Unavailable" is reported exactly when nothing was tried and no provider had vanished. */
  lemma UnavailableMeansUntried<R, E>(
    c: Config, m: Table, cs: seq<Candidate>, slots: seq<Slot<R, E>>, max: nat, visits: seq<Visit>)
    requires |slots| == |cs| && Walk(c, m, cs, slots, max, visits)
    ensures VerdictOf(cs, slots, visits) == Failure(NoCandidates) <==>
            forall k :: 0 <= k < |visits| ==> visits[k] in {Skipped, Abandoned}
  {
    hide VisitAt, LastError;
    ErrorsAreFound(slots, visits);
    LastErrorKinds(slots, visits);
  }

  lemma {:induction false} LastErrorKinds<R, E>(slots: seq<Slot<R, E>>, visits: seq<Visit>)
    requires |visits| <= |slots|
    ensures LastError(slots, visits) != Some(NoCandidates)
  {
    if visits != [] {
      LastErrorKinds(slots, visits[..|visits| - 1]);
    }
  }

  /** The attempts on record are the skipped and the called positions, in list order. */
  lemma {:induction false} AttemptsAreTheVisits<R, E>(
    cs: seq<Candidate>, slots: seq<Slot<R, E>>, visits: seq<Visit>, k: nat)
    requires |visits| <= |cs| && |visits| <= |slots| && k < |visits| && visits[k] in {Skipped, Called}
    ensures var at := |Attempts(cs, slots, visits[..k])|;
            && at < |Attempts(cs, slots, visits)|
            && Attempts(cs, slots, visits)[at].id == cs[k].deployment.id
            && (Attempts(cs, slots, visits)[at].skipped <==> visits[k] == Skipped)
            && (Attempts(cs, slots, visits)[at].error == None <==> visits[k] == Skipped || slots[k].outcome.Served?)
    decreases |visits|
  {
    var front := visits[..|visits| - 1];
    if k < |front| {
      AttemptsAreTheVisits(cs, slots, front, k);
      assert front[..k] == visits[..k];
    } else {
      assert visits[..k] == front;
    }
  }

  lemma {:induction false} ContinuingAttemptsFailed<R, E>(
    cs: seq<Candidate>, slots: seq<Slot<R, E>>, visits: seq<Visit>)
    requires |visits| <= |cs| && |visits| <= |slots|
    requires forall k :: 0 <= k < |visits| ==> Continues(slots[k], visits[k])
    ensures forall a :: a in Attempts(cs, slots, visits) ==> a.skipped || a.error.Some?
  {
    if visits != [] {
      ContinuingAttemptsFailed(cs, slots, visits[..|visits| - 1]);
    }
  }

  /** On success the last attempt on record is the server's, and every earlier one was skipped or failed. */
  lemma ServerIsTheLastAttempt<R, E>(
    c: Config, m: Table, cs: seq<Candidate>, slots: seq<Slot<R, E>>, max: nat, visits: seq<Visit>)
    requires |slots| == |cs| && Walk(c, m, cs, slots, max, visits) && VerdictOf(cs, slots, visits).Success?
    ensures var attempts := Attempts(cs, slots, visits);
            && |attempts| > 0
            && attempts[|attempts| - 1] == Attempt(VerdictOf(cs, slots, visits).server.id, false, None)
            && forall i :: 0 <= i < |attempts| - 1 ==> attempts[i].skipped || attempts[i].error.Some?
  {
    hide VisitAt, LastError;
    SuccessIsTheLastVisit(c, m, cs, slots, max, visits);
    var front := visits[..|visits| - 1];
    ContinuingAttemptsFailed(cs, slots, front);
    var earlier := Attempts(cs, slots, front);
    assert forall i :: 0 <= i < |earlier| ==> earlier[i] in earlier;
  }

  // ---- what the breakers are left with ----

  /** Allow calls aside, nobody reports on `id`. */
  ghost predicate NoOutcome(entries: seq<Entry>, id: string) {
    forall i :: 0 <= i < |entries| && entries[i].id == id ==> entries[i].call.Allow?
  }

  /** A closed breaker, and a half-open one with its probe out, change only when somebody reports. */
  lemma {:induction false} WaitsForAnOutcome(c: Config, m: Table, entries: seq<Entry>, id: string)
    requires NoOutcome(entries, id)
    requires var b := BreakerFor(m, id); b.mode == Closed || (b.mode == HalfOpen && b.probeInFlight)
    ensures BreakerFor(Replay(c, m, entries), id) == BreakerFor(m, id)
  {
    if entries != [] {
      WaitsForAnOutcome(c, m, entries[..|entries| - 1], id);
    }
  }

  /** A visit's breaker calls, one after the other. */
  lemma SegmentReplays<R, E>(c: Config, m: Table, id: string, slot: Slot<R, E>, v: Visit)
    ensures var asked := Apply(c, Replay(c, m, slot.before), Entry(id, Allow(slot.allowAt)));
            Replay(c, m, Segment(id, slot, v))
            == if v != Called then asked
               else if slot.outcome.Rejected? then Replay(c, asked, slot.during)
               else Apply(c, Replay(c, asked, slot.during), Report(id, slot, v)[0])
  {
    hide Replay, Apply;
    var e := Entry(id, Allow(slot.allowAt));
    var asked := slot.before + [e];
    ReplayOne(c, m, slot.before, e);
    ReplayAppend(c, m, asked, slot.during);
    if v != Called {
      assert Segment(id, slot, v) == asked;
    } else if slot.outcome.Rejected? {
      assert Segment(id, slot, v) == asked + slot.during;
    } else {
      ReplayOne(c, m, asked + slot.during, Report(id, slot, v)[0]);
      assert Segment(id, slot, v) == asked + slot.during + [Report(id, slot, v)[0]];
    }
  }

  /**
   * A probe, whatever happened before it and whatever others ask during it: the breaker still waits
   * for it exactly after a cancelled wait, a vanished provider or a final error.
   */
  lemma ProbeIsReleasedExactlyOnReport<R, E>(c: Config, m: Table, id: string, slot: Slot<R, E>, v: Visit)
    requires v != Skipped && NoOutcome(slot.during, id)
    requires var b := BreakerFor(Replay(c, m, slot.before), id); b.mode != Closed && Admits(c, b, slot.allowAt)
    ensures var b := BreakerFor(Replay(c, m, Segment(id, slot, v)), id);
            && (b.probeInFlight <==> v != Called || slot.outcome.Rejected?)
            && (b.probeInFlight ==> b.mode == HalfOpen)
  {
    hide Replay;
    SegmentReplays(c, m, id, slot, v);
    var asked := Apply(c, Replay(c, m, slot.before), Entry(id, Allow(slot.allowAt)));
    WaitsForAnOutcome(c, asked, slot.during, id);
  }

  /**
   * What a closed breaker learns from a call, whatever others ask meanwhile: an answer clears its
   * failures, a retryable failure counts and opens it at the threshold, a final error changes nothing.
   */
  lemma ClosedBreakerLearns<R, E>(c: Config, m: Table, id: string, slot: Slot<R, E>)
    requires NoOutcome(slot.during, id) && BreakerFor(Replay(c, m, slot.before), id).mode == Closed
    ensures var was := BreakerFor(Replay(c, m, slot.before), id);
            var now := BreakerFor(Replay(c, m, Segment(id, slot, Called)), id);
            && (slot.outcome.Served? ==> now.mode == Closed && now.failures == 0)
            && (slot.outcome.Retryable? ==>
                  if was.failures + 1 >= c.failureThreshold then now.mode == Open && now.openedAt == slot.endAt
                  else now.mode == Closed && now.failures == was.failures + 1)
            && (slot.outcome.Rejected? ==> now == was)
  {
    hide Replay;
    SegmentReplays(c, m, id, slot, Called);
    var asked := Apply(c, Replay(c, m, slot.before), Entry(id, Allow(slot.allowAt)));
    WaitsForAnOutcome(c, asked, slot.during, id);
  }

  // ---- walks over whole histories ----

  /** The calls of a shared history on one deployment's breaker. */
  function CallsOn(entries: seq<Entry>, id: string): seq<Call> {
    if entries == [] then []
    else CallsOn(entries[..|entries| - 1], id)
         + if entries[|entries| - 1].id == id then [entries[|entries| - 1].call] else []
  }

  /** The table keeps for each deployment what its own calls alone make of a fresh breaker. */
  lemma {:induction false} TableIsPerDeployment(c: Config, entries: seq<Entry>, id: string)
    ensures BreakerFor(Replay(c, map[], entries), id) == After(c, CallsOn(entries, id))
  {
    hide AfterCall, Replay, After, CallsOn;
    if entries == [] {
      NothingCalled(c, id);
    } else {
      var front, e := entries[..|entries| - 1], entries[|entries| - 1];
      assert entries == front + [e];
      TableIsPerDeployment(c, front, id);
      ReplayOne(c, map[], front, e);
      CallsOnStep(front, e, id);
      OneMoreCall(c, CallsOn(front, id), e.call);
    }
  }

  lemma NothingCalled(c: Config, id: string)
    ensures Replay(c, map[], []) == map[] && CallsOn([], id) == [] && After(c, []) == FRESH
  {
  }

  lemma CallsOnStep(front: seq<Entry>, e: Entry, id: string)
    ensures CallsOn(front + [e], id) == if e.id == id then CallsOn(front, id) + [e.call] else CallsOn(front, id)
  {
    assert (front + [e])[..|front|] == front;
    assert CallsOn(front, id) + [] == CallsOn(front, id);
  }

  lemma OneMoreCall(c: Config, calls: seq<Call>, call: Call)
    ensures After(c, calls + [call]) == AfterCall(c, After(c, calls), call)
  {
    assert (calls + [call])[..|calls|] == calls;
  }

  /** Everything that happened to any breaker before visit `|visits|` asks, since `past` began. */
  function Leading<R, E>(past: seq<Entry>, cs: seq<Candidate>, slots: seq<Slot<R, E>>, visits: seq<Visit>): seq<Entry>
    requires |visits| < |cs| && |visits| < |slots|
  {
    past + (Trace(cs, slots, visits) + slots[|visits|].before)
  }

  /** A visit is admitted exactly when its deployment's own calls so far leave an admitting breaker. */
  lemma AdmittedByItsOwnHistory<R, E>(
    c: Config, past: seq<Entry>, cs: seq<Candidate>, slots: seq<Slot<R, E>>, visits: seq<Visit>)
    requires |visits| < |cs| && |visits| < |slots|
    ensures var k := |visits|;
            Admitted(c, Replay(c, map[], past), cs, slots, visits)
            <==> Admits(c, After(c, CallsOn(Leading(past, cs, slots, visits), cs[k].deployment.id)), slots[k].allowAt)
  {
    hide Admits, Replay, Trace, CallsOn, After, BreakerFor;
    var k := |visits|;
    ReplayAppend(c, map[], past, Trace(cs, slots, visits) + slots[k].before);
    TableIsPerDeployment(c, Leading(past, cs, slots, visits), cs[k].deployment.id);
  }

  /** The calls on position `k`'s breaker up to and including this request's own Allow there. */
  function UpToAllow<R, E>(past: seq<Entry>, cs: seq<Candidate>, slots: seq<Slot<R, E>>, visits: seq<Visit>): seq<Call>
    requires |visits| < |cs| && |visits| < |slots|
  {
    var k := |visits|;
    CallsOn(Leading(past, cs, slots, visits), cs[k].deployment.id) + [Allow(slots[k].allowAt)]
  }

  /**
   * However breakers were used before and meanwhile, no walk calls a deployment within a cooldown of
   * any opening of its breaker.
   */
  lemma NoCallWhileCooling<R, E>(
    c: Config, past: seq<Entry>, cs: seq<Candidate>, slots: seq<Slot<R, E>>, max: nat, visits: seq<Visit>,
    k: nat, i: nat)
    requires |slots| == |cs| && Walk(c, Replay(c, map[], past), cs, slots, max, visits)
    requires k < |visits| && visits[k] == Called
    requires var calls := UpToAllow(past, cs, slots, visits[..k]);
             ClockRuns(calls) && i < |calls| - 1 && OpensAt(c, calls, i)
    ensures var calls := UpToAllow(past, cs, slots, visits[..k]);
            slots[k].allowAt >= calls[i].at + c.cooldown
  {
    hide Admits, Replay, Leading, After, OpensAt, ClockRuns, Admitted;
    var calls := UpToAllow(past, cs, slots, visits[..k]);
    var n := |calls| - 1;
    WalkIsDisciplined(c, Replay(c, map[], past), cs, slots, max, visits, k);
    AdmittedByItsOwnHistory(c, past, cs, slots, visits[..k]);
    assert calls[..n] == CallsOn(Leading(past, cs, slots, visits[..k]), cs[k].deployment.id);
    AllowIsAdmitted(c, calls, n);
    NothingAdmittedWhileCooling(c, calls, i, n);
  }

  lemma AllowIsAdmitted(c: Config, calls: seq<Call>, n: nat)
    requires n < |calls| && calls[n].Allow? && Admits(c, After(c, calls[..n]), calls[n].at)
    ensures AdmitsAt(c, calls, n)
  {
  }

  // ---- probes that never report ----

  lemma TraceUpTo<R, E>(cs: seq<Candidate>, slots: seq<Slot<R, E>>, visits: seq<Visit>, k: nat)
    requires k < |visits| <= |cs| && |visits| <= |slots|
    ensures Trace(cs, slots, visits[..k + 1])
         == Trace(cs, slots, visits[..k]) + Segment(cs[k].deployment.id, slots[k], visits[k])
  {
    hide Segment;
    assert visits[..k + 1] == visits[..k] + [visits[k]];
    TraceGrows(cs, slots, visits[..k], visits[k]);
  }

  /**
   * In every walk, a position admitted as a probe leaves its breaker waiting exactly when the walk
   * left it without an answer and without a retryable failure.
   */
  lemma WalkLeavesProbeOut<R, E>(
    c: Config, m: Table, cs: seq<Candidate>, slots: seq<Slot<R, E>>, max: nat, visits: seq<Visit>, k: nat)
    requires |slots| == |cs| && Walk(c, m, cs, slots, max, visits) && k < |visits| && visits[k] != Skipped
    requires var id := cs[k].deployment.id;
             && NoOutcome(slots[k].during, id)
             && BreakerFor(Replay(c, m, Trace(cs, slots, visits[..k]) + slots[k].before), id).mode != Closed
    ensures var b := BreakerFor(Replay(c, m, Trace(cs, slots, visits[..k + 1])), cs[k].deployment.id);
            && (b.probeInFlight <==> visits[k] in {Abandoned, Vanished} || slots[k].outcome.Rejected?)
            && (b.probeInFlight ==> b.mode == HalfOpen)
  {
    hide Admits, Replay, Trace, Segment, NoOutcome, BreakerFor, Continues;
    var id, t := cs[k].deployment.id, Trace(cs, slots, visits[..k]);
    assert visits[k] == VisitAt(c, m, cs, slots, visits[..k]);
    TraceUpTo(cs, slots, visits, k);
    ReplayAppend(c, m, t, slots[k].before);
    ReplayAppend(c, m, t, Segment(id, slots[k], visits[k]));
    ProbeIsReleasedExactlyOnReport(c, Replay(c, m, t), id, slots[k], visits[k]);
  }

  /** Until somebody reports on it, a deployment whose probe went unreported is refused to every request. */
  lemma UnreportedProbeBlocks<R, E>(
    c: Config, m: Table, cs: seq<Candidate>, slots: seq<Slot<R, E>>, max: nat, visits: seq<Visit>, k: nat,
    more: seq<Entry>, now: int)
    requires |slots| == |cs| && Walk(c, m, cs, slots, max, visits) && k < |visits|
    requires visits[k] in {Abandoned, Vanished} || (visits[k] == Called && slots[k].outcome.Rejected?)
    requires var id := cs[k].deployment.id;
             && NoOutcome(slots[k].during, id) && NoOutcome(more, id)
             && BreakerFor(Replay(c, m, Trace(cs, slots, visits[..k]) + slots[k].before), id).mode != Closed
    ensures !Admits(c, BreakerFor(Replay(c, m, Trace(cs, slots, visits[..k + 1]) + more), cs[k].deployment.id), now)
  {
    hide Replay, Trace, NoOutcome, BreakerFor, VisitAt, Continues;
    var t := Trace(cs, slots, visits[..k + 1]);
    WalkLeavesProbeOut(c, m, cs, slots, max, visits, k);
    ReplayAppend(c, m, t, more);
    WaitsForAnOutcome(c, Replay(c, m, t), more, cs[k].deployment.id);
  }

  /** One such walk: a breaker that opened at 0 is probed after its cooldown and the call is rejected. */
  lemma RejectedProbeBlocks()
    ensures var c := Config(1, 10, 1);
            var past := [Entry("d", Allow(0)), Entry("d", Fail(0))];
            var d := Deployment("d", RoutingKey("m", ""), "p", "", 1, 1, Cost(0, 0), {});
            var cs := [Candidate(d, 1.0, 1.0)];
            var slots: seq<Slot<int, int>> := [Slot(1000, [], 10, true, true, [], Rejected(0), 11)];
            && Walk(c, Replay(c, map[], past), cs, slots, 3, [Called])
            && var calls := CallsOn(past + Trace(cs, slots, [Called]), "d");
               && After(c, calls).mode == HalfOpen && After(c, calls).probeInFlight
               && forall now :: !Admits(c, After(c, calls), now)
  {
    hide CallsOn, After, Segment, Report;
    var c := Config(1, 10, 1);
    var past := [Entry("d", Allow(0)), Entry("d", Fail(0))];
    var d := Deployment("d", RoutingKey("m", ""), "p", "", 1, 1, Cost(0, 0), {});
    var cs := [Candidate(d, 1.0, 1.0)];
    var slots: seq<Slot<int, int>> := [Slot(1000, [], 10, true, true, [], Rejected(0), 11)];
    var m := Replay(c, map[], past);
    assert past[..1] == [past[0]] && past[..1][..0] == [];
    var b := BreakerFor(m, "d");
    assert b.mode == Open && b.openedAt == 0;
    assert [Called][..0] == [] && [Called][..1] == [Called];
    assert Trace(cs, slots, []) + slots[0].before == [];
    assert Admitted(c, m, cs, slots, []);
    assert Walk(c, m, cs, slots, 3, [Called]);
    WalkLeavesProbeOut(c, m, cs, slots, 3, [Called], 0);
    ReplayAppend(c, map[], past, Trace(cs, slots, [Called]));
    TableIsPerDeployment(c, past + Trace(cs, slots, [Called]), "d");
    var calls := CallsOn(past + Trace(cs, slots, [Called]), "d");
    SilentProbeBlocks(c, calls, []);
    assert calls + [] == calls;
  }
}
