/**
 * One request through the gateway: policy, routing, per-attempt protection, failover
 * and restoring the answer.
 *
 * What lies outside a request is a parameter: the gates before routing, the detectors'
 * spans, the vault, the credentials, the providers' answers and the clock.  A call is a
 * value, computed per list position; its effects are carried out in the order the walk
 * made the calls.
 */
module Pipeline {
  import opened Options
  import opened Decimal
  import opened Placeholder
  import opened Detect
  import MergeOrder
  import opened Tokenise
  import opened Routing
  import opened Promotion
  import opened Selection
  import opened Breakers
  import opened Policy
  import Execution
  import Restorer

  datatype Principal = Principal(tenant: string, roles: seq<string>, dataClass: string, minTier: nat)

  datatype Query = Query(model: string, endpoint: string, source: Option<string>, payloadBytes: int, body: string)

  datatype PolicyState = NoPolicy | Undecodable | Compiled(bundle: Bundle)

  function InputOf(p: Principal, q: Query, region: string): Input {
    Input(q.model, q.endpoint, p.roles, region, q.source, if q.payloadBytes < 0 then 0 else q.payloadBytes)
  }

  /** A tenant without policy is allowed and stamps nothing; one whose policy cannot be read is refused. */
  function Decide(policy: PolicyState, input: Input): Decision {
    match policy
    case NoPolicy => Decision(true, "", "", "", 0, false)
    case Undecodable => Decision(false, "", "", "", 0, false)
    case Compiled(bundle) => Evaluate(bundle, input)
  }

  function Stamped(p: Principal, d: Decision): Principal {
    p.(dataClass := if d.dataClass != "" then d.dataClass else p.dataClass,
       minTier := if d.minTier > p.minTier then d.minTier else p.minTier)
  }

  /** A tier at or above the tenant's floor, the key's floor and the floor of the first matching rule. */
  predicate MeetsFloors(cat: Catalog, p: Principal, policy: PolicyState, input: Input, tier: nat) {
    && tier >= MinTrustTier(cat, p.tenant)
    && tier >= p.minTier
    && (policy.Compiled? ==>
          var i := FirstMatch(policy.bundle.rules, input);
          i < |policy.bundle.rules| ==> tier >= policy.bundle.rules[i].minTier)
  }

  // ---- protection of one attempt ----

  datatype CallFailure = CallFailure(code: string, retryable: bool)

  const DEEP_UNAVAILABLE := CallFailure("unavailable", false)

  datatype Ner = Absent | Broken | Found(spans: seq<Match>)

  datatype Answer = Answered(body: string) | NotAnswered(failure: CallFailure)

  /** Everything outside the gateway that bears on one list position. */
  datatype Surroundings = Surroundings(
    remaining: int, before: seq<Execution.Entry>, allowAt: int, waitOk: bool, known: bool,
    during: seq<Execution.Entry>, endAt: int,
    credential: Option<CallFailure>, spans: seq<Match>, ner: Ner, vault: Option<CallFailure>, answer: Answer)

  function StrategyFor(dataClass: string, tier: nat): Strategy {
    if tier >= TRUST_INTERNAL then NoStrategy
    else if dataClass == "restricted" || dataClass == "confidential" then Tokenize
    else if dataClass == "internal" then Redact
    else NoStrategy
  }

  /** What the detectors that ran reported together. */
  function Reported(s: Surroundings, deep: bool): seq<Match> {
    s.spans + if deep && s.ner.Found? then s.ner.spans else []
  }

  function Detected(s: Surroundings, deep: bool): seq<Match> {
    Kept(SortedByStart(Reported(s, deep)))
  }

  /** Detectors report spans of the text with the text they span. */
  ghost predicate Sound(spans: seq<Match>, body: string) {
    forall i :: 0 <= i < |spans| ==>
      spans[i].start <= spans[i].end <= |body| && spans[i].value == body[spans[i].start..spans[i].end]
  }

  datatype Protection = Ready(body: string, originals: Replacements) | Withheld(failure: CallFailure)

  /** The body one destination may see and the map that restores its answer. */
  function Protected(p: Principal, deep: bool, body: string, tier: nat, s: Surroundings): Protection
    requires Replaceable(Detected(s, deep), |body|)
  {
    var strategy := StrategyFor(p.dataClass, tier);
    var found := Detected(s, deep);
    if strategy == NoStrategy then Ready(body, map[])
    else if strategy == Tokenize && deep && !s.ner.Found? then Withheld(DEEP_UNAVAILABLE)
    else if found == [] then Ready(body, map[])
    else if strategy == Redact then Ready(SplicedAll(body, found, Tokens(found, Redact, x => x)), map[])
    else if s.vault.Some? then Withheld(s.vault.value)
    else Ready(Tokenised(body, found).0, Tokenised(body, found).1)
  }

  lemma SoundIsReplaceable(s: Surroundings, deep: bool, body: string)
    requires Sound(Reported(s, deep), body)
    ensures Replaceable(Detected(s, deep), |body|) && Faithful(body, Detected(s, deep))
  {
    hide Kept, SortedByStart, Reported;
    var found := Reported(s, deep);
    MergedIsReplaceable(found, |body|);
    var kept := Detected(s, deep);
    forall i | 0 <= i < |kept| ensures kept[i].value == body[kept[i].start..kept[i].end] {
      assert kept[i] in kept;
      assert kept[i] in found;
    }
  }

  lemma DigestIsUnused(found: seq<Match>, strategy: Strategy, d: string -> string, e: string -> string)
    requires strategy != Hash
    ensures Tokens(found, strategy, d) == Tokens(found, strategy, e)
  {
    hide CountKind, Issue;
  }

  method Protect(p: Principal, deep: bool, body: string, tier: nat, s: Surroundings, digest: string -> string)
    returns (r: Protection)
    requires Replaceable(Detected(s, deep), |body|)
    ensures r == Protected(p, deep, body, tier, s)
  {
    hide Kept, SortedByStart, Spliced, Originals, CountKind, Issue, Replaceable, TokenOf, Gap;
    var strategy := StrategyFor(p.dataClass, tier);
    if strategy == NoStrategy {
      return Ready(body, map[]);
    }
    var deepFailed := deep && !s.ner.Found?;
    var reported := Reported(s, deep);
    var list := new Match[|reported|](i requires 0 <= i < |reported| => reported[i]);
    assert list[..] == reported;
    var found := WithoutOverlaps(list);
    if deepFailed && strategy == Tokenize {
      return Withheld(DEEP_UNAVAILABLE);
    }
    var t := TransformMatches(body, found, strategy, digest);
    DigestIsUnused(found, strategy, digest, x => x);
    if t.count == 0 {
      return Ready(body, map[]);
    }
    if strategy == Tokenize && s.vault.Some? {
      return Withheld(s.vault.value);
    }
    return Ready(t.payload, t.replacements);
  }

  // ---- calls ----

  function Fails(f: CallFailure): Execution.Outcome<string, CallFailure> {
    if f.retryable then Execution.Retryable(f) else Execution.Rejected(f)
  }

  /** What a call comes to: the credential, then the protection, then the provider. */
  function CallOutcome(s: Surroundings, prot: Protection): Execution.Outcome<string, CallFailure> {
    if s.credential.Some? then Fails(s.credential.value)
    else match prot
      case Withheld(f) => Fails(f)
      case Ready(_, _) =>
        match s.answer
        case Answered(body) => Execution.Served(body)
        case NotAnswered(f) => Fails(f)
  }

  function SlotOf(s: Surroundings, prot: Protection): Execution.Slot<string, CallFailure> {
    Execution.Slot(s.remaining, s.before, s.allowAt, s.waitOk, s.known, s.during, CallOutcome(s, prot), s.endAt)
  }

  /** A request that reached a provider. */
  datatype Sent = Sent(position: nat, deployment: Deployment, body: string)

  datatype Failure = Forbidden | Denied | Unroutable(reason: Refusal) | Unserved(why: Execution.Failure<CallFailure>)

  datatype Response = Response(server: Deployment, body: string) | Failed(failure: Failure)

  /** The gates whose answers do not depend on the stages modelled here; a guardrail may rewrite the payload. */
  datatype Gates = Gates(permitted: bool, withinBudget: bool, withinLimit: bool, guard: Option<string>)

  /** The request the router is asked to place. */
  function RequestOf(cat: Catalog, p: Principal, q: Query, region: string): Request {
    Request(p.tenant, q.model, q.endpoint,
            if p.minTier > MinTrustTier(cat, p.tenant) then p.minTier else MinTrustTier(cat, p.tenant),
            {}, Balanced, region, if q.payloadBytes >= 0 then q.payloadBytes / 4 else -(-q.payloadBytes / 4))
  }

  // ---- what a walk did ----

  /** A request as it stands when the router walks its candidates. */
  datatype Plan = Plan(principal: Principal, deep: bool, body: string, cs: seq<Candidate>, env: nat -> Surroundings)

  ghost predicate Sane(plan: Plan) {
    forall k: nat :: k < |plan.cs| ==> Replaceable(Detected(plan.env(k), plan.deep), |plan.body|)
  }

  function ProtectionAt(plan: Plan, k: nat): Protection
    requires Sane(plan) && k < |plan.cs|
  {
    Protected(plan.principal, plan.deep, plan.body, plan.cs[k].deployment.tier, plan.env(k))
  }

  ghost function SlotsOf(plan: Plan): (r: seq<Execution.Slot<string, CallFailure>>)
    requires Sane(plan)
    ensures |r| == |plan.cs|
  {
    seq(|plan.cs|, k requires 0 <= k < |plan.cs| => SlotOf(plan.env(k), ProtectionAt(plan, k)))
  }

  /** The call at `k` got as far as the provider. */
  predicate Reaches(plan: Plan, k: nat)
    requires Sane(plan) && k < |plan.cs|
  {
    plan.env(k).credential.None? && ProtectionAt(plan, k).Ready?
  }

  /** What the calls of a walk sent, in order. */
  ghost function SentBy(plan: Plan, visits: seq<Execution.Visit>): seq<Sent>
    requires Sane(plan) && |visits| <= |plan.cs|
  {
    if visits == [] then []
    else
      var k := |visits| - 1;
      SentBy(plan, visits[..k])
      + if visits[k] == Execution.Called && Reaches(plan, k)
        then [Sent(k, plan.cs[k].deployment, ProtectionAt(plan, k).body)] else []
  }

  /** The map the calls of a walk left behind: the last one that reached a provider wrote it. */
  ghost function OriginalsBy(plan: Plan, visits: seq<Execution.Visit>): Replacements
    requires Sane(plan) && |visits| <= |plan.cs|
  {
    if visits == [] then map[]
    else
      var k := |visits| - 1;
      if visits[k] == Execution.Called && Reaches(plan, k) then ProtectionAt(plan, k).originals
      else OriginalsBy(plan, visits[..k])
  }

  lemma EffectsStep(plan: Plan, visits: seq<Execution.Visit>, k: nat)
    requires Sane(plan) && k < |visits| <= |plan.cs|
    ensures visits[k] == Execution.Called && Reaches(plan, k) ==>
      && SentBy(plan, visits[..k + 1])
         == SentBy(plan, visits[..k]) + [Sent(k, plan.cs[k].deployment, ProtectionAt(plan, k).body)]
      && OriginalsBy(plan, visits[..k + 1]) == ProtectionAt(plan, k).originals
    ensures !(visits[k] == Execution.Called && Reaches(plan, k)) ==>
      && SentBy(plan, visits[..k + 1]) == SentBy(plan, visits[..k])
      && OriginalsBy(plan, visits[..k + 1]) == OriginalsBy(plan, visits[..k])
  {
    hide ProtectionAt, Sane;
    assert visits[..k + 1][..k] == visits[..k];
  }

  /** Exactly the calls that reached a provider were sent, each with the protection of its own position. */
  lemma {:induction false} SentIsProtected(plan: Plan, visits: seq<Execution.Visit>)
    requires Sane(plan) && |visits| <= |plan.cs|
    ensures |SentBy(plan, visits)| <= |visits|
    ensures forall s :: s in SentBy(plan, visits) ==>
      && s.position < |visits|
      && visits[s.position] == Execution.Called
      && s.deployment == plan.cs[s.position].deployment
      && ProtectionAt(plan, s.position).Ready?
      && ProtectionAt(plan, s.position).body == s.body
    ensures forall k :: 0 <= k < |visits| && visits[k] == Execution.Called && Reaches(plan, k) ==>
              Sent(k, plan.cs[k].deployment, ProtectionAt(plan, k).body) in SentBy(plan, visits)
  {
    hide ProtectionAt, Sane;
    if visits != [] {
      var front := visits[..|visits| - 1];
      SentIsProtected(plan, front);
      assert SentBy(plan, front) <= SentBy(plan, visits);
      assert forall k :: 0 <= k < |front| ==> front[k] == visits[k];
    }
  }

  /** After a success the map in hand and the last request sent are the serving attempt's own. */
  lemma ServerWroteTheMap(plan: Plan, c: Config, m: Execution.Table, max: nat, visits: seq<Execution.Visit>)
    requires Sane(plan) && Execution.Walk(c, m, plan.cs, SlotsOf(plan), max, visits)
    requires Execution.VerdictOf(plan.cs, SlotsOf(plan), visits).Success?
    ensures var v := Execution.VerdictOf(plan.cs, SlotsOf(plan), visits);
            var k := |visits| - 1;
            && visits != []
            && v.server == plan.cs[k].deployment
            && plan.env(k).answer == Answered(v.reply)
            && Reaches(plan, k)
            && OriginalsBy(plan, visits) == ProtectionAt(plan, k).originals
            && |SentBy(plan, visits)| > 0
            && SentBy(plan, visits)[|SentBy(plan, visits)| - 1]
               == Sent(k, plan.cs[k].deployment, ProtectionAt(plan, k).body)
  {
    hide ProtectionAt, Sane, Execution.LastError, Execution.VisitAt;
    Execution.SuccessIsTheLastVisit(c, m, plan.cs, SlotsOf(plan), max, visits);
    var k := |visits| - 1;
    assert visits[k] == Execution.Called && SlotsOf(plan)[k].outcome.Served?;
    EffectsStep(plan, visits, k);
    assert visits[..k + 1] == visits;
  }

  /** An answer that echoes what was sent comes back as the payload, whatever the destination saw. */
  lemma EchoComesBack(p: Principal, deep: bool, body: string, tier: nat, s: Surroundings)
    requires Sound(Reported(s, deep), body)
    requires Replaceable(Detected(s, deep), |body|)
    requires forall i :: 0 <= i < |Detected(s, deep)| ==> IsName(Detected(s, deep)[i].kind)
    requires GapsAreFree(body, Detected(s, deep), Tokenised(body, Detected(s, deep)).1)
    requires Protected(p, deep, body, tier, s).Ready?
    requires StrategyFor(p.dataClass, tier) != Redact
    ensures Restore(Protected(p, deep, body, tier, s).body, Protected(p, deep, body, tier, s).originals) == body
  {
    hide Detected, Tokenised, Substitute, GapsAreFree, Reported;
    SoundIsReplaceable(s, deep, body);
    RoundTrip(body, Detected(s, deep));
  }

  class Session {
    var principal: Principal
    var deep: bool
    var body: string
    var originals: Replacements
    var sent: seq<Sent>

    constructor (p: Principal, body: string)
      ensures principal == p && !deep && this.body == body && originals == map[] && sent == []
    {
      principal, deep, this.body, originals, sent := p, false, body, map[], [];
    }

    method ApplyPolicy(policy: PolicyState, q: Query, region: string) returns (ok: bool)
      requires !deep
      modifies this`principal, this`deep
      ensures var d := Decide(policy, InputOf(old(principal), q, region));
              && ok == d.allowed
              && (ok ==> principal == Stamped(old(principal), d) && deep == d.deep)
              && (!ok ==> principal == old(principal) && deep == old(deep))
    {
      hide FirstMatch;
      if policy == NoPolicy {
        return true;
      }
      if policy == Undecodable {
        return false;
      }
      var d := Evaluate(policy.bundle, InputOf(principal, q, region));
      if !d.allowed {
        return false;
      }
      if d.dataClass != "" {
        principal := principal.(dataClass := d.dataClass);
      }
      deep := d.deep;
      if d.minTier > principal.minTier {
        principal := principal.(minTier := d.minTier);
      }
      return true;
    }

    /** The call of one position: its outcome, and what it would send and keep. */
    method Prepare(d: Deployment, s: Surroundings, digest: string -> string)
      returns (slot: Execution.Slot<string, CallFailure>, prot: Protection)
      requires Replaceable(Detected(s, deep), |body|)
      ensures prot == Protected(principal, deep, body, d.tier, s)
      ensures slot == SlotOf(s, prot)
    {
      prot := Protect(principal, deep, body, d.tier, s, digest);
      slot := SlotOf(s, prot);
    }

    /** The effects of one call that the walk made. */
    method Make(k: nat, d: Deployment, s: Surroundings, prot: Protection)
      modifies this`originals, this`sent
      ensures if s.credential.None? && prot.Ready?
              then originals == prot.originals && sent == old(sent) + [Sent(k, d, prot.body)]
              else originals == old(originals) && sent == old(sent)
    {
      if s.credential.Some? || prot.Withheld? {
        return;
      }
      originals := prot.originals;
      sent := sent + [Sent(k, d, prot.body)];
    }

    /** Walks the candidates and carries out the calls the walk made. */
    method Adapt(router: Execution.Router, cs: seq<Candidate>, env: nat -> Surroundings, digest: string -> string)
      returns (verdict: Execution.Verdict<string, CallFailure>, visits: seq<Execution.Visit>)
      requires sent == [] && originals == map[]
      requires Sane(Plan(principal, deep, body, cs, env))
      modifies this`originals, this`sent, router
      ensures var plan := Plan(principal, deep, body, cs, env);
              && Execution.Walk(router.config, old(router.breakers), cs, SlotsOf(plan), router.maxAttempts, visits)
              && verdict == Execution.VerdictOf(cs, SlotsOf(plan), visits)
              && sent == SentBy(plan, visits)
              && originals == OriginalsBy(plan, visits)
              && router.breakers
                 == Execution.Replay(router.config, old(router.breakers), Execution.Trace(cs, SlotsOf(plan), visits))
    {
      hide Protected, Detected, Execution.Walk, Execution.VerdictOf, SentBy, OriginalsBy, SlotsOf, ProtectionAt, Sane,
           Execution.Replay, Execution.Trace;
      ghost var plan := Plan(principal, deep, body, cs, env);
      var slots, prots := PrepareAll(cs, env, digest);
      var attempts;
      verdict, attempts, visits := router.Execute(cs, slots);
      WalkFits(router.config, old(router.breakers), cs, slots, router.maxAttempts, visits);
      MakeAll(cs, env, prots, visits);
    }

    method PrepareAll(cs: seq<Candidate>, env: nat -> Surroundings, digest: string -> string)
      returns (slots: seq<Execution.Slot<string, CallFailure>>, prots: seq<Protection>)
      requires Sane(Plan(principal, deep, body, cs, env))
      ensures slots == SlotsOf(Plan(principal, deep, body, cs, env))
      ensures |prots| == |cs|
      ensures forall k :: 0 <= k < |cs| ==> prots[k] == ProtectionAt(Plan(principal, deep, body, cs, env), k)
    {
      hide Protected, Detected, SlotOf;
      ghost var plan := Plan(principal, deep, body, cs, env);
      slots, prots := [], [];
      for k := 0 to |cs|
        invariant |slots| == k && |prots| == k
        invariant forall j :: 0 <= j < k ==> prots[j] == ProtectionAt(plan, j)
        invariant forall j :: 0 <= j < k ==> slots[j] == SlotsOf(plan)[j]
      {
        var slot, prot := Prepare(cs[k].deployment, env(k), digest);
        slots, prots := slots + [slot], prots + [prot];
      }
      assert slots == SlotsOf(plan);
    }

    /** Carries out the calls of a walk, in order. */
    method MakeAll(cs: seq<Candidate>, env: nat -> Surroundings, prots: seq<Protection>, visits: seq<Execution.Visit>)
      requires sent == [] && originals == map[] && |visits| <= |cs| == |prots|
      requires Sane(Plan(principal, deep, body, cs, env))
      requires forall k :: 0 <= k < |cs| ==> prots[k] == ProtectionAt(Plan(principal, deep, body, cs, env), k)
      modifies this`originals, this`sent
      ensures sent == SentBy(Plan(principal, deep, body, cs, env), visits)
      ensures originals == OriginalsBy(Plan(principal, deep, body, cs, env), visits)
    {
      hide Protected, Detected, SentBy, OriginalsBy, ProtectionAt, Sane;
      ghost var plan := Plan(principal, deep, body, cs, env);
      NothingDone(plan);
      for k := 0 to |visits|
        invariant sent == SentBy(plan, visits[..k])
        invariant originals == OriginalsBy(plan, visits[..k])
      {
        EffectsStep(plan, visits, k);
        if visits[k] == Execution.Called {
          Make(k, cs[k].deployment, env(k), prots[k]);
        }
      }
      assert visits[..|visits|] == visits;
    }
  }

  lemma WalkFits<R, E>(
    c: Config, m: Execution.Table, cs: seq<Candidate>, slots: seq<Execution.Slot<R, E>>, max: nat,
    visits: seq<Execution.Visit>)
    requires |slots| == |cs| && Execution.Walk(c, m, cs, slots, max, visits)
    ensures |visits| <= |cs| && |visits| <= max
  {
    hide Execution.VisitAt;
    assert visits != [] ==> !Execution.Exhausted(cs, slots, max, |visits| - 1);
  }

  lemma NothingDone(plan: Plan)
    requires Sane(plan)
    ensures SentBy(plan, []) == [] && OriginalsBy(plan, []) == map[]
  {
  }

  /** Every detector's report about `body` is sound, at every position. */
  ghost predicate DetectorsAreSound(env: nat -> Surroundings, body: string) {
    forall k: nat :: Sound(env(k).spans, body) && (env(k).ner.Found? ==> Sound(env(k).ner.spans, body))
  }

  lemma SoundIsSane(plan: Plan)
    requires DetectorsAreSound(plan.env, plan.body)
    ensures Sane(plan)
  {
    hide Detected;
    forall k: nat | k < |plan.cs| ensures Replaceable(Detected(plan.env(k), plan.deep), |plan.body|) {
      SoundIsReplaceable(plan.env(k), plan.deep, plan.body);
    }
  }

  /** One request, with everything about it that is fixed before the walk. */
  datatype Job = Job(
    cat: Catalog, policy: PolicyState, p: Principal, q: Query, gates: Gates, w: World, draw: real, region: string)

  function Asked(job: Job): Input {
    InputOf(job.p, job.q, job.region)
  }

  function Decided(job: Job): Decision {
    Decide(job.policy, Asked(job))
  }

  /** An unreadable policy refuses, and so does a denying first match or, without one, a denying default. */
  predicate PolicyRefuses(policy: PolicyState, input: Input) {
    match policy
    case NoPolicy => false
    case Undecodable => true
    case Compiled(bundle) =>
      var i := FirstMatch(bundle.rules, input);
      if i < |bundle.rules| then bundle.rules[i].effect == Deny else bundle.defaultEffect == Deny
  }

  lemma RefusedIsNotAllowed(policy: PolicyState, input: Input)
    ensures PolicyRefuses(policy, input) <==> !Decide(policy, input).allowed
  {
    hide FirstMatch;
  }

  /** The key may call the model and policy lets it. */
  predicate Permitted(job: Job) {
    job.gates.permitted && !PolicyRefuses(job.policy, Asked(job))
  }

  /** Budget, limits and guardrails let the request through. */
  predicate Admitted(job: Job) {
    job.gates.withinBudget && job.gates.withinLimit && job.gates.guard.Some?
  }

  /**
   * A deployment of the catalog that the model name leads to, serving, at or above all three floors,
   * whose provider speaks the endpoint.
   */
  predicate Servable(job: Job, d: Deployment) {
    && d in job.cat.deployments
    && d.key in ResolveAlias(job.cat, job.p.tenant, job.q.model)
    && Serving(d)
    && MeetsFloors(job.cat, job.p, job.policy, Asked(job), d.tier)
    && d.provider in job.w.endpoints && job.q.endpoint in job.w.endpoints[d.provider]
  }

  function Placed(job: Job): Request {
    RequestOf(job.cat, Stamped(job.p, Decided(job)), job.q, job.region)
  }

  /** The request the router places asks for exactly the servable deployments. */
  lemma ServableIsEligible(job: Job, d: Deployment)
    requires !PolicyRefuses(job.policy, Asked(job))
    ensures Servable(job, d) <==> Named(job.cat, Placed(job), d) && Eligible(d, Placed(job), job.w)
  {
    hide FirstMatch, ResolveAlias;
    RefusedIsNotAllowed(job.policy, Asked(job));
  }

  ghost predicate AnyServable(job: Job) {
    exists d :: Servable(job, d)
  }

  lemma SomebodyServes(job: Job)
    requires !PolicyRefuses(job.policy, Asked(job))
    ensures AnyServable(job) <==> AnyNamedEligible(job.cat, Placed(job), job.w)
  {
    hide Servable, Named, Eligible, Placed, PolicyRefuses;
    forall d: Deployment
      ensures Servable(job, d) <==> Named(job.cat, Placed(job), d) && Eligible(d, Placed(job), job.w)
    {
      ServableIsEligible(job, d);
    }
  }

  /** A sent request went to a servable deployment and carried its own tier's protection. */
  ghost predicate Lawful(job: Job, body: string, env: nat -> Surroundings, s: Sent) {
    var d := Decided(job);
    && !PolicyRefuses(job.policy, Asked(job))
    && Servable(job, s.deployment)
    && Replaceable(Detected(env(s.position), d.deep), |body|)
    && var prot := Protected(Stamped(job.p, d), d.deep, body, s.deployment.tier, env(s.position));
       prot.Ready? && prot.body == s.body
  }

  /** The response is the answer to `s`, restored with the map made for `s`. */
  ghost predicate RestoredByServer(job: Job, body: string, env: nat -> Surroundings, s: Sent, r: Response)
    requires r.Response?
  {
    var d := Decided(job);
    && s.deployment == r.server
    && env(s.position).answer.Answered?
    && Replaceable(Detected(env(s.position), d.deep), |body|)
    && var prot := Protected(Stamped(job.p, d), d.deep, body, r.server.tier, env(s.position));
       prot.Ready? && r.body == Restore(env(s.position).answer.body, prot.originals)
  }

  /** The deployments selection returns are servable. */
  lemma RoutedIsServable(job: Job, c: Candidate)
    requires !PolicyRefuses(job.policy, Asked(job)) && c in Promoted(Ranked(job.cat, Placed(job), job.w), job.draw)
    ensures Servable(job, c.deployment)
  {
    hide Promoted, Ranked, ResolveAlias, PolicyRefuses, Placed, Servable, Eligible;
    ListIsTheEligibleOnes(job.cat, Placed(job), job.w, job.draw);
    ServableIsEligible(job, c.deployment);
  }

  /** A request that passed the gates, as the router walks its candidates. */
  ghost function PlanOf(job: Job, env: nat -> Surroundings): Plan
    requires job.gates.guard.Some?
  {
    Plan(Stamped(job.p, Decided(job)), Decided(job).deep, job.gates.guard.value,
         Promoted(Ranked(job.cat, Placed(job), job.w), job.draw), env)
  }

  /** Some call of the walk reached its provider and was answered. */
  ghost predicate CallAnswered(plan: Plan, visits: seq<Execution.Visit>)
    requires Sane(plan) && |visits| <= |plan.cs|
  {
    exists k :: 0 <= k < |visits| && visits[k] == Execution.Called && Reaches(plan, k) && plan.env(k).answer.Answered?
  }

  lemma AnsweredIsServed(plan: Plan, visits: seq<Execution.Visit>)
    requires Sane(plan) && |visits| <= |plan.cs|
    ensures CallAnswered(plan, visits) <==> Execution.SomebodyAnswered(SlotsOf(plan), visits)
  {
    hide ProtectionAt, Sane;
    forall k | 0 <= k < |visits|
      ensures SlotsOf(plan)[k].outcome.Served? <==> Reaches(plan, k) && plan.env(k).answer.Answered?
    {
    }
  }

  /** The walk of a request that was routed, and what it came to. */
  ghost predicate WalkedOut(
    job: Job, env: nat -> Surroundings, c: Config, m: Execution.Table, max: nat,
    visits: seq<Execution.Visit>, m': Execution.Table, sent: seq<Sent>, r: Response)
  {
    && job.gates.guard.Some?
    && var plan := PlanOf(job, env);
       && Sane(plan)
       && Execution.Walk(c, m, plan.cs, SlotsOf(plan), max, visits) && |visits| <= |plan.cs|
       && m' == Execution.Replay(c, m, Execution.Trace(plan.cs, SlotsOf(plan), visits))
       && sent == SentBy(plan, visits)
       && (r.Response? <==> CallAnswered(plan, visits))
       && (r.Failed? ==> r.failure.Unserved?
                         && Execution.VerdictOf(plan.cs, SlotsOf(plan), visits) == Execution.Failure(r.failure.why))
  }

  /**
   * One request.  It is answered exactly when the gates and policy let it through, some deployment is
   * servable and some call of the walk was answered; each way of failing is reported as what it is.
   * Whatever the outside does, everything sent is lawful, at most `maxAttempts` requests are sent,
   * nothing is sent once a gate or policy refuses, and an answer is restored with the map of the very
   * attempt that served it.
   */
  method Handle(job: Job, router: Execution.Router, env: nat -> Surroundings, digest: string -> string)
    returns (r: Response, sent: seq<Sent>, visits: seq<Execution.Visit>)
    requires job.gates.guard.Some? ==> DetectorsAreSound(env, job.gates.guard.value)
    modifies router
    ensures r == Failed(Forbidden) <==> !Permitted(job)
    ensures r == Failed(Denied) <==> Permitted(job) && !Admitted(job)
    ensures r.Failed? && r.failure.Unroutable? <==> Permitted(job) && Admitted(job) && !AnyServable(job)
    ensures r.Failed? && r.failure.Unroutable? ==> Explains(job.cat, Placed(job), r.failure.reason)
    ensures Permitted(job) && Admitted(job) && AnyServable(job) ==>
              WalkedOut(job, env, router.config, old(router.breakers), router.maxAttempts, visits, router.breakers,
                        sent, r)
    ensures !(Permitted(job) && Admitted(job) && AnyServable(job)) ==>
              sent == [] && router.breakers == old(router.breakers)
    ensures forall s :: s in sent ==> job.gates.guard.Some? && Lawful(job, job.gates.guard.value, env, s)
    ensures |sent| <= router.maxAttempts
    ensures r.Response? ==>
      && sent != [] && job.gates.guard.Some?
      && RestoredByServer(job, job.gates.guard.value, env, sent[|sent| - 1], r)
  {
    hide Promoted, Ranked, Execution.Walk, Execution.VerdictOf, SentBy, OriginalsBy, Detected, Protected, Sane, SlotsOf,
         DetectorsAreSound, PolicyRefuses, Restore, Lawful, Decide, Placed, Servable, AnyServable, AnyNamedEligible,
         Explains, CallAnswered, RestoredByServer, Stamped, Execution.Replay, Execution.Trace;
    sent, visits := [], [];
    if !job.gates.permitted {
      return Failed(Forbidden), sent, visits;
    }
    var session := new Session(job.p, job.q.body);
    RefusedIsNotAllowed(job.policy, Asked(job));
    var ok := session.ApplyPolicy(job.policy, job.q, job.region);
    if !ok {
      return Failed(Forbidden), sent, visits;
    }
    if !job.gates.withinBudget || !job.gates.withinLimit || job.gates.guard.None? {
      return Failed(Denied), sent, visits;
    }
    session.body := job.gates.guard.value;
    PlacedIs(job);
    SomebodyServes(job);
    var request := RequestOf(job.cat, session.principal, job.q, job.region);
    var selected := Selection.Select(job.cat, request, job.w, job.draw);
    if selected.Refused? {
      return Failed(Unroutable(selected.reason)), sent, visits;
    }
    var cs := selected.candidates;
    ghost var plan := PlanOf(job, env);
    ghost var m := router.breakers;
    SoundIsSane(plan);
    var verdict;
    verdict, visits := session.Adapt(router, cs, env, digest);
    sent := session.sent;
    WalkFits(router.config, m, cs, SlotsOf(plan), router.maxAttempts, visits);
    SentIsLawful(job, env, visits);
    Execution.AnswerIsSuccess(router.config, m, cs, SlotsOf(plan), router.maxAttempts, visits);
    AnsweredIsServed(plan, visits);
    match verdict
    case Failure(why) =>
      r := Failed(Unserved(why));
    case Success(server, reply) =>
      r := Response(server, Restore(reply, session.originals));
      AnswerIsRestored(job, env, router.config, m, router.maxAttempts, visits, r);
  }

  lemma PlacedIs(job: Job)
    ensures Placed(job) == RequestOf(job.cat, Stamped(job.p, Decided(job)), job.q, job.region)
  {
  }

  lemma AnswerIsRestored(
    job: Job, env: nat -> Surroundings, c: Config, m: Execution.Table, max: nat, visits: seq<Execution.Visit>,
    r: Response)
    requires job.gates.guard.Some? && Sane(PlanOf(job, env)) && r.Response?
    requires var plan := PlanOf(job, env);
             && Execution.Walk(c, m, plan.cs, SlotsOf(plan), max, visits) && |visits| <= |plan.cs|
             && var v := Execution.VerdictOf(plan.cs, SlotsOf(plan), visits);
                v.Success? && r == Response(v.server, Restore(v.reply, OriginalsBy(plan, visits)))
    ensures var sent := SentBy(PlanOf(job, env), visits);
            sent != [] && RestoredByServer(job, job.gates.guard.value, env, sent[|sent| - 1], r)
  {
    hide Promoted, Ranked, Execution.Walk, Execution.VerdictOf, SentBy, OriginalsBy, Detected, Protected, SlotsOf,
         Restore, Decide, Stamped;
    ServerWroteTheMap(PlanOf(job, env), c, m, max, visits);
  }

  lemma SentIsLawful(job: Job, env: nat -> Surroundings, visits: seq<Execution.Visit>)
    requires !PolicyRefuses(job.policy, Asked(job)) && job.gates.guard.Some?
    requires Sane(PlanOf(job, env)) && |visits| <= |PlanOf(job, env).cs|
    ensures |SentBy(PlanOf(job, env), visits)| <= |visits|
    ensures forall s :: s in SentBy(PlanOf(job, env), visits) ==> Lawful(job, job.gates.guard.value, env, s)
  {
    hide Promoted, Ranked, SentBy, Detected, Protected, Servable, PolicyRefuses, Decide, Stamped;
    var plan := PlanOf(job, env);
    SentIsProtected(plan, visits);
    forall s | s in SentBy(plan, visits) ensures Lawful(job, job.gates.guard.value, env, s) {
      var c := plan.cs[s.position];
      assert c in plan.cs;
      RoutedIsServable(job, c);
    }
  }

  /** Everything sent went to a serving deployment at or above all three floors. */
  lemma SentMeetsFloors(job: Job, body: string, env: nat -> Surroundings, s: Sent)
    requires Lawful(job, body, env, s)
    ensures s.deployment in job.cat.deployments && Serving(s.deployment)
    ensures MeetsFloors(job.cat, job.p, job.policy, Asked(job), s.deployment.tier)
  {
    hide Detected, Protected;
  }

  /** Nothing of a tenant nobody configured leaves the trust boundary, and inside it is left as it is. */
  lemma StrangersStayInside(job: Job, body: string, env: nat -> Surroundings, s: Sent)
    requires Lawful(job, body, env, s) && job.p.tenant !in job.cat.tenants
    ensures s.deployment.tier >= TRUST_INTERNAL && s.body == body
  {
    hide Detected, Protected, Decide, Stamped;
    UnknownTenantIsStrict(job.cat, job.p.tenant);
    InsideSeesThePayload(job, body, env, s);
  }

  /**
   * End to end: if the serving destination sends back what it was sent, the caller gets the guarded
   * payload unchanged, after any number of failovers across tiers.
   */
  lemma EchoedResponseIsThePayload(job: Job, body: string, env: nat -> Surroundings, s: Sent, r: Response)
    requires DetectorsAreSound(env, body) && r.Response?
    requires Lawful(job, body, env, s) && RestoredByServer(job, body, env, s, r)
    requires env(s.position).answer == Answered(s.body)
    requires var d := Decided(job);
             var found := Detected(env(s.position), d.deep);
             && StrategyFor(Stamped(job.p, d).dataClass, r.server.tier) != Redact
             && (forall i :: 0 <= i < |found| ==> IsName(found[i].kind))
             && GapsAreFree(body, found, Tokenised(body, found).1)
    ensures r.body == body
  {
    hide Detected, Tokenised, GapsAreFree, Protected, Servable, Restore, Decide, StrategyFor;
    var d := Decided(job);
    EchoComesBack(Stamped(job.p, d), d.deep, body, r.server.tier, env(s.position));
  }

  // ---- what a destination sees ----

  predicate IsClassified(dataClass: string) {
    dataClass == "restricted" || dataClass == "confidential" || dataClass == "internal"
  }

  /** The class the first matching rule stamps if it stamps one, else the key's own, is a classified one. */
  predicate Classified(p: Principal, policy: PolicyState, input: Input) {
    var i := if policy.Compiled? then FirstMatch(policy.bundle.rules, input) else 0;
    if policy.Compiled? && i < |policy.bundle.rules| && policy.bundle.rules[i].dataClass != ""
    then IsClassified(policy.bundle.rules[i].dataClass)
    else IsClassified(p.dataClass)
  }

  lemma ClassifiedIsTransformed(p: Principal, policy: PolicyState, input: Input, tier: nat)
    requires Decide(policy, input).allowed && tier < TRUST_INTERNAL
    ensures Classified(p, policy, input) <==>
            StrategyFor(Stamped(p, Decide(policy, input)).dataClass, tier) in {Redact, Tokenize}
  {
    hide FirstMatch;
  }

  lemma ProtectionHidesValues(
    p: Principal, deep: bool, tier: nat, body: string, s: Surroundings, body': string, s': Surroundings)
    requires Replaceable(Detected(s, deep), |body|) && Replaceable(Detected(s', deep), |body'|)
    requires SameKinds(Detected(s, deep), Detected(s', deep))
    requires SameGaps(body, Detected(s, deep), body', Detected(s', deep))
    requires StrategyFor(p.dataClass, tier) in {Redact, Tokenize}
    requires Protected(p, deep, body, tier, s).Ready? && Protected(p, deep, body', tier, s').Ready?
    ensures Protected(p, deep, body, tier, s).body == Protected(p, deep, body', tier, s').body
  {
    hide Detected, Tokens, Spliced, Originals, SplicedAll, StrategyFor, SameKinds;
    var f, f' := Detected(s, deep), Detected(s', deep);
    ValuesDoNotShow(body, f, body', f', StrategyFor(p.dataClass, tier), x => x, x => x);
    DigestIsUnused(f, StrategyFor(p.dataClass, tier), x => x, x => x);
    if f == [] {
      assert Gap(body, f, 0) == body && Gap(body', f', 0) == body';
    }
  }

  /**
   * Classified data that leaves the trust boundary: requests that differ only in the detected values
   * are sent to a destination as the same body.
   */
  lemma ClassifiedValuesStayInside(
    job: Job, body: string, env: nat -> Surroundings, s: Sent, body': string, env': nat -> Surroundings, s': Sent)
    requires Lawful(job, body, env, s) && Lawful(job, body', env', s')
    requires s.deployment == s'.deployment && s.deployment.tier < TRUST_INTERNAL
    requires Classified(job.p, job.policy, Asked(job))
    requires var deep := Decided(job).deep;
             var f, f' := Detected(env(s.position), deep), Detected(env'(s'.position), deep);
             SameKinds(f, f') && SameGaps(body, f, body', f')
    ensures s.body == s'.body
  {
    hide Detected, Protected, Servable, Decide, SameKinds, SameGaps, StrategyFor, Classified, PolicyRefuses, Asked;
    var d := Decided(job);
    RefusedIsNotAllowed(job.policy, Asked(job));
    ClassifiedIsTransformed(job.p, job.policy, Asked(job), s.deployment.tier);
    ProtectionHidesValues(Stamped(job.p, d), d.deep, s.deployment.tier,
                          body, env(s.position), body', env'(s'.position));
  }

  /** A destination inside the trust boundary, and any for unclassified data, sees the payload as it is. */
  lemma InsideSeesThePayload(job: Job, body: string, env: nat -> Surroundings, s: Sent)
    requires Lawful(job, body, env, s)
    requires s.deployment.tier >= TRUST_INTERNAL || !Classified(job.p, job.policy, Asked(job))
    ensures s.body == body
  {
    hide Detected, Servable, Decide, SplicedAll, Tokens, Tokenised, Classified, PolicyRefuses;
    RefusedIsNotAllowed(job.policy, Asked(job));
    if s.deployment.tier < TRUST_INTERNAL {
      ClassifiedIsTransformed(job.p, job.policy, Asked(job), s.deployment.tier);
    }
  }

  /** The class a request travels under: the first matching rule's if it stamps one, else the key's own. */
  function ClassOf(p: Principal, policy: PolicyState, input: Input): string {
    var i := if policy.Compiled? then FirstMatch(policy.bundle.rules, input) else 0;
    if policy.Compiled? && i < |policy.bundle.rules| && policy.bundle.rules[i].dataClass != ""
    then policy.bundle.rules[i].dataClass else p.dataClass
  }

  /**
   * Outside the trust boundary restricted and confidential data are tokenised, so that they can come
   * back, and internal data are redacted for good.
   */
  lemma SensitiveIsTokenised(job: Job, body: string, env: nat -> Surroundings, s: Sent)
    requires Lawful(job, body, env, s) && s.deployment.tier < TRUST_INTERNAL
    requires Detected(env(s.position), Decided(job).deep) != []
    ensures var found := Detected(env(s.position), Decided(job).deep);
            var prot := Protected(Stamped(job.p, Decided(job)), Decided(job).deep, body, s.deployment.tier,
                                  env(s.position));
            var dataClass := ClassOf(job.p, job.policy, Asked(job));
            && (dataClass in {"restricted", "confidential"} ==>
                  s.body == Tokenised(body, found).0 && prot.originals == Tokenised(body, found).1)
            && (dataClass == "internal" ==>
                  s.body == SplicedAll(body, found, Tokens(found, Redact, x => x)) && prot.originals == map[])
  {
    hide Detected, Servable, SplicedAll, Tokens, Tokenised, FirstMatch;
    RefusedIsNotAllowed(job.policy, Asked(job));
  }

  /**
   * A body is withheld exactly when it would be tokenised and either deep inspection was asked for and
   * did not run, or something was found and the vault would not take it.
   */
  lemma WithheldExactly(p: Principal, deep: bool, body: string, tier: nat, s: Surroundings)
    requires Replaceable(Detected(s, deep), |body|)
    ensures Protected(p, deep, body, tier, s).Withheld? <==>
            && tier < TRUST_INTERNAL && p.dataClass in {"restricted", "confidential"}
            && ((deep && !s.ner.Found?) || (Detected(s, deep) != [] && s.vault.Some?))
    ensures Protected(p, deep, body, tier, s).Withheld? && deep && !s.ner.Found? ==>
              !Protected(p, deep, body, tier, s).failure.retryable
    ensures Protected(p, deep, body, tier, s).Withheld? && !(deep && !s.ner.Found?) ==>
              s.vault == Some(Protected(p, deep, body, tier, s).failure)
    ensures Detected(s, deep) == [] && Protected(p, deep, body, tier, s).Ready? ==>
              Protected(p, deep, body, tier, s) == Ready(body, map[])
  {
    hide Detected, SplicedAll, Tokens, Tokenised;
  }

  /**
   * The walk of a request goes by its surroundings: a position is called exactly if its breaker admits
   * it at that moment, the wait was not cancelled and the provider is there, and none without budget.
   */
  lemma CallsGoByTheSurroundings(
    plan: Plan, c: Config, m: Execution.Table, max: nat, visits: seq<Execution.Visit>, k: nat)
    requires Sane(plan) && Execution.Walk(c, m, plan.cs, SlotsOf(plan), max, visits) && k < |visits| <= |plan.cs|
    ensures var s := plan.env(k);
            var t := Execution.Replay(c, m, Execution.Trace(plan.cs, SlotsOf(plan), visits[..k]) + s.before);
            && s.remaining >= Execution.MIN_ATTEMPT_BUDGET
            && (visits[k] == Execution.Called <==>
                  && Admits(c, Execution.BreakerFor(t, plan.cs[k].deployment.id), s.allowAt)
                  && (k == 0 || s.waitOk) && s.known)
  {
    hide Sane, ProtectionAt, Execution.Walk, Execution.Replay, Execution.Trace, Execution.BreakerFor, Admits;
    Execution.VisitsAreExplained(c, m, plan.cs, SlotsOf(plan), max, visits, k);
  }

  /** A call fails with the credential's error first, then the protection's, then the provider's own. */
  lemma CallFailsWith(s: Surroundings, prot: Protection, f: CallFailure)
    requires s.credential == Some(f)
          || (s.credential.None? && prot == Withheld(f))
          || (s.credential.None? && prot.Ready? && s.answer == NotAnswered(f))
    ensures CallOutcome(s, prot) == if f.retryable then Execution.Retryable(f) else Execution.Rejected(f)
  {
  }

  /** Where both detectors report on one start, what is replaced is what the deterministic one found. */
  lemma DeterministicDetectorLeads(s: Surroundings, deep: bool, i: nat, m: Match)
    requires MergeOrder.NonEmpty(Reported(s, deep)) && i < |s.spans|
    requires m in Detected(s, deep) && s.spans[i].start == m.start
    ensures m in s.spans
  {
    hide Kept, SortedByStart;
    MergeOrder.FirstDetectorLeads(s.spans, Reported(s, deep)[|s.spans|..], i, m);
  }

  // ---- what policy and routing are told ----

  const BLANK := Rule("", Deny, [], [], [], [], [], 0, "", 0, false, "")

  /** Policy sees the request itself: a rule that names one thing refuses exactly the requests with that thing. */
  lemma PolicySeesTheRequest(p: Principal, q: Query, region: string, x: string, n: nat, net: set<string>)
    requires n > 0
    ensures var refuses := (rule: Rule) => PolicyRefuses(Compiled(Bundle([rule], Effect.Allow)), InputOf(p, q, region));
            && (refuses(BLANK.(models := [x])) <==> q.model == x)
            && (refuses(BLANK.(endpoints := [x])) <==> q.endpoint == x)
            && (refuses(BLANK.(regions := [x])) <==> region == x)
            && (refuses(BLANK.(roles := [x])) <==> x in p.roles)
            && (refuses(BLANK.(maxPayload := n)) <==> q.payloadBytes <= n)
            && (refuses(BLANK.(nets := [net])) <==> q.source.Some? && q.source.value in net)
  {
    hide FirstMatch;
    OnlyRule(BLANK.(models := [x]), InputOf(p, q, region));
    OnlyRule(BLANK.(endpoints := [x]), InputOf(p, q, region));
    OnlyRule(BLANK.(regions := [x]), InputOf(p, q, region));
    OnlyRule(BLANK.(roles := [x]), InputOf(p, q, region));
    OnlyRule(BLANK.(maxPayload := n), InputOf(p, q, region));
    OnlyRule(BLANK.(nets := [net]), InputOf(p, q, region));
  }

  lemma OnlyRule(rule: Rule, input: Input)
    requires rule.effect == Deny
    ensures PolicyRefuses(Compiled(Bundle([rule], Effect.Allow)), input) <==> Matches(rule, input)
  {
    hide Matches;
  }

  /** Without policy nothing is refused and nothing stamped; one that cannot be read refuses everything. */
  lemma MissingPolicy(p: Principal, input: Input)
    ensures Stamped(p, Decide(NoPolicy, input)) == p && Decide(NoPolicy, input).allowed && !Decide(NoPolicy, input).deep
    ensures !Decide(Undecodable, input).allowed
  {
  }

  /** The router weighs price and place for this gateway's region and a quarter of the payload in tokens. */
  lemma PlacedForThisRegion(job: Job)
    ensures Placed(job).region == job.region && Placed(job).objective == Balanced
    ensures job.q.payloadBytes >= 0 ==> 0 <= job.q.payloadBytes - 4 * Placed(job).tokens < 4
    ensures job.q.payloadBytes < 0 ==> 0 <= 4 * Placed(job).tokens - job.q.payloadBytes < 4
  {
    hide Decide, Stamped;
  }

  // ---- the streaming path ----

  lemma {:induction false} LongerNumbersAreWider(m: nat, n: nat)
    requires m <= n
    ensures |Digits(m)| <= |Digits(n)|
  {
    if n >= 10 && m >= 10 {
      LongerNumbersAreWider(m / 10, n / 10);
    }
  }

  lemma {:induction false} CountIsBounded(s: seq<Match>, kind: string)
    ensures CountKind(s, kind) <= |s|
  {
    if s != [] {
      CountIsBounded(s[..|s| - 1], kind);
    }
  }

  lemma {:induction false} KeysAreTokens(s: seq<Match>, tokens: seq<string>, k: nat)
    requires k <= |s| == |tokens|
    ensures forall p :: p in Originals(s, tokens, k) ==> p in tokens
  {
    if k > 0 {
      KeysAreTokens(s, tokens, k - 1);
    }
  }

  lemma TokenFits(s: seq<Match>, i: nat, digest: string -> string)
    requires i < |s| && |s[i].kind| + |Digits(|s|)| <= 60
    ensures |Tokens(s, Tokenize, digest)[i]| <= 65
  {
    hide CountKind, Digits;
    CountIsBounded(s[..i + 1], s[i].kind);
    LongerNumbersAreWider(CountKind(s[..i + 1], s[i].kind), |s|);
  }

  /** Kinds short enough to leave room for the numbering keep every issued placeholder within the hold-back. */
  lemma IssuedFit(body: string, found: seq<Match>)
    requires Replaceable(found, |body|)
    requires forall i :: 0 <= i < |found| ==> |found[i].kind| + |Digits(|found|)| <= 60
    ensures Restorer.Fits(Tokenised(body, found).1)
  {
    hide Tokens, Originals, Spliced, Digits;
    var tokens := Tokens(found, Tokenize, x => x);
    KeysAreTokens(found, tokens, |found|);
    forall i | 0 <= i < |tokens| ensures |tokens[i]| <= 65 {
      TokenFits(found, i, x => x);
    }
    assert forall p :: p in Tokenised(body, found).1 ==> p in tokens;
  }

  /** A tokenised payload echoed as a stream comes back unchanged, however the stream is cut. */
  lemma StreamedEchoIsThePayload(body: string, found: seq<Match>, chunks: seq<string>)
    requires Replaceable(found, |body|) && Faithful(body, found)
    requires forall i :: 0 <= i < |found| ==>
               IsName(found[i].kind) && |found[i].kind| + |Digits(|found|)| <= 60
    requires GapsAreFree(body, found, Tokenised(body, found).1)
    requires Restorer.Concat(chunks) == Tokenised(body, found).0
    ensures Restorer.Streamed(Restorer.State([], 0), chunks, Tokenised(body, found).1) == body
  {
    hide Tokenised, GapsAreFree, Restore, Restorer.Fits, Restorer.Streamed, Digits;
    IssuedFit(body, found);
    Restorer.StreamingEqualsRestore(chunks, Tokenised(body, found).1);
    RoundTrip(body, found);
  }
}
