/**
 * Selection: which deployments may serve a request, in which order.
 *
 * The whole list is filtered before anything is ordered, ordered by a score that
 * only adjusts health within a band, and its head is then drawn by weight.
 * Scores, weights and the draw are reals.
 */
module Routing {
  import opened StableSort
  import opened Sums

  datatype RoutingKey = RoutingKey(baseModel: string, adapter: string)

  /** Prices per thousand tokens. */
  datatype Cost = Cost(inputPer1K: nat, outputPer1K: nat)

  datatype Deployment = Deployment(
    id: string, key: RoutingKey, provider: string, region: string, tier: nat, weight: nat, cost: Cost,
    capabilities: set<string>)

  predicate Serving(d: Deployment) {
    d.weight > 0
  }

  datatype TenantLayer = TenantLayer(aliases: map<string, seq<RoutingKey>>, minTier: nat)

  datatype Catalog = Catalog(
    deployments: seq<Deployment>, aliases: map<string, seq<RoutingKey>>, tenants: map<string, TenantLayer>)

  const TRUST_INTERNAL: nat := 3

  function MinTrustTier(cat: Catalog, tenant: string): nat {
    if tenant in cat.tenants then cat.tenants[tenant].minTier else TRUST_INTERNAL
  }

  /** The tenant's alias, else the global one, else the name as a base model. */
  function ResolveAlias(cat: Catalog, tenant: string, name: string): seq<RoutingKey> {
    if tenant in cat.tenants && name in cat.tenants[tenant].aliases then cat.tenants[tenant].aliases[name]
    else if name in cat.aliases then cat.aliases[name]
    else [RoutingKey(name, "")]
  }

  /** The deployments of one key, in catalog order. */
  function DeploymentsOf(all: seq<Deployment>, key: RoutingKey): (r: seq<Deployment>)
    ensures forall d :: d in r ==> d in all && d.key == key
  {
    if all == [] then []
    else DeploymentsOf(all[..|all| - 1], key) + if all[|all| - 1].key == key then [all[|all| - 1]] else []
  }

  function Reachable(cat: Catalog, targets: seq<RoutingKey>): (r: seq<Deployment>)
    ensures forall d :: d in r ==> d in cat.deployments && d.key in targets
  {
    if targets == [] then []
    else Reachable(cat, targets[..|targets| - 1]) + DeploymentsOf(cat.deployments, targets[|targets| - 1])
  }

  /** A tenant's own alias wins over a global one of the same name, which wins over the base model. */
  lemma AliasPrecedence(cat: Catalog, tenant: string, name: string)
    ensures tenant in cat.tenants && name in cat.tenants[tenant].aliases ==>
              ResolveAlias(cat, tenant, name) == cat.tenants[tenant].aliases[name]
    ensures (tenant in cat.tenants ==> name !in cat.tenants[tenant].aliases) && name in cat.aliases ==>
              ResolveAlias(cat, tenant, name) == cat.aliases[name]
    ensures (tenant in cat.tenants ==> name !in cat.tenants[tenant].aliases) && name !in cat.aliases ==>
              ResolveAlias(cat, tenant, name) == [RoutingKey(name, "")]
  {
  }

  /** `r` is the list of those of `all` with the key, at the increasing positions `at`. */
  ghost predicate Picks(all: seq<Deployment>, key: RoutingKey, r: seq<Deployment>, at: seq<nat>) {
    && |at| == |r|
    && (forall i, j :: 0 <= i < j < |at| ==> at[i] < at[j])
    && (forall i :: 0 <= i < |at| ==> at[i] < |all| && r[i] == all[at[i]])
    && (forall i :: 0 <= i < |all| && all[i].key == key ==> i in at)
  }

  /** The deployments of a key are all of them, and they keep catalog order. */
  lemma {:induction false} KeepsCatalogOrder(all: seq<Deployment>, key: RoutingKey) returns (at: seq<nat>)
    ensures Picks(all, key, DeploymentsOf(all, key), at)
  {
    hide DeploymentsOf, Picks;
    DeploymentsStep(all, key);
    if all == [] {
      at := [];
      NothingPicked(key);
    } else {
      var front, d := all[..|all| - 1], all[|all| - 1];
      at := KeepsCatalogOrder(front, key);
      assert all == front + [d];
      if d.key == key {
        PicksOne(front, key, DeploymentsOf(front, key), at, d);
        at := at + [|front|];
      } else {
        PicksNone(front, key, DeploymentsOf(front, key), at, d);
      }
    }
  }

  lemma NothingPicked(key: RoutingKey)
    ensures Picks([], key, [], [])
  {
  }

  lemma PicksOne(all: seq<Deployment>, key: RoutingKey, r: seq<Deployment>, at: seq<nat>, d: Deployment)
    requires Picks(all, key, r, at)
    ensures Picks(all + [d], key, r + [d], at + [|all|])
  {
    var more := at + [|all|];
    assert more[|at|] == |all|;
    forall i | 0 <= i < |all + [d]| && (all + [d])[i].key == key ensures i in more {
      assert i < |all| ==> all[i].key == key && i in at;
    }
  }

  lemma PicksNone(all: seq<Deployment>, key: RoutingKey, r: seq<Deployment>, at: seq<nat>, d: Deployment)
    requires Picks(all, key, r, at) && d.key != key
    ensures Picks(all + [d], key, r, at)
  {
  }

  lemma DeploymentsStep(all: seq<Deployment>, key: RoutingKey)
    ensures all == [] ==> DeploymentsOf(all, key) == []
    ensures all != [] ==>
      var front, d := all[..|all| - 1], all[|all| - 1];
      DeploymentsOf(all, key) == if d.key == key then DeploymentsOf(front, key) + [d] else DeploymentsOf(front, key)
  {
  }

  /** How often `x` stands in `s`. */
  function Times<T(==)>(s: seq<T>, x: T): nat {
    multiset(s)[x]
  }

  lemma TimesStep<T>(s: seq<T>, x: T)
    requires s != []
    ensures Times(s, x) == Times(s[..|s| - 1], x) + if s[|s| - 1] == x then 1 else 0
  {
    assert s == s[..|s| - 1] + [s[|s| - 1]];
  }

  lemma TimesAppend<T>(s: seq<T>, t: seq<T>, x: T)
    ensures Times(s + t, x) == Times(s, x) + Times(t, x)
  {
  }

  lemma {:induction false} TimesOfKey(all: seq<Deployment>, key: RoutingKey, d: Deployment)
    ensures Times(DeploymentsOf(all, key), d) == if d.key == key then Times(all, d) else 0
  {
    hide Times;
    if all == [] {
      NoTimes(d);
    } else {
      var front, last := all[..|all| - 1], all[|all| - 1];
      TimesOfKey(front, key, d);
      TimesStep(all, d);
      TimesAppend(DeploymentsOf(front, key), if last.key == key then [last] else [], d);
      TimesOfOne(last, d);
      NoTimes(d);
    }
  }

  lemma NoTimes<T>(x: T)
    ensures Times([], x) == 0
  {
  }

  lemma TimesOfOne<T>(y: T, x: T)
    ensures Times([y], x) == if y == x then 1 else 0
  {
  }

  /** A deployment is reached once for each of its entries in the catalog and each target naming its key. */
  lemma {:induction false} TimesReachable(cat: Catalog, targets: seq<RoutingKey>, d: Deployment)
    ensures Times(Reachable(cat, targets), d) == Times(cat.deployments, d) * Times(targets, d.key)
  {
    hide Times, DeploymentsOf;
    if targets == [] {
      NoTimes(d);
      NoTimes(d.key);
    } else {
      var front, last := targets[..|targets| - 1], targets[|targets| - 1];
      TimesReachable(cat, front, d);
      TimesStep(targets, d.key);
      TimesAppend(Reachable(cat, front), DeploymentsOf(cat.deployments, last), d);
      TimesOfKey(cat.deployments, last, d);
      OneMoreTime(Times(cat.deployments, d), Times(front, d.key));
    }
  }

  lemma OneMoreTime(a: nat, b: nat)
    ensures a * (b + 1) == a * b + a
  {
  }

  datatype Objective = Balanced | Latency | Cheapness

  datatype Request = Request(
    tenant: string, model: string, endpoint: string, minTier: nat, required: set<string>, objective: Objective,
    region: string, tokens: int)

  /** What selection asks of the worker: which endpoints a provider speaks, and every deployment's health. */
  datatype World = World(endpoints: map<string, set<string>>, health: string -> real)

  predicate Eligible(d: Deployment, q: Request, w: World) {
    && Serving(d)
    && d.tier >= q.minTier
    && q.required <= d.capabilities
    && d.provider in w.endpoints && q.endpoint in w.endpoints[d.provider]
  }

  /** Who may serve: nobody without weight, below the floor, short of a capability, or without the endpoint. */
  lemma EligibleExactly(d: Deployment, q: Request, w: World)
    ensures !Eligible(d, q, w) <==>
            || d.weight == 0
            || d.tier < q.minTier
            || (exists c :: c in q.required && c !in d.capabilities)
            || d.provider !in w.endpoints
            || q.endpoint !in w.endpoints[d.provider]
  {
  }

  /** A tenant nobody configured gets the strictest floor. */
  lemma UnknownTenantIsStrict(cat: Catalog, tenant: string)
    ensures tenant in cat.tenants ==> MinTrustTier(cat, tenant) == cat.tenants[tenant].minTier
    ensures tenant !in cat.tenants ==> MinTrustTier(cat, tenant) == TRUST_INTERNAL
  {
  }

  datatype Candidate = Candidate(deployment: Deployment, score: real, health: real)

  function CandidatesOf(ds: seq<Deployment>, q: Request, w: World): (r: seq<Candidate>)
    ensures forall c :: c in r ==>
              c.deployment in ds && Eligible(c.deployment, q, w) && c.health == w.health(c.deployment.id)
  {
    if ds == [] then []
    else
      var d := ds[|ds| - 1];
      CandidatesOf(ds[..|ds| - 1], q, w)
      + if Eligible(d, q, w) then [Candidate(d, w.health(d.id), w.health(d.id))] else []
  }

  /** How many candidates of a list are deployment `d`. */
  function Offers(cs: seq<Candidate>, d: Deployment): int {
    Sum(cs, (c: Candidate) => if c.deployment == d then 1 else 0)
  }

  lemma OffersAppend(cs: seq<Candidate>, ds: seq<Candidate>, d: Deployment)
    ensures Offers(cs + ds, d) == Offers(cs, d) + Offers(ds, d)
  {
    SumAppend(cs, ds, (c: Candidate) => if c.deployment == d then 1 else 0);
  }

  lemma OffersOfFew(c: Candidate, d: Deployment)
    ensures Offers([], d) == 0 && Offers([c], d) == if c.deployment == d then 1 else 0
  {
    SumOne(c, (c: Candidate) => if c.deployment == d then 1 else 0);
  }

  /** Reordering a list changes nobody's offers. */
  lemma OffersReorder(cs: seq<Candidate>, ds: seq<Candidate>, d: Deployment)
    requires multiset(cs) == multiset(ds)
    ensures Offers(cs, d) == Offers(ds, d)
  {
    SumOfPermutation(cs, ds, (c: Candidate) => if c.deployment == d then 1 else 0);
  }

  /** Neither does scoring it. */
  lemma {:induction false} OffersFollowDeployments(cs: seq<Candidate>, ds: seq<Candidate>, d: Deployment)
    requires |cs| == |ds| && forall i :: 0 <= i < |cs| ==> cs[i].deployment == ds[i].deployment
    ensures Offers(cs, d) == Offers(ds, d)
  {
    if cs != [] {
      OffersFollowDeployments(cs[..|cs| - 1], ds[..|ds| - 1], d);
    }
  }

  /** Candidates are the eligible deployments, as often as they are listed, and nobody else. */
  lemma {:induction false} OffersOfCandidates(ds: seq<Deployment>, q: Request, w: World, d: Deployment)
    ensures Offers(CandidatesOf(ds, q, w), d) == if Eligible(d, q, w) then Times(ds, d) else 0
  {
    hide Times, Eligible, Offers;
    if ds == [] {
      NoTimes(d);
      OffersOfFew(Candidate(d, 0.0, 0.0), d);
    } else {
      var front, last := ds[..|ds| - 1], ds[|ds| - 1];
      var c := Candidate(last, w.health(last.id), w.health(last.id));
      OffersOfCandidates(front, q, w, d);
      TimesStep(ds, d);
      OffersOfFew(c, d);
      OffersAppend(CandidatesOf(front, q, w), if Eligible(last, q, w) then [c] else [], d);
    }
  }

  // ---- scoring ----

  /** The price of the reference request: `tokens` in, a quarter of that out. */
  function PriceOf(cost: Cost, tokens: int): nat {
    var t: nat := if tokens <= 0 then 1000 else tokens;
    (t * cost.inputPer1K + (t / 4) * cost.outputPer1K) / 1000
  }

  /** The cheapest and the dearest of a list. */
  method PriceRange(cs: seq<Candidate>, tokens: int) returns (cheapest: int, dearest: int)
    requires cs != []
    ensures (cheapest, dearest) == Range(cs, tokens)
  {
    hide Range, PriceOf;
    cheapest, dearest := 0, 0;
    for i := 0 to |cs|
      invariant i > 0 ==> (cheapest, dearest) == Range(cs[..i], tokens)
    {
      var price := PriceOf(cs[i].deployment.cost, tokens);
      RangeStep(cs, tokens, i);
      if i == 0 || price < cheapest {
        cheapest := price;
      }
      if i == 0 || price > dearest {
        dearest := price;
      }
    }
    assert cs[..|cs|] == cs;
  }

  lemma RangeStep(cs: seq<Candidate>, tokens: int, i: nat)
    requires i < |cs|
    ensures var price := PriceOf(cs[i].deployment.cost, tokens);
            Range(cs[..i + 1], tokens)
            == if i == 0 then (price, price)
               else var (lo, hi) := Range(cs[..i], tokens);
                    (if price < lo then price else lo, if price > hi then price else hi)
  {
    hide PriceOf;
    assert cs[..i + 1][..i] == cs[..i];
  }

  function Range(cs: seq<Candidate>, tokens: int): (r: (int, int))
    requires cs != []
    ensures forall i :: 0 <= i < |cs| ==> r.0 <= PriceOf(cs[i].deployment.cost, tokens) <= r.1
    ensures exists i :: 0 <= i < |cs| && PriceOf(cs[i].deployment.cost, tokens) == r.0
    ensures exists i :: 0 <= i < |cs| && PriceOf(cs[i].deployment.cost, tokens) == r.1
  {
    var price := PriceOf(cs[|cs| - 1].deployment.cost, tokens);
    if |cs| == 1 then (price, price)
    else
      var front := cs[..|cs| - 1];
      var (lo, hi) := Range(front, tokens);
      assert forall i :: 0 <= i < |front| ==> cs[i] == front[i];
      (if price < lo then price else lo, if price > hi then price else hi)
  }

  function CostWeight(o: Objective): real {
    match o case Cheapness => 0.30 case Latency => 0.0 case Balanced => 0.15
  }

  function LocalityWeight(o: Objective): real {
    match o case Cheapness => 0.05 case Latency => 0.20 case Balanced => 0.10
  }

  /** 1 for the cheapest, 0 for the dearest, 1 when they all cost the same. */
  function PriceScore(price: int, lo: int, hi: int): real {
    if hi > lo then 1.0 - (price - lo) as real / (hi - lo) as real else 1.0
  }

  function LocalityScore(d: Deployment, region: string): real {
    if region == "" || d.region == region then 1.0 else 0.0
  }

  function ScoreOf(c: Candidate, range: (int, int), q: Request): real {
    c.health * (1.0
                + CostWeight(q.objective) * PriceScore(PriceOf(c.deployment.cost, q.tokens), range.0, range.1)
                + LocalityWeight(q.objective) * LocalityScore(c.deployment, q.region))
  }

  function Scored(cs: seq<Candidate>, q: Request): (r: seq<Candidate>)
    ensures |r| == |cs|
    ensures forall i :: 0 <= i < |cs| ==> r[i].deployment == cs[i].deployment && r[i].health == cs[i].health
  {
    seq(|cs|, i requires 0 <= i < |cs| => cs[i].(score := ScoreOf(cs[i], Range(cs, q.tokens), q)))
  }

  lemma PriceScoreIsAShare(price: int, lo: int, hi: int)
    requires lo <= price <= hi
    ensures 0.0 <= PriceScore(price, lo, hi) <= 1.0
  {
    if hi > lo {
      var part, whole := (price - lo) as real, (hi - lo) as real;
      assert 0.0 <= part <= whole;
      assert 0.0 <= part / whole <= 1.0;
    }
  }

  lemma LocalityScoreIsAShare(d: Deployment, region: string)
    ensures 0.0 <= LocalityScore(d, region) <= 1.0
  {
  }

  lemma WeightsAreShares(o: Objective)
    ensures CostWeight(o) >= 0.0 && LocalityWeight(o) >= 0.0
  {
  }

  lemma ScaledBand(health: real, a: real, x: real, b: real, y: real)
    requires health >= 0.0 && 0.0 <= x <= 1.0 && 0.0 <= y <= 1.0 && a >= 0.0 && b >= 0.0
    ensures health <= health * (1.0 + a * x + b * y) <= health * (1.0 + a + b)
  {
    Share(a, x);
    Share(b, y);
    Band(health, a * x, a, b * y, b);
  }

  lemma Band(health: real, p: real, a: real, q: real, b: real)
    requires health >= 0.0 && 0.0 <= p <= a && 0.0 <= q <= b
    ensures health <= health * (1.0 + p + q) <= health * (1.0 + a + b)
  {
    Multiplied(health, 1.0, 1.0 + p + q);
    Multiplied(health, 1.0 + p + q, 1.0 + a + b);
  }

  lemma Multiplied(h: real, u: real, v: real)
    requires h >= 0.0 && u <= v
    ensures h * u <= h * v
  {
    assert h * (v - u) >= 0.0;
  }

  lemma Share(a: real, x: real)
    requires a >= 0.0 && 0.0 <= x <= 1.0
    ensures 0.0 <= a * x <= a
  {
    assert a * (1.0 - x) >= 0.0;
    assert a * (1.0 - x) == a - a * x;
  }

  lemma ScoreInBand(c: Candidate, range: (int, int), q: Request)
    requires c.health >= 0.0 && range.0 <= PriceOf(c.deployment.cost, q.tokens) <= range.1
    ensures c.health <= ScoreOf(c, range, q)
    ensures ScoreOf(c, range, q) <= c.health * (1.0 + CostWeight(q.objective) + LocalityWeight(q.objective))
  {
    hide PriceOf, PriceScore, LocalityScore, CostWeight, LocalityWeight;
    var price := PriceOf(c.deployment.cost, q.tokens);
    WeightsAreShares(q.objective);
    LocalityScoreIsAShare(c.deployment, q.region);
    PriceScoreIsAShare(price, range.0, range.1);
    ScaledBand(c.health, CostWeight(q.objective), PriceScore(price, range.0, range.1),
               LocalityWeight(q.objective), LocalityScore(c.deployment, q.region));
  }

  /** Price and locality move a candidate only within the band its health already put it in. */
  lemma ScoreStaysInBand(cs: seq<Candidate>, q: Request, i: nat)
    requires i < |cs| && cs[i].health >= 0.0
    ensures cs[i].health <= Scored(cs, q)[i].score
    ensures Scored(cs, q)[i].score <= cs[i].health * (1.0 + CostWeight(q.objective) + LocalityWeight(q.objective))
  {
    hide PriceOf, ScoreOf, CostWeight, LocalityWeight, Range;
    ScoreInBand(cs[i], Range(cs, q.tokens), q);
  }

  /** The cheapest candidate gets the whole price share and, if prices differ, the dearest none. */
  lemma CheapestAndDearest(cs: seq<Candidate>, tokens: int, i: nat)
    requires i < |cs|
    ensures var (lo, hi) := Range(cs, tokens);
            var price := PriceOf(cs[i].deployment.cost, tokens);
            && ((forall j :: 0 <= j < |cs| ==> price <= PriceOf(cs[j].deployment.cost, tokens)) ==>
                  PriceScore(price, lo, hi) == 1.0)
            && ((forall j :: 0 <= j < |cs| ==> PriceOf(cs[j].deployment.cost, tokens) <= price) && lo < hi ==>
                  PriceScore(price, lo, hi) == 0.0)
  {
    hide PriceOf, Range, PriceScore;
    var (lo, hi) := Range(cs, tokens);
    var l :| 0 <= l < |cs| && PriceOf(cs[l].deployment.cost, tokens) == lo;
    var h :| 0 <= h < |cs| && PriceOf(cs[h].deployment.cost, tokens) == hi;
    Ends(lo, hi);
  }

  lemma Ends(lo: int, hi: int)
    ensures PriceScore(lo, lo, hi) == 1.0
    ensures lo < hi ==> PriceScore(hi, lo, hi) == 0.0
  {
  }

  /** In between, equal steps in price cost equal steps of the share. */
  lemma EvenSteps(price: int, step: int, lo: int, hi: int)
    requires lo < hi
    ensures PriceScore(price, lo, hi) - PriceScore(price + step, lo, hi) == step as real / (hi - lo) as real
  {
    var a, b, w := (price - lo) as real, step as real, (hi - lo) as real;
    assert (a + b) / w == a / w + b / w;
  }

  lemma SharesFollowPrice(price: int, price': int, lo: int, hi: int)
    requires price <= price'
    ensures PriceScore(price', lo, hi) <= PriceScore(price, lo, hi)
  {
    if hi > lo {
      var whole := (hi - lo) as real;
      Quotients((price - lo) as real, (price' - lo) as real, whole);
    }
  }

  lemma Quotients(a: real, b: real, whole: real)
    requires a <= b && whole > 0.0
    ensures a / whole <= b / whole
  {
  }

  /** At equal health and place, the cheaper candidate never scores lower. */
  lemma CheaperNeverScoresLower(c: Candidate, c': Candidate, range: (int, int), q: Request)
    requires c.health == c'.health >= 0.0
    requires LocalityScore(c.deployment, q.region) == LocalityScore(c'.deployment, q.region)
    requires PriceOf(c.deployment.cost, q.tokens) <= PriceOf(c'.deployment.cost, q.tokens)
    ensures ScoreOf(c', range, q) <= ScoreOf(c, range, q)
  {
    hide PriceOf, PriceScore, LocalityScore, CostWeight, LocalityWeight;
    var price, price' := PriceOf(c.deployment.cost, q.tokens), PriceOf(c'.deployment.cost, q.tokens);
    SharesFollowPrice(price, price', range.0, range.1);
    WeightsAreShares(q.objective);
    var a, y := CostWeight(q.objective), LocalityWeight(q.objective) * LocalityScore(c.deployment, q.region);
    var x, x' := PriceScore(price, range.0, range.1), PriceScore(price', range.0, range.1);
    Multiplied(a, x', x);
    Multiplied(c.health, 1.0 + a * x' + y, 1.0 + a * x + y);
  }

  /** At equal health and price, a candidate in the gateway's region never scores lower. */
  lemma NearerNeverScoresLower(c: Candidate, c': Candidate, range: (int, int), q: Request)
    requires c.health == c'.health >= 0.0 && c.deployment.region == q.region
    requires PriceOf(c.deployment.cost, q.tokens) == PriceOf(c'.deployment.cost, q.tokens)
    ensures ScoreOf(c', range, q) <= ScoreOf(c, range, q)
  {
    hide PriceOf, PriceScore, CostWeight, LocalityWeight;
    WeightsAreShares(q.objective);
    var x := CostWeight(q.objective) * PriceScore(PriceOf(c.deployment.cost, q.tokens), range.0, range.1);
    var b := LocalityWeight(q.objective);
    Multiplied(b, LocalityScore(c'.deployment, q.region), LocalityScore(c.deployment, q.region));
    Multiplied(c.health, 1.0 + x + b * LocalityScore(c'.deployment, q.region),
          1.0 + x + b * LocalityScore(c.deployment, q.region));
  }

  /** The reference request is the one asked for, or a thousand tokens; dearer rates never cost less. */
  lemma ReferencePrice(c: Cost, c': Cost, tokens: int)
    requires c.inputPer1K <= c'.inputPer1K && c.outputPer1K <= c'.outputPer1K
    ensures PriceOf(c, tokens) <= PriceOf(c', tokens)
    ensures tokens <= 0 ==> PriceOf(c, tokens) == PriceOf(c, 1000)
    ensures PriceOf(c, 4000) == 4 * c.inputPer1K + c.outputPer1K
    ensures tokens > 0 ==>
              0 <= tokens * c.inputPer1K + (tokens / 4) * c.outputPer1K - 1000 * PriceOf(c, tokens) < 1000
  {
    var t: nat := if tokens <= 0 then 1000 else tokens;
    NatTimes(t, c.inputPer1K, c'.inputPer1K);
    NatTimes(t / 4, c.outputPer1K, c'.outputPer1K);
  }

  lemma NatTimes(t: nat, a: nat, b: nat)
    requires a <= b
    ensures t * a <= t * b
  {
  }

  /** The score of a healthy candidate at the given ends of price and place. */
  function EndScore(o: Objective, health: real, cheapest: bool, near: bool): real {
    health * (1.0 + CostWeight(o) * (if cheapest then 1.0 else 0.0) + LocalityWeight(o) * (if near then 1.0 else 0.0))
  }

  lemma ScoreAtTheEnds(c: Candidate, range: (int, int), q: Request, cheapest: bool, near: bool)
    requires range.0 < range.1
    requires PriceOf(c.deployment.cost, q.tokens) == if cheapest then range.0 else range.1
    requires near <==> q.region == "" || c.deployment.region == q.region
    ensures ScoreOf(c, range, q) == EndScore(q.objective, c.health, cheapest, near)
  {
    hide PriceOf, CostWeight, LocalityWeight, PriceScore;
    Ends(range.0, range.1);
  }

  /**
   * What the objectives prefer, at equal health: cost takes the cheapest far away over the dearest
   * nearby, latency takes nearby at any price and ignores price otherwise, balanced sides with cost.
   */
  lemma ObjectivesPrefer(health: real)
    requires health > 0.0
    ensures EndScore(Cheapness, health, true, false) > EndScore(Cheapness, health, false, true)
    ensures EndScore(Latency, health, false, true) > EndScore(Latency, health, true, false)
    ensures EndScore(Latency, health, true, true) == EndScore(Latency, health, false, true)
    ensures EndScore(Balanced, health, true, false) > EndScore(Balanced, health, false, true)
    ensures EndScore(Balanced, health, false, true) > EndScore(Balanced, health, false, false)
  {
  }

  /**
   * How much health price and place are worth: the dearest far away is level with the cheapest nearby
   * at 1.35, 1.2 or 1.25 times its health, by objective; price alone is worth 1.3, 1 and 1.15.
   */
  lemma HealthBuysPriceAndPlace(health: real, other: real)
    ensures EndScore(Cheapness, other, false, false) >= EndScore(Cheapness, health, true, true)
            <==> other >= 1.35 * health
    ensures EndScore(Latency, other, false, false) >= EndScore(Latency, health, true, true)
            <==> other >= 1.2 * health
    ensures EndScore(Balanced, other, false, false) >= EndScore(Balanced, health, true, true)
            <==> other >= 1.25 * health
    ensures EndScore(Cheapness, other, false, false) >= EndScore(Cheapness, health, true, false)
            <==> other >= 1.3 * health
    ensures EndScore(Latency, other, false, false) >= EndScore(Latency, health, true, false)
            <==> other >= health
    ensures EndScore(Balanced, other, false, false) >= EndScore(Balanced, health, true, false)
            <==> other >= 1.15 * health
  {
  }

  const BEST_FIRST: Candidate -> real := (c: Candidate) => -c.score

  /** The eligible candidates, scored and stably ordered best first. */
  function Ranked(cat: Catalog, q: Request, w: World): seq<Candidate> {
    Sort(Scored(CandidatesOf(Reachable(cat, ResolveAlias(cat, q.tenant, q.model)), q, w), q), BEST_FIRST)
  }

  lemma ClearedBand(cs: seq<Candidate>, q: Request, x: nat, y: nat)
    requires x < |cs| && y < |cs| && cs[x].health >= 0.0 && cs[y].health >= 0.0
    requires cs[x].health > cs[y].health * (1.0 + CostWeight(q.objective) + LocalityWeight(q.objective))
    ensures Scored(cs, q)[x].score > Scored(cs, q)[y].score
  {
    hide Scored;
    ScoreStaysInBand(cs, q, x);
    ScoreStaysInBand(cs, q, y);
  }

  /** A candidate whose health clears another's whole band is never ranked behind it. */
  lemma HealthOutranksPrice(cs: seq<Candidate>, q: Request, i: nat, j: nat)
    requires forall k :: 0 <= k < |cs| ==> cs[k].health >= 0.0
    requires i < |cs| && j < |cs|
    requires var r := Sort(Scored(cs, q), BEST_FIRST);
             r[i].health > r[j].health * (1.0 + CostWeight(q.objective) + LocalityWeight(q.objective))
    ensures i < j
  {
    hide Sort, CostWeight, LocalityWeight, Scored;
    var scored := Scored(cs, q);
    var r := Sort(scored, BEST_FIRST);
    SortSorts(scored, BEST_FIRST);
    assert r[i] in r && r[j] in r;
    var x :| 0 <= x < |scored| && scored[x] == r[i];
    var y :| 0 <= y < |scored| && scored[y] == r[j];
    assert scored[x].health == cs[x].health && scored[y].health == cs[y].health;
    ClearedBand(cs, q, x, y);
  }
}
