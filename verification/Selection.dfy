/**
 * Selection as a whole: filter, score, order, draw the head, or say why nobody may serve.
 */
module Selection {
  import opened StableSort
  import opened Routing
  import opened Promotion

  datatype Refusal = ModelNotFound | NoCandidates | TrustTierDenied | EndpointUnsupported

  datatype Selected = Selected(candidates: seq<Candidate>) | Refused(reason: Refusal)

  predicate AnyServing(ds: seq<Deployment>) {
    exists d :: d in ds && Serving(d)
  }

  predicate AnyTrusted(ds: seq<Deployment>, q: Request) {
    exists d :: d in ds && Serving(d) && d.tier >= q.minTier
  }

  predicate AnyEligible(ds: seq<Deployment>, q: Request, w: World) {
    exists d :: d in ds && Eligible(d, q, w)
  }

  /** Every deployment the request's model name leads to. */
  function Known(cat: Catalog, q: Request): seq<Deployment> {
    Reachable(cat, ResolveAlias(cat, q.tenant, q.model))
  }

  /** A deployment of the catalog that the request's model name leads to. */
  predicate Named(cat: Catalog, q: Request, d: Deployment) {
    d in cat.deployments && d.key in ResolveAlias(cat, q.tenant, q.model)
  }

  lemma KnownIsNamed(cat: Catalog, q: Request, d: Deployment)
    ensures d in Known(cat, q) <==> Named(cat, q, d)
  {
    hide Reachable, ResolveAlias;
    var targets := ResolveAlias(cat, q.tenant, q.model);
    TimesReachable(cat, targets, d);
    if Named(cat, q, d) {
      AtLeastOnce(Times(cat.deployments, d), Times(targets, d.key));
    }
  }

  lemma AtLeastOnce(a: nat, b: nat)
    requires a > 0 && b > 0
    ensures a * b > 0
  {
  }

  lemma AnyServingGrows(ds: seq<Deployment>, d: Deployment)
    ensures AnyServing(ds + [d]) <==> AnyServing(ds) || Serving(d)
  {
    if AnyServing(ds) {
      var e :| e in ds && Serving(e);
      assert e in ds + [d];
    }
    assert d in ds + [d];
  }

  lemma AnyTrustedGrows(ds: seq<Deployment>, d: Deployment, q: Request)
    ensures AnyTrusted(ds + [d], q) <==> AnyTrusted(ds, q) || (Serving(d) && d.tier >= q.minTier)
  {
    if AnyTrusted(ds, q) {
      var e :| e in ds && Serving(e) && e.tier >= q.minTier;
      assert e in ds + [d];
    }
    assert d in ds + [d];
  }

  lemma CandidatesGrow(ds: seq<Deployment>, d: Deployment, q: Request, w: World)
    ensures CandidatesOf(ds + [d], q, w)
         == CandidatesOf(ds, q, w) + if Eligible(d, q, w) then [Candidate(d, w.health(d.id), w.health(d.id))] else []
  {
    assert (ds + [d])[..|ds|] == ds;
  }

  lemma ReachableGrows(cat: Catalog, targets: seq<RoutingKey>, t: nat)
    requires t < |targets|
    ensures Reachable(cat, targets[..t + 1])
         == Reachable(cat, targets[..t]) + DeploymentsOf(cat.deployments, targets[t])
  {
    assert targets[..t + 1][..t] == targets[..t];
  }

  /** Candidates are exactly the eligible ones: there are some exactly when some deployment is eligible. */
  lemma {:induction false} CandidatesExist(ds: seq<Deployment>, q: Request, w: World)
    ensures CandidatesOf(ds, q, w) != [] <==> AnyEligible(ds, q, w)
  {
    hide Eligible;
    if ds != [] {
      var front, d := ds[..|ds| - 1], ds[|ds| - 1];
      assert ds == front + [d];
      CandidatesExist(front, q, w);
      CandidatesGrow(front, d, q, w);
      assert AnyEligible(ds, q, w) <==> AnyEligible(front, q, w) || Eligible(d, q, w) by {
        if AnyEligible(front, q, w) {
          var e :| e in front && Eligible(e, q, w);
          assert e in ds;
        }
        assert d in ds;
      }
    }
  }

  /** One deployment's turn in the scan. */
  method Consider(d: Deployment, q: Request, w: World, ghost seen: seq<Deployment>,
                  candidates: seq<Candidate>, serving: bool, trusted: bool)
    returns (candidates': seq<Candidate>, serving': bool, trusted': bool)
    requires candidates == CandidatesOf(seen, q, w)
    requires serving <==> AnyServing(seen)
    requires trusted <==> AnyTrusted(seen, q)
    ensures candidates' == CandidatesOf(seen + [d], q, w)
    ensures serving' <==> AnyServing(seen + [d])
    ensures trusted' <==> AnyTrusted(seen + [d], q)
  {
    hide CandidatesOf, AnyServing, AnyTrusted;
    candidates', serving', trusted' := candidates, serving, trusted;
    CandidatesGrow(seen, d, q, w);
    AnyServingGrows(seen, d);
    AnyTrustedGrows(seen, d, q);
    if !Serving(d) {
      return;
    }
    serving' := true;
    if d.tier < q.minTier {
      return;
    }
    trusted' := true;
    if !(q.required <= d.capabilities) {
      return;
    }
    if d.provider !in w.endpoints || q.endpoint !in w.endpoints[d.provider] {
      return;
    }
    var health := w.health(d.id);
    candidates' := candidates + [Candidate(d, health, health)];
  }

  method Scan(cat: Catalog, q: Request, w: World)
    returns (candidates: seq<Candidate>, any: bool, serving: bool, trusted: bool)
    ensures candidates == CandidatesOf(Known(cat, q), q, w)
    ensures any <==> Known(cat, q) != []
    ensures serving <==> AnyServing(Known(cat, q))
    ensures trusted <==> AnyTrusted(Known(cat, q), q)
  {
    hide CandidatesOf, AnyServing, AnyTrusted, Reachable, DeploymentsOf, ResolveAlias;
    var targets := ResolveAlias(cat, q.tenant, q.model);
    ghost var seen: seq<Deployment> := [];
    NothingSeen(cat, q, w);
    candidates, any, serving, trusted := [], false, false, false;
    for t := 0 to |targets|
      invariant seen == Reachable(cat, targets[..t])
      invariant candidates == CandidatesOf(seen, q, w)
      invariant any <==> seen != []
      invariant serving <==> AnyServing(seen)
      invariant trusted <==> AnyTrusted(seen, q)
    {
      var mine := DeploymentsOf(cat.deployments, targets[t]);
      ghost var before := seen;
      for j := 0 to |mine|
        invariant seen == before + mine[..j]
        invariant candidates == CandidatesOf(seen, q, w)
        invariant any <==> seen != []
        invariant serving <==> AnyServing(seen)
        invariant trusted <==> AnyTrusted(seen, q)
      {
        any := true;
        candidates, serving, trusted := Consider(mine[j], q, w, seen, candidates, serving, trusted);
        seen := seen + [mine[j]];
      }
      assert mine[..|mine|] == mine;
      ReachableGrows(cat, targets, t);
    }
    assert targets[..|targets|] == targets;
  }

  lemma NothingSeen(cat: Catalog, q: Request, w: World)
    ensures Reachable(cat, []) == [] && CandidatesOf([], q, w) == [] && !AnyServing([]) && !AnyTrusted([], q)
  {
  }

  /** Why nobody may serve: the first filter that let no named deployment through. */
  ghost predicate Explains(cat: Catalog, q: Request, reason: Refusal) {
    match reason
    case ModelNotFound => forall d :: d in cat.deployments ==> !Named(cat, q, d)
    case NoCandidates => (exists d :: Named(cat, q, d)) && forall d :: Named(cat, q, d) ==> !Serving(d)
    case TrustTierDenied =>
      && (exists d :: Named(cat, q, d) && Serving(d))
      && forall d :: Named(cat, q, d) && Serving(d) ==> d.tier < q.minTier
    case EndpointUnsupported => exists d :: Named(cat, q, d) && Serving(d) && d.tier >= q.minTier
  }

  ghost predicate AnyNamedEligible(cat: Catalog, q: Request, w: World) {
    exists d :: Named(cat, q, d) && Eligible(d, q, w)
  }

  lemma RefusalIsExplained(cat: Catalog, q: Request, reason: Refusal)
    requires reason == if Known(cat, q) == [] then ModelNotFound
                       else if !AnyServing(Known(cat, q)) then NoCandidates
                       else if !AnyTrusted(Known(cat, q), q) then TrustTierDenied
                       else EndpointUnsupported
    ensures Explains(cat, q, reason)
  {
    hide Known, Named;
    forall d: Deployment ensures d in Known(cat, q) <==> Named(cat, q, d) {
      KnownIsNamed(cat, q, d);
    }
    if Known(cat, q) != [] {
      assert Known(cat, q)[0] in Known(cat, q);
    }
  }

  lemma EligibleIsNamed(cat: Catalog, q: Request, w: World)
    ensures AnyEligible(Known(cat, q), q, w) <==> AnyNamedEligible(cat, q, w)
  {
    hide Known, Named, Eligible;
    forall d: Deployment ensures d in Known(cat, q) <==> Named(cat, q, d) {
      KnownIsNamed(cat, q, d);
    }
  }

  /**
   * Selection succeeds exactly when some deployment of the catalog that the model name leads to is
   * eligible, and then returns all of them in ranked order with the drawn one in front; otherwise the
   * reason names the first filter that let nobody through.
   */
  method Select(cat: Catalog, q: Request, w: World, draw: real) returns (r: Selected)
    ensures r.Selected? <==> AnyNamedEligible(cat, q, w)
    ensures r.Selected? ==> r.candidates == Promoted(Ranked(cat, q, w), draw)
    ensures r.Refused? ==> Explains(cat, q, r.reason)
  {
    hide CandidatesOf, AnyEligible, AnyNamedEligible, AnyServing, AnyTrusted, Explains, Reachable, Promoted, Sort,
         Scored, ResolveAlias;
    var candidates, any, serving, trusted := Scan(cat, q, w);
    CandidatesExist(Known(cat, q), q, w);
    EligibleIsNamed(cat, q, w);
    if candidates == [] {
      var reason := if !any then ModelNotFound
                    else if !serving then NoCandidates
                    else if !trusted then TrustTierDenied
                    else EndpointUnsupported;
      RefusalIsExplained(cat, q, reason);
      return Refused(reason);
    }
    var scored := ApplyObjective(candidates, q);
    var ranked := Sort(scored, BEST_FIRST);
    var list := new Candidate[|ranked|](i requires 0 <= i < |ranked| => ranked[i]);
    assert list[..] == ranked;
    Promote(list, draw);
    return Selected(list[..]);
  }

  method ApplyObjective(cs: seq<Candidate>, q: Request) returns (scored: seq<Candidate>)
    requires cs != []
    ensures scored == Scored(cs, q)
  {
    hide Range, ScoreOf;
    var cheapest, dearest := PriceRange(cs, q.tokens);
    scored := cs;
    for i := 0 to |cs|
      invariant |scored| == |cs|
      invariant forall k :: 0 <= k < i ==> scored[k] == Scored(cs, q)[k]
      invariant forall k :: i <= k < |cs| ==> scored[k] == cs[k]
    {
      scored := scored[i := scored[i].(score := ScoreOf(scored[i], (cheapest, dearest), q))];
    }
  }

  /** No list selection returns holds a deployment the request was not allowed to use, and none allowed is lost. */
  lemma ListIsTheEligibleOnes(cat: Catalog, q: Request, w: World, draw: real)
    ensures multiset(Promoted(Ranked(cat, q, w), draw)) == multiset(Scored(CandidatesOf(Known(cat, q), q, w), q))
    ensures forall c :: c in Promoted(Ranked(cat, q, w), draw) ==>
      && c.deployment in cat.deployments
      && c.deployment.key in ResolveAlias(cat, q.tenant, q.model)
      && Eligible(c.deployment, q, w)
      && c.health == w.health(c.deployment.id)
  {
    hide CandidatesOf, Promoted, Sort, Scored, Eligible, Reachable, ResolveAlias;
    var base := CandidatesOf(Known(cat, q), q, w);
    var scored := Scored(base, q);
    var list := Promoted(Ranked(cat, q, w), draw);
    assert Ranked(cat, q, w) == Sort(scored, BEST_FIRST);
    SortPermutes(scored, BEST_FIRST);
    PromotionReorders(Ranked(cat, q, w), draw);
    forall c | c in list
      ensures c.deployment in cat.deployments && c.deployment.key in ResolveAlias(cat, q.tenant, q.model)
      ensures Eligible(c.deployment, q, w) && c.health == w.health(c.deployment.id)
    {
      assert c in multiset(list);
      assert c in multiset(scored);
      assert c in scored;
      var i :| 0 <= i < |scored| && scored[i] == c;
      assert base[i] in base;
    }
  }

  /**
   * Nobody allowed is lost and nobody is offered too often: in whatever order and whoever is drawn, a
   * deployment stands in the list once for each of its catalog entries and each target that names its
   * key if it is eligible, and not at all if it is not.
   */
  lemma EverybodyIsOffered(cat: Catalog, q: Request, w: World, draw: real, d: Deployment)
    ensures Offers(Promoted(Ranked(cat, q, w), draw), d)
         == if Eligible(d, q, w)
            then Times(cat.deployments, d) * Times(ResolveAlias(cat, q.tenant, q.model), d.key) else 0
  {
    hide *;
    var known := Reachable(cat, ResolveAlias(cat, q.tenant, q.model));
    var base := CandidatesOf(known, q, w);
    KnownIs(cat, q);
    ListIsTheEligibleOnes(cat, q, w, draw);
    OffersReorder(Promoted(Ranked(cat, q, w), draw), Scored(base, q), d);
    OffersFollowDeployments(Scored(base, q), base, d);
    OffersOfCandidates(known, q, w, d);
    TimesReachable(cat, ResolveAlias(cat, q.tenant, q.model), d);
  }

  lemma KnownIs(cat: Catalog, q: Request)
    ensures Known(cat, q) == Reachable(cat, ResolveAlias(cat, q.tenant, q.model))
  {
  }

  /** Candidates of one score keep the order in which the scan met them: targets first, then the catalog. */
  lemma TiesKeepScanOrder(cat: Catalog, q: Request, w: World, score: real)
    ensures WithKey(Ranked(cat, q, w), -score, BEST_FIRST)
         == WithKey(Scored(CandidatesOf(Known(cat, q), q, w), q), -score, BEST_FIRST)
  {
    hide CandidatesOf, Sort, Scored, WithKey, Reachable, ResolveAlias;
    SortIsStable(Scored(CandidatesOf(Known(cat, q), q, w), q), -score, BEST_FIRST);
  }

  /** Whoever is drawn, everyone behind the head is still in score order. */
  lemma FailoverIsBestFirst(cat: Catalog, q: Request, w: World, draw: real, i: nat, j: nat)
    requires 1 <= i < j < |Promoted(Ranked(cat, q, w), draw)|
    ensures Promoted(Ranked(cat, q, w), draw)[i].score >= Promoted(Ranked(cat, q, w), draw)[j].score
  {
    hide CandidatesOf, Sort, Scored, Reachable, ResolveAlias, Draws, Winner;
    SortSorts(Scored(CandidatesOf(Known(cat, q), q, w), q), BEST_FIRST);
    RotationKeepsTheRest(Ranked(cat, q, w), Winner(Ranked(cat, q, w), draw), i, j);
  }

  lemma RotationKeepsTheRest(cs: seq<Candidate>, k: nat, i: nat, j: nat)
    requires Sorted(cs, BEST_FIRST) && 1 <= i < j < |cs|
    ensures cs[i].score >= cs[j].score
    ensures k < |cs| ==> Rotated(cs, k)[i].score >= Rotated(cs, k)[j].score
  {
    var i', j' := if i <= k then i - 1 else i, if j <= k then j - 1 else j;
    assert BEST_FIRST(cs[i]) <= BEST_FIRST(cs[j]);
    assert BEST_FIRST(cs[i']) <= BEST_FIRST(cs[j']);
    if k < |cs| {
      assert Rotated(cs, k)[i] == cs[i'] && Rotated(cs, k)[j] == cs[j'];
    }
  }
}
