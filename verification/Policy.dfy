/**
 * The tenant's compiled policy: a table of rules read top down, first match wins.
 */
module Policy {
  import opened Options

  datatype Effect = Unset | Allow | Deny

  /** A network block is the set of addresses in it. */
  datatype Rule = Rule(
    id: string, effect: Effect, models: seq<string>, endpoints: seq<string>, roles: seq<string>, regions: seq<string>,
    nets: seq<set<string>>, maxPayload: nat, dataClass: string, minTier: nat, deep: bool, reason: string)

  datatype Bundle = Bundle(rules: seq<Rule>, defaultEffect: Effect)

  datatype Input = Input(
    model: string, endpoint: string, roles: seq<string>, region: string, source: Option<string>, payload: nat)

  datatype Decision = Decision(
    allowed: bool, ruleId: string, reason: string, dataClass: string, minTier: nat, deep: bool)

  predicate Matches(rule: Rule, q: Input) {
    && (rule.models != [] ==> q.model in rule.models)
    && (rule.endpoints != [] ==> q.endpoint in rule.endpoints)
    && (rule.regions != [] ==> q.region in rule.regions)
    && (rule.maxPayload > 0 ==> q.payload <= rule.maxPayload)
    && (rule.roles != [] ==> exists r :: r in q.roles && r in rule.roles)
    && (rule.nets != [] ==> q.source.Some? && exists n :: n in rule.nets && q.source.value in n)
  }

  /** The first rule that matches, `|rules|` if none does. */
  function FirstMatch(rules: seq<Rule>, q: Input): (r: nat)
    ensures r <= |rules|
    ensures r < |rules| ==> Matches(rules[r], q)
    ensures forall i :: 0 <= i < r ==> !Matches(rules[i], q)
  {
    if rules == [] || Matches(rules[0], q) then 0 else 1 + FirstMatch(rules[1..], q)
  }

  function Evaluate(bundle: Bundle, q: Input): Decision {
    var i := FirstMatch(bundle.rules, q);
    if i == |bundle.rules| then Decision(bundle.defaultEffect != Deny, "", "", "", 0, false)
    else
      var rule := bundle.rules[i];
      if rule.effect == Deny then Decision(false, rule.id, rule.reason, "", 0, false)
      else Decision(true, rule.id, "", rule.dataClass, rule.minTier, rule.deep)
  }

  /** The topmost matching rule alone decides: it refuses exactly if it denies, and stamps its own floor. */
  lemma RefusedByTheFirstMatch(bundle: Bundle, q: Input, i: nat)
    requires i < |bundle.rules| && Matches(bundle.rules[i], q)
    requires forall k :: 0 <= k < i ==> !Matches(bundle.rules[k], q)
    ensures Evaluate(bundle, q).allowed <==> bundle.rules[i].effect != Deny
    ensures Evaluate(bundle, q).ruleId == bundle.rules[i].id
    ensures Evaluate(bundle, q).allowed ==>
              var d := Evaluate(bundle, q);
              && d.minTier == bundle.rules[i].minTier && d.dataClass == bundle.rules[i].dataClass
              && d.deep == bundle.rules[i].deep
    ensures !Evaluate(bundle, q).allowed ==>
              Evaluate(bundle, q).reason == bundle.rules[i].reason && !Evaluate(bundle, q).deep
  {
    hide Matches;
    assert FirstMatch(bundle.rules, q) == i;
  }

  /** Without a match the default decides, and nothing is stamped. */
  lemma DefaultWithoutMatch(bundle: Bundle, q: Input)
    requires forall k :: 0 <= k < |bundle.rules| ==> !Matches(bundle.rules[k], q)
    ensures Evaluate(bundle, q) == Decision(bundle.defaultEffect != Deny, "", "", "", 0, false)
  {
    hide Matches;
    assert FirstMatch(bundle.rules, q) == |bundle.rules|;
  }

  /** A rule is a conjunction: it fails to match exactly when some condition it states is not met. */
  lemma MismatchHasAReason(rule: Rule, q: Input)
    ensures !Matches(rule, q) <==>
            || (rule.models != [] && q.model !in rule.models)
            || (rule.endpoints != [] && q.endpoint !in rule.endpoints)
            || (rule.regions != [] && q.region !in rule.regions)
            || (rule.maxPayload > 0 && q.payload > rule.maxPayload)
            || (rule.roles != [] && forall r :: r in q.roles ==> r !in rule.roles)
            || (rule.nets != [] && (q.source.None? || forall n :: n in rule.nets ==> q.source.value !in n))
  {
  }

  /** Nothing below the topmost matching rule can change the decision. */
  lemma LaterRulesDoNotMatter(above: seq<Rule>, rule: Rule, below: seq<Rule>, below': seq<Rule>, d: Effect, q: Input)
    requires Matches(rule, q)
    ensures Evaluate(Bundle(above + [rule] + below, d), q) == Evaluate(Bundle(above + [rule] + below', d), q)
  {
    hide Matches;
    var a, b := above + [rule] + below, above + [rule] + below';
    var i, j := FirstMatch(a, q), FirstMatch(b, q);
    assert a[|above|] == rule && b[|above|] == rule;
    assert i <= |above| && j <= |above|;
    assert a[..|above| + 1] == b[..|above| + 1];
    assert a[i] == a[..|above| + 1][i] && b[j] == b[..|above| + 1][j];
    assert a[j] == a[..|above| + 1][j] && b[i] == b[..|above| + 1][i];
    assert i == j;
  }
}
