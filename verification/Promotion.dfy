/**
 * The weighted draw of the head.
 *
 * When operators set different weights, a draw decides which candidate serves
 * first: candidate `i` wins exactly when the draw falls in its own stretch of the
 * line, whose length is its share of weight times health.  The rest keep score
 * order, so failover still takes the best remaining one.
 */
module Promotion {
  import opened StableSort
  import opened Routing

  function DrawWeight(c: Candidate): real {
    c.deployment.weight as real * c.health
  }

  /** The draw weight of the first `k` candidates together. */
  function Prefix(cs: seq<Candidate>, k: nat): real
    requires k <= |cs|
  {
    if k == 0 then 0.0 else Prefix(cs, k - 1) + DrawWeight(cs[k - 1])
  }

  function Total(cs: seq<Candidate>): real {
    Prefix(cs, |cs|)
  }

  predicate WeightsDiffer(cs: seq<Candidate>) {
    exists i :: 0 <= i < |cs| && cs[i].deployment.weight != cs[0].deployment.weight
  }

  predicate Draws(cs: seq<Candidate>) {
    |cs| >= 2 && WeightsDiffer(cs) && Total(cs) > 0.0
  }

  /** The first position, from `i` on, at which the running weight passes `target`; none is `|cs|`. */
  function WinnerFrom(cs: seq<Candidate>, target: real, i: nat): (r: nat)
    requires i <= |cs|
    ensures i <= r <= |cs|
    ensures forall k :: i < k <= r ==> Prefix(cs, k) <= target
    ensures r < |cs| ==> target < Prefix(cs, r + 1)
    decreases |cs| - i
  {
    if i == |cs| || Prefix(cs, i + 1) > target then i else WinnerFrom(cs, target, i + 1)
  }

  function Target(cs: seq<Candidate>, draw: real): real {
    draw * Total(cs)
  }

  function Winner(cs: seq<Candidate>, draw: real): nat {
    WinnerFrom(cs, Target(cs, draw), 0)
  }

  /** `cs` with position `i` moved to the front and everyone else in unchanged order. */
  function Rotated<T>(cs: seq<T>, i: nat): seq<T>
    requires i < |cs|
  {
    [cs[i]] + cs[..i] + cs[i + 1..]
  }

  function Promoted(cs: seq<Candidate>, draw: real): seq<Candidate> {
    if Draws(cs) && Winner(cs, draw) < |cs| then Rotated(cs, Winner(cs, draw)) else cs
  }

  method WeightsDifferIn(cs: array<Candidate>) returns (differ: bool)
    requires cs.Length > 0
    ensures differ <==> WeightsDiffer(cs[..])
  {
    var first := cs[0].deployment.weight;
    for i := 1 to cs.Length
      invariant forall k :: 0 <= k < i ==> cs[k].deployment.weight == first
    {
      if cs[i].deployment.weight != first {
        assert cs[..][i].deployment.weight != cs[..][0].deployment.weight;
        return true;
      }
    }
    return false;
  }

  /** Moves the winner to the front in place, shifting those before it up by one. */
  method RotateInPlace(cs: array<Candidate>, i: nat)
    requires i < cs.Length
    modifies cs
    ensures cs[..] == Rotated(old(cs[..]), i)
  {
    var winner := cs[i];
    forall k | 1 <= k <= i {
      cs[k] := cs[k - 1];
    }
    cs[0] := winner;
    assert cs[..] == [winner] + old(cs[..])[..i] + old(cs[..])[i + 1..];
  }

  method TotalWeight(cs: array<Candidate>) returns (total: real)
    ensures total == Total(cs[..])
  {
    hide DrawWeight, Prefix;
    total := 0.0;
    NoWeight(cs[..]);
    for i := 0 to cs.Length
      invariant total == Prefix(cs[..], i)
    {
      PrefixStep(cs[..], i);
      total := total + DrawWeight(cs[i]);
    }
  }

  /** The scan for the position at which the running weight passes the target; none is the length. */
  method FindWinner(cs: array<Candidate>, draw: real, total: real) returns (winner: nat)
    requires total == Total(cs[..])
    ensures winner == Winner(cs[..], draw)
  {
    hide DrawWeight, Prefix, WinnerFrom;
    var target := draw * total;
    var running := 0.0;
    NoWeight(cs[..]);
    for i := 0 to cs.Length
      invariant running == Prefix(cs[..], i)
      invariant WinnerFrom(cs[..], target, 0) == WinnerFrom(cs[..], target, i)
    {
      PrefixStep(cs[..], i);
      WinnerStep(cs[..], target, i);
      running := running + DrawWeight(cs[i]);
      if running > target {
        return i;
      }
    }
    return cs.Length;
  }

  method Promote(cs: array<Candidate>, draw: real)
    modifies cs
    ensures cs[..] == Promoted(old(cs[..]), draw)
  {
    hide WeightsDiffer, Total, Winner, Rotated;
    if cs.Length < 2 {
      return;
    }
    var differ := WeightsDifferIn(cs);
    if !differ {
      return;
    }
    var total := TotalWeight(cs);
    if total <= 0.0 {
      return;
    }
    var winner := FindWinner(cs, draw, total);
    if winner < cs.Length {
      RotateInPlace(cs, winner);
    }
  }

  lemma NoWeight(cs: seq<Candidate>)
    ensures Prefix(cs, 0) == 0.0
  {
  }

  lemma PrefixStep(cs: seq<Candidate>, k: nat)
    requires k < |cs|
    ensures Prefix(cs, k + 1) == Prefix(cs, k) + DrawWeight(cs[k])
  {
  }

  lemma WinnerStep(cs: seq<Candidate>, target: real, i: nat)
    requires i < |cs|
    ensures WinnerFrom(cs, target, i) == if Prefix(cs, i + 1) > target then i else WinnerFrom(cs, target, i + 1)
  {
  }

  ghost predicate Healthy(cs: seq<Candidate>) {
    forall i :: 0 <= i < |cs| ==> cs[i].health >= 0.0
  }

  lemma {:induction false} PrefixGrows(cs: seq<Candidate>, j: nat, k: nat)
    requires Healthy(cs) && j <= k <= |cs|
    ensures Prefix(cs, j) <= Prefix(cs, k)
    decreases k - j
  {
    if j < k {
      PrefixGrows(cs, j, k - 1);
      assert DrawWeight(cs[k - 1]) >= 0.0;
    }
  }

  /** Position `i` wins exactly when the target falls in its stretch of the running weights. */
  lemma {:induction false} WinnerOwnsItsStretch(cs: seq<Candidate>, target: real, i: nat)
    requires Healthy(cs) && i < |cs| && target >= 0.0
    ensures WinnerFrom(cs, target, 0) == i <==> Prefix(cs, i) <= target < Prefix(cs, i + 1)
  {
    hide WinnerFrom, DrawWeight;
    var r := WinnerFrom(cs, target, 0);
    if r == i {
      assert i > 0 ==> Prefix(cs, i) <= target;
    } else if r < i {
      PrefixGrows(cs, r + 1, i);
    } else {
      assert Prefix(cs, i + 1) <= target;
    }
  }

  lemma Scale(total: real, a: real, draw: real)
    requires total > 0.0
    ensures a <= draw * total <==> a / total <= draw
  {
    var q := a / total;
    assert q * total == a;
    if q <= draw {
      assert (draw - q) * total >= 0.0;
      assert (draw - q) * total == draw * total - q * total;
    } else {
      assert (q - draw) * total > 0.0;
      assert (q - draw) * total == q * total - draw * total;
    }
  }

  lemma SumOfShares(total: real, a: real, b: real)
    requires total > 0.0
    ensures (a + b) / total - a / total == b / total
  {
  }

  /** Where the stretch of candidate `k` begins on the line of draws. */
  function Edge(cs: seq<Candidate>, k: nat): real
    requires k <= |cs| && Total(cs) > 0.0
  {
    Prefix(cs, k) / Total(cs)
  }

  /** A candidate's part of the whole weight. */
  function ShareOf(cs: seq<Candidate>, i: nat): real
    requires i < |cs| && Total(cs) > 0.0
  {
    DrawWeight(cs[i]) / Total(cs)
  }

  lemma EdgeScales(cs: seq<Candidate>, k: nat, draw: real)
    requires k <= |cs| && Total(cs) > 0.0
    ensures Prefix(cs, k) <= Target(cs, draw) <==> Edge(cs, k) <= draw
  {
    hide Prefix, Total;
    Scale(Total(cs), Prefix(cs, k), draw);
  }

  lemma EdgesAreAShareApart(cs: seq<Candidate>, i: nat)
    requires i < |cs| && Total(cs) > 0.0
    ensures Edge(cs, i + 1) - Edge(cs, i) == ShareOf(cs, i)
  {
    hide Prefix, Total, DrawWeight;
    PrefixStep(cs, i);
    SumOfShares(Total(cs), Prefix(cs, i), DrawWeight(cs[i]));
  }

  lemma {:induction false} SomebodyWins(cs: seq<Candidate>, target: real)
    requires 0.0 <= target < Total(cs)
    ensures WinnerFrom(cs, target, 0) < |cs|
  {
    hide WinnerFrom, Prefix, DrawWeight;
    NoWeight(cs);
    assert Prefix(cs, |cs|) > target;
  }

  /**
   * A draw in [0, 1) always finds a winner; candidate `i` wins for exactly the draws in an interval
   * whose length is its weight times health over the total.
   */
  lemma {:induction false} ShareOfTraffic(cs: seq<Candidate>, draw: real, i: nat)
    requires Healthy(cs) && Total(cs) > 0.0 && 0.0 <= draw < 1.0 && i < |cs|
    ensures Winner(cs, draw) < |cs|
    ensures Winner(cs, draw) == i <==> Edge(cs, i) <= draw < Edge(cs, i + 1)
    ensures Edge(cs, i + 1) - Edge(cs, i) == ShareOf(cs, i)
  {
    hide WinnerFrom, Prefix, DrawWeight, Total, Target, Edge, ShareOf;
    TargetInRange(cs, draw);
    SomebodyWins(cs, Target(cs, draw));
    WinnerOwnsItsStretch(cs, Target(cs, draw), i);
    EdgeScales(cs, i, draw);
    EdgeScales(cs, i + 1, draw);
    EdgesAreAShareApart(cs, i);
  }

  lemma TargetInRange(cs: seq<Candidate>, draw: real)
    requires Total(cs) > 0.0 && 0.0 <= draw < 1.0
    ensures 0.0 <= Target(cs, draw) < Total(cs)
  {
    hide Total, Target;
    TargetIs(cs, draw, Total(cs));
    BelowTheWhole(Total(cs), draw);
  }

  lemma TargetIs(cs: seq<Candidate>, draw: real, total: real)
    requires total == Total(cs)
    ensures Target(cs, draw) == draw * total
  {
  }

  lemma BelowTheWhole(total: real, draw: real)
    requires total > 0.0 && 0.0 <= draw < 1.0
    ensures 0.0 <= draw * total < total
  {
    var rest := 1.0 - draw;
    Positive(rest, total);
    assert draw * total == total - rest * total;
    assert draw * total >= 0.0;
  }

  lemma Positive(a: real, b: real)
    requires a > 0.0 && b > 0.0
    ensures a * b > 0.0
  {
  }

  /** Promotion only reorders: it loses, adds and changes nobody. */
  lemma PromotionReorders(cs: seq<Candidate>, draw: real)
    ensures multiset(Promoted(cs, draw)) == multiset(cs)
    ensures !Draws(cs) ==> Promoted(cs, draw) == cs
  {
    hide Draws, Winner;
    if Draws(cs) && Winner(cs, draw) < |cs| {
      var i := Winner(cs, draw);
      assert cs == cs[..i] + [cs[i]] + cs[i + 1..];
    }
  }

  /** The weights are the operators' weights times health. */
  lemma {:induction false} TotalIsWeightTimesHealth(cs: seq<Candidate>, c: Candidate)
    ensures Total(cs + [c]) == Total(cs) + c.deployment.weight as real * c.health
    ensures Total([]) == 0.0
  {
    SamePrefix(cs, c, |cs|);
  }

  lemma {:induction false} SamePrefix(cs: seq<Candidate>, c: Candidate, k: nat)
    requires k <= |cs|
    ensures Prefix(cs + [c], k) == Prefix(cs, k)
  {
    hide DrawWeight;
    if k > 0 {
      SamePrefix(cs, c, k - 1);
    }
  }

  /**
   * With weights that differ and somebody healthy, a draw in candidate `i`'s stretch puts `i` first and
   * leaves everyone else in order.
   */
  lemma DrawnLeads(cs: seq<Candidate>, draw: real, i: nat, j: nat)
    requires Healthy(cs) && Total(cs) > 0.0 && 0.0 <= draw < 1.0 && i < |cs| && j < |cs|
    requires cs[j].deployment.weight != cs[0].deployment.weight
    requires Edge(cs, i) <= draw < Edge(cs, i + 1)
    ensures Promoted(cs, draw) == [cs[i]] + cs[..i] + cs[i + 1..]
  {
    hide Prefix, Total, DrawWeight, Edge, Winner;
    ShareOfTraffic(cs, draw, i);
  }

  /** With one weight for all, or nobody healthy, the list stays as it is. */
  lemma UndrawnIsUntouched(cs: seq<Candidate>, draw: real)
    requires Total(cs) <= 0.0 || forall i :: 0 <= i < |cs| ==> cs[i].deployment.weight == cs[0].deployment.weight
    ensures Promoted(cs, draw) == cs
  {
    hide Prefix, Total, DrawWeight, Winner;
  }
}
