/**
 * When the order of the detectors matters.
 *
 * Only the first match reported at a start can survive the merge, and only if the
 * matches starting earlier do not reach past it.  So two runs of the detectors merge
 * alike exactly when, wherever they disagree on who comes first, nobody could survive.
 */
module MergeOrder {
  import opened Options
  import opened StableSort
  import opened Detect

  function Merge(u: seq<Match>): seq<Match> {
    Kept(SortedByStart(u))
  }

  /** Regular expressions match non-empty spans only, and the sidecar's adapter drops empty ones. */
  ghost predicate NonEmpty(u: seq<Match>) {
    forall i :: 0 <= i < |u| ==> u[i].start < u[i].end
  }

  /** The matches that start before `x`, in order. */
  function Before(u: seq<Match>, x: nat): (r: seq<Match>)
    ensures forall m :: m in r ==> m in u && m.start < x
  {
    if u == [] then []
    else Before(u[..|u| - 1], x) + if u[|u| - 1].start < x then [u[|u| - 1]] else []
  }

  lemma BeforeStep(u: seq<Match>, x: nat)
    ensures Before(u, x)
         == if u == [] then []
            else Before(u[..|u| - 1], x) + if u[|u| - 1].start < x then [u[|u| - 1]] else []
  {
  }

  /** The matches that start at `x`, in order. */
  function StartingAt(u: seq<Match>, x: nat): seq<Match> {
    WithKey(u, x as real, BY_START)
  }

  /** The first match reported at `x`. */
  function First(u: seq<Match>, x: nat): Option<Match> {
    if StartingAt(u, x) == [] then None else Some(StartingAt(u, x)[0])
  }

  /** How far the matches that start before `x` reach once merged. */
  function Reach(u: seq<Match>, x: nat): int {
    EndOf(Merge(Before(u, x)))
  }

  // ---- one start at a time ----

  lemma {:induction false} BeforeWithKey(u: seq<Match>, x: nat, k: real)
    ensures WithKey(Before(u, x), k, BY_START) == if k < x as real then WithKey(u, k, BY_START) else []
  {
    hide WithKey, Before;
    BeforeStep(u, x);
    if u == [] {
      WithKeyIsEmpty(u, k, BY_START);
    } else {
      var front, m := u[..|u| - 1], u[|u| - 1];
      BeforeWithKey(front, x, k);
      WithKeyStep(u, k, BY_START);
      if m.start < x {
        WithKeyOfOneMore(Before(front, x), m, k);
      } else {
        assert BY_START(m) >= x as real;
        assert Before(front, x) + [] == Before(front, x);
        assert WithKey(front, k, BY_START) + [] == WithKey(front, k, BY_START);
      }
    }
  }

  lemma WithKeyOfOneMore(u: seq<Match>, m: Match, k: real)
    ensures WithKey(u + [m], k, BY_START) == WithKey(u, k, BY_START) + if BY_START(m) == k then [m] else []
  {
    hide WithKey;
    WithKeyStep(u + [m], k, BY_START);
    assert (u + [m])[..|u|] == u;
  }

  lemma WithKeyOne(m: Match, k: real)
    ensures WithKey([m], k, BY_START) == if BY_START(m) == k then [m] else []
  {
    assert [m][..0] == [];
  }

  lemma {:induction false} GroupMembers(u: seq<Match>, k: real)
    ensures forall i :: 0 <= i < |WithKey(u, k, BY_START)| ==>
              WithKey(u, k, BY_START)[i] in u && BY_START(WithKey(u, k, BY_START)[i]) == k
  {
    if u != [] {
      GroupMembers(u[..|u| - 1], k);
    }
  }

  lemma {:induction false} GroupOfGroup(g: seq<Match>, x: real, k: real)
    requires forall i :: 0 <= i < |g| ==> BY_START(g[i]) == x
    ensures WithKey(g, k, BY_START) == if k == x then g else []
  {
    hide WithKey;
    if g == [] {
      WithKeyIsEmpty(g, k, BY_START);
    } else {
      GroupOfGroup(g[..|g| - 1], x, k);
      WithKeyStep(g, k, BY_START);
      assert g == g[..|g| - 1] + [g[|g| - 1]];
    }
  }

  lemma NothingInBetween(u: seq<Match>, x: nat, k: real)
    requires x as real < k < (x + 1) as real
    ensures WithKey(u, k, BY_START) == []
  {
    hide WithKey;
    forall m: Match ensures BY_START(m) != k {
      if m.start <= x {
        assert BY_START(m) <= x as real;
      } else {
        assert BY_START(m) >= (x + 1) as real;
      }
    }
    WithKeyIsEmpty(u, k, BY_START);
  }

  /** Sorting what starts up to `x` puts those at `x` last, in the order they were found. */
  lemma SortedUpTo(u: seq<Match>, x: nat)
    ensures SortedByStart(Before(u, x + 1)) == SortedByStart(Before(u, x)) + StartingAt(u, x)
  {
    hide WithKey, Sort, Before;
    var s, g := SortedByStart(Before(u, x)), StartingAt(u, x);
    SortSorts(Before(u, x), BY_START);
    SortSorts(Before(u, x + 1), BY_START);
    GroupMembers(u, x as real);
    assert forall i :: 0 <= i < |s| ==> s[i] in s;
    assert Sorted(s + g, BY_START);
    forall k: real
      ensures WithKey(SortedByStart(Before(u, x + 1)), k, BY_START) == WithKey(s + g, k, BY_START)
    {
      SortIsStable(Before(u, x + 1), k, BY_START);
      SortIsStable(Before(u, x), k, BY_START);
      BeforeWithKey(u, x, k);
      BeforeWithKey(u, x + 1, k);
      WithKeyAppend(s, g, k, BY_START);
      GroupOfGroup(g, x as real, k);
      if x as real < k < (x + 1) as real {
        NothingInBetween(u, x, k);
      }
    }
    StableSortIsUnique(SortedByStart(Before(u, x + 1)), s + g, BY_START);
  }

  /** Of a group with one start the pass keeps the first, or nothing if what it has reaches past it. */
  lemma {:induction false} GroupKeepsFirst(s: seq<Match>, g: seq<Match>, x: nat)
    requires NonEmpty(g) && forall i :: 0 <= i < |g| ==> g[i].start == x
    ensures Kept(s + g) == if g == [] || EndOf(Kept(s)) > x then Kept(s) else Kept(s) + [g[0]]
    decreases |g|
  {
    hide Kept;
    if g == [] {
      assert s + g == s;
    } else {
      var front := g[..|g| - 1];
      GroupKeepsFirst(s, front, x);
      assert (s + g)[..|s + g| - 1] == s + front;
      KeptGrows(s + g);
    }
  }

  /** The merge, built one start at a time. */
  lemma MergeStep(u: seq<Match>, x: nat)
    requires NonEmpty(u)
    ensures Merge(Before(u, x + 1))
         == if First(u, x).Some? && Reach(u, x) <= x then Merge(Before(u, x)) + [First(u, x).value]
            else Merge(Before(u, x))
    ensures First(u, x).Some? ==> First(u, x).value.start == x
  {
    hide Kept, Sort, WithKey, Before;
    SortedUpTo(u, x);
    GroupMembers(u, x as real);
    GroupKeepsFirst(SortedByStart(Before(u, x)), StartingAt(u, x), x);
  }

  // ---- the whole merge ----

  /** A position past every start. */
  function Top(u: seq<Match>): (x: nat)
    ensures forall i :: 0 <= i < |u| ==> u[i].start < x
  {
    if u == [] then 0
    else
      var x := Top(u[..|u| - 1]);
      assert forall i :: 0 <= i < |u| - 1 ==> u[i] == u[..|u| - 1][i];
      if u[|u| - 1].start < x then x else u[|u| - 1].start + 1
  }

  lemma {:induction false} BeforeTheTop(u: seq<Match>, x: nat)
    requires forall i :: 0 <= i < |u| ==> u[i].start < x
    ensures Before(u, x) == u
  {
    hide Before;
    BeforeStep(u, x);
    if u != [] {
      var front := u[..|u| - 1];
      assert forall i :: 0 <= i < |front| ==> front[i] == u[i];
      BeforeTheTop(front, x);
      assert u == front + [u[|u| - 1]];
    }
  }

  lemma {:induction false} NothingBeforeZero(u: seq<Match>)
    ensures Before(u, 0) == []
  {
    if u != [] {
      NothingBeforeZero(u[..|u| - 1]);
    }
  }

  /** Whatever survives the merge is the first match reported at its start. */
  lemma {:induction false} KeptAreFirst(u: seq<Match>, x: nat)
    requires NonEmpty(u)
    ensures forall m :: m in Merge(Before(u, x)) ==> First(u, m.start) == Some(m)
  {
    hide Before, First, Reach, Merge;
    if x == 0 {
      NothingBeforeZero(u);
      NothingMerges();
    } else {
      KeptAreFirst(u, x - 1);
      MergeStep(u, x - 1);
    }
  }

  lemma NothingMerges()
    ensures Merge([]) == []
  {
  }

  /** With two detectors, a start the first reports on is never given to the second. */
  lemma FirstDetectorLeads(u: seq<Match>, v: seq<Match>, i: nat, m: Match)
    requires NonEmpty(u + v) && i < |u| && m in Merge(u + v) && u[i].start == m.start
    ensures m in u
  {
    hide WithKey, Merge;
    var x := m.start;
    BeforeTheTop(u + v, Top(u + v));
    KeptAreFirst(u + v, Top(u + v));
    WithKeyAppend(u, v, x as real, BY_START);
    ReportedThere(u, i);
    GroupMembers(u, x as real);
  }

  lemma {:induction false} ReportedThere(u: seq<Match>, i: nat)
    requires i < |u|
    ensures StartingAt(u, u[i].start) != []
  {
    if i < |u| - 1 {
      assert u[..|u| - 1][i] == u[i];
      ReportedThere(u[..|u| - 1], i);
    }
  }

  /** `u` and `v` differ on who comes first at `x`, and whoever does survives. */
  ghost predicate Contested(u: seq<Match>, v: seq<Match>, x: nat) {
    First(u, x) != First(v, x) && Reach(u, x) <= x
  }

  lemma {:induction false} AlikeBelow(u: seq<Match>, v: seq<Match>, x: nat)
    requires NonEmpty(u) && NonEmpty(v)
    requires forall y: nat :: y < x ==> !Contested(u, v, y)
    ensures Merge(Before(u, x)) == Merge(Before(v, x))
  {
    hide Merge, Before, First;
    if x == 0 {
      NothingBeforeZero(u);
      NothingBeforeZero(v);
    } else {
      AlikeBelow(u, v, x - 1);
      MergeStep(u, x - 1);
      MergeStep(v, x - 1);
      assert !Contested(u, v, x - 1);
    }
  }

  /** Later starts only add to the merge, and only matches that start there. */
  lemma {:induction false} MergeExtends(u: seq<Match>, x: nat, z: nat)
    requires NonEmpty(u) && x <= z
    ensures var a, b := Merge(Before(u, x)), Merge(Before(u, z));
            a <= b && forall i :: |a| <= i < |b| ==> b[i].start >= x
    decreases z
  {
    hide Merge, Before, First;
    if x < z {
      MergeExtends(u, x, z - 1);
      MergeStep(u, z - 1);
    }
  }

  lemma DivergesAt(u: seq<Match>, v: seq<Match>, x: nat, z: nat)
    requires NonEmpty(u) && NonEmpty(v) && x < z
    requires Contested(u, v, x) && Merge(Before(u, x)) == Merge(Before(v, x))
    ensures Merge(Before(u, z)) != Merge(Before(v, z))
  {
    hide Merge, Before, First;
    var a := Merge(Before(u, x));
    MergeStep(u, x);
    MergeStep(v, x);
    MergeExtends(u, x + 1, z);
    MergeExtends(v, x + 1, z);
    var b, c := Merge(Before(u, z)), Merge(Before(v, z));
    assert First(u, x).Some? ==> |a| < |b| && b[|a|] == First(u, x).value;
    assert First(v, x).Some? ==> |a| < |c| && c[|a|] == First(v, x).value;
  }

  lemma {:induction false} ContestShows(u: seq<Match>, v: seq<Match>, x: nat, z: nat)
    requires NonEmpty(u) && NonEmpty(v) && x < z && Contested(u, v, x)
    ensures Merge(Before(u, z)) != Merge(Before(v, z))
    decreases x
  {
    hide Merge, Before, First, Contested;
    if y: nat :| y < x && Contested(u, v, y) {
      ContestShows(u, v, y, z);
    } else {
      AlikeBelow(u, v, x);
      DivergesAt(u, v, x, z);
    }
  }

  lemma NobodyPastTheTop(u: seq<Match>, x: nat)
    requires x >= Top(u)
    ensures First(u, x) == None
  {
    hide WithKey, Top;
    forall i | 0 <= i < |u| ensures BY_START(u[i]) != x as real {
      assert u[i].start < Top(u);
    }
    WithKeyIsEmpty(u, x as real, BY_START);
  }

  /**
   * Two reports merge alike if and only if, at every start where their first matches differ, the
   * merge of what starts earlier already reaches past it.
   */
  lemma MergesAlikeExactly(u: seq<Match>, v: seq<Match>)
    requires NonEmpty(u) && NonEmpty(v)
    ensures Merge(u) == Merge(v) <==> forall x: nat :: First(u, x) != First(v, x) ==> Reach(u, x) > x
  {
    hide Merge, Before, First, Top;
    var z := Top(u) + Top(v);
    BeforeTheTop(u, z);
    BeforeTheTop(v, z);
    if x: nat :| First(u, x) != First(v, x) && Reach(u, x) <= x {
      if x >= z {
        NobodyPastTheTop(u, x);
        NobodyPastTheTop(v, x);
      } else {
        ContestShows(u, v, x, z);
      }
    } else {
      AlikeBelow(u, v, z);
    }
  }

  // ---- any number of detectors ----

  /** What the detectors report together, in the order they ran. */
  function Flatten(reports: seq<seq<Match>>): seq<Match> {
    if reports == [] then [] else Flatten(reports[..|reports| - 1]) + reports[|reports| - 1]
  }

  /** The first match at `x` of the first detector that has one. */
  function Leader(reports: seq<seq<Match>>, x: nat): Option<Match> {
    if reports == [] then None
    else if Leader(reports[..|reports| - 1], x).Some? then Leader(reports[..|reports| - 1], x)
    else First(reports[|reports| - 1], x)
  }

  lemma {:induction false} LeaderIsFirst(reports: seq<seq<Match>>, x: nat)
    ensures First(Flatten(reports), x) == Leader(reports, x)
  {
    hide WithKey;
    if reports == [] {
      WithKeyIsEmpty([], x as real, BY_START);
    } else {
      LeaderIsFirst(reports[..|reports| - 1], x);
      WithKeyAppend(Flatten(reports[..|reports| - 1]), reports[|reports| - 1], x as real, BY_START);
    }
  }

  lemma {:induction false} FlattenIsNonEmpty(reports: seq<seq<Match>>)
    requires forall i :: 0 <= i < |reports| ==> NonEmpty(reports[i])
    ensures NonEmpty(Flatten(reports))
  {
    if reports != [] {
      FlattenIsNonEmpty(reports[..|reports| - 1]);
    }
  }

  /**
   * Any detectors in any two orders merge alike if and only if, at every start where the two orders
   * put a different match first, the matches starting earlier already reach past it.
   */
  lemma OrderMattersExactly(reports: seq<seq<Match>>, reports': seq<seq<Match>>)
    requires forall i :: 0 <= i < |reports| ==> NonEmpty(reports[i])
    requires forall i :: 0 <= i < |reports'| ==> NonEmpty(reports'[i])
    ensures Merge(Flatten(reports)) == Merge(Flatten(reports')) <==>
            forall x: nat :: Leader(reports, x) != Leader(reports', x) ==> Reach(Flatten(reports), x) > x
  {
    hide Merge, Before, First, Flatten, Leader, NonEmpty, Reach;
    FlattenIsNonEmpty(reports);
    FlattenIsNonEmpty(reports');
    forall x: nat
      ensures First(Flatten(reports), x) == Leader(reports, x) && First(Flatten(reports'), x) == Leader(reports', x)
    {
      LeaderIsFirst(reports, x);
      LeaderIsFirst(reports', x);
    }
    MergesAlikeExactly(Flatten(reports), Flatten(reports'));
  }

  lemma {:induction false} LeaderIsReported(reports: seq<seq<Match>>, x: nat)
    ensures Leader(reports, x).Some? ==> exists r :: r in reports && First(r, x) == Leader(reports, x)
    ensures Leader(reports, x).None? ==> forall r :: r in reports ==> First(r, x).None?
  {
    hide First;
    if reports != [] {
      var front, last := reports[..|reports| - 1], reports[|reports| - 1];
      LeaderIsReported(front, x);
      assert reports == front + [last];
      if Leader(front, x).Some? {
        var r :| r in front && First(r, x) == Leader(front, x);
        assert r in reports;
      } else {
        assert last in reports;
      }
    }
  }

  /** Detectors of which no two report the same start merge alike in every order. */
  lemma OrderIsIrrelevantWithoutSharedStarts(reports: seq<seq<Match>>, reports': seq<seq<Match>>)
    requires forall i :: 0 <= i < |reports| ==> NonEmpty(reports[i])
    requires multiset(reports) == multiset(reports')
    requires forall r, r', x: nat ::
               r in reports && r' in reports && First(r, x).Some? && First(r', x).Some? ==> r == r'
    ensures Merge(Flatten(reports)) == Merge(Flatten(reports'))
  {
    hide Merge, Before, First, Flatten, Leader, NonEmpty, Reach;
    forall r ensures r in reports <==> r in reports' {
      assert r in multiset(reports) <==> r in multiset(reports');
    }
    forall i | 0 <= i < |reports'| ensures NonEmpty(reports'[i]) {
      assert reports'[i] in reports;
    }
    forall x: nat ensures Leader(reports, x) == Leader(reports', x) {
      LeaderIsReported(reports, x);
      LeaderIsReported(reports', x);
    }
    OrderMattersExactly(reports, reports');
  }

  /** A shared start that earlier matches cover does no harm: the longer match before it wins either way. */
  lemma CoveredContestIsHarmless(m: Match, x: Match, y: Match)
    requires m.start < x.start == y.start < m.end && x.start < x.end && y.start < y.end
    ensures Merge([m, x] + [y]) == Merge([y] + [m, x])
  {
    hide Merge, Before, First, Reach;
    var u, v := [m, x] + [y], [y] + [m, x];
    forall z: nat | First(u, z) != First(v, z) ensures Reach(u, z) > z {
      FirstOfThree(m, x, y, z);
      ReachOfThree(m, x, y);
    }
    MergesAlikeExactly(u, v);
  }

  lemma FirstOfThree(m: Match, x: Match, y: Match, z: nat)
    requires m.start < x.start == y.start
    ensures z != x.start ==> First([m, x] + [y], z) == First([y] + [m, x], z)
  {
    hide WithKey;
    var k := z as real;
    WithKeyAppend([m], [x], k, BY_START);
    WithKeyAppend([m, x], [y], k, BY_START);
    WithKeyAppend([y], [m, x], k, BY_START);
    WithKeyOne(m, k);
    WithKeyOne(x, k);
    WithKeyOne(y, k);
    assert [m] + [x] == [m, x];
  }

  lemma ReachOfThree(m: Match, x: Match, y: Match)
    requires m.start < x.start == y.start
    ensures Reach([m, x] + [y], x.start) == m.end
  {
    var u := [m, x] + [y];
    assert u[..2] == [m, x] && u[..2][..1] == [m] && u[..2][..1][..0] == [];
    assert Before(u[..2][..1], x.start) == [m];
    assert Before(u[..2], x.start) == [m];
    assert Before(u, x.start) == [m];
    ShortListsAreKept([m]);
  }
}
