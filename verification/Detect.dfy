/**
 * Merging what the detectors found: a stable in-place sort by start, then a
 * greedy pass that drops every match starting inside one already kept.
 */
module Detect {
  import opened StableSort

  datatype Match = Match(kind: string, start: nat, end: nat, value: string)

  const BY_START: Match -> real := (m: Match) => m.start as real

  function SortedByStart(s: seq<Match>): (r: seq<Match>)
    ensures |r| == |s|
  {
    Sort(s, BY_START)
  }

  lemma Assemble(a: seq<Match>, base: seq<Match>, x: Match, rest: seq<Match>, j: nat)
    requires j <= |base| && |a| == |base| + 1 + |rest|
    requires forall t :: 0 <= t < j ==> a[t] == base[t]
    requires a[j] == x
    requires forall t :: j < t <= |base| ==> a[t] == base[t - 1]
    requires a[|base| + 1..] == rest
    ensures a == base[..j] + [x] + base[j..] + rest
  {
    assert a == a[..|base| + 1] + a[|base| + 1..];
    assert a[..|base| + 1] == base[..j] + [x] + base[j..];
  }

  /** The inner loop: swaps element `i` left until nothing before it starts later. */
  method SiftLeft(matches: array<Match>, i: nat)
    requires i < matches.Length
    modifies matches
    ensures matches[..] == Insert(old(matches[..i]), old(matches[i]), BY_START) + old(matches[i + 1..])
  {
    hide Insert;
    ghost var base, x, rest := matches[..i], matches[i], matches[i + 1..];
    var j := i;
    while j > 0 && matches[j].start < matches[j - 1].start
      invariant 0 <= j <= i
      invariant forall t :: 0 <= t < j ==> matches[t] == base[t]
      invariant matches[j] == x
      invariant forall t :: j < t <= i ==> matches[t] == base[t - 1]
      invariant matches[i + 1..] == rest
      invariant forall t :: j <= t < i ==> x.start < base[t].start
    {
      matches[j], matches[j - 1] := matches[j - 1], matches[j];
      j := j - 1;
    }
    InsertLandsAt(base, x, j, BY_START);
    Assemble(matches[..], base, x, rest, j);
  }

  method SortByStart(matches: array<Match>)
    modifies matches
    ensures matches[..] == SortedByStart(old(matches[..]))
  {
    hide Insert;
    ghost var was := matches[..];
    if matches.Length == 0 {
      return;
    }
    SortOne(was[..1], BY_START);
    var i := 1;
    while i < matches.Length
      invariant 1 <= i <= matches.Length == |was|
      invariant matches[..] == SortedByStart(was[..i]) + was[i..]
    {
      assert was[..i + 1][..i] == was[..i];
      assert matches[..i] == matches[..][..i] == SortedByStart(was[..i]);
      assert matches[i..] == matches[..][i..] == was[i..];
      assert matches[i + 1..] == matches[i..][1..] == was[i + 1..];
      SiftLeft(matches, i);
      i := i + 1;
    }
    assert was[..i] == was;
  }

  function EndOf(kept: seq<Match>): int {
    if kept == [] then -1 else kept[|kept| - 1].end
  }

  /** The positions of `s` the greedy pass keeps. */
  function KeptAt(s: seq<Match>): (r: seq<nat>)
    ensures forall i :: 0 <= i < |r| ==> r[i] < |s|
  {
    if s == [] then []
    else
      var r := KeptAt(s[..|s| - 1]);
      var end := if r == [] then -1 else s[r[|r| - 1]].end;
      if s[|s| - 1].start < end then r else r + [|s| - 1]
  }

  lemma KeptAtStep(s: seq<Match>)
    requires s != []
    ensures var r := KeptAt(s[..|s| - 1]);
            var end := if r == [] then -1 else s[r[|r| - 1]].end;
            KeptAt(s) == if s[|s| - 1].start < end then r else r + [|s| - 1]
  {
  }

  function Select(s: seq<Match>, at: seq<nat>): (r: seq<Match>)
    requires forall i :: 0 <= i < |at| ==> at[i] < |s|
  {
    seq(|at|, i requires 0 <= i < |at| => s[at[i]])
  }

  function Kept(s: seq<Match>): seq<Match> {
    Select(s, KeptAt(s))
  }

  lemma KeptIsSelected(s: seq<Match>)
    ensures |Kept(s)| == |KeptAt(s)|
    ensures forall i :: 0 <= i < |Kept(s)| ==> Kept(s)[i] == s[KeptAt(s)[i]]
    ensures forall m :: m in Kept(s) ==> m in s
  {
  }

  /** The greedy pass. */
  method KeepEarliest(matches: seq<Match>) returns (kept: seq<Match>)
    ensures kept == Kept(matches)
  {
    hide KeptAt, Select;
    kept := [];
    NothingKept(matches[..0]);
    var end: int := -1;
    for i := 0 to |matches|
      invariant kept == Kept(matches[..i])
      invariant end == EndOf(kept)
    {
      var m := matches[i];
      assert matches[..i + 1][..i] == matches[..i];
      KeptGrows(matches[..i + 1]);
      if m.start < end {
        continue;
      }
      kept := kept + [m];
      end := m.end;
    }
    assert matches[..|matches|] == matches;
  }

  /** Sorts in place, then keeps the earliest match of every overlap. */
  method WithoutOverlaps(matches: array<Match>) returns (kept: seq<Match>)
    modifies matches
    ensures kept == Kept(SortedByStart(old(matches[..])))
  {
    if matches.Length < 2 {
      ShortListsAreKept(matches[..]);
      return matches[..];
    }
    SortByStart(matches);
    kept := KeepEarliest(matches[..]);
  }

  lemma ShortListsAreKept(s: seq<Match>)
    requires |s| < 2
    ensures Kept(SortedByStart(s)) == s
  {
    if |s| == 1 {
      assert s[..0] == [];
      assert SortedByStart(s) == s;
      assert KeptAt(s[..0]) == [];
    }
  }

  lemma NothingKept(s: seq<Match>)
    requires s == []
    ensures Kept(s) == []
  {
  }

  lemma KeptGrows(s: seq<Match>)
    requires s != []
    ensures var front, m := Kept(s[..|s| - 1]), s[|s| - 1];
            Kept(s) == if m.start < EndOf(front) then front else front + [m]
  {
  }

  ghost predicate Disjoint(s: seq<Match>) {
    forall i, j :: 0 <= i < j < |s| ==> s[i].end <= s[j].start
  }

  ghost predicate Increasing(at: seq<nat>) {
    forall i, j :: 0 <= i < j < |at| ==> at[i] < at[j]
  }

  /** `s[i]` starts inside some kept match at or before it. */
  ghost predicate Covered(s: seq<Match>, at: seq<nat>, i: nat)
    requires i < |s| && forall j :: 0 <= j < |at| ==> at[j] < |s|
  {
    exists j :: 0 <= j < |at| && at[j] < i && s[at[j]].start <= s[i].start < s[at[j]].end
  }

  lemma {:induction false} KeptInOrder(s: seq<Match>)
    ensures Increasing(KeptAt(s))
  {
    if s != [] { KeptInOrder(s[..|s| - 1]); }
  }

  lemma {:induction false} KeptDisjoint(s: seq<Match>)
    requires forall i :: 0 <= i < |s| ==> s[i].start <= s[i].end
    ensures Disjoint(Kept(s))
    ensures forall i :: 0 <= i < |Kept(s)| ==> Kept(s)[i].end <= EndOf(Kept(s))
  {
    hide KeptAt, Select;
    if s == [] {
      NothingKept(s);
    } else {
      var front, m := Kept(s[..|s| - 1]), s[|s| - 1];
      KeptDisjoint(s[..|s| - 1]);
      KeptGrows(s);
      if front != [] { assert front[|front| - 1].end == EndOf(front); }
    }
  }

  lemma LastIsCovered(s: seq<Match>)
    requires Sorted(s, BY_START) && s != [] && |s| - 1 !in KeptAt(s)
    ensures Covered(s, KeptAt(s), |s| - 1)
  {
    hide KeptAt;
    var n := |s| - 1;
    var r, at := KeptAt(s[..n]), KeptAt(s);
    KeptAtStep(s);
    assert at == r by { assert at != r + [n] by { assert (r + [n])[|r|] == n; } }
    var j := |r| - 1;
    assert at[j] < n && s[at[j]].start <= s[n].start < s[at[j]].end;
  }

  lemma {:induction false} DroppedIsCovered(s: seq<Match>, i: nat)
    requires Sorted(s, BY_START) && i < |s| && i !in KeptAt(s)
    ensures Covered(s, KeptAt(s), i)
  {
    hide KeptAt;
    var n := |s| - 1;
    var front := s[..n];
    var r, at := KeptAt(front), KeptAt(s);
    if i == n {
      LastIsCovered(s);
    } else {
      KeptAtStep(s);
      assert forall j :: 0 <= j < |r| ==> at[j] == r[j];
      assert i !in r by { assert forall j :: 0 <= j < |r| ==> at[j] in at; }
      DroppedIsCovered(front, i);
      var j :| 0 <= j < |r| && r[j] < i && front[r[j]].start <= front[i].start < front[r[j]].end;
      assert at[j] < i && s[at[j]].start <= s[i].start < s[at[j]].end;
    }
  }

  /**
   * The greedy pass over sorted in-bounds spans selects positions in order, the selected spans
   * are sorted and pairwise disjoint, and every span it drops starts inside a selected one.
   */
  lemma {:induction false} KeepsDisjointCover(s: seq<Match>)
    requires Sorted(s, BY_START)
    requires forall i :: 0 <= i < |s| ==> s[i].start <= s[i].end
    ensures Increasing(KeptAt(s)) && Disjoint(Kept(s)) && Sorted(Kept(s), BY_START)
    ensures forall i :: 0 <= i < |s| ==> i in KeptAt(s) || Covered(s, KeptAt(s), i)
  {
    hide KeptAt, Covered;
    KeptInOrder(s);
    KeptDisjoint(s);
    forall i | 0 <= i < |s| && i !in KeptAt(s)
      ensures Covered(s, KeptAt(s), i)
    {
      DroppedIsCovered(s, i);
    }
  }

  /** Among non-empty matches with one start, only the one found first can be kept. */
  lemma {:induction false} FirstFoundWins(s: seq<Match>, i: nat, j: nat)
    requires Sorted(s, BY_START) && i < j < |s| && s[i].start == s[j].start
    requires forall k :: 0 <= k < |s| ==> s[k].start < s[k].end
    ensures j !in KeptAt(s)
  {
    hide KeptAt, Kept;
    var at, kept := KeptAt(s), Kept(s);
    KeptInOrder(s);
    KeptDisjoint(s);
    KeptIsSelected(s);
    if i !in at { DroppedIsCovered(s, i); }
    var a :| 0 <= a < |at| && at[a] <= i && s[i].start < s[at[a]].end;
    forall b | 0 <= b < |at|
      ensures at[b] != j
    {
      if a < b { assert kept[a].end <= kept[b].start; }
    }
  }

  /** Two detectors that never report the same start merge the same way in either order. */
  lemma {:induction false} MergeOrderIsIrrelevant(a: seq<Match>, b: seq<Match>)
    requires forall x, y :: x in a && y in b ==> x.start != y.start
    ensures Kept(SortedByStart(a + b)) == Kept(SortedByStart(b + a))
  {
    hide WithKey, Sort, Kept;
    var s, t := SortedByStart(a + b), SortedByStart(b + a);
    forall k: real
      ensures WithKey(s, k, BY_START) == WithKey(t, k, BY_START)
    {
      SortIsStable(a + b, k, BY_START);
      SortIsStable(b + a, k, BY_START);
      WithKeyAppend(a, b, k, BY_START);
      WithKeyAppend(b, a, k, BY_START);
      if exists x :: x in a && BY_START(x) == k {
        WithKeyIsEmpty(b, k, BY_START);
      } else {
        WithKeyIsEmpty(a, k, BY_START);
      }
    }
    SortSorts(a + b, BY_START);
    SortSorts(b + a, BY_START);
    StableSortIsUnique(s, t, BY_START);
  }

  /** With a shared start the order the detectors ran in decides which kind is reported. */
  lemma SharedStartsDependOnOrder()
    ensures var a, b := Match("EMIRATES_ID", 0, 2, "ab"), Match("CARD", 0, 2, "ab");
            Kept(SortedByStart([a] + [b])) == [a] && Kept(SortedByStart([b] + [a])) == [b]
  {
    var a, b := Match("EMIRATES_ID", 0, 2, "ab"), Match("CARD", 0, 2, "ab");
    KeptOfPair(a, b);
    KeptOfPair(b, a);
  }

  lemma KeptOfPair(a: Match, b: Match)
    requires a.start == b.start < a.end
    ensures Kept(SortedByStart([a] + [b])) == [a]
  {
    assert [a, b][..1] == [a];
    SortOne([a], BY_START);
    assert SortedByStart([a, b]) == [a, b];
    ShortListsAreKept([a]);
    KeptGrows([a, b]);
    assert [a] + [b] == [a, b];
  }

  /** Spans that can be replaced left to right in a text of length `len`. */
  ghost predicate Replaceable(s: seq<Match>, len: nat) {
    && (forall i :: 0 <= i < |s| ==> s[i].start <= s[i].end <= len)
    && Disjoint(s)
  }

  /** Whatever in-bounds spans the detectors report, in any order, the merged list is replaceable. */
  lemma MergedIsReplaceable(found: seq<Match>, len: nat)
    requires forall i :: 0 <= i < |found| ==> found[i].start <= found[i].end <= len
    ensures Replaceable(Kept(SortedByStart(found)), len)
    ensures forall m :: m in Kept(SortedByStart(found)) ==> m in found
  {
    hide Sort, KeptAt, Kept;
    var s := SortedByStart(found);
    SortSorts(found, BY_START);
    assert forall i :: 0 <= i < |s| ==> s[i] in s;
    KeptDisjoint(s);
    KeptIsSelected(s);
  }
}
