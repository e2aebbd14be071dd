/** Stable insertion sort by a real-valued key, and what makes its result unique. */
module StableSort {

  ghost predicate Sorted<T>(s: seq<T>, key: T -> real) {
    forall i, j :: 0 <= i < j < |s| ==> key(s[i]) <= key(s[j])
  }

  /** The elements of `s` with key `k`, in their order. */
  function WithKey<T>(s: seq<T>, k: real, key: T -> real): seq<T> {
    if s == [] then []
    else WithKey(s[..|s| - 1], k, key) + if key(s[|s| - 1]) == k then [s[|s| - 1]] else []
  }

  lemma WithKeyStep<T>(s: seq<T>, k: real, key: T -> real)
    requires s != []
    ensures WithKey(s, k, key) == WithKey(s[..|s| - 1], k, key) + if key(s[|s| - 1]) == k then [s[|s| - 1]] else []
  {
  }

  /** `x` moved left past every element of a greater key at the end of `s`. */
  function Insert<T>(s: seq<T>, x: T, key: T -> real): (r: seq<T>)
    ensures |r| == |s| + 1
  {
    if s != [] && key(x) < key(s[|s| - 1])
    then Insert(s[..|s| - 1], x, key) + [s[|s| - 1]]
    else s + [x]
  }

  function Sort<T>(s: seq<T>, key: T -> real): (r: seq<T>)
    ensures |r| == |s|
  {
    if s == [] then [] else Insert(Sort(s[..|s| - 1], key), s[|s| - 1], key)
  }

  /** Insertion puts `x` at the only place where nothing before it has a greater key. */
  lemma {:induction false} InsertLandsAt<T>(s: seq<T>, x: T, j: nat, key: T -> real)
    requires j <= |s|
    requires forall t :: j <= t < |s| ==> key(x) < key(s[t])
    requires j > 0 ==> key(s[j - 1]) <= key(x)
    ensures Insert(s, x, key) == s[..j] + [x] + s[j..]
  {
    if j < |s| {
      var front := s[..|s| - 1];
      InsertLandsAt(front, x, j, key);
      assert front[..j] == s[..j] && front[j..] + [s[|s| - 1]] == s[j..];
    }
  }

  lemma SortOne<T>(s: seq<T>, key: T -> real)
    requires |s| == 1
    ensures Sort(s, key) == s
  {
    assert s[..0] == [];
  }

  lemma {:induction false} WithKeyAppend<T>(s: seq<T>, t: seq<T>, k: real, key: T -> real)
    ensures WithKey(s + t, k, key) == WithKey(s, k, key) + WithKey(t, k, key)
    decreases |t|
  {
    if t == [] {
      assert s + t == s;
    } else {
      assert (s + t)[..|s + t| - 1] == s + t[..|t| - 1];
      WithKeyAppend(s, t[..|t| - 1], k, key);
    }
  }

  lemma {:induction false} InsertKeepsOrder<T>(s: seq<T>, x: T, key: T -> real)
    requires Sorted(s, key)
    ensures Sorted(Insert(s, x, key), key)
    ensures forall y :: y in Insert(s, x, key) ==> y == x || y in s
  {
    if s != [] && key(x) < key(s[|s| - 1]) {
      var front := s[..|s| - 1];
      InsertKeepsOrder(front, x, key);
      var r := Insert(front, x, key);
      assert forall i :: 0 <= i < |r| ==> r[i] in r;
      assert forall y :: y in r ==> key(y) <= key(s[|s| - 1]);
    }
  }

  lemma {:induction false} InsertIsStable<T>(s: seq<T>, x: T, k: real, key: T -> real)
    ensures WithKey(Insert(s, x, key), k, key) == WithKey(s, k, key) + WithKey([x], k, key)
  {
    hide WithKey;
    if s != [] && key(x) < key(s[|s| - 1]) {
      var front, y := s[..|s| - 1], s[|s| - 1];
      InsertIsStable(front, x, k, key);
      assert s == front + [y];
      WithKeyAppend(Insert(front, x, key), [y], k, key);
      WithKeyAppend(front, [y], k, key);
      Singletons(x, y, k, key);
      var f, xs, ys := WithKey(front, k, key), WithKey([x], k, key), WithKey([y], k, key);
      assert (f + xs) + ys == f + (xs + ys) == f + (ys + xs) == (f + ys) + xs;
    } else {
      WithKeyAppend(s, [x], k, key);
    }
  }

  lemma Singletons<T>(x: T, y: T, k: real, key: T -> real)
    requires key(x) != key(y)
    ensures WithKey([x], k, key) + WithKey([y], k, key) == WithKey([y], k, key) + WithKey([x], k, key)
  {
    assert [x][..0] == [] && [y][..0] == [];
  }

  lemma {:induction false} InsertAdds<T>(s: seq<T>, x: T, key: T -> real)
    ensures multiset(Insert(s, x, key)) == multiset(s) + multiset{x}
  {
    if s != [] && key(s[|s| - 1]) > key(x) {
      InsertAdds(s[..|s| - 1], x, key);
      assert s == s[..|s| - 1] + [s[|s| - 1]];
    }
  }

  lemma {:induction false} SortPermutes<T>(s: seq<T>, key: T -> real)
    ensures multiset(Sort(s, key)) == multiset(s)
  {
    hide Insert;
    if s != [] {
      SortPermutes(s[..|s| - 1], key);
      InsertAdds(Sort(s[..|s| - 1], key), s[|s| - 1], key);
      assert s == s[..|s| - 1] + [s[|s| - 1]];
    }
  }

  lemma {:induction false} SortSorts<T>(s: seq<T>, key: T -> real)
    ensures Sorted(Sort(s, key), key)
    ensures forall y :: y in Sort(s, key) ==> y in s
  {
    hide Insert;
    if s != [] {
      SortSorts(s[..|s| - 1], key);
      InsertKeepsOrder(Sort(s[..|s| - 1], key), s[|s| - 1], key);
    }
  }

  /** The sort orders by key and keeps, at every key, the order the elements came in. */
  lemma {:induction false} SortIsStable<T>(s: seq<T>, k: real, key: T -> real)
    ensures Sorted(Sort(s, key), key)
    ensures WithKey(Sort(s, key), k, key) == WithKey(s, k, key)
  {
    hide Insert, WithKey;
    SortSorts(s, key);
    if s != [] {
      var front, x := s[..|s| - 1], s[|s| - 1];
      SortIsStable(front, k, key);
      InsertIsStable(Sort(front, key), x, k, key);
      WithKeyAppend(front, [x], k, key);
      assert s == front + [x];
    }
  }

  lemma {:induction false} WithKeyIsEmpty<T>(s: seq<T>, k: real, key: T -> real)
    requires forall i :: 0 <= i < |s| ==> key(s[i]) != k
    ensures WithKey(s, k, key) == []
  {
    if s != [] { WithKeyIsEmpty(s[..|s| - 1], k, key); }
  }

  lemma {:induction false} LastKeyIsGreatest<T>(s: seq<T>, t: seq<T>, key: T -> real)
    requires s != [] && Sorted(s, key) && Sorted(t, key)
    requires forall k :: WithKey(s, k, key) == WithKey(t, k, key)
    ensures t != [] && key(t[|t| - 1]) >= key(s[|s| - 1])
  {
    hide WithKey;
    var k := key(s[|s| - 1]);
    WithKeyStep(s, k, key);
    assert WithKey(t, k, key) == WithKey(s, k, key) != [];
    if t == [] || key(t[|t| - 1]) < k { WithKeyIsEmpty(t, k, key); }
  }

  lemma LastOf<T>(s: seq<T>, x: T, t: seq<T>, y: T)
    requires s + [x] == t + [y]
    ensures s == t && x == y
  {
    assert (s + [x])[|s|] == x && (t + [y])[|t|] == y;
    assert s == (s + [x])[..|s|] && t == (t + [y])[..|t|];
  }

  lemma {:induction false} FrontsAgree<T>(s: seq<T>, t: seq<T>, k: real, key: T -> real)
    requires s != [] && t != [] && key(s[|s| - 1]) == key(t[|t| - 1])
    requires WithKey(s, k, key) == WithKey(t, k, key)
    ensures WithKey(s[..|s| - 1], k, key) == WithKey(t[..|t| - 1], k, key)
    ensures k == key(s[|s| - 1]) ==> s[|s| - 1] == t[|t| - 1]
  {
    hide WithKey;
    WithKeyStep(s, k, key);
    WithKeyStep(t, k, key);
    var a, b := WithKey(s[..|s| - 1], k, key), WithKey(t[..|t| - 1], k, key);
    if k == key(s[|s| - 1]) {
      LastOf(a, s[|s| - 1], b, t[|t| - 1]);
    } else {
      assert a + [] == a && b + [] == b;
    }
  }

  /** Sortedness and the per-key order determine the result: there is only one stable sort. */
  lemma {:induction false} StableSortIsUnique<T>(s: seq<T>, t: seq<T>, key: T -> real)
    requires Sorted(s, key) && Sorted(t, key)
    requires forall k :: WithKey(s, k, key) == WithKey(t, k, key)
    ensures s == t
  {
    if s == [] {
      if t != [] { LastKeyIsGreatest(t, s, key); }
    } else {
      LastKeyIsGreatest(s, t, key);
      LastKeyIsGreatest(t, s, key);
      var s', t', x, y := s[..|s| - 1], t[..|t| - 1], s[|s| - 1], t[|t| - 1];
      FrontsAgree(s, t, key(x), key);
      forall k: real
        ensures WithKey(s', k, key) == WithKey(t', k, key)
      {
        FrontsAgree(s, t, k, key);
      }
      StableSortIsUnique(s', t', key);
      assert s == s' + [x] && t == t' + [y];
    }
  }
}
