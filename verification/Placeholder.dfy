/**
 * The placeholder grammar  [[NAME_digits]]  and its substitution, which is what
 * both Restore and the streaming Restorer apply to a response.
 *
 * Go strings are byte strings; a byte is a `char` here.  The regular expression
 * is given as a predicate on strings, and ReplaceAllStringFunc as a left-to-right
 * scan.  The fact everything rests on is that two occurrences never overlap: a
 * placeholder's body holds neither bracket.
 */
module Placeholder {
  import opened Decimal

  type Replacements = map<string, string>

  predicate IsNameChar(c: char) {
    'A' <= c <= 'Z' || c == '_'
  }

  /** Two opening brackets, a name, an underscore at `k`, digits, two closing brackets. */
  predicate ShapedAround(p: string, k: nat) {
    && 3 <= k < |p| - 3
    && p[0] == '[' && p[1] == '['
    && (forall i :: 2 <= i < k ==> IsNameChar(p[i]))
    && p[k] == '_'
    && (forall i :: k < i < |p| - 2 ==> IsDigit(p[i]))
    && p[|p| - 2] == ']' && p[|p| - 1] == ']'
  }

  predicate IsPlaceholder(p: string) {
    exists k: nat :: k < |p| && ShapedAround(p, k)
  }

  /** `s[a..a+n]` is a placeholder. */
  predicate OccursAt(s: string, a: nat, n: nat) {
    a + n <= |s| && IsPlaceholder(s[a..a + n])
  }

  lemma BodyHasNoBrackets(p: string)
    requires IsPlaceholder(p)
    ensures |p| >= 7 && p[0] == '[' && p[1] == '[' && p[|p| - 2] == ']' && p[|p| - 1] == ']'
    ensures forall i :: 2 <= i < |p| - 2 ==> p[i] != '[' && p[i] != ']'
  {
    var k: nat :| k < |p| && ShapedAround(p, k);
    forall i | 2 <= i < |p| - 2
      ensures p[i] != '[' && p[i] != ']'
    {
      assert i < k || i == k || k < i;
    }
  }

  /** The first closing bracket at or after `i`, or the end. */
  function CloseFrom(s: string, i: nat): (e: nat)
    requires i <= |s|
    ensures i <= e <= |s|
    ensures forall j :: i <= j < e ==> s[j] != ']'
    ensures e < |s| ==> s[e] == ']'
    decreases |s| - i
  {
    if i == |s| || s[i] == ']' then i else CloseFrom(s, i + 1)
  }

  /** The length of the placeholder `s` begins with, or 0. */
  function MatchLen(s: string): (n: nat)
    ensures n <= |s|
    ensures n > 0 ==> IsPlaceholder(s[..n])
  {
    if |s| < 2 || s[0] != '[' || s[1] != '[' then 0
    else
      var e := CloseFrom(s, 2);
      if e + 2 <= |s| && IsPlaceholder(s[..e + 2]) then e + 2 else 0
  }

  /** The scan finds a placeholder exactly when there is one, and its length is forced. */
  lemma MatchLenComplete(s: string, n: nat)
    requires n <= |s| && IsPlaceholder(s[..n])
    ensures MatchLen(s) == n
  {
    var p := s[..n];
    BodyHasNoBrackets(p);
    var e := CloseFrom(s, 2);
    assert forall i :: 0 <= i < n ==> p[i] == s[i];
    assert e == n - 2;
  }

  /** Two occurrences that share a position are the same occurrence. */
  lemma NoOverlap(s: string, a: nat, n: nat, b: nat, k: nat)
    requires OccursAt(s, a, n) && OccursAt(s, b, k)
    requires a <= b < a + n
    ensures a == b && n == k
  {
    var p, q := s[a..a + n], s[b..b + k];
    BodyHasNoBrackets(p);
    BodyHasNoBrackets(q);
    assert q[0] == s[b] == p[b - a] && q[1] == s[b + 1];
    assert p[2] == s[a + 2];
    assert a == b;
    assert s[a..][..n] == p && s[a..][..k] == q;
    MatchLenComplete(s[a..], n);
    MatchLenComplete(s[a..], k);
  }

  function Lookup(p: string, m: Replacements): string {
    if p in m then m[p] else p
  }

  /** Replaces every placeholder, left to right; everything else is copied. */
  function Substitute(s: string, m: Replacements): string {
    if s == [] then []
    else
      var n := MatchLen(s);
      if n > 0 then Lookup(s[..n], m) + Substitute(s[n..], m)
      else [s[0]] + Substitute(s[1..], m)
  }

  /** One step of the scan. */
  lemma SubstituteStep(s: string, m: Replacements)
    requires s != []
    ensures var n := MatchLen(s);
            Substitute(s, m) == if n > 0 then Lookup(s[..n], m) + Substitute(s[n..], m)
                                else [s[0]] + Substitute(s[1..], m)
  {
  }

  lemma SubstituteNothing(m: Replacements)
    ensures Substitute([], m) == []
  {
  }

  /** Placeholders in `s` that `m` never issued. */
  function Misses(s: string, m: Replacements): nat {
    if s == [] then 0
    else
      var n := MatchLen(s);
      if n > 0 then (if s[..n] in m then 0 else 1) + Misses(s[n..], m)
      else Misses(s[1..], m)
  }

  function Restore(payload: string, m: Replacements): string {
    if |m| == 0 then payload else Substitute(payload, m)
  }

  /** Every placeholder of `s` across the cut `c` is one `m` leaves as it is. */
  ghost predicate HarmlessCut(s: string, c: nat, m: Replacements) {
    forall a: nat, n: nat :: OccursAt(s, a, n) ==> c <= a || a + n <= c || Lookup(s[a..a + n], m) == s[a..a + n]
  }

  lemma OccursInSuffix(s: string, k: nat, a: nat, n: nat)
    requires k <= |s| && OccursAt(s[k..], a, n)
    ensures OccursAt(s, a + k, n) && s[a + k..a + k + n] == s[k..][a..a + n]
  {
    assert s[k..][a..a + n] == s[a + k..a + k + n];
  }

  lemma HarmlessSuffix(s: string, c: nat, m: Replacements, k: nat)
    requires k <= c <= |s| && HarmlessCut(s, c, m)
    ensures HarmlessCut(s[k..], c - k, m)
  {
    forall a: nat, n: nat | OccursAt(s[k..], a, n)
      ensures OccursAt(s, a + k, n) && s[a + k..a + k + n] == s[k..][a..a + n]
    {
      OccursInSuffix(s, k, a, n);
    }
  }

  /** A prefix that is cut inside its first placeholder holds none. */
  lemma MatchLenOfPrefix(s: string, c: nat)
    requires c <= |s|
    ensures MatchLen(s[..c]) == (if MatchLen(s) <= c then MatchLen(s) else 0)
  {
    var n, k := MatchLen(s), MatchLen(s[..c]);
    if k > 0 {
      assert s[..c][..k] == s[..k];
      MatchLenComplete(s, k);
    }
    if 0 < n <= c {
      assert s[..c][..n] == s[..n];
      MatchLenComplete(s[..c], n);
    }
  }

  /** Inside a placeholder, no placeholder begins. */
  lemma NoMatchInside(p: string, c: nat, s: string)
    requires IsPlaceholder(p) && 1 <= c < |p|
    requires p[c..] <= s || s <= p[c..]
    ensures MatchLen(s) == 0
  {
    BodyHasNoBrackets(p);
    if |s| >= 2 {
      assert s[0] == p[c];
      assert c == 1 ==> s[1] == p[2];
    }
  }

  /** What remains of a placeholder cut inside is copied. */
  lemma {:induction false} TailIsCopied(p: string, c: nat, rest: string, m: Replacements)
    requires IsPlaceholder(p) && 1 <= c <= |p|
    ensures Substitute(p[c..] + rest, m) == p[c..] + Substitute(rest, m)
    decreases |p| - c
  {
    hide MatchLen, IsPlaceholder, Substitute;
    var s := p[c..] + rest;
    if c == |p| {
      assert s == rest && p[c..] == [];
    } else {
      NoMatchInside(p, c, s);
      SubstituteStep(s, m);
      assert s[0] == p[c] && s[1..] == p[c + 1..] + rest;
      TailIsCopied(p, c + 1, rest, m);
      assert p[c..] == [p[c]] + p[c + 1..];
    }
  }

  /** A proper prefix of a placeholder is copied. */
  lemma {:induction false} HeadIsCopied(p: string, c: nat, m: Replacements)
    requires IsPlaceholder(p) && c < |p|
    ensures Substitute(p[..c], m) == p[..c]
  {
    hide MatchLen, IsPlaceholder;
    if c > 0 {
      assert p[..|p|] == p;
      MatchLenComplete(p, |p|);
      MatchLenOfPrefix(p, c);
      PlainTail(p, 1, c, m);
      assert p[..c][1..] == p[1..c];
    }
  }

  lemma {:induction false} PlainTail(p: string, i: nat, c: nat, m: Replacements)
    requires IsPlaceholder(p) && 1 <= i <= c < |p|
    ensures Substitute(p[i..c], m) == p[i..c]
    decreases c - i
  {
    hide MatchLen, IsPlaceholder;
    if i < c {
      var s := p[i..c];
      assert s == p[i..][..c - i];
      NoMatchInside(p, i, s);
      PlainTail(p, i + 1, c, m);
      assert s[1..] == p[i + 1..c];
    }
  }

  /** A cut inside a placeholder that is left as it is does no harm. */
  lemma SplitInside(s: string, c: nat, m: Replacements)
    requires 0 < c < MatchLen(s)
    requires Lookup(s[..MatchLen(s)], m) == s[..MatchLen(s)]
    ensures Substitute(s, m) == Substitute(s[..c], m) + Substitute(s[c..], m)
  {
    hide *;
    var n := MatchLen(s);
    var p, rest := s[..n], s[n..];
    HeadIsCopied(p, c, m);
    TailIsCopied(p, c, rest, m);
    assert p[..c] == s[..c];
    assert p[c..] + rest == s[c..];
    SubstituteStep(s, m);
    assert p == p[..c] + p[c..];
  }

  lemma HarmlessFront(s: string, c: nat, m: Replacements)
    requires HarmlessCut(s, c, m) && 0 < c < MatchLen(s)
    ensures Lookup(s[..MatchLen(s)], m) == s[..MatchLen(s)]
  {
    hide MatchLen, IsPlaceholder, Lookup;
    var n := MatchLen(s);
    assert s[0..n] == s[..n];
    assert OccursAt(s, 0, n);
  }

  /** Substitution distributes over every harmless cut. */
  lemma {:induction false} SubstituteSplit(s: string, c: nat, m: Replacements)
    requires c <= |s| && HarmlessCut(s, c, m)
    ensures Substitute(s, m) == Substitute(s[..c], m) + Substitute(s[c..], m)
    decreases |s|
  {
    hide *;
    if c == 0 {
      assert s[..0] == [] && s[0..] == s;
      SubstituteNothing(m);
    } else if MatchLen(s) > c {
      HarmlessFront(s, c, m);
      SplitInside(s, c, m);
    } else {
      var k := Width(s);
      FrontOfPrefix(s, c, m);
      FrontStep(s, m);
      FrontStep(s[..c], m);
      HarmlessSuffix(s, c, m, k);
      SubstituteSplit(s[k..], c - k, m);
      assert s[..c][k..] == s[k..][..c - k];
      assert s[k..][c - k..] == s[c..];
      var head, a, b := Front(s, m), Substitute(s[k..][..c - k], m), Substitute(s[c..], m);
      assert head + (a + b) == head + a + b;
    }
  }

  /** How much of `s` one step of the scan consumes, and what it puts out for it. */
  function Width(s: string): (w: nat)
    ensures w > 0
  {
    if MatchLen(s) > 0 then MatchLen(s) else 1
  }

  function Front(s: string, m: Replacements): string
    requires s != []
  {
    if MatchLen(s) > 0 then Lookup(s[..MatchLen(s)], m) else [s[0]]
  }

  lemma FrontStep(s: string, m: Replacements)
    requires s != []
    ensures Width(s) <= |s| && Substitute(s, m) == Front(s, m) + Substitute(s[Width(s)..], m)
  {
    hide MatchLen, Substitute;
    SubstituteStep(s, m);
  }

  lemma FrontOfPrefix(s: string, c: nat, m: Replacements)
    requires 0 < c <= |s| && MatchLen(s) <= c
    ensures Width(s) <= c && Width(s[..c]) == Width(s) && Front(s[..c], m) == Front(s, m)
  {
    hide MatchLen;
    MatchLenOfPrefix(s, c);
    var n := MatchLen(s);
    assert s[..c][..n] == s[..n];
  }

  /** Every placeholder of `s` across the cut `c` is one `m` issued. */
  ghost predicate IssuedCut(s: string, c: nat, m: Replacements) {
    forall a: nat, n: nat :: OccursAt(s, a, n) ==> c <= a || a + n <= c || s[a..a + n] in m
  }

  lemma MissesStep(s: string, m: Replacements)
    requires s != []
    ensures var n := MatchLen(s);
            Misses(s, m) == if n > 0 then (if s[..n] in m then 0 else 1) + Misses(s[n..], m) else Misses(s[1..], m)
  {
  }

  lemma NoMisses(m: Replacements)
    ensures Misses([], m) == 0
  {
  }

  lemma IssuedSuffix(s: string, c: nat, m: Replacements, k: nat)
    requires k <= c <= |s| && IssuedCut(s, c, m)
    ensures IssuedCut(s[k..], c - k, m)
  {
    forall a: nat, n: nat | OccursAt(s[k..], a, n)
      ensures OccursAt(s, a + k, n) && s[a + k..a + k + n] == s[k..][a..a + n]
    {
      OccursInSuffix(s, k, a, n);
    }
  }

  /** The rest of a placeholder cut inside counts for nothing. */
  lemma {:induction false} TailIsNoMiss(p: string, c: nat, rest: string, m: Replacements)
    requires IsPlaceholder(p) && 1 <= c <= |p|
    ensures Misses(p[c..] + rest, m) == Misses(rest, m)
    decreases |p| - c
  {
    hide MatchLen, IsPlaceholder, Misses;
    var s := p[c..] + rest;
    if c == |p| {
      assert s == rest;
    } else {
      NoMatchInside(p, c, s);
      MissesStep(s, m);
      assert s[1..] == p[c + 1..] + rest;
      TailIsNoMiss(p, c + 1, rest, m);
    }
  }

  lemma {:induction false} PlainIsNoMiss(p: string, i: nat, c: nat, m: Replacements)
    requires IsPlaceholder(p) && 1 <= i <= c < |p|
    ensures Misses(p[i..c], m) == 0
    decreases c - i
  {
    hide MatchLen, IsPlaceholder, Misses;
    var s := p[i..c];
    if i == c {
      NoMisses(m);
    } else {
      assert s == p[i..][..c - i];
      NoMatchInside(p, i, s);
      MissesStep(s, m);
      PlainIsNoMiss(p, i + 1, c, m);
      assert s[1..] == p[i + 1..c];
    }
  }

  /** So does its front. */
  lemma HeadIsNoMiss(p: string, c: nat, m: Replacements)
    requires IsPlaceholder(p) && c < |p|
    ensures Misses(p[..c], m) == 0
  {
    hide MatchLen, IsPlaceholder, Misses;
    NoMisses(m);
    if c > 0 {
      assert p[..|p|] == p;
      MatchLenComplete(p, |p|);
      MatchLenOfPrefix(p, c);
      MissesStep(p[..c], m);
      PlainIsNoMiss(p, 1, c, m);
      assert p[..c][1..] == p[1..c];
    }
  }

  /** Counting misses distributes over every cut that splits none of them. */
  lemma {:induction false} MissesSplit(s: string, c: nat, m: Replacements)
    requires c <= |s| && IssuedCut(s, c, m)
    ensures Misses(s, m) == Misses(s[..c], m) + Misses(s[c..], m)
    decreases |s|
  {
    hide MatchLen, IsPlaceholder, Misses;
    var n := MatchLen(s);
    if c == 0 {
      assert s[..0] == [] && s[0..] == s;
      NoMisses(m);
    } else if n > c {
      var p, rest := s[..n], s[n..];
      assert s[0..n] == p && OccursAt(s, 0, n);
      MissesStep(s, m);
      HeadIsNoMiss(p, c, m);
      TailIsNoMiss(p, c, rest, m);
      assert p[..c] == s[..c] && p[c..] + rest == s[c..];
    } else {
      var k := if n > 0 then n else 1;
      MatchLenOfPrefix(s, c);
      IssuedSuffix(s, c, m, k);
      MissesSplit(s[k..], c - k, m);
      MissesStep(s, m);
      MissesStep(s[..c], m);
      assert s[..c][..k] == s[..k];
      assert s[..c][k..] == s[k..][..c - k];
      assert s[k..][c - k..] == s[c..];
    }
  }

  /** A placeholder between two texts is replaced by its own original and touches neither. */
  lemma SubstituteAround(gap: string, p: string, rest: string, m: Replacements)
    requires IsPlaceholder(p)
    ensures Substitute(gap + p + rest, m) == Substitute(gap, m) + Lookup(p, m) + Substitute(rest, m)
  {
    hide MatchLen, IsPlaceholder, Substitute, Lookup;
    var s := gap + p + rest;
    assert s[|gap|..|gap| + |p|] == p;
    assert OccursAt(s, |gap|, |p|);
    forall a: nat, n: nat | OccursAt(s, a, n)
      ensures |gap| <= a || a + n <= |gap|
    {
      if a < |gap| < a + n { NoOverlap(s, a, n, |gap|, |p|); }
    }
    SubstituteSplit(s, |gap|, m);
    assert s[..|gap|] == gap && s[|gap|..] == p + rest;
    SubstituteFront(p, rest, m);
    var a, b, c := Substitute(gap, m), Lookup(p, m), Substitute(rest, m);
    assert a + (b + c) == a + b + c;
  }

  lemma SubstituteFront(p: string, rest: string, m: Replacements)
    requires IsPlaceholder(p)
    ensures Substitute(p + rest, m) == Lookup(p, m) + Substitute(rest, m)
  {
    hide MatchLen, IsPlaceholder, Substitute, Lookup;
    assert (p + rest)[..|p|] == p && (p + rest)[|p|..] == rest;
    MatchLenComplete(p + rest, |p|);
    assert p != [] by { BodyHasNoBrackets(p); }
    SubstituteStep(p + rest, m);
  }

  /** The grammar at its edges: a name, an underscore and a number, in double brackets. */
  lemma GrammarAdmits()
    ensures IsPlaceholder("[[A_1]]") && IsPlaceholder("[[__0]]") && IsPlaceholder("[[Z_9]]")
    ensures IsPlaceholder("[[A_B_12]]")
  {
    assert ShapedAround("[[A_1]]", 3) && ShapedAround("[[__0]]", 3) && ShapedAround("[[Z_9]]", 3);
    assert ShapedAround("[[A_B_12]]", 5);
  }

  /** Nothing less will do: no name, no number, no underscore, another letter, a bracket missing. */
  lemma GrammarRefuses()
    ensures !IsPlaceholder("[[_1]]") && !IsPlaceholder("[[A_]]") && !IsPlaceholder("[[A1]]")
    ensures !IsPlaceholder("[A_1]]") && !IsPlaceholder("[[A_1]") && !IsPlaceholder("[[a_1]]")
  {
    var lower := "[[a_1]]";
    assert lower[2] == 'a' && !IsNameChar('a');
  }
}
