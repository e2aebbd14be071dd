/**
 * Replacing detected values, and getting them back.
 *
 * Tokenising and then restoring is the identity for every payload and every
 * mergeable list of matches whose unmatched text holds no placeholder issued for
 * it and whose kinds the placeholder grammar admits.  When no value begins with an
 * opening bracket and no kind holds a closing one, both conditions are also necessary.
 */
module Tokenise {
  import opened Decimal
  import opened Placeholder
  import opened Detect

  datatype Strategy = NoStrategy | Redact | Hash | Tokenize

  datatype Outcome = Outcome(payload: string, replacements: Replacements, count: nat)

  function Issue(kind: string, n: nat): string {
    "[[" + kind + "_" + Digits(n) + "]]"
  }

  function CountKind(s: seq<Match>, kind: string): nat {
    if s == [] then 0
    else CountKind(s[..|s| - 1], kind) + if s[|s| - 1].kind == kind then 1 else 0
  }

  lemma CountKindStep(s: seq<Match>, i: nat)
    requires i < |s|
    ensures forall k :: CountKind(s[..i + 1], k) == CountKind(s[..i], k) + if s[i].kind == k then 1 else 0
  {
    assert s[..i + 1][..i] == s[..i];
  }

  /** What stands in the output for match `i`; `digest` is the keyed, truncated hash. */
  function TokenOf(s: seq<Match>, i: nat, strategy: Strategy, digest: string -> string): string
    requires i < |s|
  {
    match strategy
    case NoStrategy => s[i].value
    case Hash => "[[" + s[i].kind + "_" + digest(s[i].value) + "]]"
    case _ => Issue(s[i].kind, CountKind(s[..i + 1], s[i].kind))
  }

  function Tokens(s: seq<Match>, strategy: Strategy, digest: string -> string): (r: seq<string>)
    ensures |r| == |s|
  {
    seq(|s|, i requires 0 <= i < |s| => TokenOf(s, i, strategy, digest))
  }

  function EndAt(s: seq<Match>, k: nat): nat
    requires k <= |s|
  {
    if k == 0 then 0 else s[k - 1].end
  }

  /** The unmatched text before match `k`, or after the last one. */
  function Gap(text: string, s: seq<Match>, k: nat): string
    requires Replaceable(s, |text|) && k <= |s|
  {
    text[EndAt(s, k)..if k < |s| then s[k].start else |text|]
  }

  /** The output up to and including the token of match `k - 1`. */
  function Spliced(text: string, s: seq<Match>, tokens: seq<string>, k: nat): string
    requires Replaceable(s, |text|) && k <= |s| == |tokens|
  {
    if k == 0 then [] else Spliced(text, s, tokens, k - 1) + Gap(text, s, k - 1) + tokens[k - 1]
  }

  function SplicedAll(text: string, s: seq<Match>, tokens: seq<string>): string
    requires Replaceable(s, |text|) && |s| == |tokens|
  {
    Spliced(text, s, tokens, |s|) + Gap(text, s, |s|)
  }

  /** Each of the first `k` tokens with the value it stands for. */
  function Originals(s: seq<Match>, tokens: seq<string>, k: nat): Replacements
    requires k <= |s| == |tokens|
  {
    if k == 0 then map[] else Originals(s, tokens, k - 1)[tokens[k - 1] := s[k - 1].value]
  }

  method TransformMatches(payload: string, matches: seq<Match>, strategy: Strategy, digest: string -> string)
    returns (r: Outcome)
    requires Replaceable(matches, |payload|)
    ensures r == if strategy == NoStrategy || matches == [] then Outcome(payload, map[], 0)
                 else
                   var tokens := Tokens(matches, strategy, digest);
                   Outcome(SplicedAll(payload, matches, tokens),
                           if strategy == Tokenize then Originals(matches, tokens, |matches|) else map[],
                           |matches|)
  {
    hide CountKind, Issue, Spliced, Originals;
    if strategy == NoStrategy || matches == [] {
      return Outcome(payload, map[], 0);
    }
    NoneCounted(matches[..0]);
    NoneSpliced(payload, matches, Tokens(matches, strategy, digest));
    ghost var tokens := Tokens(matches, strategy, digest);
    var out: string := [];
    var replacements: Replacements := map[];
    var counters: map<string, nat> := map[];
    var last := 0;
    for i := 0 to |matches|
      invariant last == EndAt(matches, i)
      invariant out == Spliced(payload, matches, tokens, i)
      invariant replacements == if strategy == Tokenize then Originals(matches, tokens, i) else map[]
      invariant strategy != Hash ==>
                  forall k :: (if k in counters then counters[k] else 0) == CountKind(matches[..i], k)
    {
      var m := matches[i];
      CountKindStep(matches, i);
      SpliceStep(payload, matches, tokens, i);
      assert tokens[i] == TokenOf(matches, i, strategy, digest);
      out := out + payload[last..m.start];
      if strategy == Hash {
        out := out + ("[[" + m.kind + "_" + digest(m.value) + "]]");
      } else {
        counters := counters[m.kind := (if m.kind in counters then counters[m.kind] else 0) + 1];
        var placeholder := Issue(m.kind, counters[m.kind]);
        assert placeholder == tokens[i];
        out := out + placeholder;
        if strategy == Tokenize {
          replacements := replacements[placeholder := m.value];
        }
      }
      last := m.end;
    }
    out := out + payload[last..];
    r := Outcome(out, replacements, |matches|);
  }

  lemma NoneSpliced(text: string, s: seq<Match>, tokens: seq<string>)
    requires Replaceable(s, |text|) && |s| == |tokens|
    ensures Spliced(text, s, tokens, 0) == [] && Originals(s, tokens, 0) == map[]
  {
  }

  lemma SpliceStep(text: string, s: seq<Match>, tokens: seq<string>, i: nat)
    requires Replaceable(s, |text|) && i < |s| == |tokens|
    ensures EndAt(s, i) <= s[i].start
    ensures Spliced(text, s, tokens, i + 1) == Spliced(text, s, tokens, i) + text[EndAt(s, i)..s[i].start] + tokens[i]
    ensures Originals(s, tokens, i + 1) == Originals(s, tokens, i)[tokens[i] := s[i].value]
  {
    if i > 0 { assert s[i - 1].end <= s[i].start; }
  }

  lemma NoneCounted(s: seq<Match>)
    requires s == []
    ensures forall k :: CountKind(s, k) == 0
  {
  }

  /** Under every strategy, each unmatched stretch reaches the output whole and in order. */
  lemma GapsSurvive(text: string, s: seq<Match>, tokens: seq<string>, k: nat)
    requires Replaceable(s, |text|) && k <= |s| == |tokens|
    ensures var at, gap := |Spliced(text, s, tokens, k)|, Gap(text, s, k);
            var out := SplicedAll(text, s, tokens);
            at + |gap| <= |out| && out[at..at + |gap|] == gap
  {
    hide Gap, Spliced, SplicedAll, OutFrom;
    var before, gap, out := Spliced(text, s, tokens, k), Gap(text, s, k), SplicedAll(text, s, tokens);
    OutIsSpliced(text, s, tokens, k);
    OutStep(text, s, tokens, k);
    var rest := OutFrom(text, s, tokens, k);
    assert gap <= rest;
    assert out[|before|..|before| + |gap|] == rest[..|gap|] == gap;
  }

  // ---- what is issued ----

  predicate IsName(kind: string) {
    |kind| > 0 && forall i :: 0 <= i < |kind| ==> IsNameChar(kind[i])
  }

  lemma IssueIsPlaceholder(kind: string, n: nat)
    requires IsName(kind)
    ensures IsPlaceholder(Issue(kind, n))
  {
    var p, k := Issue(kind, n), 2 + |kind|;
    assert forall i :: 2 <= i < k ==> p[i] == kind[i - 2];
    assert forall i :: k < i < |p| - 2 ==> p[i] == Digits(n)[i - k - 1];
    assert ShapedAround(p, k);
  }

  /** A placeholder determines the kind and the number it was issued for. */
  lemma IssueInjective(kind: string, n: nat, kind': string, n': nat)
    requires Issue(kind, n) == Issue(kind', n')
    ensures kind == kind' && n == n'
  {
    var p, k, k' := Issue(kind, n), 2 + |kind|, 2 + |kind'|;
    assert p[k] == '_' && p[k'] == '_';
    assert forall i :: k < i < |p| - 2 ==> p[i] == Digits(n)[i - k - 1];
    assert forall i :: k' < i < |p| - 2 ==> p[i] == Digits(n')[i - k' - 1];
    assert k == k';
    assert kind == p[2..k] == kind';
    assert Digits(n) == p[k + 1..|p| - 2] == Digits(n');
    DigitsInjective(n, n');
  }

  lemma {:induction false} CountKindGrows(s: seq<Match>, kind: string, i: nat, j: nat)
    requires i <= j <= |s|
    ensures CountKind(s[..i], kind) <= CountKind(s[..j], kind)
    decreases j - i
  {
    if i < j {
      CountKindGrows(s, kind, i, j - 1);
      assert s[..j][..j - 1] == s[..j - 1];
    }
  }

  /** No two matches of one payload are given the same placeholder. */
  lemma IssuedAreDistinct(s: seq<Match>, digest: string -> string, i: nat, j: nat)
    requires i < j < |s|
    ensures Tokens(s, Tokenize, digest)[i] != Tokens(s, Tokenize, digest)[j]
  {
    if Tokens(s, Tokenize, digest)[i] == Tokens(s, Tokenize, digest)[j] {
      IssueInjective(s[i].kind, CountKind(s[..i + 1], s[i].kind), s[j].kind, CountKind(s[..j + 1], s[j].kind));
      CountKindGrows(s, s[j].kind, i + 1, j);
      CountKindStep(s, j);
    }
  }

  /** The map handed to Restore takes every placeholder to the value it replaced. */
  lemma {:induction false} OriginalsAreKept(s: seq<Match>, digest: string -> string, k: nat, i: nat)
    requires i < k <= |s|
    ensures var tokens := Tokens(s, Tokenize, digest);
            var m := Originals(s, tokens, k);
            tokens[i] in m && m[tokens[i]] == s[i].value
  {
    hide Tokens;
    if i < k - 1 {
      OriginalsAreKept(s, digest, k - 1, i);
      IssuedAreDistinct(s, digest, i, k - 1);
    }
  }

  // ---- the round trip ----

  /** The originals put back, each gap substituted on its own. */
  function Rebuilt(text: string, s: seq<Match>, m: Replacements, k: nat): string
    requires Replaceable(s, |text|) && k <= |s|
  {
    if k == 0 then [] else Rebuilt(text, s, m, k - 1) + Substitute(Gap(text, s, k - 1), m) + s[k - 1].value
  }

  /**
   * No placeholder forms across a splice: restoring the output acts on each gap and each token
   * separately.
   */
  lemma {:induction false} RestoreActsPiecewise(
    text: string, s: seq<Match>, tokens: seq<string>, m: Replacements, k: nat, rest: string)
    requires Replaceable(s, |text|) && k <= |s| == |tokens|
    requires forall i :: 0 <= i < |s| ==> IsPlaceholder(tokens[i]) && Lookup(tokens[i], m) == s[i].value
    ensures Substitute(Spliced(text, s, tokens, k) + rest, m) == Rebuilt(text, s, m, k) + Substitute(rest, m)
    decreases k
  {
    hide Substitute, IsPlaceholder, Replaceable;
    if k == 0 {
      assert [] + rest == rest;
    } else {
      var gap, token := Gap(text, s, k - 1), tokens[k - 1];
      var before := Spliced(text, s, tokens, k - 1);
      assert before + gap + token + rest == before + (gap + token + rest);
      RestoreActsPiecewise(text, s, tokens, m, k - 1, gap + token + rest);
      SubstituteAround(gap, token, rest, m);
    }
  }

  /** The matched values are what the payload holds at the matched spans. */
  ghost predicate Faithful(text: string, s: seq<Match>)
    requires Replaceable(s, |text|)
  {
    forall i :: 0 <= i < |s| ==> s[i].value == text[s[i].start..s[i].end]
  }

  ghost predicate NoneIssued(t: string, m: Replacements) {
    forall a: nat, n: nat :: OccursAt(t, a, n) ==> t[a..a + n] !in m
  }

  /** No gap of the payload holds a placeholder of `m`. */
  ghost predicate GapsAreFree(text: string, s: seq<Match>, m: Replacements)
    requires Replaceable(s, |text|)
  {
    forall k :: 0 <= k <= |s| ==> NoneIssued(Gap(text, s, k), m)
  }

  lemma {:induction false} FreeTextIsCopied(t: string, m: Replacements)
    requires NoneIssued(t, m)
    ensures Substitute(t, m) == t
  {
    hide IsPlaceholder, Substitute, MatchLen;
    SubstituteNothing(m);
    if t != [] {
      var n := MatchLen(t);
      var k := if n > 0 then n else 1;
      SubstituteStep(t, m);
      assert t[0..n] == t[..n] && (n > 0 ==> OccursAt(t, 0, n));
      forall a: nat, j: nat | OccursAt(t[k..], a, j)
        ensures t[k..][a..a + j] !in m
      {
        OccursInSuffix(t, k, a, j);
      }
      FreeTextIsCopied(t[k..], m);
    }
  }

  lemma Thirds(text: string, a: nat, b: nat, c: nat)
    requires a <= b <= c <= |text|
    ensures text[..c] == text[..a] + text[a..b] + text[b..c]
    ensures text[a..] == text[a..b] + text[b..c] + text[c..]
  {
  }

  lemma GapBounds(text: string, s: seq<Match>, k: nat)
    requires Replaceable(s, |text|) && k < |s|
    ensures EndAt(s, k) <= s[k].start <= s[k].end == EndAt(s, k + 1) <= |text|
    ensures Gap(text, s, k) == text[EndAt(s, k)..s[k].start]
  {
    if k > 0 { assert s[k - 1].end <= s[k].start; }
  }

  /** The payload up to the end of match `k - 1`, in pieces. */
  lemma PrefixStep(text: string, s: seq<Match>, k: nat)
    requires Replaceable(s, |text|) && Faithful(text, s) && 0 < k <= |s|
    ensures EndAt(s, k - 1) <= EndAt(s, k) <= |text|
    ensures text[..EndAt(s, k)] == text[..EndAt(s, k - 1)] + Gap(text, s, k - 1) + s[k - 1].value
  {
    hide Replaceable, Gap, EndAt;
    GapBounds(text, s, k - 1);
    Thirds(text, EndAt(s, k - 1), s[k - 1].start, s[k - 1].end);
  }

  lemma {:induction false} RebuiltIsText(text: string, s: seq<Match>, m: Replacements, k: nat)
    requires Replaceable(s, |text|) && Faithful(text, s) && k <= |s|
    requires GapsAreFree(text, s, m)
    ensures Rebuilt(text, s, m, k) == text[..EndAt(s, k)]
  {
    hide Substitute, NoneIssued;
    if k > 0 {
      RebuiltIsText(text, s, m, k - 1);
      FreeTextIsCopied(Gap(text, s, k - 1), m);
      PrefixStep(text, s, k);
    }
  }

  /** The output and the map of a tokenising transform. */
  function Tokenised(text: string, s: seq<Match>): (string, Replacements)
    requires Replaceable(s, |text|)
  {
    var tokens := Tokens(s, Tokenize, x => x);
    (SplicedAll(text, s, tokens), Originals(s, tokens, |s|))
  }

  /** Restoring a tokenised payload rebuilds it gap by gap. */
  lemma RestoreOfTokenised(text: string, s: seq<Match>)
    requires Replaceable(s, |text|)
    requires forall i :: 0 <= i < |s| ==> IsName(s[i].kind)
    ensures var (out, m) := Tokenised(text, s);
            Substitute(out, m) == Rebuilt(text, s, m, |s|) + Substitute(Gap(text, s, |s|), m)
  {
    hide Substitute, IsPlaceholder, Originals, Spliced;
    var digest: string -> string := x => x;
    var tokens := Tokens(s, Tokenize, digest);
    var m := Originals(s, tokens, |s|);
    forall i | 0 <= i < |s|
      ensures IsPlaceholder(tokens[i]) && Lookup(tokens[i], m) == s[i].value
    {
      IssueIsPlaceholder(s[i].kind, CountKind(s[..i + 1], s[i].kind));
      OriginalsAreKept(s, digest, |s|, i);
    }
    RestoreActsPiecewise(text, s, tokens, m, |s|, Gap(text, s, |s|));
  }

  lemma SomethingIssued(text: string, s: seq<Match>)
    requires Replaceable(s, |text|)
    ensures var (out, m) := Tokenised(text, s); Restore(out, m) == Substitute(out, m)
  {
    hide Substitute, Spliced, Originals;
    var (out, m) := Tokenised(text, s);
    if s == [] {
      NoneSpliced(text, s, []);
      assert Tokens(s, Tokenize, x => x) == [];
      assert Gap(text, s, 0) == text && [] + text == text;
      IdentityWithoutMap(text, m);
    } else {
      OriginalsAreKept(s, x => x, |s|, 0);
      assert m != map[];
    }
  }

  lemma IdentityWithoutMap(t: string, m: Replacements)
    requires |m| == 0
    ensures Substitute(t, m) == t
  {
    assert m == map[];
    FreeTextIsCopied(t, m);
  }

  /** Tokenising and restoring gives the payload back. */
  lemma RoundTrip(text: string, s: seq<Match>)
    requires Replaceable(s, |text|) && Faithful(text, s)
    requires forall i :: 0 <= i < |s| ==> IsName(s[i].kind)
    requires GapsAreFree(text, s, Tokenised(text, s).1)
    ensures Restore(Tokenised(text, s).0, Tokenised(text, s).1) == text
  {
    hide Substitute, NoneIssued, Tokenised, Restore;
    var (out, m) := Tokenised(text, s);
    SomethingIssued(text, s);
    RestoreOfTokenised(text, s);
    RebuiltIsText(text, s, m, |s|);
    FreeTextIsCopied(Gap(text, s, |s|), m);
    assert text[..EndAt(s, |s|)] + text[EndAt(s, |s|)..] == text;
  }

  // ---- and no other way ----

  /** A match whose value does not begin like a placeholder and whose kind cannot end one early. */
  predicate Plain(m: Match) {
    m.value != [] && m.value[0] != '[' && ']' !in m.kind
  }

  lemma IssuedIsNamed(kind: string, n: nat)
    requires IsPlaceholder(Issue(kind, n))
    ensures IsName(kind)
  {
    var p, j := Issue(kind, n), 2 + |kind|;
    var k: nat :| k < |p| && ShapedAround(p, k);
    assert p[j] == '_';
    assert forall i :: j < i < |p| - 2 ==> p[i] == Digits(n)[i - j - 1];
    assert forall i :: 2 <= i < j ==> p[i] == kind[i - 2];
    assert k == j;
    forall i | 0 <= i < |kind| ensures IsNameChar(kind[i]) {
      assert kind[i] == p[i + 2];
    }
  }

  /** No placeholder lies across two opening brackets, or across what follows two closing ones. */
  lemma NoneAcross(s: string, i: nat, a: nat, k: nat)
    requires OccursAt(s, a, k)
    ensures i + 1 < |s| && s[i] == '[' && s[i + 1] == '[' ==> i <= a || a + k <= i
    ensures 2 <= i <= |s| && s[i - 2] == ']' && s[i - 1] == ']' ==> i <= a || a + k <= i
  {
    hide IsPlaceholder;
    var q := s[a..a + k];
    BodyHasNoBrackets(q);
    assert forall u :: a <= u < a + k ==> s[u] == q[u - a];
  }

  /** No placeholder begins or ends inside what is issued and reaches outside it, whatever the kind. */
  lemma IssuedStandsAlone(gap: string, kind: string, n: nat, rest: string, m: Replacements)
    ensures var p := Issue(kind, n);
            Substitute(gap + p + rest, m) == Substitute(gap, m) + Substitute(p, m) + Substitute(rest, m)
  {
    hide IsPlaceholder, Substitute, Digits;
    var p := Issue(kind, n);
    var s, i, j := gap + p + rest, |gap|, |gap| + |p|;
    assert s[i] == '[' && s[i + 1] == '[' && s[j - 2] == ']' && s[j - 1] == ']';
    forall a: nat, k: nat | OccursAt(s, a, k)
      ensures j <= a || a + k <= j
    {
      NoneAcross(s, j, a, k);
    }
    SubstituteSplit(s, j, m);
    assert s[..j] == gap + p && s[j..] == rest;
    SplitAtFront(gap, p, m);
  }

  lemma SplitAtFront(gap: string, p: string, m: Replacements)
    requires |p| >= 2 && p[0] == '[' && p[1] == '['
    ensures Substitute(gap + p, m) == Substitute(gap, m) + Substitute(p, m)
  {
    hide IsPlaceholder, Substitute;
    var s, i := gap + p, |gap|;
    assert s[i] == '[' && s[i + 1] == '[';
    forall a: nat, k: nat | OccursAt(s, a, k)
      ensures i <= a || a + k <= i
    {
      NoneAcross(s, i, a, k);
    }
    SubstituteSplit(s, i, m);
    assert s[..i] == gap && s[i..] == p;
  }

  /** What is issued for a kind outside the grammar is not replaced, so its bracket stays in front. */
  lemma UnnamedKeepsItsBracket(kind: string, n: nat, m: Replacements)
    requires ']' !in kind && !IsName(kind)
    ensures var t := Substitute(Issue(kind, n), m); t != [] && t[0] == '['
  {
    hide IsPlaceholder, Substitute, Digits;
    var p := Issue(kind, n);
    var k := MatchLen(p);
    if k > 0 {
      BodyHasNoBrackets(p[..k]);
      assert p[k - 2] == p[..k][k - 2] && p[k - 1] == p[..k][k - 1];
      assert forall i :: 2 <= i < 2 + |kind| ==> p[i] == kind[i - 2];
      assert forall i :: 2 + |kind| < i < |p| - 2 ==> p[i] == Digits(n)[i - |kind| - 3];
      assert k == |p| && p[..k] == p;
      IssuedIsNamed(kind, n);
    }
    SubstituteStep(p, m);
  }

  /** Text free of issued placeholders at its front and after is free throughout. */
  lemma FreeFromFront(t: string, m: Replacements)
    requires t != []
    requires MatchLen(t) > 0 ==> t[..MatchLen(t)] !in m
    requires NoneIssued(t[if MatchLen(t) > 0 then MatchLen(t) else 1..], m)
    ensures NoneIssued(t, m)
  {
    hide IsPlaceholder, MatchLen;
    var n := MatchLen(t);
    var k := if n > 0 then n else 1;
    forall a: nat, j: nat | OccursAt(t, a, j)
      ensures t[a..a + j] !in m
    {
      assert t[0..n] == t[..n];
      if a == 0 {
        assert t[0..j] == t[..j];
        MatchLenComplete(t, j);
        assert j > 0 by { BodyHasNoBrackets(t[a..a + j]); }
      } else if a < k {
        assert OccursAt(t, 0, n);
        NoOverlap(t, 0, n, a, j);
      } else {
        assert t[k..][a - k..a - k + j] == t[a..a + j];
        assert OccursAt(t[k..], a - k, j);
      }
    }
  }

  lemma EmptyIsFree(m: Replacements)
    ensures NoneIssued([], m)
  {
  }

  /** Originals that are never taken for the beginning of a placeholder. */
  ghost predicate PlainValues(m: Replacements) {
    forall p :: p in m ==> m[p] != [] && m[p][0] != '['
  }

  lemma ReplacedDiffers(t: string, x: string, y: string, m: Replacements)
    requires PlainValues(m) && MatchLen(t) > 0 && t[..MatchLen(t)] in m
    ensures Substitute(t, m) + x != t + y
  {
    hide IsPlaceholder, Substitute;
    var p := t[..MatchLen(t)];
    BodyHasNoBrackets(p);
    SubstituteStep(t, m);
    assert (t + y)[0] == p[0] && (Substitute(t, m) + x)[0] == m[p][0];
  }

  /** One step of the scan over what is not replaced. */
  lemma CopiedStep(t: string, m: Replacements)
    requires t != [] && (MatchLen(t) > 0 ==> t[..MatchLen(t)] !in m)
    ensures var k := if MatchLen(t) > 0 then MatchLen(t) else 1;
            k <= |t| && t == t[..k] + t[k..] && Substitute(t, m) == t[..k] + Substitute(t[k..], m)
  {
    hide Substitute, MatchLen;
    SubstituteStep(t, m);
    assert [t[0]] == t[..1];
  }

  lemma CancelHead(head: string, a: string, b: string, x: string, y: string)
    requires head + a + x == head + b + y
    ensures a + x == b + y
  {
    assert head + a + x == head + (a + x) && head + b + y == head + (b + y);
    Cancel(head, a + x, b + y);
  }

  /** A gap that comes back in its place was free. */
  lemma {:induction false} UnchangedIsFree(t: string, x: string, y: string, m: Replacements)
    requires PlainValues(m) && Substitute(t, m) + x == t + y
    ensures NoneIssued(t, m) && x == y
    decreases |t|
  {
    hide IsPlaceholder, Substitute, MatchLen, NoneIssued, PlainValues;
    if t == [] {
      SubstituteNothing(m);
      EmptyIsFree(m);
      assert [] + x == x && [] + y == y;
    } else {
      var n := MatchLen(t);
      var k := if n > 0 then n else 1;
      if n > 0 && t[..n] in m {
        ReplacedDiffers(t, x, y, m);
      }
      CopiedStep(t, m);
      CancelHead(t[..k], Substitute(t[k..], m), t[k..], x, y);
      UnchangedIsFree(t[k..], x, y, m);
      FreeFromFront(t, m);
    }
  }

  lemma Cancel(a: string, b: string, c: string)
    ensures a + b == a + c ==> b == c
  {
    assert (a + b)[|a|..] == b && (a + c)[|a|..] == c;
  }

  /** The output from gap `k` on. */
  function OutFrom(text: string, s: seq<Match>, tokens: seq<string>, k: nat): string
    requires Replaceable(s, |text|) && k <= |s| == |tokens|
    decreases |s| - k
  {
    if k == |s| then Gap(text, s, k) else Gap(text, s, k) + tokens[k] + OutFrom(text, s, tokens, k + 1)
  }

  lemma OutStep(text: string, s: seq<Match>, tokens: seq<string>, k: nat)
    requires Replaceable(s, |text|) && k <= |s| == |tokens|
    ensures OutFrom(text, s, tokens, k)
         == if k == |s| then text[EndAt(s, k)..]
            else Gap(text, s, k) + tokens[k] + OutFrom(text, s, tokens, k + 1)
    ensures k == |s| ==> Gap(text, s, k) == text[EndAt(s, k)..]
  {
  }

  lemma TokenIsIssued(s: seq<Match>, i: nat)
    requires i < |s|
    ensures Tokens(s, Tokenize, x => x)[i] == Issue(s[i].kind, CountKind(s[..i + 1], s[i].kind))
  {
  }

  lemma {:induction false} OutIsSpliced(text: string, s: seq<Match>, tokens: seq<string>, k: nat)
    requires Replaceable(s, |text|) && k <= |s| == |tokens|
    ensures Spliced(text, s, tokens, k) + OutFrom(text, s, tokens, k) == SplicedAll(text, s, tokens)
    decreases |s| - k
  {
    hide Gap;
    if k < |s| {
      OutIsSpliced(text, s, tokens, k + 1);
      var a, g, t, r := Spliced(text, s, tokens, k), Gap(text, s, k), tokens[k], OutFrom(text, s, tokens, k + 1);
      assert a + (g + t + r) == a + g + t + r;
    }
  }

  /** The payload from gap `k` on, in pieces. */
  lemma SuffixStep(text: string, s: seq<Match>, k: nat)
    requires Replaceable(s, |text|) && Faithful(text, s) && k < |s|
    ensures EndAt(s, k) <= |text| && EndAt(s, k + 1) <= |text|
    ensures text[EndAt(s, k)..] == Gap(text, s, k) + s[k].value + text[EndAt(s, k + 1)..]
  {
    hide Replaceable, Gap, EndAt;
    GapBounds(text, s, k);
    Thirds(text, EndAt(s, k), s[k].start, s[k].end);
  }

  /** If the output from gap `k` on is restored to the payload, each gap was free and each kind a name. */
  lemma {:induction false} ComesBackPiecewise(text: string, s: seq<Match>, m: Replacements, k: nat)
    requires Replaceable(s, |text|) && Faithful(text, s) && k <= |s|
    requires PlainValues(m) && forall i :: 0 <= i < |s| ==> Plain(s[i])
    requires forall i :: 0 <= i < |s| ==>
               Lookup(Tokens(s, Tokenize, x => x)[i], m) == s[i].value
    requires EndAt(s, k) <= |text|
    requires Substitute(OutFrom(text, s, Tokens(s, Tokenize, x => x), k), m) == text[EndAt(s, k)..]
    ensures forall i :: k <= i <= |s| ==> NoneIssued(Gap(text, s, i), m)
    ensures forall i :: k <= i < |s| ==> IsName(s[i].kind)
    decreases |s| - k
  {
    hide Substitute, NoneIssued, PlainValues, CountKind, Issue, IsName, Replaceable, Faithful, IsPlaceholder, Gap,
         Tokens, OutFrom, Plain, Lookup;
    var tokens, gap := Tokens(s, Tokenize, x => x), Gap(text, s, k);
    OutStep(text, s, tokens, k);
    if k == |s| {
      assert Substitute(gap, m) + [] == gap + [];
      UnchangedIsFree(gap, [], [], m);
    } else {
      TokenIsIssued(s, k);
      SuffixStep(text, s, k);
      PieceComesBack(gap, s[k], CountKind(s[..k + 1], s[k].kind), OutFrom(text, s, tokens, k + 1),
                     text[EndAt(s, k + 1)..], m);
      ComesBackPiecewise(text, s, m, k + 1);
    }
  }

  /** A gap and a token that come back with what follows them were free and issued for a name. */
  lemma PieceComesBack(gap: string, match': Match, n: nat, rest: string, after: string, m: Replacements)
    requires PlainValues(m) && Plain(match') && Lookup(Issue(match'.kind, n), m) == match'.value
    requires Substitute(gap + Issue(match'.kind, n) + rest, m) == gap + match'.value + after
    ensures NoneIssued(gap, m) && IsName(match'.kind) && Substitute(rest, m) == after
  {
    hide Substitute, NoneIssued, PlainValues, Issue, IsName, Plain, Lookup;
    var token := Issue(match'.kind, n);
    IssuedStandsAlone(gap, match'.kind, n, rest, m);
    var x, y := Substitute(token, m) + Substitute(rest, m), match'.value + after;
    assert Substitute(gap, m) + x == Substitute(gap, m) + Substitute(token, m) + Substitute(rest, m);
    assert gap + y == gap + match'.value + after;
    UnchangedIsFree(gap, x, y, m);
    TokenComesBack(match', n, m, Substitute(rest, m), after);
  }

  lemma UnnamedDiffers(match': Match, n: nat, m: Replacements, x: string, y: string)
    requires Plain(match') && !IsName(match'.kind)
    ensures Substitute(Issue(match'.kind, n), m) + x != match'.value + y
  {
    hide Substitute, IsPlaceholder, Issue, IsName;
    UnnamedKeepsItsBracket(match'.kind, n, m);
    assert (match'.value + y)[0] == match'.value[0];
    assert (Substitute(Issue(match'.kind, n), m) + x)[0] == '[';
  }

  /** A token followed by `x` that is restored to its value followed by `y` was issued for a name. */
  lemma TokenComesBack(match': Match, n: nat, m: Replacements, x: string, y: string)
    requires Plain(match') && Lookup(Issue(match'.kind, n), m) == match'.value
    requires Substitute(Issue(match'.kind, n), m) + x == match'.value + y
    ensures IsName(match'.kind) && x == y
  {
    hide Substitute, IsPlaceholder, Issue, IsName;
    var p, value := Issue(match'.kind, n), match'.value;
    if !IsName(match'.kind) {
      UnnamedDiffers(match', n, m, x, y);
    } else {
      IssueIsPlaceholder(match'.kind, n);
      SubstituteAround([], p, [], m);
      SubstituteNothing(m);
      assert [] + p + [] == p;
      Cancel(value, x, y);
    }
  }

  lemma {:induction false} OriginalsArePlain(s: seq<Match>, tokens: seq<string>, k: nat)
    requires k <= |s| == |tokens| && forall i :: 0 <= i < |s| ==> Plain(s[i])
    ensures PlainValues(Originals(s, tokens, k))
  {
    if k > 0 { OriginalsArePlain(s, tokens, k - 1); }
  }

  /**
   * When no value begins with an opening bracket and no kind holds a closing one, the payload comes
   * back if and only if no gap holds a placeholder issued for it and every kind is one the grammar
   * admits.
   */
  lemma RoundTripExactly(text: string, s: seq<Match>)
    requires Replaceable(s, |text|) && Faithful(text, s) && forall i :: 0 <= i < |s| ==> Plain(s[i])
    ensures Restore(Tokenised(text, s).0, Tokenised(text, s).1) == text <==>
            GapsAreFree(text, s, Tokenised(text, s).1) && forall i :: 0 <= i < |s| ==> IsName(s[i].kind)
  {
    hide Substitute, NoneIssued, Restore, Faithful, Replaceable, IsName, Plain, Tokens, Spliced, Originals, PlainValues;
    var (out, m) := Tokenised(text, s);
    var tokens := Tokens(s, Tokenize, x => x);
    SomethingIssued(text, s);
    if Restore(out, m) == text {
      NoneSpliced(text, s, tokens);
      OutIsSpliced(text, s, tokens, 0);
      assert [] + OutFrom(text, s, tokens, 0) == OutFrom(text, s, tokens, 0);
      OriginalsArePlain(s, tokens, |s|);
      forall i | 0 <= i < |s| ensures Lookup(tokens[i], m) == s[i].value {
        OriginalsAreKept(s, x => x, |s|, i);
      }
      assert text[EndAt(s, 0)..] == text;
      ComesBackPiecewise(text, s, m, 0);
    } else if GapsAreFree(text, s, m) && forall i :: 0 <= i < |s| ==> IsName(s[i].kind) {
      RoundTrip(text, s);
    }
  }

  /** A payload that already spells the placeholder it will be given does not come back. */
  lemma CollisionIsNotRestored()
    ensures var text, s := "[[A_1]]x", [Match("A", 7, 8, "x")];
            && Replaceable(s, |text|) && Faithful(text, s)
            && Restore(Tokenised(text, s).0, Tokenised(text, s).1) != text
  {
    hide Substitute, Restore, Rebuilt;
    var text, s := "[[A_1]]x", [Match("A", 7, 8, "x")];
    assert text[7..8] == "x";
    var (out, m) := Tokenised(text, s);
    OnlyToken(s);
    var p := Issue("A", 1);
    assert Digits(1) == "1" && p == "[[A_1]]";
    OriginalsAreKept(s, x => x, 1, 0);
    IssueIsPlaceholder("A", 1);
    assert Gap(text, s, 0) == text[..7] == p && p[0..7] == p;
    assert OccursAt(Gap(text, s, 0), 0, 7);
    RoundTripExactly(text, s);
  }

  lemma OnlyToken(s: seq<Match>)
    requires |s| == 1
    ensures Tokens(s, Tokenize, x => x) == [Issue(s[0].kind, 1)]
  {
    hide Issue;
    assert s[..1][..0] == [] && s[..1] == s && CountKind(s[..0], s[0].kind) == 0;
  }

  /** Nor does one with a kind the grammar does not admit, which the sidecar may report. */
  lemma UnnamedKindIsNotRestored()
    ensures var text, s := "Bob", [Match("Person", 0, 3, "Bob")];
            && Replaceable(s, |text|) && Faithful(text, s) && GapsAreFree(text, s, Tokenised(text, s).1)
            && Restore(Tokenised(text, s).0, Tokenised(text, s).1) != text
  {
    hide Substitute, Restore, Tokenised;
    var text, s := "Bob", [Match("Person", 0, 3, "Bob")];
    assert text[0..3] == text;
    assert Gap(text, s, 0) == [] && Gap(text, s, 1) == [];
    assert "Person"[1] == 'e' && !IsName("Person");
    EmptyIsFree(Tokenised(text, s).1);
    RoundTripExactly(text, s);
  }

  /** A value that begins with an opening bracket may come back although its gap was not free. */
  lemma BracketedValueMayComeBack()
    ensures var text, s := "[[A_1]][[A_1]]", [Match("A", 7, 14, "[[A_1]]")];
            && Replaceable(s, |text|) && Faithful(text, s) && !GapsAreFree(text, s, Tokenised(text, s).1)
            && Restore(Tokenised(text, s).0, Tokenised(text, s).1) == text
  {
    hide *;
    var p := "[[A_1]]";
    var text, s := "[[A_1]][[A_1]]", [Match("A", 7, 14, p)];
    TwiceTheSame();
    var (out, m) := Tokenised(text, s);
    SomethingIssued(text, s);
    RestoreOfTokenised(text, s);
    RebuiltFromOne(text, s, m);
    Itself(p, m);
    SubstituteNothing(m);
    assert p + p + [] == text;
  }

  /** A kind that holds a closing bracket may come back although the grammar does not admit it. */
  lemma UnnamedKindMayComeBack()
    ensures var text := "xxy_1]]";
            var s := [Match("A", 0, 1, "x"), Match("A_1]]y", 1, 7, "xy_1]]")];
            && Replaceable(s, |text|) && Faithful(text, s) && !IsName(s[1].kind)
            && Restore(Tokenised(text, s).0, Tokenised(text, s).1) == text
  {
    hide *;
    var text, p := "xxy_1]]", "[[A_1]]";
    var s := [Match("A", 0, 1, "x"), Match("A_1]]y", 1, 7, "xy_1]]")];
    OneInsideTheOther();
    var (out, m) := Tokenised(text, s);
    SomethingIssued(text, s);
    SubstituteAround([], p, p + "y_1]]", m);
    SubstituteAround([], p, "y_1]]", m);
    SubstituteNothing(m);
    NoBracketIsCopied("y_1]]", m);
    assert [] + p + "y_1]]" == p + "y_1]]" && [] + p + (p + "y_1]]") == out;
    assert [] + "x" + ([] + "x" + "y_1]]") == text;
  }

  lemma OneInsideTheOther()
    ensures var text, p := "xxy_1]]", "[[A_1]]";
            var s := [Match("A", 0, 1, "x"), Match("A_1]]y", 1, 7, "xy_1]]")];
            && Replaceable(s, |text|) && Faithful(text, s) && !IsName(s[1].kind) && IsPlaceholder(p)
            && Tokenised(text, s).0 == p + (p + "y_1]]") && Lookup(p, Tokenised(text, s).1) == "x"
  {
    hide Originals, CountKind, IsPlaceholder, Tokens, Spliced, SplicedAll, Issue;
    var text, p := "xxy_1]]", "[[A_1]]";
    var s := [Match("A", 0, 1, "x"), Match("A_1]]y", 1, 7, "xy_1]]")];
    assert text[0..1] == "x" && text[1..7] == "xy_1]]" && "A_1]]y"[2] == '1';
    IssuedForTwo(s);
    LiteralTokens();
    OriginalsAreKept(s, x => x, 2, 0);
    IssueIsPlaceholder("A", 1);
    PackedOut(text, s, Tokens(s, Tokenize, x => x));
  }

  lemma LiteralTokens()
    ensures Issue("A", 1) == "[[A_1]]" && Issue("A_1]]y", 1) == "[[A_1]]" + "y_1]]"
  {
    assert Digits(1) == "1";
  }

  lemma IssuedForTwo(s: seq<Match>)
    requires |s| == 2 && s[0].kind != s[1].kind
    ensures Tokens(s, Tokenize, x => x) == [Issue(s[0].kind, 1), Issue(s[1].kind, 1)]
  {
    hide Issue, Tokens;
    TokenIsIssued(s, 0);
    TokenIsIssued(s, 1);
    assert s[..1][..0] == [] && s[..1][0] == s[0] && s[..2][..1] == s[..1] && s[..2][1] == s[1];
    var a, b := s[0].kind, s[1].kind;
    assert CountKind(s[..1], a) == 1 && CountKind(s[..1], b) == 0 && CountKind(s[..2], b) == 1;
    var tokens := Tokens(s, Tokenize, x => x);
    assert tokens[0] == Issue(a, 1) && tokens[1] == Issue(b, 1);
  }

  lemma PackedOut(text: string, s: seq<Match>, tokens: seq<string>)
    requires Replaceable(s, |text|) && |s| == |tokens| == 2
    requires s[0].start == 0 && s[0].end == s[1].start && s[1].end == |text|
    ensures SplicedAll(text, s, tokens) == tokens[0] + tokens[1]
  {
    hide Spliced, OutFrom, SplicedAll, Gap, Replaceable, EndAt;
    NoneSpliced(text, s, tokens);
    OutIsSpliced(text, s, tokens, 0);
    OutStep(text, s, tokens, 0);
    OutStep(text, s, tokens, 1);
    OutStep(text, s, tokens, 2);
    PackedGaps(text, s);
    assert [] + tokens[1] + [] == tokens[1];
    assert [] + ([] + tokens[0] + tokens[1]) == tokens[0] + tokens[1];
  }

  lemma PackedGaps(text: string, s: seq<Match>)
    requires Replaceable(s, |text|) && |s| == 2
    requires s[0].start == 0 && s[0].end == s[1].start && s[1].end == |text|
    ensures Gap(text, s, 0) == [] && Gap(text, s, 1) == [] && Gap(text, s, 2) == []
  {
  }

  lemma OccurrenceHasBracket(t: string, a: nat, n: nat)
    requires OccursAt(t, a, n)
    ensures '[' in t
  {
    BodyHasNoBrackets(t[a..a + n]);
    assert t[a] == t[a..a + n][0];
  }

  lemma NoBracketIsCopied(t: string, m: Replacements)
    requires '[' !in t
    ensures Substitute(t, m) == t
  {
    hide Substitute, IsPlaceholder;
    if a: nat, n: nat :| OccursAt(t, a, n) && t[a..a + n] in m {
      OccurrenceHasBracket(t, a, n);
    }
    FreeTextIsCopied(t, m);
  }

  lemma TwiceTheSame()
    ensures var p, text := "[[A_1]]", "[[A_1]][[A_1]]";
            var s := [Match("A", 7, 14, p)];
            && Replaceable(s, |text|) && Faithful(text, s) && IsName("A") && IsPlaceholder(p)
            && Gap(text, s, 0) == p && Gap(text, s, 1) == []
            && Lookup(p, Tokenised(text, s).1) == p
            && !GapsAreFree(text, s, Tokenised(text, s).1)
  {
    hide Spliced, Originals, CountKind, IsPlaceholder, Tokens;
    var p, text := "[[A_1]]", "[[A_1]][[A_1]]";
    var s := [Match("A", 7, 14, p)];
    assert text[7..14] == p && text[..7] == p;
    OnlyToken(s);
    assert Digits(1) == "1" && Issue("A", 1) == p;
    OriginalsAreKept(s, x => x, 1, 0);
    IssueIsPlaceholder("A", 1);
    assert Gap(text, s, 0) == p && p[0..7] == p && Gap(text, s, 1) == [];
    assert OccursAt(Gap(text, s, 0), 0, 7);
  }

  lemma RebuiltFromOne(text: string, s: seq<Match>, m: Replacements)
    requires Replaceable(s, |text|) && |s| == 1
    ensures Rebuilt(text, s, m, 1) == Substitute(Gap(text, s, 0), m) + s[0].value
  {
    hide Substitute, Gap;
    assert Rebuilt(text, s, m, 0) == [];
  }

  lemma Itself(p: string, m: Replacements)
    requires IsPlaceholder(p) && Lookup(p, m) == p
    ensures Substitute(p, m) == p
  {
    hide Substitute, IsPlaceholder;
    SubstituteAround([], p, [], m);
    SubstituteNothing(m);
    assert [] + p + [] == p;
  }

  // ---- what leaves ----

  /** Two lists of matches of the same kinds, in the same order. */
  ghost predicate SameKinds(s: seq<Match>, t: seq<Match>) {
    |s| == |t| && forall i :: 0 <= i < |s| ==> s[i].kind == t[i].kind
  }

  lemma {:induction false} CountsFollowKinds(s: seq<Match>, t: seq<Match>, kind: string)
    requires SameKinds(s, t)
    ensures CountKind(s, kind) == CountKind(t, kind)
  {
    if s != [] {
      CountsFollowKinds(s[..|s| - 1], t[..|t| - 1], kind);
    }
  }

  /** Placeholders depend on the kinds alone. */
  lemma TokensFollowKinds(s: seq<Match>, t: seq<Match>, strategy: Strategy, d: string -> string, e: string -> string)
    requires SameKinds(s, t) && (strategy == Redact || strategy == Tokenize)
    ensures Tokens(s, strategy, d) == Tokens(t, strategy, e)
  {
    hide CountKind, Issue;
    forall i | 0 <= i < |s| ensures TokenOf(s, i, strategy, d) == TokenOf(t, i, strategy, e) {
      CountsFollowKinds(s[..i + 1], t[..i + 1], s[i].kind);
    }
  }

  /** Two payloads with the same text around their matches. */
  ghost predicate SameGaps(text: string, s: seq<Match>, text': string, t: seq<Match>)
    requires Replaceable(s, |text|) && Replaceable(t, |text'|)
  {
    |s| == |t| && forall k :: 0 <= k <= |s| ==> Gap(text, s, k) == Gap(text', t, k)
  }

  lemma {:induction false} SplicesFollowGaps(
    text: string, s: seq<Match>, text': string, t: seq<Match>, tokens: seq<string>, k: nat)
    requires Replaceable(s, |text|) && Replaceable(t, |text'|) && SameGaps(text, s, text', t) && k <= |s| == |tokens|
    ensures Spliced(text, s, tokens, k) == Spliced(text', t, tokens, k)
    decreases k
  {
    hide Gap;
    if k > 0 {
      SplicesFollowGaps(text, s, text', t, tokens, k - 1);
    }
  }

  /** Redacted or tokenised, two payloads that differ only in the matched values look the same. */
  lemma ValuesDoNotShow(text: string, s: seq<Match>, text': string, t: seq<Match>, strategy: Strategy,
                        d: string -> string, e: string -> string)
    requires Replaceable(s, |text|) && Replaceable(t, |text'|)
    requires SameKinds(s, t) && SameGaps(text, s, text', t) && (strategy == Redact || strategy == Tokenize)
    ensures SplicedAll(text, s, Tokens(s, strategy, d)) == SplicedAll(text', t, Tokens(t, strategy, e))
  {
    hide Tokens, Spliced, Gap;
    TokensFollowKinds(s, t, strategy, d, e);
    SplicesFollowGaps(text, s, text', t, Tokens(s, strategy, d), |s|);
  }

  // ---- what stands in for a value ----

  lemma {:induction false} CountIsCardinality(s: seq<Match>, kind: string)
    ensures CountKind(s, kind) == |set j | 0 <= j < |s| && s[j].kind == kind|
  {
    hide CountKind;
    if s == [] {
      NothingCounted(kind);
    } else {
      CountIsCardinality(s[..|s| - 1], kind);
      CountKindStep(s, |s| - 1);
      assert s[..|s| - 1 + 1] == s;
      OneMorePlace(s, kind);
    }
  }

  lemma NothingCounted(kind: string)
    ensures CountKind([], kind) == 0
  {
  }

  lemma OneMorePlace(s: seq<Match>, kind: string)
    requires s != []
    ensures var n := |s| - 1;
            |set j | 0 <= j < |s| && s[j].kind == kind|
            == |set j | 0 <= j < |s[..n]| && s[..n][j].kind == kind| + if s[n].kind == kind then 1 else 0
  {
    var n := |s| - 1;
    var before := set j | 0 <= j < |s[..n]| && s[..n][j].kind == kind;
    assert (set j | 0 <= j < |s| && s[j].kind == kind) == before + if s[n].kind == kind then {n} else {};
  }

  /**
   * Redacted and tokenised values are replaced by their kind, numbered in order of appearance from 1;
   * hashed ones by their kind and digest.
   */
  lemma StandsInFor(s: seq<Match>, strategy: Strategy, digest: string -> string, i: nat)
    requires i < |s| && strategy != NoStrategy
    ensures var kind := s[i].kind;
            var earlier := |set j | 0 <= j < i && s[j].kind == kind|;
            Tokens(s, strategy, digest)[i]
            == if strategy == Hash then "[[" + kind + "_" + digest(s[i].value) + "]]"
               else "[[" + kind + "_" + Digits(earlier + 1) + "]]"
  {
    hide CountKind, Digits;
    var kind := s[i].kind;
    CountKindStep(s, i);
    CountIsCardinality(s[..i], kind);
    assert (set j | 0 <= j < |s[..i]| && s[..i][j].kind == kind) == (set j | 0 <= j < i && s[j].kind == kind);
  }
}
