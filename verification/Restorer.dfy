/**
 * Restoring a response that arrives in chunks.
 *
 * Output is held back while its tail could still grow into a placeholder.  The
 * main results: whatever the chunking, the pieces emitted spell exactly what
 * Restore makes of the whole response, if and only if no placeholder that would
 * be replaced is longer than the hold-back window plus one byte; and never more
 * than the window is held.
 */
module Restorer {
  import opened Placeholder

  const MAX_PLACEHOLDER_LEN: nat := 64

  predicate OpenAt(s: string, i: int) {
    0 <= i < |s| - 1 && s[i] == '[' && s[i + 1] == '['
  }

  predicate CloseAt(s: string, i: int) {
    0 <= i < |s| - 1 && s[i] == ']' && s[i + 1] == ']'
  }

  /** strings.LastIndex(s, "[["). */
  function LastOpen(s: string): (r: int)
    ensures -1 <= r < |s|
    ensures r >= 0 ==> OpenAt(s, r)
    ensures forall i :: r < i < |s| ==> !OpenAt(s, i)
  {
    LastOpenBelow(s, |s|)
  }

  function LastOpenBelow(s: string, n: nat): (r: int)
    requires n <= |s|
    ensures -1 <= r < n
    ensures r >= 0 ==> OpenAt(s, r)
    ensures forall i :: r < i < n ==> !OpenAt(s, i)
  {
    if n == 0 then -1 else if OpenAt(s, n - 1) then n - 1 else LastOpenBelow(s, n - 1)
  }

  predicate HasClose(s: string) {
    exists i :: 0 <= i < |s| && CloseAt(s, i)
  }

  /** How many trailing bytes must be held back. */
  function PendingTail(text: string): (h: nat)
    ensures h <= |text| && h <= MAX_PLACEHOLDER_LEN
  {
    var window := if MAX_PLACEHOLDER_LEN > |text| then |text| else MAX_PLACEHOLDER_LEN;
    var tail := text[|text| - window..];
    var open := LastOpen(tail);
    if open >= 0 && !HasClose(tail[open..]) then window - open
    else if |text| > 0 && text[|text| - 1] == '[' then 1
    else 0
  }

  /** Every placeholder that `m` would change fits the window, one byte over at most. */
  ghost predicate Fits(m: Replacements) {
    forall p :: p in m && IsPlaceholder(p) && m[p] != p ==> |p| <= MAX_PLACEHOLDER_LEN + 1
  }

  /** What the restorer holds between chunks. */
  datatype State = State(held: string, misses: nat)

  function PushState(st: State, chunk: string, m: Replacements): (r: (State, string)) {
    var text := st.held + chunk;
    var safe := |text| - PendingTail(text);
    if |m| == 0 then (st, chunk)
    else if safe == 0 then (st.(held := text), [])
    else (State(text[safe..], st.misses + Misses(text[..safe], m)), Substitute(text[..safe], m))
  }

  function FlushState(st: State, m: Replacements): (r: (State, string)) {
    if |m| == 0 then (st, [])
    else (State([], st.misses + Misses(st.held, m)), Substitute(st.held, m))
  }

  class StreamRestorer {
    const replacements: Replacements
    var held: string
    var misses: nat

    constructor (replacements: Replacements)
      ensures this.replacements == replacements && held == [] && misses == 0
    {
      this.replacements := replacements;
      held, misses := [], 0;
    }

    predicate Active()
      reads this
    {
      |replacements| > 0
    }

    /**
     * Accepts a chunk and returns what is safe to emit now.  Whatever arrives
     * later, what has been emitted plus what is held stands for the same text.
     */
    method Push(chunk: string) returns (out: string)
      modifies this
      ensures (State(held, misses), out) == PushState(State(old(held), old(misses)), chunk, replacements)
      ensures Active() ==> |held| <= MAX_PLACEHOLDER_LEN
      ensures Active() && Fits(replacements) ==>
                forall rest :: Substitute(old(held) + chunk + rest, replacements)
                               == out + Substitute(held + rest, replacements)
    {
      hide Substitute, Misses, PendingTail, Fits;
      if !Active() {
        return chunk;
      }
      held := held + chunk;
      var text := held;
      var safe := |text| - PendingTail(text);
      if safe <= 0 {
        return [];
      }
      out := Substitute(text[..safe], replacements);
      misses := misses + Misses(text[..safe], replacements);
      held := text[safe..];
      ReleaseIsAlwaysSafe(text, replacements);
    }

    /** Returns whatever is still held, at end of stream. */
    method Flush() returns (out: string)
      modifies this
      ensures (State(held, misses), out) == FlushState(State(old(held), old(misses)), replacements)
      ensures Active() ==> held == []
    {
      if !Active() {
        return [];
      }
      var remaining := held;
      held := [];
      if remaining == [] {
        return [];
      }
      out := Substitute(remaining, replacements);
      misses := misses + Misses(remaining, replacements);
    }
  }

  /**
   * The release point is never strictly inside a placeholder of at most one byte
   * more than the window, whatever the rest of the stream turns out to be.
   */
  lemma ReleasePointIsOutside(text: string, rest: string, a: nat, n: nat)
    requires OccursAt(text + rest, a, n) && n <= MAX_PLACEHOLDER_LEN + 1
    ensures var safe := |text| - PendingTail(text); safe <= a || a + n <= safe
  {
    hide IsPlaceholder, MatchLen;
    var s := text + rest;
    var p := s[a..a + n];
    BodyHasNoBrackets(p);
    assert forall i :: 0 <= i < n ==> p[i] == s[a + i];
    var safe := |text| - PendingTail(text);
    assert a < safe < a + n ==> p[safe - a] == s[safe];
    if safe < |text| {
      ReleasePointIsBracket(text);
      assert s[safe] == text[safe] && p[2] == s[a + 2];
      assert safe > 0 ==> s[safe - 1] == text[safe - 1];
      assert safe + 1 < |text| ==> s[safe + 1] == text[safe + 1];
    } else if a < safe < a + n {
      UnfinishedIsHeld(text, rest, a, n);
    }
  }

  /** Text is held back only from an opening bracket on, and never from its second one. */
  lemma ReleasePointIsBracket(text: string)
    ensures var safe := |text| - PendingTail(text);
            safe < |text| ==>
              && text[safe] == '['
              && (safe + 1 < |text| ==> text[safe + 1] == '[')
              && (safe + 1 == |text| && safe > 0 ==> text[safe - 1] != '[')
  {
    var window := if MAX_PLACEHOLDER_LEN > |text| then |text| else MAX_PLACEHOLDER_LEN;
    var tail := text[|text| - window..];
    if |text| >= 2 && text[|text| - 2] == '[' && text[|text| - 1] == '[' {
      assert OpenAt(tail, window - 2);
      var open := LastOpen(tail);
      assert open == window - 2;
      assert tail[open..] == ['[', '['];
    }
  }

  /** A proper prefix of a placeholder is an opening that is the last one and unclosed. */
  lemma UnfinishedIsUnclosed(tail: string, o: nat, p: string)
    requires IsPlaceholder(p) && o + 2 <= |tail|
    requires tail[o..] <= p && |tail| - o < |p|
    ensures LastOpen(tail) == o && !HasClose(tail[o..])
  {
    hide IsPlaceholder;
    BodyHasNoBrackets(p);
    var q := tail[o..];
    assert q[0] == p[0] && q[1] == p[1];
    assert OpenAt(tail, o);
    forall i | o < i < |tail|
      ensures !OpenAt(tail, i)
    {
      assert tail[i] == q[i - o] == p[i - o];
    }
    forall i | 0 <= i < |q|
      ensures !CloseAt(q, i)
    {
      assert q[i] == p[i];
    }
  }

  /** If the text ends inside a placeholder of at most 65 bytes, something is held. */
  lemma UnfinishedIsHeld(text: string, rest: string, a: nat, n: nat)
    requires OccursAt(text + rest, a, n) && n <= MAX_PLACEHOLDER_LEN + 1
    requires a < |text| < a + n
    ensures PendingTail(text) > 0
  {
    hide IsPlaceholder, MatchLen;
    var p := (text + rest)[a..a + n];
    var window := if MAX_PLACEHOLDER_LEN > |text| then |text| else MAX_PLACEHOLDER_LEN;
    var tail := text[|text| - window..];
    var o := a - (|text| - window);
    assert tail[o..] == text[a..];
    assert p[..|text| - a] == (text + rest)[a..|text|] == text[a..];
    if |text| - a >= 2 {
      UnfinishedIsUnclosed(tail, o, p);
    } else {
      BodyHasNoBrackets(p);
    }
  }

  /** Emitting up to the release point commits to nothing a later chunk could change. */
  lemma ReleaseIsSafe(text: string, rest: string, m: Replacements)
    requires Fits(m)
    ensures var safe := |text| - PendingTail(text);
            Substitute(text + rest, m) == Substitute(text[..safe], m) + Substitute(text[safe..] + rest, m)
  {
    hide IsPlaceholder, MatchLen, PendingTail, Substitute;
    var safe := |text| - PendingTail(text);
    var s := text + rest;
    forall a: nat, n: nat | OccursAt(s, a, n)
      ensures safe <= a || a + n <= safe || Lookup(s[a..a + n], m) == s[a..a + n]
    {
      if n <= MAX_PLACEHOLDER_LEN + 1 { ReleasePointIsOutside(text, rest, a, n); }
    }
    SubstituteSplit(s, safe, m);
    assert s[..safe] == text[..safe] && s[safe..] == text[safe..] + rest;
  }

  lemma ReleaseIsAlwaysSafe(text: string, m: Replacements)
    ensures Fits(m) ==>
              var safe := |text| - PendingTail(text);
              forall rest :: Substitute(text + rest, m)
                             == Substitute(text[..safe], m) + Substitute(text[safe..] + rest, m)
  {
    hide Substitute, PendingTail, Fits;
    if Fits(m) {
      forall rest
        ensures var safe := |text| - PendingTail(text);
                Substitute(text + rest, m) == Substitute(text[..safe], m) + Substitute(text[safe..] + rest, m)
      {
        ReleaseIsSafe(text, rest, m);
      }
    }
  }

  function Concat(chunks: seq<string>): string {
    if chunks == [] then [] else chunks[0] + Concat(chunks[1..])
  }

  /** Everything emitted while pushing `chunks` in order and then flushing. */
  function Streamed(st: State, chunks: seq<string>, m: Replacements): string
    decreases |chunks|
  {
    if chunks == [] then FlushState(st, m).1
    else
      var (next, out) := PushState(st, chunks[0], m);
      out + Streamed(next, chunks[1..], m)
  }

  lemma {:induction false} StreamedFrom(st: State, chunks: seq<string>, m: Replacements)
    requires Fits(m) && |m| > 0
    ensures Streamed(st, chunks, m) == Substitute(st.held + Concat(chunks), m)
    decreases |chunks|
  {
    hide Substitute, PendingTail, Fits;
    if chunks == [] {
      assert st.held + [] == st.held;
    } else {
      var rest := Concat(chunks[1..]);
      var text := st.held + chunks[0];
      ReleaseIsSafe(text, rest, m);
      SubstituteNothing(m);
      assert st.held + Concat(chunks) == text + rest;
      assert text[..0] == [] && text[0..] == text;
      StreamedFrom(PushState(st, chunks[0], m).0, chunks[1..], m);
    }
  }

  lemma {:induction false} PassesThrough(st: State, chunks: seq<string>, m: Replacements)
    requires |m| == 0
    ensures Streamed(st, chunks, m) == Concat(chunks)
    decreases |chunks|
  {
    if chunks != [] { PassesThrough(st, chunks[1..], m); }
  }

  /** Whatever the chunking, streaming restores what Restore restores. */
  lemma StreamingEqualsRestore(chunks: seq<string>, m: Replacements)
    requires Fits(m)
    ensures Streamed(State([], 0), chunks, m) == Restore(Concat(chunks), m)
  {
    if |m| == 0 {
      PassesThrough(State([], 0), chunks, m);
    } else {
      StreamedFrom(State([], 0), chunks, m);
      assert [] + Concat(chunks) == Concat(chunks);
    }
  }

  /** Cutting a longer placeholder after its 65th byte releases both halves as they are. */
  lemma LongPlaceholderIsLost(p: string, m: Replacements)
    requires p in m && IsPlaceholder(p) && m[p] != p && |p| > MAX_PLACEHOLDER_LEN + 1
    ensures var cut := MAX_PLACEHOLDER_LEN + 1;
            Streamed(State([], 0), [p[..cut], p[cut..]], m) == p != Restore(p, m)
  {
    hide IsPlaceholder, MatchLen, Substitute, Misses, PendingTail;
    var cut := MAX_PLACEHOLDER_LEN + 1;
    var head, tail := p[..cut], p[cut..];
    var st := State([], 0);
    NothingPending(p, 0, cut);
    NothingPending(p, cut, |p|);
    HeadIsCopied(p, cut, m);
    TailIsCopied(p, cut, [], m);
    assert [] + head == head && head[..cut] == head && head[cut..] == [];
    assert tail + [] == tail == p[cut..|p|] && [] + tail == tail && tail[..|tail|] == tail && tail[|tail|..] == [];
    SubstituteNothing(m);
    assert PushState(st, head, m).1 == head && PushState(st, head, m).0.held == [];
    var st1 := PushState(st, head, m).0;
    assert PushState(st1, tail, m).1 == tail && PushState(st1, tail, m).0.held == [];
    var st2 := PushState(st1, tail, m).0;
    assert Streamed(st2, [], m) == [];
    assert [tail][1..] == [];
    assert Streamed(st1, [tail], m) == tail;
    assert [head, tail][1..] == [tail];
    assert Streamed(st, [head, tail], m) == head + tail == p;
    WholePlaceholder(p, m);
  }

  lemma WholePlaceholder(p: string, m: Replacements)
    requires p in m && IsPlaceholder(p)
    ensures Restore(p, m) == m[p]
  {
    hide IsPlaceholder, MatchLen, Substitute;
    assert p[..|p|] == p;
    MatchLenComplete(p, |p|);
    SubstituteAround([], p, [], m);
    SubstituteNothing(m);
    assert [] + p + [] == p;
  }

  /** No bracket in the window's last bytes, nothing held. */
  lemma QuietTail(text: string)
    requires |text| > 0 && text[|text| - 1] != '['
    requires forall i :: 0 < i < |text| && |text| - MAX_PLACEHOLDER_LEN < i ==> text[i] != '['
    ensures PendingTail(text) == 0
  {
    var window := if MAX_PLACEHOLDER_LEN > |text| then |text| else MAX_PLACEHOLDER_LEN;
    var tail := text[|text| - window..];
    assert forall i :: 0 < i < window ==> tail[i] == text[|text| - window + i] != '[';
    assert !OpenAt(tail, LastOpen(tail));
  }

  /** Neither half of a placeholder cut after its 65th byte looks unfinished. */
  lemma NothingPending(p: string, a: nat, b: nat)
    requires IsPlaceholder(p)
    requires (a == 0 && b == MAX_PLACEHOLDER_LEN + 1 < |p|) || (2 <= a < b == |p|)
    ensures PendingTail(p[a..b]) == 0
  {
    hide IsPlaceholder;
    BodyHasNoBrackets(p);
    QuietTail(p[a..b]);
  }

  /**
   * Streaming agrees with Restore on every response and every chunking, if and only if
   * every placeholder that would be replaced has at most 65 bytes.
   */
  lemma StreamingExactlyWhenPlaceholdersFit(m: Replacements)
    ensures Fits(m) <==> forall chunks :: Streamed(State([], 0), chunks, m) == Restore(Concat(chunks), m)
  {
    hide IsPlaceholder, Streamed, Restore;
    if Fits(m) {
      forall chunks
        ensures Streamed(State([], 0), chunks, m) == Restore(Concat(chunks), m)
      {
        StreamingEqualsRestore(chunks, m);
      }
    } else {
      var p :| p in m && IsPlaceholder(p) && m[p] != p && |p| > MAX_PLACEHOLDER_LEN + 1;
      LongPlaceholderIsLost(p, m);
      var cut := MAX_PLACEHOLDER_LEN + 1;
      var chunks := [p[..cut], p[cut..]];
      TwoChunks(p[..cut], p[cut..]);
      assert Concat(chunks) == p;
      assert Streamed(State([], 0), chunks, m) != Restore(Concat(chunks), m);
    }
  }

  lemma TwoChunks(a: string, b: string)
    ensures Concat([a, b]) == a + b
  {
    assert [a, b][1..] == [b] && [b][1..] == [];
    assert Concat([b]) == b + Concat([]) == b;
  }

  /** The misses counted by the end of the stream. */
  function StreamedMisses(st: State, chunks: seq<string>, m: Replacements): nat
    decreases |chunks|
  {
    if chunks == [] then FlushState(st, m).0.misses
    else StreamedMisses(PushState(st, chunks[0], m).0, chunks[1..], m)
  }

  /** Every placeholder of `s` that `m` never issued has at most 65 bytes. */
  ghost predicate MissesFit(s: string, m: Replacements) {
    forall a: nat, n: nat :: OccursAt(s, a, n) && s[a..a + n] !in m ==> n <= MAX_PLACEHOLDER_LEN + 1
  }

  lemma CutInside(text: string, rest: string, k: nat)
    requires k <= |text|
    ensures (text + rest)[..k] == text[..k] && (text + rest)[k..] == text[k..] + rest
  {
  }

  /** Whatever the chunking, the altered placeholders counted are those of the whole response. */
  lemma {:induction false} StreamedMissesEqual(st: State, chunks: seq<string>, m: Replacements)
    requires |m| > 0 && MissesFit(st.held + Concat(chunks), m)
    ensures StreamedMisses(st, chunks, m) == st.misses + Misses(st.held + Concat(chunks), m)
    decreases |chunks|
  {
    hide Misses, PendingTail, Substitute, IsPlaceholder;
    if chunks == [] {
      assert st.held + [] == st.held;
    } else {
      var rest := Concat(chunks[1..]);
      var text := st.held + chunks[0];
      var s, safe := text + rest, |text| - PendingTail(text);
      assert st.held + Concat(chunks) == s;
      forall a: nat, n: nat | OccursAt(s, a, n)
        ensures safe <= a || a + n <= safe || s[a..a + n] in m
      {
        if n <= MAX_PLACEHOLDER_LEN + 1 { ReleasePointIsOutside(text, rest, a, n); }
      }
      MissesSplit(s, safe, m);
      CutInside(text, rest, safe);
      forall a: nat, n: nat | OccursAt(s[safe..], a, n) && s[safe..][a..a + n] !in m
        ensures n <= MAX_PLACEHOLDER_LEN + 1
      {
        OccursInSuffix(s, safe, a, n);
      }
      assert safe == 0 ==> text[safe..] == text && text[..safe] == [];
      NoMisses(m);
      StreamedMissesEqual(PushState(st, chunks[0], m).0, chunks[1..], m);
    }
  }

  /** The release point is never inside a placeholder that is already complete, however long. */
  lemma FinishedIsOutside(text: string, a: nat, n: nat)
    requires OccursAt(text, a, n)
    ensures var safe := |text| - PendingTail(text); safe <= a || a + n <= safe
  {
    hide IsPlaceholder, PendingTail;
    var p := text[a..a + n];
    BodyHasNoBrackets(p);
    var safe := |text| - PendingTail(text);
    ReleasePointIsBracket(text);
    assert forall i :: 0 <= i < n ==> p[i] == text[a + i];
    assert p[2] == text[a + 2];
  }

  /** A response that arrives as the last chunk is counted as a whole. */
  lemma LastChunkCounts(misses: nat, text: string, m: Replacements)
    requires |m| > 0
    ensures StreamedMisses(State([], misses), [text], m) == misses + Misses(text, m)
  {
    hide Misses, PendingTail, Substitute, IsPlaceholder;
    var safe := |text| - PendingTail(text);
    forall a: nat, n: nat | OccursAt(text, a, n)
      ensures safe <= a || a + n <= safe
    {
      FinishedIsOutside(text, a, n);
    }
    MissesSplit(text, safe, m);
    NoMisses(m);
    assert [] + text == text && [text][1..] == [];
    assert safe == 0 ==> text[safe..] == text && text[..safe] == [];
    var st := PushState(State([], misses), text, m).0;
    assert StreamedMisses(st, [], m) == st.misses + Misses(st.held, m);
  }

  /** A placeholder counts as itself, between what stands before it and after it. */
  lemma MissesAround(s: string, a: nat, n: nat, m: Replacements)
    requires OccursAt(s, a, n)
    ensures Misses(s, m) == Misses(s[..a], m) + (if s[a..a + n] in m then 0 else 1) + Misses(s[a + n..], m)
  {
    hide Misses, IsPlaceholder, MatchLen;
    forall b: nat, k: nat | OccursAt(s, b, k)
      ensures a <= b || b + k <= a
    {
      if b < a < b + k { NoOverlap(s, b, k, a, n); }
    }
    MissesSplit(s, a, m);
    var t := s[a..];
    assert t[..n] == s[a..a + n] && t[n..] == s[a + n..];
    MatchLenComplete(t, n);
    assert n > 0 by { BodyHasNoBrackets(s[a..a + n]); }
    MissesStep(t, m);
  }

  lemma OccurrenceIs(s: string, a: nat, n: nat)
    requires OccursAt(s, a, n)
    ensures a + n <= |s| && IsPlaceholder(s[a..a + n])
  {
  }

  /** Up to the 65th byte of a longer placeholder everything is released at once. */
  lemma HeadIsReleased(s: string, m: Replacements, a: nat, n: nat)
    requires |m| > 0 && OccursAt(s, a, n) && n > MAX_PLACEHOLDER_LEN + 1
    ensures var head := s[..a + MAX_PLACEHOLDER_LEN + 1];
            PushState(State([], 0), head, m).0 == State([], Misses(head, m))
  {
    hide Misses, PendingTail, Substitute, IsPlaceholder;
    var p, head := s[a..a + n], s[..a + MAX_PLACEHOLDER_LEN + 1];
    BodyHasNoBrackets(p);
    assert forall i :: a <= i < a + n ==> s[i] == p[i - a];
    QuietTail(head);
    assert [] + head == head && head[..|head|] == head && head[|head|..] == [];
  }

  /** Cut after its 65th byte, a longer placeholder nobody issued is missed by the count. */
  lemma LongMissIsLost(s: string, m: Replacements, a: nat, n: nat)
    requires |m| > 0 && OccursAt(s, a, n) && s[a..a + n] !in m && n > MAX_PLACEHOLDER_LEN + 1
    ensures var cut := a + MAX_PLACEHOLDER_LEN + 1;
            StreamedMisses(State([], 0), [s[..cut], s[cut..]], m) + 1 == Misses(s, m)
  {
    hide Misses, PushState, IsPlaceholder, OccursAt;
    OccurrenceIs(s, a, n);
    var p, cut := s[a..a + n], a + MAX_PLACEHOLDER_LEN + 1;
    var head, tail := s[..cut], s[cut..];
    HeadIsReleased(s, m, a, n);
    assert [head, tail][1..] == [tail];
    LastChunkCounts(Misses(head, m), tail, m);
    MissesAround(s, a, n, m);
    CutFront(s, a, n, m);
    TailIsNoMiss(p, MAX_PLACEHOLDER_LEN + 1, s[a + n..], m);
    assert tail == p[MAX_PLACEHOLDER_LEN + 1..] + s[a + n..];
  }

  /** Up to the cut only what stands before the placeholder counts. */
  lemma CutFront(s: string, a: nat, n: nat, m: Replacements)
    requires OccursAt(s, a, n) && n > MAX_PLACEHOLDER_LEN + 1
    ensures Misses(s[..a + MAX_PLACEHOLDER_LEN + 1], m) == Misses(s[..a], m)
  {
    hide Misses, IsPlaceholder, MatchLen;
    var p, head := s[a..a + n], s[..a + MAX_PLACEHOLDER_LEN + 1];
    forall b: nat, k: nat | OccursAt(head, b, k)
      ensures a <= b || b + k <= a
    {
      assert head[b..b + k] == s[b..b + k];
      if b < a < b + k { NoOverlap(s, b, k, a, n); }
    }
    MissesSplit(head, a, m);
    assert head[..a] == s[..a] && head[a..] == p[..MAX_PLACEHOLDER_LEN + 1];
    HeadIsNoMiss(p, MAX_PLACEHOLDER_LEN + 1, m);
  }

  /**
   * Every chunking of a response counts the same misses as the whole, if and only if every
   * placeholder in it that was never issued has at most 65 bytes.
   */
  lemma MissesCountedExactlyWhenTheyFit(s: string, m: Replacements)
    requires |m| > 0
    ensures MissesFit(s, m) <==>
            forall chunks :: Concat(chunks) == s ==> StreamedMisses(State([], 0), chunks, m) == Misses(s, m)
  {
    hide IsPlaceholder, StreamedMisses, Misses;
    if MissesFit(s, m) {
      forall chunks | Concat(chunks) == s
        ensures StreamedMisses(State([], 0), chunks, m) == Misses(s, m)
      {
        assert [] + s == s;
        StreamedMissesEqual(State([], 0), chunks, m);
      }
    } else {
      var a: nat, n: nat :| OccursAt(s, a, n) && s[a..a + n] !in m && n > MAX_PLACEHOLDER_LEN + 1;
      LongMissIsLost(s, m, a, n);
      var cut := a + MAX_PLACEHOLDER_LEN + 1;
      TwoChunks(s[..cut], s[cut..]);
      assert s[..cut] + s[cut..] == s;
      assert StreamedMisses(State([], 0), [s[..cut], s[cut..]], m) != Misses(s, m);
    }
  }

  // ---- nothing is held back without need ----

  /** Two opening brackets with no two closing ones behind them. */
  ghost predicate Unclosed(text: string, i: int) {
    && 0 <= i < |text| - 1 && text[i] == '[' && text[i + 1] == '['
    && forall j {:trigger text[j]} :: i <= j < |text| - 1 && text[j] == ']' ==> text[j + 1] != ']'
  }

  /**
   * What is held back is exactly the last unclosed opening among the last 64 bytes and what follows it;
   * without one, a single opening bracket at the very end; otherwise nothing.
   */
  lemma HeldBackExactly(text: string)
    ensures var n, h := |text|, PendingTail(text);
            if exists i :: n - MAX_PLACEHOLDER_LEN <= i && Unclosed(text, i)
            then Unclosed(text, n - h) && forall i :: Unclosed(text, i) ==> i <= n - h
            else h == if n > 0 && text[n - 1] == '[' then 1 else 0
  {
    var n := |text|;
    var window := if MAX_PLACEHOLDER_LEN > n then n else MAX_PLACEHOLDER_LEN;
    var tail := text[n - window..];
    var open := LastOpen(tail);
    forall i | n - window <= i && Unclosed(text, i) ensures OpenAt(tail, i - (n - window)) {
    }
    if open >= 0 && !HasClose(tail[open..]) {
      LastOpenIsUnclosed(text, n - window, open);
    } else if open >= 0 {
      ClosedBehind(text, n - window, open);
    }
  }

  lemma LastOpenIsUnclosed(text: string, base: nat, open: nat)
    requires base <= |text| && OpenAt(text[base..], open) && !HasClose(text[base..][open..])
    ensures Unclosed(text, base + open)
  {
    var rest := text[base..][open..];
    forall j | base + open <= j < |text| - 1 && text[j] == ']' ensures text[j + 1] != ']' {
      assert rest[j - base - open] == text[j] && rest[j + 1 - base - open] == text[j + 1];
      assert !CloseAt(rest, j - base - open);
    }
  }

  lemma ClosedBehind(text: string, base: nat, open: nat)
    requires base <= |text| && OpenAt(text[base..], open) && HasClose(text[base..][open..])
    ensures forall i :: i <= base + open ==> !Unclosed(text, i)
  {
    var rest := text[base..][open..];
    var j :| 0 <= j < |rest| && CloseAt(rest, j);
    assert text[base + open + j] == ']' && text[base + open + j + 1] == ']';
  }
}
