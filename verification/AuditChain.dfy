/**
 * The audit chain: what a record commits to, appending, and verifying.
 *
 * The digest is a parameter `h`.  Where collision resistance matters it is stated
 * as an assumption on `h`: injective, and never equal to the genesis value.
 * Strings stand for their UTF-8 bytes; a timestamp is the integer rendered into
 * the payload.
 */
module AuditChain {
  import opened Options
  import opened Decimal

  type Digest = string -> string

  const GENESIS: string := "0000000000000000000000000000000000000000000000000000000000000000"
  const SEPARATOR: char := '\U{1f}'
  const DOMAIN: string := "model-gateway/audit/v1"

  datatype Link = Link(
    number: int, eventId: string, requestId: string, occurredMicros: int, tenant: string, actor: string,
    action: string, resource: string, outcome: string, reason: string, sourceIp: string, snapshotVersion: int)

  // ---- the payload ----

  function Parts(link: Link, prev: string): seq<string> {
    [DOMAIN, Render(link.number), prev, link.eventId, link.requestId, Render(link.occurredMicros),
     link.tenant, link.actor, link.action, link.resource, link.outcome, link.reason, link.sourceIp,
     Render(link.snapshotVersion)]
  }

  /** A part behind its length, each closed by a separator. */
  function Frame(part: string): string {
    Digits(|part|) + [SEPARATOR] + part + [SEPARATOR]
  }

  function Encode(parts: seq<string>): string {
    if parts == [] then [] else Encode(parts[..|parts| - 1]) + Frame(parts[|parts| - 1])
  }

  function HashOf(link: Link, prev: string, h: Digest): string {
    h(Encode(Parts(link, prev)))
  }

  /** Feeds the parts to one digest object and finishes it. */
  method ComputeHash(link: Link, prev: string, h: Digest) returns (digest: string)
    ensures digest == HashOf(link, prev, h)
  {
    hide Parts, Frame;
    var parts := Parts(link, prev);
    var fed: string := [];
    assert Encode(parts[..0]) == [];
    for i := 0 to |parts|
      invariant fed == Encode(parts[..i])
    {
      assert parts[..i + 1][..i] == parts[..i];
      fed := fed + Digits(|parts[i]|) + [SEPARATOR] + parts[i] + [SEPARATOR];
      FrameOf(parts[i]);
      assert fed == Encode(parts[..i]) + Frame(parts[i]);
    }
    assert parts[..|parts|] == parts;
    return h(fed);
  }

  lemma FrameOf(part: string)
    ensures Frame(part) == Digits(|part|) + [SEPARATOR] + part + [SEPARATOR]
  {
  }

  /** A framed part can be read off the front of anything, whatever bytes it holds. */
  lemma FrameIsPrefixFree(p: string, x: string, q: string, y: string)
    requires Frame(p) + x == Frame(q) + y
    ensures p == q && x == y
  {
    hide Digits;
    var d, e := Digits(|p|), Digits(|q|);
    var s, t := Frame(p) + x, Frame(q) + y;
    FramePieces(d, p, x);
    FramePieces(e, q, y);
    assert !IsDigit(SEPARATOR);
    assert |d| == |e|;
    DigitsInjective(|p|, |q|);
  }

  /** The pieces of a frame and what follows it, by position. */
  lemma FramePieces(d: string, p: string, x: string)
    ensures var s := d + [SEPARATOR] + p + [SEPARATOR] + x;
            var n := |d| + 1 + |p|;
            && s[..|d|] == d && s[|d|] == SEPARATOR && s[|d| + 1..n] == p && s[n + 1..] == x
            && forall i :: 0 <= i < |d| ==> s[i] == d[i]
  {
    var s, n := d + [SEPARATOR] + p + [SEPARATOR] + x, |d| + 1 + |p|;
    var tail := p + [SEPARATOR] + x;
    assert s == d + [SEPARATOR] + tail;
    Slices(d, SEPARATOR, tail);
    Slices(p, SEPARATOR, x);
    assert s[|d| + 1..n] == s[|d| + 1..][..|p|] && s[n + 1..] == s[|d| + 1..][|p| + 1..];
  }

  lemma Slices(a: string, c: char, b: string)
    ensures var s := a + [c] + b; s[..|a|] == a && s[|a|] == c && s[|a| + 1..] == b
  {
  }

  lemma {:induction false} EncodeFront(parts: seq<string>)
    requires parts != []
    ensures Encode(parts) == Frame(parts[0]) + Encode(parts[1..])
  {
    hide Frame;
    var n := |parts| - 1;
    if n == 0 {
      assert parts[..0] == [] && parts[1..] == [];
    } else {
      EncodeFront(parts[..n]);
      assert parts[..n][1..] == parts[1..][..n - 1];
      assert Encode(parts[1..]) == Encode(parts[1..][..n - 1]) + Frame(parts[n]);
    }
  }

  /** No two part lists, of any lengths, share an encoding. */
  lemma {:induction false} EncodeInjective(a: seq<string>, b: seq<string>)
    requires Encode(a) == Encode(b)
    ensures a == b
    decreases |a|
  {
    hide Frame, Encode;
    if a != [] { EncodeFront(a); FrameIsNotEmpty(a[0]); }
    if b != [] { EncodeFront(b); FrameIsNotEmpty(b[0]); }
    NothingEncoded();
    if a != [] && b != [] {
      FrameIsPrefixFree(a[0], Encode(a[1..]), b[0], Encode(b[1..]));
      EncodeInjective(a[1..], b[1..]);
      assert a == [a[0]] + a[1..] && b == [b[0]] + b[1..];
    }
  }

  lemma NothingEncoded()
    ensures Encode([]) == []
  {
  }

  lemma FrameIsNotEmpty(p: string)
    ensures Frame(p) != []
  {
  }

  /** The payload commits to every field of the record and to its predecessor. */
  lemma PayloadInjective(a: Link, prev: string, b: Link, prev': string)
    requires Encode(Parts(a, prev)) == Encode(Parts(b, prev'))
    ensures a == b && prev == prev'
  {
    hide Encode;
    EncodeInjective(Parts(a, prev), Parts(b, prev'));
    var p, q := Parts(a, prev), Parts(b, prev');
    assert forall i :: 0 <= i < |p| ==> p[i] == q[i];
    assert p[1] == q[1] && p[2] == q[2] && p[5] == q[5] && p[13] == q[13];
    RenderInjective(a.number, b.number);
    RenderInjective(a.occurredMicros, b.occurredMicros);
    RenderInjective(a.snapshotVersion, b.snapshotVersion);
    assert p[3] == q[3] && p[4] == q[4] && p[6] == q[6] && p[7] == q[7] && p[8] == q[8];
    assert p[9] == q[9] && p[10] == q[10] && p[11] == q[11] && p[12] == q[12];
  }

  // ---- verifying ----

  datatype Row = Row(link: Link, prevHash: string, hash: string)

  function HeadOf(rows: seq<Row>): string {
    if rows == [] then GENESIS else rows[|rows| - 1].hash
  }

  /** Row `i` points at the row before it and hashes to what it stores. */
  predicate Fits(rows: seq<Row>, i: nat, h: Digest)
    requires i < |rows|
  {
    && rows[i].prevHash == HeadOf(rows[..i])
    && rows[i].hash == HashOf(rows[i].link, rows[i].prevHash, h)
  }

  ghost predicate Intact(rows: seq<Row>, h: Digest) {
    forall i :: 0 <= i < |rows| ==> Fits(rows, i, h)
  }

  datatype Fault = NoFault | MissingBefore | Changed

  datatype Verdict = Verdict(checked: nat, brokenAt: int, fault: Fault, head: string)

  /** The rows a check reads: all of them, or the first `limit`. */
  function Within(table: seq<Row>, limit: Option<nat>): seq<Row> {
    if limit.Some? && limit.value < |table| then table[..limit.value] else table
  }

  /**
   * Recomputes the chain over rows in sequence order, all of them or the first `limit`, and reports
   * the first that does not fit.
   */
  method Verify(table: seq<Row>, limit: Option<nat>, h: Digest) returns (v: Verdict)
    ensures limit.None? ==> v.checked == |table| && (v.fault == NoFault <==> Intact(table, h))
    ensures limit.Some? ==> v.checked == if limit.value < |table| then limit.value else |table|
    ensures v.fault == NoFault <==> Intact(table[..v.checked], h)
    ensures v.fault == NoFault ==> v.head == HeadOf(table[..v.checked])
    ensures v.fault != NoFault ==>
              exists i :: && 0 <= i < v.checked && !Fits(table, i, h) && Intact(table[..i], h)
                          && v.brokenAt == table[i].link.number && v.head == HeadOf(table[..i])
                          && (v.fault == MissingBefore <==> table[i].prevHash != HeadOf(table[..i]))
  {
    hide HashOf;
    var rows := Within(table, limit);
    WithinIsAPrefix(table, limit, h);
    assert rows == table[..|rows|] && table[..|table|] == table;
    var prev := GENESIS;
    for i := 0 to |rows|
      invariant prev == HeadOf(rows[..i])
      invariant Intact(rows[..i], h)
      invariant forall j :: 0 <= j < i ==> Fits(rows, j, h)
    {
      var row := rows[i];
      if row.prevHash != prev {
        assert !Fits(rows, i, h);
        return Verdict(|rows|, row.link.number, MissingBefore, prev);
      }
      var expected := ComputeHash(row.link, prev, h);
      if expected != row.hash {
        assert !Fits(rows, i, h);
        return Verdict(|rows|, row.link.number, Changed, prev);
      }
      PrefixFits(rows, i + 1, h);
      prev := row.hash;
    }
    assert rows[..|rows|] == rows;
    return Verdict(|rows|, 0, NoFault, prev);
  }

  lemma WithinIsAPrefix(table: seq<Row>, limit: Option<nat>, h: Digest)
    ensures var rows := Within(table, limit);
            && rows <= table
            && (forall i :: 0 <= i < |rows| ==> rows[..i] == table[..i] && (Fits(rows, i, h) <==> Fits(table, i, h)))
  {
    hide HashOf;
    var rows := Within(table, limit);
    assert rows == table[..|rows|];
    PrefixFits(table, |rows|, h);
  }

  lemma PrefixFits(rows: seq<Row>, n: nat, h: Digest)
    requires n <= |rows|
    ensures forall i :: 0 <= i < n ==> Fits(rows[..n], i, h) == Fits(rows, i, h)
  {
    hide HashOf;
    forall i | 0 <= i < n
      ensures Fits(rows[..n], i, h) == Fits(rows, i, h)
    {
      assert rows[..n][..i] == rows[..i];
    }
  }

  ghost predicate CollisionFree(h: Digest) {
    && (forall x, y :: h(x) == h(y) ==> x == y)
    && (forall x :: h(x) != GENESIS)
  }

  /**
   * Two tables that both verify and end at the same head are the same table, row for row: no
   * deletion, edit, reordering, insertion or truncation leaves the published head standing.
   */
  lemma {:induction false} HeadDeterminesTable(a: seq<Row>, b: seq<Row>, h: Digest)
    requires CollisionFree(h) && Intact(a, h) && Intact(b, h)
    requires HeadOf(a) == HeadOf(b)
    ensures a == b
    decreases |a|
  {
    hide Encode;
    assert a != [] ==> Fits(a, |a| - 1, h);
    assert b != [] ==> Fits(b, |b| - 1, h);
    if a != [] && b != [] {
      var m, n := |a| - 1, |b| - 1;
      assert Fits(a, m, h) && Fits(b, n, h);
      PayloadInjective(a[m].link, a[m].prevHash, b[n].link, b[n].prevHash);
      PrefixFits(a, m, h);
      PrefixFits(b, n, h);
      HeadDeterminesTable(a[..m], b[..n], h);
      assert a == a[..m] + [a[m]] && b == b[..n] + [b[n]];
    }
  }

  /** Verifying alone accepts every truncation of an intact table; its head does not. */
  lemma TruncationShowsOnlyInTheHead(rows: seq<Row>, n: nat, h: Digest)
    requires CollisionFree(h) && Intact(rows, h) && n < |rows|
    ensures Intact(rows[..n], h) && HeadOf(rows[..n]) != HeadOf(rows)
  {
    PrefixFits(rows, n, h);
    if HeadOf(rows[..n]) == HeadOf(rows) { HeadDeterminesTable(rows[..n], rows, h); }
  }

  // ---- appending ----

  datatype Entry = Entry(
    eventId: string, requestId: string, occurredMicros: int, tenant: string, actor: string, action: string,
    resource: string, outcome: string, reason: string, sourceIp: string, snapshotVersion: int)

  function LinkFor(number: int, e: Entry): Link {
    Link(number, e.eventId, e.requestId, e.occurredMicros, e.tenant, e.actor, e.action, e.resource,
         e.outcome, e.reason, e.sourceIp, e.snapshotVersion)
  }

  function EntryOf(link: Link): Entry {
    Entry(link.eventId, link.requestId, link.occurredMicros, link.tenant, link.actor, link.action,
          link.resource, link.outcome, link.reason, link.sourceIp, link.snapshotVersion)
  }

  function Entries(rows: seq<Row>): (r: seq<Entry>)
    ensures |r| == |rows|
  {
    seq(|rows|, i requires 0 <= i < |rows| => EntryOf(rows[i].link))
  }

  predicate Seen(rows: seq<Row>, id: string) {
    exists i :: 0 <= i < |rows| && rows[i].link.eventId == id
  }

  predicate Known(entries: seq<Entry>, id: string) {
    exists i :: 0 <= i < |entries| && entries[i].eventId == id
  }

  /** The entries of a stream with every repeated event id dropped after its first occurrence. */
  function FirstOccurrences(stream: seq<Entry>): seq<Entry> {
    if stream == [] then []
    else
      var kept := FirstOccurrences(stream[..|stream| - 1]);
      if Known(kept, stream[|stream| - 1].eventId) then kept else kept + [stream[|stream| - 1]]
  }

  lemma FirstOccurrencesStep(stream: seq<Entry>)
    ensures FirstOccurrences(stream)
         == if stream == [] then []
            else
              var kept := FirstOccurrences(stream[..|stream| - 1]);
              if Known(kept, stream[|stream| - 1].eventId) then kept else kept + [stream[|stream| - 1]]
  {
  }

  /** The dedup keeps an entry for every event id delivered, and keeps it once. */
  lemma {:induction false} FirstOccurrencesLoseNothing(stream: seq<Entry>)
    ensures forall i :: 0 <= i < |stream| ==> Known(FirstOccurrences(stream), stream[i].eventId)
    ensures forall i, j :: 0 <= i < j < |FirstOccurrences(stream)| ==>
              FirstOccurrences(stream)[i].eventId != FirstOccurrences(stream)[j].eventId
    ensures forall e :: e in FirstOccurrences(stream) ==> e in stream
  {
    if stream != [] {
      var front, last := stream[..|stream| - 1], stream[|stream| - 1];
      FirstOccurrencesLoseNothing(front);
      var kept := FirstOccurrences(front);
      var all := FirstOccurrences(stream);
      assert kept <= all;
      forall i | 0 <= i < |stream|
        ensures Known(all, stream[i].eventId)
      {
        if i < |front| {
          assert front[i] == stream[i] && Known(kept, front[i].eventId);
          var j :| 0 <= j < |kept| && kept[j].eventId == front[i].eventId;
          assert all[j] == kept[j];
        } else if !Known(kept, last.eventId) {
          assert all[|kept|] == last;
        }
      }
    }
  }

  lemma NewIdIsNew(stream: seq<Entry>, id: string)
    requires !Known(FirstOccurrences(stream), id)
    ensures forall j :: 0 <= j < |stream| ==> stream[j].eventId != id
  {
    hide FirstOccurrences, Known;
    FirstOccurrencesLoseNothing(stream);
  }

  /** What is kept stands in stream order, each entry at the earliest position its event id has. */
  lemma {:induction false} FirstOccurrencesAreEarliest(stream: seq<Entry>) returns (at: seq<nat>)
    ensures |at| == |FirstOccurrences(stream)|
    ensures forall i, j :: 0 <= i < j < |at| ==> at[i] < at[j]
    ensures forall i :: 0 <= i < |at| ==> at[i] < |stream| && FirstOccurrences(stream)[i] == stream[at[i]]
    ensures forall i, j :: 0 <= i < |at| && 0 <= j < at[i] ==> stream[j].eventId != stream[at[i]].eventId
  {
    hide FirstOccurrences, Known;
    FirstOccurrencesStep(stream);
    if stream == [] {
      at := [];
    } else {
      var front, last := stream[..|stream| - 1], stream[|stream| - 1];
      at := FirstOccurrencesAreEarliest(front);
      var kept := FirstOccurrences(front);
      assert forall i :: 0 <= i < |front| ==> front[i] == stream[i];
      if !Known(kept, last.eventId) {
        NewIdIsNew(front, last.eventId);
        at := at + [|front|];
      }
    }
  }

  /** Where the chain ends: the last row's number and hash. */
  function HeadNumber(rows: seq<Row>): int {
    if rows == [] then 0 else rows[|rows| - 1].link.number
  }

  function NextRow(rows: seq<Row>, e: Entry, h: Digest): Row {
    var link := LinkFor(HeadNumber(rows) + 1, e);
    Row(link, HeadOf(rows), HashOf(link, HeadOf(rows), h))
  }

  function Appended(rows: seq<Row>, batch: seq<Entry>, h: Digest): seq<Row> {
    if batch == [] then rows
    else
      var before := Appended(rows, batch[..|batch| - 1], h);
      var e := batch[|batch| - 1];
      if Seen(before, e.eventId) then before else before + [NextRow(before, e, h)]
  }

  lemma AppendedStep(rows: seq<Row>, batch: seq<Entry>, h: Digest, i: nat)
    requires i < |batch|
    ensures var before := Appended(rows, batch[..i], h);
            Appended(rows, batch[..i + 1], h)
            == if Seen(before, batch[i].eventId) then before else before + [NextRow(before, batch[i], h)]
  {
    assert batch[..i + 1][..i] == batch[..i];
  }

  /** The session's view of the table: committed rows and the rows added since. */
  class AuditLog {
    var rows: seq<Row>

    constructor (rows: seq<Row>)
      ensures this.rows == rows
    {
      this.rows := rows;
    }

    method Append(batch: seq<Entry>, h: Digest) returns (appended: nat, duplicates: nat)
      modifies this
      ensures rows == Appended(old(rows), batch, h)
      ensures appended + duplicates == |batch| && |rows| == |old(rows)| + appended
    {
      hide Seen, NextRow, Appended;
      appended, duplicates := 0, 0;
      NothingAppended(rows, batch[..0], h);
      if batch == [] {
        return;
      }
      ghost var start := rows;
      var number, prev := HeadNumber(rows), HeadOf(rows);
      for i := 0 to |batch|
        invariant rows == Appended(start, batch[..i], h)
        invariant number == HeadNumber(rows) && prev == HeadOf(rows)
        invariant appended + duplicates == i && |rows| == |start| + appended
      {
        AppendedStep(start, batch, h, i);
        var entry := batch[i];
        if Seen(rows, entry.eventId) {
          duplicates := duplicates + 1;
          continue;
        }
        NextRowOf(rows, entry, h);
        number := number + 1;
        var link := LinkFor(number, entry);
        var digest := ComputeHash(link, prev, h);
        rows := rows + [Row(link, prev, digest)];
        prev := digest;
        appended := appended + 1;
      }
      assert batch[..|batch|] == batch;
    }
  }

  lemma NothingAppended(rows: seq<Row>, batch: seq<Entry>, h: Digest)
    requires batch == []
    ensures Appended(rows, batch, h) == rows
  {
  }

  lemma NextRowOf(rows: seq<Row>, e: Entry, h: Digest)
    ensures var link := LinkFor(HeadNumber(rows) + 1, e);
            NextRow(rows, e, h) == Row(link, HeadOf(rows), HashOf(link, HeadOf(rows), h))
  {
  }

  /** Intact, and numbered 1, 2, … without a gap. */
  ghost predicate Chain(rows: seq<Row>, h: Digest) {
    && Intact(rows, h)
    && forall i :: 0 <= i < |rows| ==> rows[i].link.number == i + 1
  }

  lemma ExtendKeepsChain(rows: seq<Row>, e: Entry, h: Digest)
    requires Chain(rows, h)
    ensures Chain(rows + [NextRow(rows, e, h)], h)
    ensures Entries(rows + [NextRow(rows, e, h)]) == Entries(rows) + [e]
  {
    hide HashOf;
    var all := rows + [NextRow(rows, e, h)];
    assert all[..|rows|] == rows;
    PrefixFits(all, |rows|, h);
    assert Fits(all, |rows|, h);
    assert EntryOf(all[|rows|].link) == e;
  }

  lemma SeenIsKnown(rows: seq<Row>, id: string)
    ensures Seen(rows, id) <==> Known(Entries(rows), id)
  {
    if i :| 0 <= i < |rows| && rows[i].link.eventId == id {
      assert Entries(rows)[i].eventId == id;
    }
  }

  /** Appending a batch extends the chain by exactly the entries not seen before, in order. */
  lemma {:induction false} AppendKeepsChain(rows: seq<Row>, past: seq<Entry>, batch: seq<Entry>, h: Digest)
    requires Chain(rows, h) && Entries(rows) == FirstOccurrences(past)
    ensures Chain(Appended(rows, batch, h), h)
    ensures Entries(Appended(rows, batch, h)) == FirstOccurrences(past + batch)
    ensures rows <= Appended(rows, batch, h)
    decreases |batch|
  {
    hide Chain, Entries, Seen, Known, NextRow;
    if batch == [] {
      assert past + batch == past;
    } else {
      var front, e := batch[..|batch| - 1], batch[|batch| - 1];
      AppendKeepsChain(rows, past, front, h);
      var before := Appended(rows, front, h);
      SeenIsKnown(before, e.eventId);
      ExtendKeepsChain(before, e, h);
      assert (past + batch)[..|past + batch| - 1] == past + front;
    }
  }
}
