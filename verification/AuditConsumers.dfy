/**
 * Any number of audit consumers reading an at-least-once stream into one chain.
 *
 * A batch is delivered, appended in a transaction that holds the chain lock,
 * committed, and only then acknowledged.  A consumer may crash between any two of
 * these; its transaction is then rolled back and its lock released, and whatever
 * was not acknowledged may be delivered again, to anyone.
 */
module AuditConsumers {
  import opened Options
  import opened AuditChain

  datatype Phase =
    | Idle
    | Delivered(batch: seq<Entry>)
    | Appending(batch: seq<Entry>, view: seq<Row>)
    | Stored(batch: seq<Entry>)

  /** `stored` and `acked` record what has been committed and acknowledged, in order. */
  datatype State = State(
    table: seq<Row>, lock: Option<nat>, consumers: map<nat, Phase>, stored: seq<Entry>, acked: seq<Entry>)

  datatype Action = Deliver(batch: seq<Entry>) | Append | Commit | Ack | Crash

  function PhaseOf(s: State, c: nat): Phase {
    if c in s.consumers then s.consumers[c] else Idle
  }

  predicate Enabled(s: State, c: nat, a: Action) {
    match a
    case Deliver(_) => PhaseOf(s, c).Idle?
    case Append => PhaseOf(s, c).Delivered? && s.lock == None
    case Commit => PhaseOf(s, c).Appending?
    case Ack => PhaseOf(s, c).Stored?
    case Crash => true
  }

  function Goto(s: State, c: nat, p: Phase): State {
    s.(consumers := s.consumers[c := p])
  }

  function Step(s: State, c: nat, a: Action, h: Digest): State
    requires Enabled(s, c, a)
  {
    var p := PhaseOf(s, c);
    match a
    case Deliver(batch) => Goto(s, c, Delivered(batch))
    case Append => Goto(s.(lock := Some(c)), c, Appending(p.batch, Appended(s.table, p.batch, h)))
    case Commit => Goto(s.(table := p.view, lock := None, stored := s.stored + p.batch), c, Stored(p.batch))
    case Ack => Goto(s.(acked := s.acked + p.batch), c, Idle)
    case Crash => Goto(if s.lock == Some(c) then s.(lock := None) else s, c, Idle)
  }

  ghost predicate Contains(all: seq<Entry>, some: seq<Entry>) {
    forall e :: e in some ==> e in all
  }

  /** Only the holder of the lock has appended, and its view extends the table as it still is. */
  ghost predicate Locked(s: State, h: Digest) {
    forall c :: c in s.consumers && s.consumers[c].Appending? ==>
      s.lock == Some(c) && s.consumers[c].view == Appended(s.table, s.consumers[c].batch, h)
  }

  ghost predicate Inv(s: State, h: Digest) {
    && Chain(s.table, h)
    && Entries(s.table) == FirstOccurrences(s.stored)
    && Locked(s, h)
    && (forall c :: c in s.consumers && s.consumers[c].Stored? ==> Contains(s.stored, s.consumers[c].batch))
    && Contains(s.stored, s.acked)
  }

  lemma CommitKeepsInv(s: State, c: nat, h: Digest)
    requires Inv(s, h) && Enabled(s, c, Commit)
    ensures Inv(Step(s, c, Commit, h), h)
  {
    hide Chain, Entries, FirstOccurrences, Appended;
    var p := s.consumers[c];
    AppendKeepsChain(s.table, s.stored, p.batch, h);
    assert p.view == Appended(s.table, p.batch, h);
    var s' := Step(s, c, Commit, h);
    assert forall d :: d in s'.consumers && d != c ==> s'.consumers[d] == s.consumers[d];
    assert Locked(s', h);
  }

  lemma StepKeepsInv(s: State, c: nat, a: Action, h: Digest)
    requires Inv(s, h) && Enabled(s, c, a)
    ensures Inv(Step(s, c, a, h), h)
  {
    if a.Commit? {
      CommitKeepsInv(s, c, h);
    } else {
      hide Chain, Entries, FirstOccurrences, Appended;
      var s' := Step(s, c, a, h);
      assert forall d :: d in s'.consumers && d != c ==> s'.consumers[d] == s.consumers[d];
      assert Contains(s'.stored, s'.acked);
    }
  }

  datatype Move = Move(consumer: nat, action: Action)

  ghost predicate Reaches(s: State, moves: seq<Move>, last: State, h: Digest)
    decreases |moves|
  {
    if moves == [] then s == last
    else
      && Enabled(s, moves[0].consumer, moves[0].action)
      && Reaches(Step(s, moves[0].consumer, moves[0].action, h), moves[1..], last, h)
  }

  lemma {:induction false} RunKeepsInv(s: State, moves: seq<Move>, last: State, h: Digest)
    requires Inv(s, h) && Reaches(s, moves, last, h)
    ensures Inv(last, h)
    decreases |moves|
  {
    hide Inv, Step, Enabled;
    if moves != [] {
      StepKeepsInv(s, moves[0].consumer, moves[0].action, h);
      RunKeepsInv(Step(s, moves[0].consumer, moves[0].action, h), moves[1..], last, h);
    }
  }

  lemma StepOnlyAppends(s: State, c: nat, a: Action, h: Digest)
    requires Inv(s, h) && Enabled(s, c, a)
    ensures s.table <= Step(s, c, a, h).table
  {
    hide Chain, Entries, FirstOccurrences, Appended;
    if a.Commit? {
      AppendKeepsChain(s.table, s.stored, s.consumers[c].batch, h);
    }
  }

  lemma {:induction false} RunOnlyAppends(s: State, moves: seq<Move>, last: State, h: Digest)
    requires Inv(s, h) && Reaches(s, moves, last, h)
    ensures s.table <= last.table
    decreases |moves|
  {
    hide Inv, Step, Enabled;
    if moves != [] {
      StepKeepsInv(s, moves[0].consumer, moves[0].action, h);
      StepOnlyAppends(s, moves[0].consumer, moves[0].action, h);
      RunOnlyAppends(Step(s, moves[0].consumer, moves[0].action, h), moves[1..], last, h);
    }
  }

  /** No event id twice, which the table's unique constraint ensures. */
  ghost predicate DistinctEvents(entries: seq<Entry>) {
    forall i, j :: 0 <= i < j < |entries| ==> entries[i].eventId != entries[j].eventId
  }

  lemma {:induction false} DistinctAreFirst(entries: seq<Entry>)
    requires DistinctEvents(entries)
    ensures FirstOccurrences(entries) == entries
  {
    hide FirstOccurrences;
    FirstOccurrencesStep(entries);
    if entries != [] {
      var front := entries[..|entries| - 1];
      assert forall i :: 0 <= i < |front| ==> front[i] == entries[i];
      DistinctAreFirst(front);
      assert entries == front + [entries[|entries| - 1]];
    }
  }

  /** Consumers starting over a table that is already there. */
  function Start(table: seq<Row>): State {
    State(table, None, map[], Entries(table), [])
  }

  lemma StartHolds(table: seq<Row>, h: Digest)
    requires Chain(table, h) && DistinctEvents(Entries(table))
    ensures Inv(Start(table), h)
  {
    hide Chain, Entries, FirstOccurrences;
    DistinctAreFirst(Entries(table));
  }

  /**
   * From every intact table, under every schedule of deliveries, commits, crashes and redeliveries,
   * the table only grows, verifies as intact, is numbered 1 to n, holds exactly the first occurrence of every
   * event id in it before or committed since, in order, and holds every acknowledged event.
   */
  lemma EveryRunKeepsTheChain(table: seq<Row>, moves: seq<Move>, s: State, h: Digest)
    requires Chain(table, h) && DistinctEvents(Entries(table)) && Reaches(Start(table), moves, s, h)
    ensures table <= s.table && Intact(s.table, h)
    ensures forall i :: 0 <= i < |s.table| ==> s.table[i].link.number == i + 1
    ensures Entries(s.table) == FirstOccurrences(s.stored)
    ensures forall e :: e in s.acked ==> Seen(s.table, e.eventId)
  {
    hide Reaches, FirstOccurrences, Intact;
    StartHolds(table, h);
    RunKeepsInv(Start(table), moves, s, h);
    RunOnlyAppends(Start(table), moves, s, h);
    FirstOccurrencesLoseNothing(s.stored);
    forall e | e in s.acked
      ensures Seen(s.table, e.eventId)
    {
      assert e in s.stored;
      SeenIsKnown(s.table, e.eventId);
    }
  }

  /** Without the lock two appenders that read one head fork the chain, and verifying says so. */
  lemma TwoAppendersFork(rows: seq<Row>, a: Entry, b: Entry, h: Digest)
    requires CollisionFree(h) && Chain(rows, h)
    ensures !Intact(rows + [NextRow(rows, a, h)] + [NextRow(rows, b, h)], h)
  {
    hide HashOf;
    var both := rows + [NextRow(rows, a, h)] + [NextRow(rows, b, h)];
    var n := |rows|;
    ExtendKeepsChain(rows, a, h);
    if Fits(both, n + 1, h) {
      assert both[..n + 1] == rows + [NextRow(rows, a, h)];
      assert HeadOf(rows) == HeadOf(rows + [NextRow(rows, a, h)]);
      HeadDeterminesTable(rows, rows + [NextRow(rows, a, h)], h);
    }
  }

  // ---- what a schedule can do ----

  /** A consumer that finds the lock free appends, commits and acknowledges its batch, and frees the lock. */
  lemma BatchGoesThrough(s: State, c: nat, batch: seq<Entry>, h: Digest)
    requires PhaseOf(s, c).Idle? && s.lock == None
    ensures Enabled(s, c, Deliver(batch))
    ensures var s1 := Step(s, c, Deliver(batch), h);
            && Enabled(s1, c, Append)
            && var s2 := Step(s1, c, Append, h);
               && Enabled(s2, c, Commit) && s2.lock == Some(c) && s2.table == s.table
               && var s3 := Step(s2, c, Commit, h);
                  && Enabled(s3, c, Ack) && s3.lock == None && s3.table == Appended(s.table, batch, h)
                  && s3.stored == s.stored + batch
                  && var s4 := Step(s3, c, Ack, h);
                     s4.table == s3.table && s4.acked == s.acked + batch && PhaseOf(s4, c).Idle?
  {
    hide Appended;
  }

  /** A crash loses nothing that was committed and gives the lock back, so that the next one can append. */
  lemma CrashFreesTheLock(s: State, c: nat, h: Digest)
    ensures Enabled(s, c, Crash)
    ensures var s' := Step(s, c, Crash, h);
            && s'.table == s.table && s'.stored == s.stored && s'.acked == s.acked && PhaseOf(s', c).Idle?
            && s'.lock == if s.lock == Some(c) then None else s.lock
  {
  }
}
