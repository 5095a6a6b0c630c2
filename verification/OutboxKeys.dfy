/** Idempotency keys over runs of the outbox: when one key can go out twice. */
module OutboxKeys {
  import opened Collections
  import opened Session
  import opened Outbox

  // ---- every row there ever was ----

  predicate Stored(x: Box, m: Sent) {
    m.entry.seqNo in x.rows && x.rows[m.entry.seqNo].bot == m.bot
    && m.entry == EntryOf(m.entry.seqNo, x.rows[m.entry.seqNo])
  }

  function RowsNow(x: Box): set<Sent> {
    set n | n in x.rows :: Sent(x.rows[n].bot, EntryOf(n, x.rows[n]))
  }

  lemma RowsAreStored(x: Box, m: Sent)
    ensures m in RowsNow(x) <==> Stored(x, m)
  {
  }

  /** The rows that were in the table at some moment of the run. */
  function Ever(ops: seq<Op>): set<Sent> {
    RowsNow(Run(EMPTY, ops)) + (if ops == [] then {} else Ever(ops[..|ops| - 1]))
  }

  /** A purge of the run removed this row. */
  ghost predicate Purged(ops: seq<Op>, m: Sent) {
    exists r :: PurgedAt(ops, m, r)
  }

  predicate PurgedAt(ops: seq<Op>, m: Sent, r: int) {
    0 <= r < |ops| && ops[r].Purge? && Stored(Run(EMPTY, ops[..r]), m)
    && m.entry.seqNo !in Step(Run(EMPTY, ops[..r]), ops[r]).rows
  }

  lemma PurgedStays(front: seq<Op>, op: Op, m: Sent)
    requires Purged(front, m)
    ensures Purged(front + [op], m)
  {
    var r :| PurgedAt(front, m, r);
    assert (front + [op])[..r] == front[..r] && (front + [op])[r] == front[r];
    assert PurgedAt(front + [op], m, r);
  }

  lemma PurgedNow(front: seq<Op>, op: Op, m: Sent)
    requires op.Purge? && Stored(Run(EMPTY, front), m) && m.entry.seqNo !in Step(Run(EMPTY, front), op).rows
    ensures Purged(front + [op], m)
  {
    assert (front + [op])[..|front|] == front && (front + [op])[|front|] == op;
    assert PurgedAt(front + [op], m, |front|);
  }

  // ---- rows of one key follow each other ----

  /** Each row is still stored or was purged, and a row of a key was purged before the next one was queued. */
  ghost predicate Succession(ops: seq<Op>) {
    var x := Run(EMPTY, ops);
    && (forall m :: m in Ever(ops) ==> m.entry.seqNo < x.nextSeq && (Stored(x, m) || Purged(ops, m)))
    && (forall m, n :: m in Ever(ops) && n in Ever(ops) && m.entry.key == n.entry.key
                       && m.entry.seqNo < n.entry.seqNo ==>
          Purged(ops, m))
  }

  /** What one step does to a stored row: it stays as it is, or a purge takes it. */
  lemma RowStep(x: Box, op: Op, m: Sent)
    requires Stored(x, m) && m.entry.seqNo < x.nextSeq
    ensures x.nextSeq <= Step(x, op).nextSeq
    ensures Stored(Step(x, op), m) || (op.Purge? && m.entry.seqNo !in Step(x, op).rows)
  {
  }

  /** What one step adds: at most one row, numbered next, and only under a key that no stored row has. */
  lemma NewRow(x: Box, op: Op, m: Sent)
    requires Stored(Step(x, op), m) && !Stored(x, m)
    ensures m.entry.seqNo == x.nextSeq < Step(x, op).nextSeq && !HasKey(x.rows, m.entry.key)
  {
  }

  lemma NextSeqGrows(x: Box, op: Op)
    ensures x.nextSeq <= Step(x, op).nextSeq
  {
  }

  lemma EverStep(front: seq<Op>, op: Op, m: Sent)
    ensures m in Ever(front + [op]) <==> m in Ever(front) || Stored(Run(EMPTY, front + [op]), m)
  {
    assert (front + [op])[..|front|] == front;
    RowsAreStored(Run(EMPTY, front + [op]), m);
    hide Run;
  }

  lemma OldRow(front: seq<Op>, op: Op, m: Sent)
    requires Succession(front) && m in Ever(front)
    ensures var y := Step(Run(EMPTY, front), op);
            m.entry.seqNo < y.nextSeq && (Stored(y, m) || Purged(front + [op], m))
  {
    var x := Run(EMPTY, front);
    NextSeqGrows(x, op);
    hide Run, Step, Ever, PurgedAt;
    if Purged(front, m) {
      PurgedStays(front, op, m);
    } else {
      RowStep(x, op, m);
      if !Stored(Step(x, op), m) { PurgedNow(front, op, m); }
    }
  }

  lemma SuccessionStep(front: seq<Op>, op: Op)
    requires Succession(front)
    ensures Succession(front + [op])
  {
    var ops, x := front + [op], Run(EMPTY, front);
    var y := Step(x, op);
    assert Run(EMPTY, ops) == y by { assert ops[..|front|] == front; }
    hide Run, Step, Ever, Purged, Stored;
    forall m | m in Ever(ops) ensures m.entry.seqNo < y.nextSeq && (Stored(y, m) || Purged(ops, m)) {
      EverStep(front, op, m);
      if m in Ever(front) { OldRow(front, op, m); } else { NewIsNew(front, op, m); }
    }
    forall m, n | m in Ever(ops) && n in Ever(ops) && m.entry.key == n.entry.key && m.entry.seqNo < n.entry.seqNo
      ensures Purged(ops, m)
    {
      EverStep(front, op, m);
      EverStep(front, op, n);
      if m !in Ever(front) {
        NewIsNew(front, op, m);
        if n !in Ever(front) { NewIsNew(front, op, n); }
      } else if n in Ever(front) {
        PurgedStays(front, op, m);
      } else {
        NewIsNew(front, op, n);
        KeyIsFree(x, m);
        PurgedStays(front, op, m);
      }
    }
  }

  lemma NewIsNew(front: seq<Op>, op: Op, m: Sent)
    requires Succession(front) && m !in Ever(front) && Stored(Step(Run(EMPTY, front), op), m)
    ensures var x := Run(EMPTY, front);
            m.entry.seqNo == x.nextSeq < Step(x, op).nextSeq && !HasKey(x.rows, m.entry.key)
  {
    var x := Run(EMPTY, front);
    assert !Stored(x, m) by { RowsAreStored(x, m); }
    NewRow(x, op, m);
  }

  lemma KeyIsFree(x: Box, m: Sent)
    ensures Stored(x, m) ==> HasKey(x.rows, m.entry.key)
  {
  }

  lemma {:induction false} RunSucceeds(ops: seq<Op>)
    ensures Succession(ops)
  {
    if ops != [] {
      RunSucceeds(ops[..|ops| - 1]);
      assert ops == ops[..|ops| - 1] + [ops[|ops| - 1]];
      hide Succession;
      SuccessionStep(ops[..|ops| - 1], ops[|ops| - 1]);
    }
  }

  // ---- only queued rows are sent ----

  /** Everything the flusher of `b` holds. */
  function Held(x: Box, b: Bot): seq<Entry> {
    match FlushOf(x, b)
    case Idle => []
    case Sending(rest) => rest
    case Unacked(e, rest) => [e] + rest
  }

  predicate AllFrom(s: seq<Entry>, b: Bot, rows: set<Sent>) {
    forall k :: 0 <= k < |s| ==> Sent(b, s[k]) in rows
  }

  lemma PendingStored(x: Box, b: Bot)
    ensures AllFrom(Pending(x.rows, b, x.nextSeq), b, RowsNow(x))
  {
    PendingExact(x.rows, b, x.nextSeq);
    var s := Pending(x.rows, b, x.nextSeq);
    forall k | 0 <= k < |s| ensures Sent(b, s[k]) in RowsNow(x) { RowsAreStored(x, Sent(b, s[k])); }
  }

  /** A step leaves a flusher as it was, or holding less, or holding a new read. */
  lemma HeldStep(x: Box, op: Op, b: Bot, rows: set<Sent>)
    requires AllFrom(Held(x, b), b, rows) && RowsNow(x) <= rows
    ensures AllFrom(Held(Step(x, op), b), b, rows)
  {
    var y := Step(x, op);
    hide RowsNow;
    if op.Take? && op.bot == b && FlushOf(x, b).Idle? {
      PendingStored(x, b);
    } else if op.Ack? && op.bot == b && FlushOf(x, b).Unacked? {
      assert Held(y, b) == Held(x, b)[1..];
    } else if op.Send? && op.bot == b && FlushOf(x, b).Sending? {
      assert Held(y, b) == Held(x, b) || Held(y, b) == [];
    } else {
      assert FlushOf(y, b) == FlushOf(x, b) || Held(y, b) == [];
    }
  }

  lemma SentStep(x: Box, op: Op, b: Bot, rows: set<Sent>)
    requires AllFrom(Held(x, b), b, rows) && AllFrom(SentTo(x.log, b), b, rows)
    ensures AllFrom(SentTo(Step(x, op).log, b), b, rows)
  {
    if op.Send? && FlushOf(x, op.bot).Sending? && FlushOf(x, op.bot).rest != [] && op.connected {
      SentAppend(x.log, Sent(op.bot, FlushOf(x, op.bot).rest[0]), b);
    }
    hide SentTo;
  }

  lemma {:induction false} OnlyQueuedIsSent(ops: seq<Op>, b: Bot)
    ensures var x := Run(EMPTY, ops); AllFrom(SentTo(x.log, b), b, Ever(ops)) && AllFrom(Held(x, b), b, Ever(ops))
  {
    if ops != [] {
      var front, op := ops[..|ops| - 1], ops[|ops| - 1];
      var x := Run(EMPTY, front);
      OnlyQueuedIsSent(front, b);
      assert RowsNow(x) <= Ever(front) <= Ever(ops);
      hide RowsNow, Ever, SentTo, Held;
      HeldStep(x, op, b, Ever(front));
      SentStep(x, op, b, Ever(front));
    }
  }

  // ---- when a key goes out twice ----

  /** While no acknowledgement is lost: when one key goes out twice, a purge had removed the row of the earlier frame
      before the later one was sent; and every frame goes out as it was queued. */
  lemma KeyRepeats(ops: seq<Op>, b: Bot)
    requires Lost(EMPTY, ops, b) == 0
    ensures var s := SentTo(Run(EMPTY, ops).log, b);
            && (forall i, j :: 0 <= i < j < |s| && s[i].key == s[j].key ==> Purged(ops, Sent(b, s[i])))
            && AllFrom(s, b, Ever(ops))
  {
    OutboxSafety(ops, b);
    RunSucceeds(ops);
    OnlyQueuedIsSent(ops, b);
    hide Run, SentTo, Ever, Purged, Lost;
    var s := SentTo(Run(EMPTY, ops).log, b);
    forall i, j | 0 <= i < j < |s| && s[i].key == s[j].key ensures Purged(ops, Sent(b, s[i])) {
      assert Sent(b, s[i]) in Ever(ops) && Sent(b, s[j]) in Ever(ops) && s[i].seqNo < s[j].seqNo;
    }
  }

  /** So a key none of whose rows is purged goes out at most once, whatever is purged besides. */
  lemma KeysOnce(ops: seq<Op>, b: Bot, key: string)
    requires Lost(EMPTY, ops, b) == 0
    requires forall m: Sent :: m.entry.key == key ==> !Purged(ops, m)
    ensures var s := SentTo(Run(EMPTY, ops).log, b);
            forall i, j :: 0 <= i < j < |s| ==> !(s[i].key == key && s[j].key == key)
  {
    KeyRepeats(ops, b);
    hide Run, SentTo, Purged, Lost;
  }

  // ---- witnesses ----

  lemma RunMore(ops: seq<Op>, op: Op)
    ensures Run(EMPTY, ops + [op]) == Step(Run(EMPTY, ops), op)
    ensures forall b :: Lost(EMPTY, ops + [op], b) == Lost(EMPTY, ops, b)
                        + (if Loses(Run(EMPTY, ops), op, b) then 1 else 0)
  {
    assert (ops + [op])[..|ops|] == ops;
  }

  function Queue(b: Bot): Op {
    Enqueue(b, "s", "k", "f")
  }

  /** A purge while the frame is held: queued, read, purged and queued again, ... */
  function HeldAndPurged(b: Bot): seq<Op> {
    [Queue(b)] + [Take(b, true)] + [Purge({"s"}, None)] + [Queue(b)]
  }

  /** ... and only then sent, twice. */
  function Rearmed(b: Bot): seq<Op> {
    HeldAndPurged(b) + [Send(b, true)] + [Ack(b, true)] + [Send(b, true)] + [Take(b, true)] + [Send(b, true)]
  }

  function TheRow(b: Bot): Row {
    Row(b, "s", "k", "f", false)
  }

  lemma OnePending(b: Bot, n: nat, row: Row)
    requires row.bot == b && !row.delivered
    ensures Pending(map[n := row], b, n + 1) == [EntryOf(n, row)]
  {
    NonePending(map[n := row], b, n);
  }

  lemma {:induction false} NonePending(rows: map<nat, Row>, b: Bot, bound: nat)
    requires forall n :: 0 <= n < bound ==> n !in rows
    ensures Pending(rows, b, bound) == []
  {
    if bound > 0 { NonePending(rows, b, bound - 1); }
  }

  lemma HeldAndPurgedLeaves(b: Bot)
    ensures Run(EMPTY, HeldAndPurged(b)) == Box(map[1 := TheRow(b)], 2, map[b := Sending([Entry(0, "k", "f")])], [])
    ensures Lost(EMPTY, HeldAndPurged(b), b) == 0
  {
    hide Run, Lost, Pending;
    var row, e0 := TheRow(b), Entry(0, "k", "f");
    var o1 := [Queue(b)];
    var o2 := o1 + [Take(b, true)];
    var o3 := o2 + [Purge({"s"}, None)];
    RunStart();
    RunMore([], Queue(b));
    assert [] + [Queue(b)] == o1;
    assert Run(EMPTY, o1) == Box(map[0 := row], 1, map[], []);
    OnePending(b, 0, row);
    RunMore(o1, Take(b, true));
    assert Run(EMPTY, o2) == Box(map[0 := row], 1, map[b := Sending([e0])], []);
    RunMore(o2, Purge({"s"}, None));
    assert Run(EMPTY, o3) == Box(map[], 1, map[b := Sending([e0])], []);
    RunMore(o3, Queue(b));
  }

  /** A purged key goes out twice without any fault; and since a flusher may still hold a purged frame, the purge
      need not stand between the two sends. */
  lemma RearmedKeyRepeats(b: Bot)
    ensures Lost(EMPTY, Rearmed(b), b) == 0
    ensures SentTo(Run(EMPTY, Rearmed(b)).log, b) == [Entry(0, "k", "f"), Entry(1, "k", "f")]
  {
    hide Run, Lost, Pending, SentTo;
    var row, e0, e1 := TheRow(b), Entry(0, "k", "f"), Entry(1, "k", "f");
    var o4 := HeldAndPurged(b);
    var o5 := o4 + [Send(b, true)];
    var o6 := o5 + [Ack(b, true)];
    var o7 := o6 + [Send(b, true)];
    var o8 := o7 + [Take(b, true)];
    HeldAndPurgedLeaves(b);
    hide HeldAndPurged;
    RunMore(o4, Send(b, true));
    assert [e0][1..] == [] && [] + [Sent(b, e0)] == [Sent(b, e0)];
    assert Run(EMPTY, o5) == Box(map[1 := row], 2, map[b := Unacked(e0, [])], [Sent(b, e0)]);
    RunMore(o5, Ack(b, true));
    assert Run(EMPTY, o6) == Box(map[1 := row], 2, map[b := Sending([])], [Sent(b, e0)]);
    RunMore(o6, Send(b, true));
    assert Run(EMPTY, o7) == Box(map[1 := row], 2, map[], [Sent(b, e0)]);
    OnePending(b, 1, row);
    RunMore(o7, Take(b, true));
    assert Run(EMPTY, o8) == Box(map[1 := row], 2, map[b := Sending([e1])], [Sent(b, e0)]);
    RunMore(o8, Send(b, true));
    assert Run(EMPTY, Rearmed(b)).log == [Sent(b, e0)] + [Sent(b, e1)];
    SentNone(b);
    SentAppend([], Sent(b, e0), b);
    SentAppend([Sent(b, e0)], Sent(b, e1), b);
  }

  lemma RunStart()
    ensures Run(EMPTY, []) == EMPTY && forall b :: Lost(EMPTY, [], b) == 0
  {
  }

  lemma SentNone(b: Bot)
    ensures SentTo([], b) == []
  {
  }
}
