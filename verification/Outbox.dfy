/** The durable per-bot outbox: frames are queued once per idempotency key and flushed in order by whichever
    thread holds the bot's flush lock. Every statement is a step, so threads and crashes interleave freely. */
module Outbox {
  import opened Collections
  import opened Session

  datatype Row = Row(bot: Bot, session: string, key: string, frame: string, delivered: bool)

  /** One line of the pending read: the row's sequence number and what it carries. */
  datatype Entry = Entry(seqNo: nat, key: string, frame: string)

  /** Where the holder of a bot's flush lock stands: about to send the head of `rest`, or having sent `entry`
      and about to acknowledge it. */
  datatype Flush = Idle | Sending(rest: seq<Entry>) | Unacked(entry: Entry, rest: seq<Entry>)

  datatype Sent = Sent(bot: Bot, entry: Entry)

  /** The table (keyed by its never reused sequence number), the flushers, and every frame handed to a connection. */
  datatype Box = Box(rows: map<nat, Row>, nextSeq: nat, flush: map<Bot, Flush>, log: seq<Sent>)

  const EMPTY := Box(map[], 0, map[], [])

  // ---- the table ----

  function EntryOf(n: nat, r: Row): Entry {
    Entry(n, r.key, r.frame)
  }

  predicate Waiting(rows: map<nat, Row>, b: Bot, n: nat) {
    n in rows && rows[n].bot == b && !rows[n].delivered
  }

  predicate Done(rows: map<nat, Row>, b: Bot, n: nat) {
    n in rows && rows[n].bot == b && rows[n].delivered
  }

  predicate Ascending(s: seq<Entry>) {
    forall i, j :: 0 <= i < j < |s| ==> s[i].seqNo < s[j].seqNo
  }

  predicate Lists(s: seq<Entry>, n: nat) {
    exists k :: 0 <= k < |s| && s[k].seqNo == n
  }

  /** The undelivered rows of a bot below `bound`, by sequence number. */
  function Pending(rows: map<nat, Row>, b: Bot, bound: nat): seq<Entry> {
    if bound == 0 then []
    else Pending(rows, b, bound - 1) + (if Waiting(rows, b, bound - 1) then [EntryOf(bound - 1, rows[bound - 1])]
                                        else [])
  }

  lemma ListsAppend(s: seq<Entry>, t: seq<Entry>, n: nat)
    ensures Lists(s + t, n) <==> Lists(s, n) || Lists(t, n)
  {
    if Lists(s, n) {
      var k :| 0 <= k < |s| && s[k].seqNo == n;
      assert (s + t)[k].seqNo == n;
    }
    if Lists(t, n) {
      var k :| 0 <= k < |t| && t[k].seqNo == n;
      assert (s + t)[|s| + k].seqNo == n;
    }
  }

  lemma ListsOne(e: Entry, n: nat)
    ensures Lists([e], n) <==> n == e.seqNo
  {
    assert [e][0] == e;
  }

  lemma {:induction false} PendingInOrder(rows: map<nat, Row>, b: Bot, bound: nat)
    ensures var s := Pending(rows, b, bound);
            && Ascending(s)
            && (forall k :: 0 <= k < |s| ==> s[k].seqNo < bound && Waiting(rows, b, s[k].seqNo)
                                             && s[k] == EntryOf(s[k].seqNo, rows[s[k].seqNo]))
  {
    if bound != 0 {
      PendingInOrder(rows, b, bound - 1);
    }
  }

  lemma {:induction false} PendingComplete(rows: map<nat, Row>, b: Bot, bound: nat, n: nat)
    requires n < bound && Waiting(rows, b, n)
    ensures Lists(Pending(rows, b, bound), n)
  {
    var rest := Pending(rows, b, bound - 1);
    if n < bound - 1 {
      PendingComplete(rows, b, bound - 1, n);
    } else {
      ListsOne(EntryOf(n, rows[n]), n);
    }
    ListsAppend(rest, if Waiting(rows, b, bound - 1) then [EntryOf(bound - 1, rows[bound - 1])] else [], n);
  }

  /** The read returns exactly the waiting rows, in order, as they are stored. */
  lemma PendingExact(rows: map<nat, Row>, b: Bot, bound: nat)
    ensures var s := Pending(rows, b, bound);
            && Ascending(s)
            && (forall k :: 0 <= k < |s| ==> s[k].seqNo < bound && Waiting(rows, b, s[k].seqNo)
                                             && s[k] == EntryOf(s[k].seqNo, rows[s[k].seqNo]))
            && (forall n :: 0 <= n < bound && Waiting(rows, b, n) ==> Lists(s, n))
  {
    hide Lists, Pending, Waiting;
    PendingInOrder(rows, b, bound);
    forall n | 0 <= n < bound && Waiting(rows, b, n) ensures Lists(Pending(rows, b, bound), n) {
      PendingComplete(rows, b, bound, n);
    }
  }

  predicate HasKey(rows: map<nat, Row>, key: string) {
    exists n :: n in rows && rows[n].key == key
  }

  /** Insert-or-ignore on the unique key. */
  function Enqueued(x: Box, b: Bot, session: string, key: string, frame: string): Box {
    if HasKey(x.rows, key) then x
    else x.(rows := x.rows[x.nextSeq := Row(b, session, key, frame, false)], nextSeq := x.nextSeq + 1)
  }

  function Acked(rows: map<nat, Row>, n: nat): map<nat, Row> {
    if n in rows then rows[n := rows[n].(delivered := true)] else rows
  }

  predicate Purges(r: Row, sessions: set<string>, bot: Option<Bot>) {
    r.session in sessions && (bot == None || bot == Some(r.bot))
  }

  function Purged(rows: map<nat, Row>, sessions: set<string>, bot: Option<Bot>): map<nat, Row> {
    map n | n in rows && !Purges(rows[n], sessions, bot) :: rows[n]
  }

  // ---- steps ----

  /** `Send` carries whether the bot's current connection took the frame, which any interleaving of
      registrations may decide. `Ack(b, false)` is the store error the loop ignores. */
  datatype Op =
    | Enqueue(bot: Bot, session: string, key: string, frame: string)
    | Purge(sessions: set<string>, scope: Option<Bot>)
    | Take(bot: Bot, readOk: bool)
    | Send(bot: Bot, connected: bool)
    | Ack(bot: Bot, ok: bool)
    | Crash

  function FlushOf(x: Box, b: Bot): Flush {
    if b in x.flush then x.flush[b] else Idle
  }

  function WithFlush(x: Box, b: Bot, f: Flush): Box {
    x.(flush := if f.Idle? then x.flush - {b} else x.flush[b := f])
  }

  function Step(x: Box, op: Op): Box {
    match op
    case Enqueue(b, session, key, frame) => Enqueued(x, b, session, key, frame)
    case Purge(sessions, scope) => x.(rows := Purged(x.rows, sessions, scope))
    case Take(b, readOk) =>
      if FlushOf(x, b).Idle? then WithFlush(x, b, Sending(if readOk then Pending(x.rows, b, x.nextSeq) else [])) else x
    case Send(b, connected) =>
      var f := FlushOf(x, b);
      if !f.Sending? then x
      else if f.rest == [] || !connected then WithFlush(x, b, Idle)
      else WithFlush(x, b, Unacked(f.rest[0], f.rest[1..])).(log := x.log + [Sent(b, f.rest[0])])
    case Ack(b, ok) =>
      var f := FlushOf(x, b);
      if !f.Unacked? then x
      else WithFlush(x.(rows := if ok then Acked(x.rows, f.entry.seqNo) else x.rows), b, Sending(f.rest))
    case Crash => x.(flush := map[])
  }

  function Run(x: Box, ops: seq<Op>): Box {
    if ops == [] then x else Step(Run(x, ops[..|ops| - 1]), ops[|ops| - 1])
  }

  lemma RunNothing(x: Box)
    ensures Run(x, []) == x
  {
  }

  lemma RunMore(x: Box, ops: seq<Op>, op: Op)
    ensures Run(x, ops + [op]) == Step(Run(x, ops), op)
  {
    assert (ops + [op])[..|ops|] == ops;
  }

  lemma {:induction false} RunJoin(x: Box, a: seq<Op>, b: seq<Op>)
    ensures Run(x, a + b) == Run(Run(x, a), b)
  {
    if b == [] {
      assert a + b == a;
    } else {
      var front, op := b[..|b| - 1], b[|b| - 1];
      RunJoin(x, a, front);
      assert a + b == (a + front) + [op] && b == front + [op];
      RunMore(x, a + front, op);
      RunMore(Run(x, a), front, op);
    }
    hide Run, Step;
  }

  /** The step loses the acknowledgement of a frame already sent to `b`. */
  predicate Loses(x: Box, op: Op, b: Bot) {
    FlushOf(x, b).Unacked? && (op == Crash || op == Ack(b, false))
  }

  function Lost(x: Box, ops: seq<Op>, b: Bot): nat {
    if ops == [] then 0
    else
      var front, op := ops[..|ops| - 1], ops[|ops| - 1];
      Lost(x, front, b) + (if Loses(Run(x, front), op, b) then 1 else 0)
  }

  // ---- what was sent ----

  function SentTo(log: seq<Sent>, b: Bot): seq<Entry> {
    if log == [] then []
    else
      var last := log[|log| - 1];
      SentTo(log[..|log| - 1], b) + (if last.bot == b then [last.entry] else [])
  }

  function Numbers(s: seq<Entry>): (r: set<nat>)
    ensures forall n :: n in r <==> Lists(s, n)
  {
    set k | 0 <= k < |s| :: s[k].seqNo
  }

  function Duplicates(log: seq<Sent>, b: Bot): int {
    |SentTo(log, b)| - |Numbers(SentTo(log, b))|
  }

  predicate Above(n: nat, s: seq<Entry>) {
    forall k :: 0 <= k < |s| ==> s[k].seqNo < n
  }

  // ---- the invariant, bot by bot ----

  function Rest(x: Box, b: Bot): seq<Entry> {
    var f := FlushOf(x, b);
    if f.Idle? then [] else f.rest
  }

  predicate InFlight(x: Box, b: Bot, n: nat) {
    FlushOf(x, b).Unacked? && FlushOf(x, b).entry.seqNo == n
  }

  ghost predicate Sound(rows: map<nat, Row>, nextSeq: nat) {
    && (forall n :: n in rows ==> n < nextSeq)
    && (forall m, n :: m in rows && n in rows && rows[m].key == rows[n].key ==> m == n)
  }

  /** A listed entry still describes its row, if the row is still there. */
  predicate Matches(x: Box, b: Bot, e: Entry) {
    e.seqNo < x.nextSeq && (e.seqNo in x.rows ==> x.rows[e.seqNo].bot == b && e == EntryOf(e.seqNo, x.rows[e.seqNo]))
  }

  ghost predicate Inv(x: Box, b: Bot) {
    var s, rest := SentTo(x.log, b), Rest(x, b);
    && Sound(x.rows, x.nextSeq)
    && Ascending(rest)
    && (forall k :: 0 <= k < |rest| ==> Matches(x, b, rest[k]))
    && (FlushOf(x, b).Unacked? ==>
          Matches(x, b, FlushOf(x, b).entry) && Lists(s, FlushOf(x, b).entry.seqNo)
          && forall k :: 0 <= k < |rest| ==> FlushOf(x, b).entry.seqNo < rest[k].seqNo)
    && Above(x.nextSeq, s)
    && (forall n :: Done(x.rows, b, n) ==> Lists(s, n))
    && (forall n :: Waiting(x.rows, b, n) && !Lists(s, n) ==> Above(n, s) && (Lists(rest, n) || Above(n, rest)))
    && (forall k :: 0 <= k < |rest| && !Lists(s, rest[k].seqNo) ==> Above(rest[k].seqNo, s))
  }

  /** Frames sent before that may be sent again. */
  ghost function Owed(x: Box, b: Bot): set<nat> {
    set n | n in Numbers(SentTo(x.log, b)) && !InFlight(x, b, n) && (Waiting(x.rows, b, n) || Lists(Rest(x, b), n))
  }

  ghost predicate Bounded(x: Box, b: Bot, lost: nat) {
    && Duplicates(x.log, b) + |Owed(x, b)| <= lost
    && (lost == 0 ==> Ascending(SentTo(x.log, b)))
  }

  // ---- each step keeps it ----

  lemma SentAppend(log: seq<Sent>, m: Sent, b: Bot)
    ensures SentTo(log + [m], b) == SentTo(log, b) + (if m.bot == b then [m.entry] else [])
  {
    assert (log + [m])[..|log|] == log;
  }

  /** A row more, under the next number, and nothing else. */
  lemma EnqueueFacts(x: Box, op: Op, b: Bot)
    requires op.Enqueue? && Sound(x.rows, x.nextSeq)
    ensures var y := Step(x, op);
            && Sound(y.rows, y.nextSeq) && y.log == x.log && FlushOf(y, b) == FlushOf(x, b) && x.nextSeq <= y.nextSeq
            && (forall n :: Waiting(y.rows, b, n) ==> Waiting(x.rows, b, n) || n == x.nextSeq)
            && (forall n :: Waiting(x.rows, b, n) ==> Waiting(y.rows, b, n))
            && (forall n :: Done(y.rows, b, n) ==> Done(x.rows, b, n))
            && (forall e :: Matches(x, b, e) ==> Matches(y, b, e))
  {
  }

  lemma NextIsAbove(x: Box, b: Bot)
    requires Inv(x, b)
    ensures Above(x.nextSeq, SentTo(x.log, b)) && Above(x.nextSeq, Rest(x, b)) && !Lists(SentTo(x.log, b), x.nextSeq)
    ensures forall m :: x.nextSeq <= m ==> Above(m, SentTo(x.log, b))
  {
    hide SentTo;
    assert forall k :: 0 <= k < |Rest(x, b)| ==> Matches(x, b, Rest(x, b)[k]);
  }

  lemma EnqueueKeeps(x: Box, op: Op, b: Bot)
    requires op.Enqueue? && Inv(x, b)
    ensures Inv(Step(x, op), b) && Owed(Step(x, op), b) == Owed(x, b)
  {
    EnqueueFacts(x, op, b);
    NextIsAbove(x, b);
    hide SentTo, Lists, Above, Ascending, Sound, Waiting, Done, Matches, Step;
  }

  lemma PurgeKeeps(x: Box, op: Op, b: Bot)
    requires op.Purge? && Inv(x, b)
    ensures Inv(Step(x, op), b) && Owed(Step(x, op), b) <= Owed(x, b)
  {
    hide SentTo, Lists;
    var y := Step(x, op);
    assert y.log == x.log && FlushOf(y, b) == FlushOf(x, b);
  }

  lemma TakeKeeps(x: Box, op: Op, b: Bot)
    requires op.Take? && Inv(x, b)
    ensures Inv(Step(x, op), b) && Owed(Step(x, op), b) == Owed(x, b)
  {
    hide SentTo, Lists;
    var y := Step(x, op);
    assert op.bot != b ==> FlushOf(y, b) == FlushOf(x, b);
    if op.bot == b && y != x {
      PendingExact(x.rows, b, x.nextSeq);
      var rest := Rest(y, b);
      if op.readOk {
        assert rest == Pending(x.rows, b, x.nextSeq);
        forall n | Lists(rest, n) ensures Waiting(x.rows, b, n) { ListedIsWaiting(x, b, n); }
        assert forall n :: Waiting(x.rows, b, n) ==> n in x.rows && Lists(rest, n);
      }
      NothingListedAll();
      assert Rest(x, b) == [];
    }
  }

  lemma ListedIsWaiting(x: Box, b: Bot, n: nat)
    requires Lists(Pending(x.rows, b, x.nextSeq), n)
    ensures Waiting(x.rows, b, n)
  {
    PendingExact(x.rows, b, x.nextSeq);
  }

  lemma CrashKeeps(x: Box, b: Bot)
    requires Inv(x, b)
    ensures Inv(Step(x, Crash), b)
    ensures Owed(Step(x, Crash), b) <= Owed(x, b) + (if FlushOf(x, b).Unacked? then {FlushOf(x, b).entry.seqNo} else {})
  {
    hide SentTo, Lists;
    var y := Step(x, Crash);
    assert y.log == x.log && FlushOf(y, b) == Idle;
    NothingListedAll();
  }

  lemma NothingListedAll()
    ensures forall n: nat :: !Lists([], n)
  {
  }

  lemma AckKeeps(x: Box, op: Op, b: Bot)
    requires op.Ack? && Inv(x, b) && Inv(x, op.bot)
    ensures Inv(Step(x, op), b)
    ensures Owed(Step(x, op), b) <= Owed(x, b) + (if Loses(x, op, b) then {FlushOf(x, b).entry.seqNo} else {})
  {
    hide SentTo, Lists, Inv;
    var f, y := FlushOf(x, op.bot), Step(x, op);
    if y != x {
      var z := if op.ok then x.(rows := Acked(x.rows, f.entry.seqNo)) else x;
      if op.ok {
        MarkKeeps(x, op.bot, b);
      }
      assert y == WithFlush(z, op.bot, Sending(f.rest));
      ResumeKeeps(z, op.bot, b);
    }
  }

  ghost predicate MarkedOnly(x: Box, y: Box, n: nat, c: Bot) {
    && y == x.(rows := y.rows) && y.rows.Keys == x.rows.Keys
    && (forall m :: m in x.rows ==> y.rows[m] == x.rows[m]
                                    || (m == n && y.rows[m] == x.rows[m].(delivered := true) && x.rows[m].bot == c))
  }

  lemma MarkFacts(x: Box, c: Bot)
    requires Inv(x, c) && FlushOf(x, c).Unacked?
    ensures var n := FlushOf(x, c).entry.seqNo;
            && MarkedOnly(x, x.(rows := Acked(x.rows, n)), n, c) && !Waiting(Acked(x.rows, n), c, n)
               && Lists(SentTo(x.log, c), n)
  {
    hide SentTo, Lists;
    assert Matches(x, c, FlushOf(x, c).entry);
  }

  lemma MarkViews(x: Box, y: Box, n: nat, c: Bot, b: Bot)
    requires MarkedOnly(x, y, n, c) && Sound(x.rows, x.nextSeq)
    ensures Sound(y.rows, y.nextSeq) && FlushOf(y, b) == FlushOf(x, b) && y.log == x.log && y.nextSeq == x.nextSeq
    ensures forall m :: Waiting(y.rows, b, m) ==> Waiting(x.rows, b, m)
    ensures forall e :: Matches(x, b, e) ==> Matches(y, b, e)
    ensures forall m :: Done(y.rows, b, m) ==> Done(x.rows, b, m) || (m == n && c == b)
  {
  }

  lemma MarkInv(x: Box, y: Box, n: nat, c: Bot, b: Bot)
    requires Inv(x, b) && MarkedOnly(x, y, n, c) && Lists(SentTo(x.log, c), n)
    ensures Inv(y, b) && Owed(y, b) <= Owed(x, b)
  {
    MarkViews(x, y, n, c, b);
    hide SentTo, Lists, Above, Ascending, Sound, MarkedOnly, Waiting, Matches, Done;
  }

  /** Marking the sent row delivered. */
  lemma MarkKeeps(x: Box, c: Bot, b: Bot)
    requires Inv(x, b) && Inv(x, c) && FlushOf(x, c).Unacked?
    ensures Inv(x.(rows := Acked(x.rows, FlushOf(x, c).entry.seqNo)), b)
    ensures Owed(x.(rows := Acked(x.rows, FlushOf(x, c).entry.seqNo)), b) <= Owed(x, b)
    ensures c == b ==> !Waiting(Acked(x.rows, FlushOf(x, c).entry.seqNo), b, FlushOf(x, c).entry.seqNo)
  {
    hide Inv, Owed, MarkedOnly;
    var n := FlushOf(x, c).entry.seqNo;
    MarkFacts(x, c);
    MarkInv(x, x.(rows := Acked(x.rows, n)), n, c, b);
  }

  lemma ResumeKeeps(x: Box, c: Bot, b: Bot)
    requires Inv(x, b) && FlushOf(x, c).Unacked?
    ensures Inv(WithFlush(x, c, Sending(FlushOf(x, c).rest)), b)
    ensures Owed(WithFlush(x, c, Sending(FlushOf(x, c).rest)), b)
            <= Owed(x, b) + (if c == b && Waiting(x.rows, b, FlushOf(x, c).entry.seqNo)
                             then {FlushOf(x, c).entry.seqNo} else {})
  {
    hide SentTo, Lists;
    var y := WithFlush(x, c, Sending(FlushOf(x, c).rest));
    assert c != b ==> FlushOf(y, b) == FlushOf(x, b);
    assert Rest(y, b) == Rest(x, b) && y.rows == x.rows && y.log == x.log;
    if c == b { UnackedNotListed(x, b); }
  }

  lemma UnackedNotListed(x: Box, b: Bot)
    requires Inv(x, b) && FlushOf(x, b).Unacked?
    ensures !Lists(Rest(x, b), FlushOf(x, b).entry.seqNo)
  {
  }

  lemma AboveAppend(n: nat, s: seq<Entry>, e: Entry)
    ensures Above(n, s + [e]) <==> Above(n, s) && e.seqNo < n
  {
    if Above(n, s + [e]) {
      assert (s + [e])[|s|] == e;
      assert forall k :: 0 <= k < |s| ==> (s + [e])[k] == s[k];
    }
  }

  lemma ListFacts(rest: seq<Entry>)
    requires rest != [] && Ascending(rest)
    ensures var e, left := rest[0], rest[1..];
            && (forall n: nat :: Lists(rest, n) <==> n == e.seqNo || Lists(left, n))
            && (forall n: nat :: Above(n, rest) ==> e.seqNo < n && Above(n, left))
            && (forall n: nat :: Lists(left, n) ==> e.seqNo < n)
            && Ascending(left)
  {
    var e, left := rest[0], rest[1..];
    assert rest == [e] + left;
    forall n: nat ensures Lists(rest, n) <==>
      n == e.seqNo || Lists(left, n) { ListsAppend([e], left, n); ListsOne(e, n); }
  }

  lemma SentFacts(s: seq<Entry>, e: Entry)
    ensures forall n: nat :: Lists(s + [e], n) <==> Lists(s, n) || n == e.seqNo
    ensures forall n: nat :: Above(n, s + [e]) <==> Above(n, s) && e.seqNo < n
  {
    forall n: nat ensures Lists(s + [e], n) <==> Lists(s, n) || n == e.seqNo { ListsAppend(s, [e], n); ListsOne(e, n); }
    forall n: nat ensures Above(n, s + [e]) <==> Above(n, s) && e.seqNo < n { AboveAppend(n, s, e); }
  }

  /** Sending the head: what was listed, and what the log then holds. */
  lemma HeadFacts(x: Box, b: Bot)
    requires Inv(x, b) && FlushOf(x, b).Sending? && FlushOf(x, b).rest != []
    ensures var e, y := FlushOf(x, b).rest[0], Step(x, Send(b, true));
            var s, t, rest, left := SentTo(x.log, b), SentTo(y.log, b), Rest(x, b), Rest(y, b);
            && rest == [e] + left && FlushOf(y, b) == Unacked(e, left) && y.rows == x.rows && y.nextSeq == x.nextSeq
               && t == s + [e]
            && (forall n: nat :: Lists(t, n) <==> Lists(s, n) || n == e.seqNo)
            && (forall n: nat :: Lists(rest, n) <==> n == e.seqNo || Lists(left, n))
            && (forall n: nat :: Above(n, t) <==> Above(n, s) && e.seqNo < n)
            && (forall n: nat :: Above(n, rest) ==> e.seqNo < n && Above(n, left))
            && (forall n: nat :: Lists(left, n) ==> e.seqNo < n)
            && Ascending(left)
  {
    var e, y := FlushOf(x, b).rest[0], Step(x, Send(b, true));
    SentAppend(x.log, Sent(b, e), b);
    SentFacts(SentTo(x.log, b), e);
    ListFacts(Rest(x, b));
    hide SentTo, Lists, Above, Ascending;
    assert Rest(y, b) == Rest(x, b)[1..];
  }

  lemma HeadKeeps(x: Box, b: Bot)
    requires Inv(x, b) && FlushOf(x, b).Sending? && FlushOf(x, b).rest != []
    ensures Inv(Step(x, Send(b, true)), b)
  {
    var e, y := FlushOf(x, b).rest[0], Step(x, Send(b, true));
    HeadFacts(x, b);
    hide SentTo, Lists, Above, Step, Sound;
    var rest, left := Rest(x, b), Rest(y, b);
    assert Matches(y, b, rest[0]);
    forall k | 0 <= k < |left| ensures Matches(y, b, left[k])
    && e.seqNo < left[k].seqNo { assert left[k] == rest[k + 1]; }
  }

  lemma HeadOwed(x: Box, b: Bot)
    requires Inv(x, b) && FlushOf(x, b).Sending? && FlushOf(x, b).rest != []
    ensures var e, s := FlushOf(x, b).rest[0].seqNo, SentTo(x.log, b);
            && Owed(Step(x, Send(b, true)), b) == Owed(x, b) - {e}
            && (if Lists(s, e) then e in Owed(x, b) else Above(e, s) && e !in Owed(x, b))
  {
    HeadFacts(x, b);
    hide SentTo, Lists, Above, Step;
    assert Rest(x, b)[0] == FlushOf(x, b).rest[0];
  }

  lemma ReleaseKeeps(x: Box, y: Box, b: Bot)
    requires Inv(x, b) && y.rows == x.rows && y.nextSeq == x.nextSeq && SentTo(y.log, b) == SentTo(x.log, b)
    requires FlushOf(y, b) == FlushOf(x, b) || (FlushOf(x, b).Sending? && FlushOf(y, b).Idle?)
    ensures Inv(y, b) && Owed(y, b) <= Owed(x, b)
  {
    hide SentTo, Lists, Sound;
    NothingListedAll();
  }

  lemma SendKeeps(x: Box, op: Op, b: Bot)
    requires op.Send? && Inv(x, b)
    ensures Inv(Step(x, op), b)
    ensures !SendsTo(x, op, b) ==> SentTo(Step(x, op).log, b) == SentTo(x.log, b) && Owed(Step(x, op), b) <= Owed(x, b)
  {
    hide Inv, Owed;
    var f, y := FlushOf(x, op.bot), Step(x, op);
    if SendsTo(x, op, b) {
      HeadKeeps(x, b);
    } else {
      if f.Sending? && f.rest != [] && op.connected {
        SentAppend(x.log, Sent(op.bot, f.rest[0]), b);
      }
      ReleaseKeeps(x, y, b);
    }
  }

  /** The step hands a frame to a connection of `b`. */
  predicate SendsTo(x: Box, op: Op, b: Bot) {
    op == Send(b, true) && FlushOf(x, b).Sending? && FlushOf(x, b).rest != []
  }

  // ---- over every run ----

  ghost predicate AllInv(x: Box) {
    forall b :: Inv(x, b)
  }

  lemma StepKeepsInv(x: Box, op: Op)
    requires AllInv(x)
    ensures AllInv(Step(x, op))
  {
    hide Inv, Step;
    forall b ensures Inv(Step(x, op), b) {
      match op
      case Enqueue(_, _, _, _) => EnqueueKeeps(x, op, b);
      case Purge(_, _) => PurgeKeeps(x, op, b);
      case Take(_, _) => TakeKeeps(x, op, b);
      case Send(_, _) => SendKeeps(x, op, b);
      case Ack(_, _) => AckKeeps(x, op, b);
      case Crash => CrashKeeps(x, b);
    }
  }

  /** A step that sends nothing to `b` owes at most one frame more, and only by losing an acknowledgement. */
  lemma QuietStep(x: Box, op: Op, b: Bot)
    requires AllInv(x) && !SendsTo(x, op, b)
    ensures SentTo(Step(x, op).log, b) == SentTo(x.log, b)
    ensures |Owed(Step(x, op), b)| <= |Owed(x, b)| + (if Loses(x, op, b) then 1 else 0)
  {
    var y := Step(x, op);
    var extra := if Loses(x, op, b) then {FlushOf(x, b).entry.seqNo} else {};
    assert Inv(x, b);
    hide Inv, Owed;
    assert Owed(y, b) <= Owed(x, b) + extra && SentTo(y.log, b) == SentTo(x.log, b) by {
      match op
      case Enqueue(_, _, _, _) => EnqueueKeeps(x, op, b);
      case Purge(_, _) => PurgeKeeps(x, op, b);
      case Take(_, _) => TakeKeeps(x, op, b);
      case Send(_, _) => SendKeeps(x, op, b);
      case Ack(_, _) => assert Inv(x, op.bot); AckKeeps(x, op, b);
      case Crash => CrashKeeps(x, b);
    }
    SubsetCardinality(Owed(y, b), Owed(x, b) + extra);
    UnionCardinality(Owed(x, b), extra);
  }

  lemma {:induction false} SubsetCardinality(s: set<nat>, t: set<nat>)
    requires s <= t
    ensures |s| <= |t|
  {
    if s != {} {
      var n :| n in s;
      SubsetCardinality(s - {n}, t - {n});
    }
  }

  lemma UnionCardinality(s: set<nat>, t: set<nat>)
    ensures |s + t| <= |s| + |t|
  {
    assert |s + t| + |s * t| == |s| + |t|;
  }

  lemma NumbersAppend(s: seq<Entry>, e: Entry)
    ensures Numbers(s + [e]) == Numbers(s) + {e.seqNo}
  {
    forall n: nat ensures n in Numbers(s + [e]) <==>
      n in Numbers(s) || n == e.seqNo { ListsAppend(s, [e], n); ListsOne(e, n); }
  }

  lemma AscendingAppend(s: seq<Entry>, e: Entry)
    requires Ascending(s) && Above(e.seqNo, s)
    ensures Ascending(s + [e])
  {
  }

  /** A frame handed to a connection is new, and above everything sent before it, or one frame owed less. */
  lemma CountSend(s: seq<Entry>, e: Entry, owed: set<nat>, lost: nat)
    requires |s| - |Numbers(s)| + |owed| <= lost && (lost == 0 ==> Ascending(s))
    requires if Lists(s, e.seqNo) then e.seqNo in owed else Above(e.seqNo, s) && e.seqNo !in owed
    ensures |s + [e]| - |Numbers(s + [e])| + |owed - {e.seqNo}| <= lost
    ensures lost == 0 ==> Ascending(s + [e])
  {
    NumbersSize(s);
    NumbersAppend(s, e);
    assert e.seqNo in Numbers(s) <==> Lists(s, e.seqNo);
    hide Numbers, Ascending, Above, Lists;
    if e.seqNo in owed {
      assert |owed| == |owed - {e.seqNo}| + 1;
      assert Numbers(s) + {e.seqNo} == Numbers(s);
    } else {
      if lost == 0 { AscendingAppend(s, e); }
      assert owed - {e.seqNo} == owed;
    }
  }

  lemma SendingStep(x: Box, op: Op, b: Bot, lost: nat)
    requires AllInv(x) && SendsTo(x, op, b) && Bounded(x, b, lost)
    ensures Bounded(Step(x, op), b, lost)
  {
    assert Inv(x, b);
    HeadFacts(x, b);
    HeadOwed(x, b);
    hide Inv, Owed, SentTo, Step, Numbers, Lists, Above, Ascending;
    CountSend(SentTo(x.log, b), FlushOf(x, b).rest[0], Owed(x, b), lost);
  }

  lemma {:induction false} NumbersSize(s: seq<Entry>)
    ensures |Numbers(s)| <= |s|
  {
    if s != [] {
      var front := s[..|s| - 1];
      NumbersSize(front);
      assert s == front + [s[|s| - 1]];
      assert Numbers(s) == Numbers(front) + {s[|s| - 1].seqNo};
    }
  }

  /** Over every run of enqueues, purges, flushes, failed sends, failed acknowledgements and crashes. */
  lemma {:induction false} RunKeepsInv(ops: seq<Op>)
    ensures AllInv(Run(EMPTY, ops))
  {
    if ops != [] {
      RunKeepsInv(ops[..|ops| - 1]);
      hide AllInv;
      StepKeepsInv(Run(EMPTY, ops[..|ops| - 1]), ops[|ops| - 1]);
    }
  }

  lemma {:induction false} RunBounded(ops: seq<Op>, b: Bot)
    ensures Bounded(Run(EMPTY, ops), b, Lost(EMPTY, ops, b))
  {
    if ops != [] {
      var front, op := ops[..|ops| - 1], ops[|ops| - 1];
      var x := Run(EMPTY, front);
      RunKeepsInv(front);
      RunBounded(front, b);
      hide AllInv;
      if SendsTo(x, op, b) {
        hide Bounded;
        SendingStep(x, op, b, Lost(EMPTY, front, b));
      } else {
        QuietStep(x, op, b);
      }
    }
  }

  function Faults(ops: seq<Op>, b: Bot): nat {
    if ops == [] then 0
    else Faults(ops[..|ops| - 1], b) + (if ops[|ops| - 1] == Crash || ops[|ops| - 1] == Ack(b, false) then 1 else 0)
  }

  lemma {:induction false} LostNeedsFaults(x: Box, ops: seq<Op>, b: Bot)
    ensures Lost(x, ops, b) <= Faults(ops, b)
  {
    if ops != [] {
      LostNeedsFaults(x, ops[..|ops| - 1], b);
    }
  }

  /** Over every run: frames are repeated at most once per crash or failed acknowledgement that hit between a
      send and its acknowledgement; without one, a bot's frames go out in strictly increasing outbox order;
      and never, even after faults, does a frame overtake one queued before it that is still unsent. */
  lemma OutboxSafety(ops: seq<Op>, b: Bot)
    ensures var x := Run(EMPTY, ops);
            && Duplicates(x.log, b) <= Lost(EMPTY, ops, b) <= Faults(ops, b)
            && (Lost(EMPTY, ops, b) == 0 ==> Ascending(SentTo(x.log, b)))
            && (forall n :: Waiting(x.rows, b, n) && !Lists(SentTo(x.log, b), n) ==> Above(n, SentTo(x.log, b)))
            && (forall n :: Done(x.rows, b, n) ==> Lists(SentTo(x.log, b), n))
  {
    RunBounded(ops, b);
    RunKeepsInv(ops);
    LostNeedsFaults(EMPTY, ops, b);
    assert Inv(Run(EMPTY, ops), b);
  }
}
