/** What queueing and purging do to the outbox table, and that nothing else ever takes a queued frame away. */
module OutboxTables {
  import opened Collections
  import opened Session
  import opened Outbox

  /** Everything about a row except whether it was delivered. */
  predicate SameFrame(r: Row, s: Row) {
    r.bot == s.bot && r.session == s.session && r.key == s.key && r.frame == s.frame
  }

  /** A frame is queued, undelivered and under a new number, exactly when no stored row has its key; otherwise
      nothing changes at all. */
  lemma EnqueueExact(x: Box, b: Bot, session: string, key: string, frame: string)
    requires x.nextSeq !in x.rows
    ensures var y := Step(x, Enqueue(b, session, key, frame));
            if exists n :: n in x.rows && x.rows[n].key == key then y == x
            else
              && y.rows.Keys == x.rows.Keys + {x.nextSeq} && y.rows[x.nextSeq] == Row(b, session, key, frame, false)
              && (forall n :: n in x.rows ==> y.rows[n] == x.rows[n])
              && y.nextSeq == x.nextSeq + 1 && y.log == x.log && y.flush == x.flush
  {
  }

  /** The purge is meant for this row: its session is named and, if a bot is, it is the row's. */
  predicate Covers(op: Op, r: Row) {
    op.Purge? && r.session in op.sessions && (op.scope.None? || op.scope.value == r.bot)
  }

  /** A purge takes exactly the rows it is meant for and leaves the rest as they are. */
  lemma PurgeExact(x: Box, op: Op)
    requires op.Purge?
    ensures var y := Step(x, op);
            && (forall n :: n in y.rows <==> n in x.rows && !Covers(op, x.rows[n]))
            && (forall n :: n in y.rows ==> y.rows[n] == x.rows[n])
            && y.nextSeq == x.nextSeq && y.log == x.log && y.flush == x.flush
  {
  }

  /** An acknowledgement that gets through marks the frame in flight, and only that one, as delivered. */
  lemma AckExact(x: Box, b: Bot, ok: bool)
    ensures var y := Step(x, Ack(b, ok));
            && y.rows.Keys == x.rows.Keys && y.log == x.log
            && (forall n :: n in x.rows ==>
                  y.rows[n] == if ok && InFlight(x, b, n) then x.rows[n].(delivered := true) else x.rows[n])
            && (forall c :: c != b ==> FlushOf(y, c) == FlushOf(x, c))
  {
  }

  /** Row `n` of `x` is still there in `y`, as it was queued, and delivered if it was. */
  predicate Stays(x: Box, y: Box, n: nat) {
    n in x.rows && n in y.rows && SameFrame(x.rows[n], y.rows[n]) && (x.rows[n].delivered ==> y.rows[n].delivered)
  }

  lemma StepStays(x: Box, op: Op, n: nat)
    requires n in x.rows && x.nextSeq !in x.rows && !Covers(op, x.rows[n])
    ensures Stays(x, Step(x, op), n)
  {
  }

  lemma {:induction false} RunStays(x: Box, ops: seq<Op>, n: nat)
    requires Sound(x.rows, x.nextSeq) && n in x.rows
    requires forall i :: 0 <= i < |ops| ==> !Covers(ops[i], x.rows[n])
    ensures Stays(x, Run(x, ops), n) && Sound(Run(x, ops).rows, Run(x, ops).nextSeq)
  {
    if ops != [] {
      var front, op := ops[..|ops| - 1], ops[|ops| - 1];
      RunStays(x, front, n);
      var y := Run(x, front);
      hide Run, Step;
      StepStays(y, op, n);
      StepSound(y, op);
    }
  }

  lemma StepSound(x: Box, op: Op)
    requires Sound(x.rows, x.nextSeq)
    ensures Sound(Step(x, op).rows, Step(x, op).nextSeq)
  {
  }

  /** Over every run: a queued frame that no later purge is meant for stays queued as it was, through crashes, lost
      connections and failed acknowledgements; the next read lists it until it is marked delivered, and it is marked
      so only after it was sent. */
  lemma NothingIsLost(before: seq<Op>, after: seq<Op>, n: nat)
    requires n in Run(EMPTY, before).rows
    requires forall i :: 0 <= i < |after| ==> !Covers(after[i], Run(EMPTY, before).rows[n])
    ensures var x, y := Run(EMPTY, before), Run(EMPTY, before + after);
            && Stays(x, y, n)
            && (y.rows[n].delivered ==> Lists(SentTo(y.log, y.rows[n].bot), n))
            && (!y.rows[n].delivered ==> Lists(Pending(y.rows, y.rows[n].bot, y.nextSeq), n))
  {
    var x := Run(EMPTY, before);
    RunKeepsInv(before);
    assert Inv(x, x.rows[n].bot);
    RunStays(x, after, n);
    RunJoin(EMPTY, before, after);
    var y := Run(EMPTY, before + after);
    var b := y.rows[n].bot;
    OutboxSafety(before + after, b);
    hide Run, SentTo, Pending, Lost, Duplicates, Faults;
    if y.rows[n].delivered {
      assert Done(y.rows, b, n);
    } else {
      PendingComplete(y.rows, b, y.nextSeq, n);
    }
  }
}
