/** Delivery of controller events: rows are claimed under a lease, posted, and settled. A worker may crash or
    outlive its lease at any point, so several workers can hold the same event at once. */
module EventDelivery {
  import opened Collections

  const DELIVERY_LEASE_MS := 30000
  const DELIVERY_WINDOW_MS := 5 * 60 * 1000
  const RETRY_DELAYS_MS := [10000, 30000, 90000]

  type Attempt = n: nat | n >= 1 witness 1

  datatype RowState = Pending | Delivering | Delivered | DeadLetter

  datatype Row = Row(state: RowState, attempts: nat, nextAttemptAt: int, leaseUntil: int, createdAt: int, rowId: nat)

  /** What a claim hands to a worker: the attempt number and times are those of the claim. */
  datatype Delivery = Delivery(id: string, attempt: Attempt, createdAt: int, now: int)

  datatype Stage = Claimed | Answered(success: bool) | Over

  datatype Worker = Worker(delivery: Delivery, stage: Stage)

  datatype Event =
    | Claim(id: string)
    | Reclaim(id: string)
    | Post(id: string, success: bool)
    | Retry(id: string, attempt: nat)
    | Dead(id: string, attempt: nat, age: int)

  datatype World = World(rows: map<string, Row>, used: set<string>, workers: seq<Worker>, log: seq<Event>)

  const EMPTY := World(map[], {}, [], [])

  /** When to try again after a failed delivery, or none for the dead letter. */
  function NextAttempt(d: Delivery): Option<int> {
    if d.now - d.createdAt >= DELIVERY_WINDOW_MS || d.attempt >= 4 then None
    else Some(d.now + RETRY_DELAYS_MS[d.attempt - 1])
  }

  // ---- the store's updates ----

  function Reclaimed(r: Row): Row {
    r.(state := Pending)
  }

  predicate Due(rows: map<string, Row>, id: string, now: int) {
    id in rows && rows[id].state.Pending? && rows[id].nextAttemptAt <= now
  }

  predicate Expired(rows: map<string, Row>, id: string, now: int) {
    id in rows && rows[id].state.Delivering? && rows[id].leaseUntil <= now
  }

  function ClaimedRow(r: Row, now: int): Row {
    r.(state := Delivering, attempts := r.attempts + 1, leaseUntil := now + DELIVERY_LEASE_MS)
  }

  /** Settling touches a row only while it is being delivered, but by anyone. */
  function Settled(rows: map<string, Row>, d: Delivery, success: bool): map<string, Row> {
    if d.id !in rows || !rows[d.id].state.Delivering? then rows
    else if success then rows[d.id := rows[d.id].(state := Delivered)]
    else match NextAttempt(d)
      case Some(at) => rows[d.id := rows[d.id].(state := Pending, nextAttemptAt := at)]
      case None => rows[d.id := rows[d.id].(state := DeadLetter)]
  }

  // ---- steps ----

  /** `Take` picks any due event; `Expire` is the lease sweep for one row. `Send` may fail before posting, when
      the request cannot be signed. `Settle(_, false)` is a store error. */
  datatype Op =
    | Enqueue(id: string, now: int)
    | Expire(id: string, now: int)
    | Take(id: string, now: int)
    | Send(w: nat, signed: bool, success: bool)
    | Settle(w: nat, ok: bool)
    | Crash(w: nat)
    | Prune(id: string)

  function Staged(w: World, k: nat, stage: Stage): seq<Worker>
    requires k < |w.workers|
  {
    w.workers[k := w.workers[k].(stage := stage)]
  }

  function SettleEvents(rows: map<string, Row>, d: Delivery, success: bool): seq<Event> {
    if success || d.id !in rows || !rows[d.id].state.Delivering? then []
    else if NextAttempt(d).Some? then [Retry(d.id, d.attempt)]
    else [Dead(d.id, d.attempt, d.now - d.createdAt)]
  }

  function Step(w: World, op: Op): World {
    match op
    case Enqueue(id, now) =>
      if id in w.used then w else w.(rows := w.rows[id := Row(Pending, 0, now, now, now, |w.used|)],
                                     used := w.used + {id})
    case Expire(id, now) =>
      if Expired(w.rows, id, now) then w.(rows := w.rows[id := Reclaimed(w.rows[id])], log := w.log + [Reclaim(id)])
         else w
    case Take(id, now) =>
      if Due(w.rows, id, now) then
        var r := ClaimedRow(w.rows[id], now);
        w.(rows := w.rows[id := r], workers := w.workers
           + [Worker(Delivery(id, r.attempts, r.createdAt, now), Claimed)], log := w.log + [Claim(id)])
      else w
    case Send(k, signed, success) =>
      if k < |w.workers| && w.workers[k].stage.Claimed? then
        w.(workers := Staged(w, k, Answered(signed && success)),
           log := w.log + (if signed then [Post(w.workers[k].delivery.id, success)] else []))
      else w
    case Settle(k, ok) =>
      if k < |w.workers| && w.workers[k].stage.Answered? then
        var d, success := w.workers[k].delivery, w.workers[k].stage.success;
        if ok then World(Settled(w.rows, d, success), w.used, Staged(w, k, Over),
                         w.log + SettleEvents(w.rows, d, success))
        else w.(workers := Staged(w, k, Over))
      else w
    case Crash(k) => if k < |w.workers| then w.(workers := Staged(w, k, Over)) else w
    case Prune(id) => if id in w.rows && w.rows[id].state.Delivered? then w.(rows := w.rows - {id}) else w
  }

  function Run(w: World, ops: seq<Op>): World {
    if ops == [] then w else Step(Run(w, ops[..|ops| - 1]), ops[|ops| - 1])
  }

  // ---- counting ----

  function Count(log: seq<Event>, e: Event): nat {
    multiset(log)[e]
  }

  function Retries(log: seq<Event>, id: string): nat {
    Count(log, Retry(id, 1)) + Count(log, Retry(id, 2)) + Count(log, Retry(id, 3))
  }

  /** Requests that reached the endpoint, whatever it answered. */
  function Posts(log: seq<Event>, id: string): nat {
    Count(log, Post(id, true)) + Count(log, Post(id, false))
  }

  predicate IsPending(rows: map<string, Row>, id: string) {
    id in rows && rows[id].state.Pending?
  }

  /** Workers for `id` that have not posted yet. */
  function Poised(workers: seq<Worker>, id: string): set<nat> {
    set k: nat | k < |workers| && workers[k].delivery.id == id && workers[k].stage.Claimed?
  }

  /** Claims are paid for by the first enqueue, by reclaims and by scheduled retries. */
  ghost predicate Budget(w: World, id: string) {
    && Count(w.log, Claim(id)) + (if IsPending(w.rows, id) then 1 else 0) <= 1 + Count(w.log, Reclaim(id))
       + Retries(w.log, id)
    && Posts(w.log, id) + |Poised(w.workers, id)| <= Count(w.log, Claim(id))
    && w.rows.Keys <= w.used
    && (id !in w.used ==> Count(w.log, Claim(id)) == 0)
    && (id in w.rows ==> w.rows[id].attempts == Count(w.log, Claim(id)))
  }

  /** Each attempt of an event belongs to one worker, which schedules at most one retry. */
  ghost predicate Numbered(w: World, id: string) {
    && (forall k :: 0 <= k < |w.workers| && w.workers[k].delivery.id == id ==>
          w.workers[k].delivery.attempt <= Count(w.log, Claim(id)))
    && (forall i, j :: 0 <= i < j < |w.workers| && w.workers[i].delivery.id == id && w.workers[j].delivery.id == id ==>
          w.workers[i].delivery.attempt != w.workers[j].delivery.attempt)
    && (forall k :: 0 <= k < |w.workers| && w.workers[k].delivery.id == id && !w.workers[k].stage.Over? ==>
          Count(w.log, Retry(id, w.workers[k].delivery.attempt)) == 0)
    && (forall a: nat :: Count(w.log, Retry(id, a)) <= 1)
    && (forall a: nat :: Count(w.log, Retry(id, a)) > 0 ==> 1 <= a <= 3 && a <= Count(w.log, Claim(id)))
  }

  // ---- each step keeps the account ----

  lemma CountAppend(log: seq<Event>, more: seq<Event>)
    requires |more| <= 1
    ensures forall x :: Count(log + more, x) == Count(log, x) + (if more != [] && more[0] == x then 1 else 0)
  {
    if more != [] { assert more == [more[0]]; }
  }

  lemma PoisedTake(workers: seq<Worker>, v: Worker, id: string)
    requires v.stage.Claimed?
    ensures Poised(workers + [v], id) == Poised(workers, id) + (if v.delivery.id == id then {|workers|} else {})
    ensures |Poised(workers + [v], id)| == |Poised(workers, id)| + (if v.delivery.id == id then 1 else 0)
  {
    assert Poised(workers + [v], id) == Poised(workers, id) + (if v.delivery.id == id then {|workers|} else {});
  }

  /** A worker that moves on is poised no longer. */
  lemma PoisedMove(workers: seq<Worker>, k: nat, stage: Stage, id: string)
    requires k < |workers| && !stage.Claimed?
    ensures var after := Poised(workers[k := workers[k].(stage := stage)], id);
            |after| == |Poised(workers, id)| - (if workers[k].delivery.id == id
                                                && workers[k].stage.Claimed? then 1 else 0)
  {
    assert Poised(workers[k := workers[k].(stage := stage)], id) == Poised(workers, id) - {k};
  }

  lemma TakeBudget(w: World, op: Op, id: string)
    requires op.Take? && Budget(w, id)
    ensures Budget(Step(w, op), id)
  {
    hide Count, Poised;
    var w' := Step(w, op);
    if w' != w {
      CountAppend(w.log, [Claim(op.id)]);
      PoisedTake(w.workers, w'.workers[|w.workers|], id);
    }
  }

  lemma TakeNumbered(w: World, op: Op, id: string)
    requires op.Take? && Budget(w, id) && Numbered(w, id)
    ensures Numbered(Step(w, op), id)
  {
    hide Count, Poised;
    var w' := Step(w, op);
    if w' != w {
      CountAppend(w.log, [Claim(op.id)]);
      if op.id == id {
        var n := Count(w.log, Claim(id)) + 1;
        assert w'.workers[|w.workers|].delivery.attempt == n;
        assert Count(w.log, Retry(id, n)) == 0;
      }
    }
  }

  lemma TakeKeeps(w: World, op: Op, id: string)
    requires op.Take? && Budget(w, id) && Numbered(w, id)
    ensures Budget(Step(w, op), id) && Numbered(Step(w, op), id)
  {
    hide Budget, Numbered, Step;
    TakeBudget(w, op, id);
    TakeNumbered(w, op, id);
  }

  lemma SendBudget(w: World, op: Op, id: string)
    requires op.Send? && Budget(w, id)
    ensures Budget(Step(w, op), id)
  {
    hide Count, Poised;
    var w' := Step(w, op);
    if w' != w {
      CountAppend(w.log, if op.signed then [Post(w.workers[op.w].delivery.id, op.success)] else []);
      PoisedMove(w.workers, op.w, w'.workers[op.w].stage, id);
    }
  }

  lemma SendNumbered(w: World, op: Op, id: string)
    requires op.Send? && Numbered(w, id)
    ensures Numbered(Step(w, op), id)
  {
    hide Count;
    if Step(w, op) != w {
      CountAppend(w.log, if op.signed then [Post(w.workers[op.w].delivery.id, op.success)] else []);
    }
  }

  lemma SendKeeps(w: World, op: Op, id: string)
    requires op.Send? && Budget(w, id) && Numbered(w, id)
    ensures Budget(Step(w, op), id) && Numbered(Step(w, op), id)
  {
    hide Budget, Numbered, Step;
    SendBudget(w, op, id);
    SendNumbered(w, op, id);
  }

  lemma SettleBudget(w: World, op: Op, id: string)
    requires op.Settle? && Budget(w, id)
    ensures Budget(Step(w, op), id)
  {
    hide Count, Poised, NextAttempt;
    var w' := Step(w, op);
    if w' != w {
      var d, success := w.workers[op.w].delivery, w.workers[op.w].stage.success;
      RetryIsEarly(d);
      CountAppend(w.log, if op.ok then SettleEvents(w.rows, d, success) else []);
      PoisedMove(w.workers, op.w, Over, id);
    }
  }

  lemma RetryIsEarly(d: Delivery)
    ensures NextAttempt(d).Some? ==> d.attempt <= 3
  {
  }

  lemma SettleNumbered(w: World, op: Op, id: string)
    requires op.Settle? && Numbered(w, id)
    ensures Numbered(Step(w, op), id)
  {
    hide Count, Poised, NextAttempt, Settled;
    var w' := Step(w, op);
    if w' != w {
      var d, success := w.workers[op.w].delivery, w.workers[op.w].stage.success;
      RetryIsEarly(d);
      CountAppend(w.log, if op.ok then SettleEvents(w.rows, d, success) else []);
    }
  }

  lemma SettleKeeps(w: World, op: Op, id: string)
    requires op.Settle? && Budget(w, id) && Numbered(w, id)
    ensures Budget(Step(w, op), id) && Numbered(Step(w, op), id)
  {
    hide Budget, Numbered, Step;
    SettleBudget(w, op, id);
    SettleNumbered(w, op, id);
  }

  lemma OtherBudget(w: World, op: Op, id: string)
    requires !op.Take? && !op.Send? && !op.Settle? && Budget(w, id)
    ensures Budget(Step(w, op), id)
  {
    hide Count, Poised;
    var w' := Step(w, op);
    if w' != w {
      if op.Expire? { CountAppend(w.log, [Reclaim(op.id)]); }
      if op.Crash? { PoisedMove(w.workers, op.w, Over, id); }
    }
  }

  lemma OtherNumbered(w: World, op: Op, id: string)
    requires !op.Take? && !op.Send? && !op.Settle? && Numbered(w, id)
    ensures Numbered(Step(w, op), id)
  {
    hide Count;
    if op.Expire? && Step(w, op) != w { CountAppend(w.log, [Reclaim(op.id)]); }
  }

  lemma OtherKeeps(w: World, op: Op, id: string)
    requires !op.Take? && !op.Send? && !op.Settle? && Budget(w, id) && Numbered(w, id)
    ensures Budget(Step(w, op), id) && Numbered(Step(w, op), id)
  {
    hide Budget, Numbered, Step;
    OtherBudget(w, op, id);
    OtherNumbered(w, op, id);
  }

  lemma {:induction false} RunKeepsAccount(ops: seq<Op>, id: string)
    ensures Budget(Run(EMPTY, ops), id) && Numbered(Run(EMPTY, ops), id)
  {
    if ops != [] {
      var front, op := ops[..|ops| - 1], ops[|ops| - 1];
      RunKeepsAccount(front, id);
      hide Budget, Numbered;
      var w := Run(EMPTY, front);
      match op
      case Take(_, _) => TakeKeeps(w, op, id);
      case Send(_, _, _) => SendKeeps(w, op, id);
      case Settle(_, _) => SettleKeeps(w, op, id);
      case Enqueue(_, _) => OtherKeeps(w, op, id);
      case Expire(_, _) => OtherKeeps(w, op, id);
      case Crash(_) => OtherKeeps(w, op, id);
      case Prune(_) => OtherKeeps(w, op, id);
    } else {
      assert Poised([], id) == {};
    }
  }

  // ---- over every run ----

  ghost predicate JustDead(log: seq<Event>) {
    forall i :: 0 <= i < |log| && log[i].Dead? ==> log[i].attempt >= 4 || log[i].age >= DELIVERY_WINDOW_MS
  }

  lemma StepKeepsDead(w: World, op: Op)
    requires JustDead(w.log)
    ensures JustDead(Step(w, op).log)
  {
  }

  lemma {:induction false} RunKeepsDead(ops: seq<Op>)
    ensures JustDead(Run(EMPTY, ops).log)
  {
    if ops != [] {
      RunKeepsDead(ops[..|ops| - 1]);
      hide JustDead, Step;
      StepKeepsDead(Run(EMPTY, ops[..|ops| - 1]), ops[|ops| - 1]);
    }
  }

  /** Over every run, however many workers hold an event at once: it is posted at most four times plus once for
      every lease that ran out, and is given up only at the fourth attempt or after the delivery window. */
  lemma DeliverySafety(ops: seq<Op>, id: string)
    ensures var log := Run(EMPTY, ops).log;
            && Posts(log, id) <= Count(log, Claim(id)) <= 4 + Count(log, Reclaim(id))
            && Retries(log, id) <= 3
            && JustDead(log)
  {
    RunKeepsAccount(ops, id);
    RunKeepsDead(ops);
    hide Count, Poised, Run;
    var log := Run(EMPTY, ops).log;
    assert Count(log, Retry(id, 1)) <= 1 && Count(log, Retry(id, 2)) <= 1 && Count(log, Retry(id, 3)) <= 1;
  }

  predicate Terminal(w: World, id: string) {
    id in w.rows && (w.rows[id].state.Delivered? || w.rows[id].state.DeadLetter?)
  }

  /** Delivered and dead are final: the row never changes again, except that a delivered row may be pruned, and
      no worker ever claims the event again. */
  lemma {:induction false} TerminalIsFinal(before: seq<Op>, after: seq<Op>, id: string)
    requires Terminal(Run(EMPTY, before), id)
    ensures var w, w' := Run(EMPTY, before), Run(Run(EMPTY, before), after);
            && (id in w'.rows ==> w'.rows[id] == w.rows[id])
            && (id !in w'.rows ==> w.rows[id].state.Delivered?)
            && id in w'.used && Count(w'.log, Claim(id)) == Count(w.log, Claim(id))
    decreases |after|
  {
    var w := Run(EMPTY, before);
    if after == [] {
      RunKeepsAccount(before, id);
    } else {
      var front, op := after[..|after| - 1], after[|after| - 1];
      TerminalIsFinal(before, front, id);
      var v := Run(w, front);
      hide Run;
      FinalStep(v, op, id, w.rows[id]);
    }
  }

  lemma FinalStep(w: World, op: Op, id: string, r: Row)
    requires (r.state.Delivered? || r.state.DeadLetter?) && (id in w.rows ==> w.rows[id] == r)
             && (id !in w.rows ==> r.state.Delivered?) && id in w.used
    ensures var w' := Step(w, op);
            && (id in w'.rows ==> w'.rows[id] == r) && (id !in w'.rows ==> r.state.Delivered?) && id in w'.used
            && Count(w'.log, Claim(id)) == Count(w.log, Claim(id))
  {
    var w' := Step(w, op);
    hide Count;
    match op
    case Expire(x, _) => CountAppend(w.log, [Reclaim(x)]);
    case Take(x, _) => CountAppend(w.log, [Claim(x)]);
    case Send(k, signed, success) =>
      if w' != w { CountAppend(w.log, if signed then [Post(w.workers[k].delivery.id, success)] else []); }
    case Settle(k, ok) =>
      if w' != w {
        var v := w.workers[k];
        CountAppend(w.log, if ok then SettleEvents(w.rows, v.delivery, v.stage.success) else []);
      }
    case _ =>
  }

  // ---- what a claim and a settlement do to the stored rows ----

  /** Rows other than the one named stay as they are. */
  predicate SameElsewhere(rows: map<string, Row>, rows': map<string, Row>, id: string) {
    rows'.Keys == rows.Keys && forall x :: x in rows && x != id ==> rows'[x] == rows[x]
  }

  /** An event is stored once, due at once and not yet tried; queueing it again changes nothing. */
  lemma EnqueueExact(w: World, id: string, now: int)
    ensures var w' := Step(w, Enqueue(id, now));
            if id in w.used then w' == w
            else
              && w'.rows.Keys == w.rows.Keys + {id} && (forall x :: x in w.rows && x != id ==> w'.rows[x] == w.rows[x])
              && w'.rows[id].state == Pending && w'.rows[id].attempts == 0
              && w'.rows[id].nextAttemptAt == w'.rows[id].createdAt == now
              && w'.used == w.used + {id} && w'.workers == w.workers && w'.log == w.log
  {
  }

  /** A pending event whose time has come is claimed for thirty seconds and its attempt counted. */
  lemma ClaimExact(w: World, id: string, now: int)
    ensures var w' := Step(w, Take(id, now));
            if id in w.rows && w.rows[id].state == Pending && w.rows[id].nextAttemptAt <= now then
              var r := w.rows[id];
              && SameElsewhere(w.rows, w'.rows, id)
              && w'.rows[id] == r.(state := Delivering, attempts := r.attempts + 1, leaseUntil := now + 30000)
              && w'.workers == w.workers + [Worker(Delivery(id, r.attempts + 1, r.createdAt, now), Claimed)]
            else w' == w
  {
  }

  /** A claimed event goes back to pending exactly when its thirty seconds are over. */
  lemma ExpiryExact(w: World, id: string, now: int)
    ensures var w' := Step(w, Expire(id, now));
            if id in w.rows && w.rows[id].state == Delivering && w.rows[id].leaseUntil <= now then
              SameElsewhere(w.rows, w'.rows, id) && w'.rows[id] == w.rows[id].(state := Pending)
            else w'.rows == w.rows
  {
  }

  /** How long after its claim a failed attempt is tried again. */
  predicate Backoff(attempt: nat, delay: int) {
    (attempt == 1 && delay == 10000) || (attempt == 2 && delay == 30000) || (attempt == 3 && delay == 90000)
  }

  /** The row after settling: delivered exactly on success, due again 10, 30 or 90 seconds after the claim when the
      first, second or third attempt failed less than five minutes after the event was made, dead otherwise. */
  ghost predicate SettledAs(r: Row, r': Row, d: Delivery, success: bool) {
    && r' == r.(state := r'.state, nextAttemptAt := r'.nextAttemptAt)
    && (r'.state == Delivered <==> success)
    && (r'.state == Pending <==> !success && d.attempt < 4 && d.now - d.createdAt < 300000)
    && (r'.state == DeadLetter <==> !success && (d.attempt >= 4 || d.now - d.createdAt >= 300000))
    && (r'.state == Pending ==> Backoff(d.attempt, r'.nextAttemptAt - d.now))
    && (r'.state != Pending ==> r'.nextAttemptAt == r.nextAttemptAt)
  }

  lemma SettleExact(rows: map<string, Row>, d: Delivery, success: bool)
    ensures var rows' := Settled(rows, d, success);
            if d.id in rows && rows[d.id].state == Delivering then
              SameElsewhere(rows, rows', d.id) && SettledAs(rows[d.id], rows'[d.id], d, success)
            else rows' == rows
  {
  }

  /** What the stored state says about the log: a delivered event was answered with a success, and an event is in
      the dead letter exactly when giving it up was recorded. */
  ghost predicate Told(w: World, id: string) {
    && w.rows.Keys <= w.used
    && (forall k :: 0 <= k < |w.workers| && w.workers[k].delivery.id == id && w.workers[k].stage == Answered(true) ==>
          Post(id, true) in w.log)
    && (id in w.rows && w.rows[id].state == Delivered ==> Post(id, true) in w.log)
    && (GivenUp(w.log, id) <==> id in w.rows && w.rows[id].state == DeadLetter)
  }

  ghost predicate GivenUp(log: seq<Event>, id: string) {
    exists e :: e in log && e.Dead? && e.id == id
  }

  lemma GivenUpMore(log: seq<Event>, more: seq<Event>, id: string)
    ensures GivenUp(log + more, id) <==> GivenUp(log, id) || GivenUp(more, id)
  {
    if GivenUp(log, id) {
      var e :| e in log && e.Dead? && e.id == id;
      assert e in log + more;
    }
    if GivenUp(more, id) {
      var e :| e in more && e.Dead? && e.id == id;
      assert e in log + more;
    }
  }

  lemma SettleGivesUp(rows: map<string, Row>, d: Delivery, success: bool, id: string)
    ensures GivenUp(SettleEvents(rows, d, success), id) <==>
              && d.id == id && id in rows && rows[id].state == Delivering
              && !success && (d.attempt >= 4 || d.now - d.createdAt >= 300000)
  {
    var more := SettleEvents(rows, d, success);
    if more != [] { assert more[0] in more; }
  }

  lemma SettleTells(w: World, k: nat, ok: bool, id: string)
    requires Told(w, id)
    ensures Told(Step(w, Settle(k, ok)), id)
  {
    hide GivenUp;
    var w' := Step(w, Settle(k, ok));
    if w' != w && ok {
      var d, success := w.workers[k].delivery, w.workers[k].stage.success;
      SettleExact(w.rows, d, success);
      var more := SettleEvents(w.rows, d, success);
      GivenUpMore(w.log, more, id);
      SettleGivesUp(w.rows, d, success, id);
    }
  }

  lemma StepTells(w: World, op: Op, id: string)
    requires Told(w, id)
    ensures Told(Step(w, op), id)
  {
    hide GivenUp;
    match op
    case Settle(k, ok) => SettleTells(w, k, ok, id);
    case Expire(x, _) => GivenUpMore(w.log, [Reclaim(x)], id); NotGivenUp(Reclaim(x), id);
    case Take(x, _) => GivenUpMore(w.log, [Claim(x)], id); NotGivenUp(Claim(x), id);
    case Send(k, signed, success) =>
      if k < |w.workers| {
        var e := Post(w.workers[k].delivery.id, success);
        GivenUpMore(w.log, [e], id);
        NotGivenUp(e, id);
        assert w.log + [] == w.log;
      }
    case _ =>
  }

  lemma NotGivenUp(e: Event, id: string)
    requires !e.Dead?
    ensures !GivenUp([e], id)
  {
  }

  /** Over every run: what the stored state of an event says is what happened to it. */
  lemma {:induction false} RunTells(ops: seq<Op>, id: string)
    ensures Told(Run(EMPTY, ops), id)
  {
    if ops != [] {
      RunTells(ops[..|ops| - 1], id);
      hide Told, Step;
      StepTells(Run(EMPTY, ops[..|ops| - 1]), ops[|ops| - 1], id);
    }
  }
}
