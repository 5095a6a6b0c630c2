/** One turn of the event dispatcher over the stored rows. */
module Dispatcher {
  import opened Collections
  import opened EventDelivery

  /** The lease sweep of every claim. */
  function Swept(rows: map<string, Row>, now: int): map<string, Row> {
    map id | id in rows :: if Expired(rows, id, now) then Reclaimed(rows[id]) else rows[id]
  }

  predicate Before(a: Row, b: Row) {
    a.nextAttemptAt < b.nextAttemptAt
    || (a.nextAttemptAt == b.nextAttemptAt && a.createdAt < b.createdAt)
    || (a.nextAttemptAt == b.nextAttemptAt && a.createdAt == b.createdAt && a.rowId < b.rowId)
  }

  /** No due event comes before this one. */
  ghost predicate FirstDue(rows: map<string, Row>, id: string, now: int) {
    Due(rows, id, now) && forall x :: Due(rows, x, now) ==> !Before(rows[x], rows[id])
  }

  /** The first due event by due time, then by age, then by row. */
  lemma FirstDueMeans(rows: map<string, Row>, id: string, x: string, now: int)
    requires FirstDue(rows, id, now) && x in rows && rows[x].state == Pending && rows[x].nextAttemptAt <= now
    ensures rows[id].state == Pending && rows[id].nextAttemptAt <= rows[x].nextAttemptAt <= now
    ensures rows[id].nextAttemptAt == rows[x].nextAttemptAt ==> rows[id].createdAt <= rows[x].createdAt
    ensures rows[id].nextAttemptAt == rows[x].nextAttemptAt && rows[id].createdAt == rows[x].createdAt ==>
              rows[id].rowId <= rows[x].rowId
  {
    assert Due(rows, x, now);
  }

  function DeliveryOf(rows: map<string, Row>, id: string, now: int): Delivery
    requires id in rows
  {
    Delivery(id, rows[id].attempts + 1, rows[id].createdAt, now)
  }

  function Expiries(ids: seq<string>, now: int): seq<Op> {
    seq(|ids|, i requires 0 <= i < |ids| => Expire(ids[i], now))
  }

  class Dispatcher {
    var rows: map<string, Row>
    var posted: seq<string>

    constructor (start: map<string, Row>)
      ensures rows == start && posted == []
    {
      rows, posted := start, [];
    }

    /** Sweeps expired leases, then claims the first due event, if any. */
    method ClaimControllerEvents(now: int) returns (claimed: Option<Delivery>)
      modifies this`rows
      ensures var swept := Swept(old(rows), now);
              if claimed.None? then rows == swept && forall id :: !Due(swept, id, now)
              else
                var id := claimed.value.id;
                && FirstDue(swept, id, now) && claimed.value == DeliveryOf(swept, id, now)
                && rows == swept[id := ClaimedRow(swept[id], now)]
    {
      rows := Swept(rows, now);
      var todo := rows.Keys;
      var best: Option<string> := None;
      while todo != {}
        invariant todo <= rows.Keys && rows == Swept(old(rows), now)
        invariant best.None? ==> forall x :: Due(rows, x, now) ==> x in todo
        invariant best.Some? ==> Due(rows, best.value, now) && forall x :: Due(rows, x, now) && x !in todo ==>
                    !Before(rows[x], rows[best.value])
      {
        var id :| id in todo;
        if Due(rows, id, now) && (best.None? || Before(rows[id], rows[best.value])) {
          best := Some(id);
        }
        todo := todo - {id};
      }
      if best.None? { return None; }
      var id := best.value;
      claimed := Some(DeliveryOf(rows, id, now));
      rows := rows[id := ClaimedRow(rows[id], now)];
    }

    /** Claim, post and settle one event. `signed` and `success` are what signing and the endpoint did; a failed
        claim changes nothing, and a failed settlement leaves the event claimed, for its lease to run out. */
    method DispatchOnce(now: int, claimOk: bool, signed: bool, success: bool, settleOk: bool)
        returns (result: Option<nat>)
      modifies this
      ensures !claimOk ==> result == None && rows == old(rows) && posted == old(posted)
      ensures result == Some(0) ==>
                claimOk && rows == Swept(old(rows), now) && posted == old(posted) && forall id :: !Due(rows, id, now)
      ensures claimOk && result != Some(0) ==>
                && result == (if settleOk then Some(1) else None)
                && exists id, ids ::
                     && FirstDue(Swept(old(rows), now), id, now)
                     && IsTurn(old(rows), rows, ids, id, now, signed, success, settleOk)
                     && posted == old(posted) + (if signed then [id] else [])
                     && SameElsewhere(Swept(old(rows), now), rows, id)
                     && TurnEnds(Swept(old(rows), now)[id], rows[id], id, now, signed && success, settleOk)
    {
      if !claimOk { return None; }
      ghost var before := rows;
      var claimed := ClaimControllerEvents(now);
      if claimed.None? { return Some(0); }
      var d := claimed.value;
      if signed { posted := posted + [d.id]; }
      ghost var taken := rows;
      ghost var ids := TurnIsARun(before, taken, d, now, signed, success, settleOk);
      if settleOk { rows := Settled(rows, d, signed && success); }
      assert IsTurn(before, rows, ids, d.id, now, signed, success, settleOk);
      SettleExact(taken, d, signed && success);
      hide IsTurn, FirstDue, Settled, SettledAs, Swept, Due;
      return if settleOk then Some(1) else None;
    }
  }

  /** A turn counts one attempt and leases the row for thirty seconds; a settlement that got through then says how
      the attempt ended. */
  ghost predicate TurnEnds(r: Row, r': Row, id: string, now: int, success: bool, settleOk: bool) {
    var taken := r.(state := Delivering, attempts := r.attempts + 1, leaseUntil := now + 30000);
    if settleOk then SettledAs(taken, r', Delivery(id, r.attempts + 1, r.createdAt, now), success) else r' == taken
  }

  /** The rows after a sweep of `ids`, a claim of `id`, a post and its settlement, as steps of the protocol. */
  ghost predicate IsTurn(rows: map<string, Row>, rows': map<string, Row>, ids: seq<string>, id: string, now: int,
                         signed: bool, success: bool, settleOk: bool) {
    var ops := Expiries(ids, now) + [Take(id, now)] + [Send(0, signed, success)] + [Settle(0, settleOk)];
    Run(World(rows, rows.Keys, [], []), ops).rows == rows'
  }

  lemma RunMore(w: World, ops: seq<Op>, op: Op)
    ensures Run(w, ops + [op]) == Step(Run(w, ops), op)
  {
    assert (ops + [op])[..|ops|] == ops;
  }

  ghost predicate SweptAt(rows: map<string, Row>, rows': map<string, Row>, ids: seq<string>, now: int) {
    && rows'.Keys == rows.Keys
    && (forall x :: x in rows ==> rows'[x] == if x in ids && Expired(rows, x, now) then Reclaimed(rows[x]) else rows[x])
  }

  lemma {:induction false} ExpireAll(w: World, ids: seq<string>, now: int)
    requires Distinct(ids) && w.workers == []
    ensures var w' := Run(w, Expiries(ids, now)); SweptAt(w.rows, w'.rows, ids, now) && w'.workers == []
  {
    if ids != [] {
      var n := |ids| - 1;
      ExpireAll(w, ids[..n], now);
      assert Expiries(ids, now) == Expiries(ids[..n], now) + [Expire(ids[n], now)];
      RunMore(w, Expiries(ids[..n], now), Expire(ids[n], now));
      assert ids == ids[..n] + [ids[n]] && ids[n] !in ids[..n];
    }
  }

  lemma {:induction false} AsSequence(s: set<string>) returns (ids: seq<string>)
    ensures Distinct(ids) && forall x :: x in ids <==> x in s
    decreases |s|
  {
    if s == {} { return []; }
    var x :| x in s;
    var rest := AsSequence(s - {x});
    return [x] + rest;
  }

  lemma TurnIsARun(rows: map<string, Row>, taken: map<string, Row>, d: Delivery, now: int,
                   signed: bool, success: bool, settleOk: bool)
    returns (ids: seq<string>)
    requires var swept := Swept(rows, now);
             Due(swept, d.id, now) && d == DeliveryOf(swept, d.id, now)
             && taken == swept[d.id := ClaimedRow(swept[d.id], now)]
    ensures IsTurn(rows, if settleOk then Settled(taken, d, signed && success) else taken, ids, d.id, now, signed,
                   success, settleOk)
  {
    ids := AsSequence(rows.Keys);
    var w := World(rows, rows.Keys, [], []);
    ExpireAll(w, ids, now);
    var ops := Expiries(ids, now);
    var w1 := Run(w, ops);
    assert w1.rows == Swept(rows, now);
    RunMore(w, ops, Take(d.id, now));
    RunMore(w, ops + [Take(d.id, now)], Send(0, signed, success));
    RunMore(w, ops + [Take(d.id, now)] + [Send(0, signed, success)], Settle(0, settleOk));
    hide Run;
    var w2 := Step(w1, Take(d.id, now));
    assert w2.rows == taken && w2.workers == [Worker(d, Claimed)];
    var w3 := Step(w2, Send(0, signed, success));
    assert w3.rows == taken && w3.workers[0] == Worker(d, Answered(signed && success));
  }
}
