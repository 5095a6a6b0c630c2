/** The connection and delivery half of the shared state, updated in place. Each method is a run of the step
    models, so what is proved of every run holds of every history of calls. */
module AppState {
  import opened Collections
  import opened Session
  import Hub
  import opened Outbox

  /** How the store behaves during one flush: whether the pending read works, and which acknowledgements do. The
      loop ignores a failed acknowledgement and takes a failed read for an empty one. */
  datatype StoreHealth = StoreHealth(readOk: bool, ackOk: nat -> bool)

  function Pairs(b: Bot, n: nat, h: StoreHealth): seq<Op> {
    if n == 0 then [] else Pairs(b, n - 1, h) + [Send(b, true), Ack(b, h.ackOk(n - 1))]
  }

  function Started(b: Bot, n: nat, h: StoreHealth): seq<Op> {
    [Take(b, h.readOk)] + Pairs(b, n, h)
  }

  /** A flush that delivers `n` frames and then finds nothing left, or no connection. */
  function FlushOps(b: Bot, n: nat, h: StoreHealth, connected: bool): seq<Op> {
    Started(b, n, h) + [Send(b, connected)]
  }

  function Listed(rows: map<nat, Row>, b: Bot, nextSeq: nat, h: StoreHealth): seq<Entry> {
    if h.readOk then Pending(rows, b, nextSeq) else []
  }

  function Tagged(b: Bot, s: seq<Entry>): seq<Sent> {
    seq(|s|, i requires 0 <= i < |s| => Sent(b, s[i]))
  }

  /** The idempotency key a message is queued under for a bot. */
  function FrameKey(bot: Bot, messageId: string): string {
    bot.id + ":" + messageId
  }

  /** Keys of different bots or messages differ as long as bot ids hold no colon; with one they can coincide, and the
      second of the two frames is then taken for a repetition of the first. */
  lemma KeysTellApart(a: Bot, b: Bot, m: string, n: string)
    ensures ':' !in a.id && ':' !in b.id ==> (FrameKey(a, m) == FrameKey(b, n) <==> a == b && m == n)
    ensures FrameKey(Bot("a:b"), "c") == FrameKey(Bot("a"), "b:c")
  {
    assert "a:b" + ":" + "c" == "a" + ":" + "b:c";
    var x, y := FrameKey(a, m), FrameKey(b, n);
    if ':' !in a.id && ':' !in b.id && x == y {
      assert x[|a.id|] == ':' == y[|b.id|];
      assert forall i :: 0 <= i < |a.id| ==> x[i] == a.id[i] && a.id[i] in a.id;
      assert forall i :: 0 <= i < |b.id| ==> y[i] == b.id[i] && b.id[i] in b.id;
      assert |a.id| == |b.id|;
      assert a.id == x[..|a.id|] && b.id == y[..|a.id|] && m == x[|a.id| + 1..] && n == y[|a.id| + 1..];
    }
  }

  /** The box while the flush of `b` has `rest` left to send. */
  function Midway(rows: map<nat, Row>, nextSeq: nat, b: Bot, rest: seq<Entry>, log: seq<Sent>): Box {
    Box(rows, nextSeq, map[b := Sending(rest)], log)
  }

  /** One turn of the flush loop is a send step and an acknowledge step. */
  lemma OneTurn(x: Box, b: Bot, i: nat, h: StoreHealth, rows: map<nat, Row>, nextSeq: nat, rest: seq<Entry>,
                log: seq<Sent>)
    requires rest != [] && Run(x, Started(b, i, h)) == Midway(rows, nextSeq, b, rest, log)
    ensures var acked := if h.ackOk(i) then Acked(rows, rest[0].seqNo) else rows;
            Run(x, Started(b, i + 1, h)) == Midway(acked, nextSeq, b, rest[1..], log + [Sent(b, rest[0])])
  {
    hide Run, Step;
    var ops, ack := Started(b, i, h), Ack(b, h.ackOk(i));
    assert Started(b, i + 1, h) == ops + [Send(b, true)] + [ack];
    RunMore(x, ops, Send(b, true));
    RunMore(x, ops + [Send(b, true)], ack);
    SendTurn(rows, nextSeq, b, rest, log);
    AckTurn(rows, nextSeq, b, rest[0], rest[1..], log + [Sent(b, rest[0])], h.ackOk(i));
  }

  lemma SendTurn(rows: map<nat, Row>, nextSeq: nat, b: Bot, rest: seq<Entry>, log: seq<Sent>)
    requires rest != []
    ensures Step(Midway(rows, nextSeq, b, rest, log), Send(b, true))
            == Box(rows, nextSeq, map[b := Unacked(rest[0], rest[1..])], log + [Sent(b, rest[0])])
  {
  }

  lemma AckTurn(rows: map<nat, Row>, nextSeq: nat, b: Bot, e: Entry, rest: seq<Entry>, log: seq<Sent>, ok: bool)
    ensures Step(Box(rows, nextSeq, map[b := Unacked(e, rest)], log), Ack(b, ok))
            == Midway(if ok then Acked(rows, e.seqNo) else rows, nextSeq, b, rest, log)
  {
  }

  lemma FirstTurn(x: Box, b: Bot, h: StoreHealth)
    requires x.flush == map[]
    ensures Run(x, Started(b, 0, h)) == Midway(x.rows, x.nextSeq, b, Listed(x.rows, b, x.nextSeq, h), x.log)
  {
    RunMore(x, [], Take(b, h.readOk));
    RunNothing(x);
    assert [] + [Take(b, h.readOk)] == Started(b, 0, h);
    hide Run, Pending;
  }

  lemma LastTurn(x: Box, b: Bot, i: nat, h: StoreHealth, rows: map<nat, Row>, nextSeq: nat, rest: seq<Entry>,
                 log: seq<Sent>, connected: bool)
    requires Run(x, Started(b, i, h)) == Midway(rows, nextSeq, b, rest, log) && (rest == [] || !connected)
    ensures Run(x, FlushOps(b, i, h, connected)) == Box(rows, nextSeq, map[], log)
  {
    RunMore(x, Started(b, i, h), Send(b, connected));
    hide Run;
  }

  class AppState {
    var stacks: map<Bot, seq<Hub.Conn>>
    var connSeq: nat
    /** Channels whose receiver is gone. */
    var closed: set<nat>
    var rows: map<nat, Row>
    var nextSeq: nat
    /** Frames handed to connections out of the outbox. */
    var log: seq<Sent>
    /** Frames handed over directly because they could not be queued. */
    var direct: seq<(Bot, string)>

    constructor ()
      ensures Valid() && HubView() == Hub.EMPTY && BoxView() == EMPTY && closed == {} && direct == []
    {
      stacks, connSeq, closed, rows, nextSeq, log, direct := map[], 0, {}, map[], 0, [], [];
    }

    /** No empty stack is stored. */
    ghost predicate Valid()
      reads this
    {
      Hub.NoEmptyStack(HubView())
    }

    function HubView(): Hub.Hub
      reads this
    {
      Hub.Hub(stacks, connSeq, {})
    }

    function BoxView(): Box
      reads this
    {
      Box(rows, nextSeq, map[], log)
    }

    function Current(bot: Bot): Option<Hub.Conn>
      reads this
    {
      var stack := Hub.Stack(HubView(), bot);
      if stack == [] then None else Some(stack[|stack| - 1])
    }

    predicate Reachable(bot: Bot)
      reads this
    {
      Current(bot).Some? && Current(bot).value.tx !in closed
    }

    method RegisterConn(bot: Bot, tx: nat) returns (gen: nat)
      requires Valid()
      modifies this`stacks, this`connSeq
      ensures Valid() && gen == old(connSeq)
      ensures HubView() == Hub.Step(Hub.Step(old(HubView()), Hub.Draw), Hub.Push(bot, gen, tx))
      ensures Current(bot) == Some(Hub.Conn(gen, tx))
    {
      gen := connSeq;
      connSeq := connSeq + 1;
      var stack := if bot in stacks then stacks[bot] else [];
      stacks := stacks[bot := stack + [Hub.Conn(gen, tx)]];
      assert {gen} - {gen} == {};
    }

    method UnregisterConn(bot: Bot, gen: nat) returns (fullyOffline: bool)
      requires Valid()
      modifies this`stacks
      ensures Valid() && (HubView(), fullyOffline) == Hub.Removed(old(HubView()), bot, gen)
    {
      if bot !in stacks { return false; }
      var removed := exists k :: 0 <= k < |stacks[bot]| && stacks[bot][k].gen == gen;
      if removed {
        stacks := stacks[bot := Keep(stacks[bot], Hub.Not(gen))];
      }
      fullyOffline := removed && stacks[bot] == [];
      assert removed == Hub.Holds(old(stacks)[bot], gen);
      if fullyOffline {
        stacks := stacks - {bot};
        assert stacks == old(stacks) - {bot};
      }
    }

    /** Whether the newest connection of the bot takes a frame. */
    method CanSend(bot: Bot) returns (ok: bool)
      ensures ok == Reachable(bot)
    {
      if bot !in stacks || stacks[bot] == [] { return false; }
      return stacks[bot][|stacks[bot]| - 1].tx !in closed;
    }

    method SendToBot(bot: Bot, entry: Entry) returns (ok: bool)
      modifies this`log
      ensures ok == Reachable(bot)
      ensures log == old(log) + (if ok then [Sent(bot, entry)] else [])
    {
      ok := CanSend(bot);
      if ok { log := log + [Sent(bot, entry)]; }
    }

    /** Presence in the hub is having a live connection. */
    method IsConnected(bot: Bot) returns (r: bool)
      requires Valid()
      ensures r == Hub.Connected(HubView(), bot) && (r <==> Current(bot).Some?)
    {
      return bot in stacks;
    }

    /** Everything listed goes out in order, or, without a connection, nothing does; each frame is acknowledged
        unless the store fails to. */
    method FlushOutbox(bot: Bot, h: StoreHealth) returns (delivered: bool)
      modifies this`rows, this`log
      ensures var p := Listed(old(rows), bot, nextSeq, h);
              && delivered == (Reachable(bot) && p != [])
              && log == old(log) + (if delivered then Tagged(bot, p) else [])
              && BoxView() == Run(old(BoxView()), FlushOps(bot, if delivered then |p| else 0, h, Reachable(bot)))
    {
      hide Pending, Run, Started, FlushOps, Midway, Acked;
      var pending := if h.readOk then Pending(rows, bot, nextSeq) else [];
      delivered := false;
      ghost var start := BoxView();
      FirstTurn(start, bot, h);
      var i := 0;
      while i < |pending|
        invariant 0 <= i <= |pending| && delivered == (i > 0) && (i > 0 ==> Reachable(bot))
        invariant log == old(log) + Tagged(bot, pending[..i])
        invariant Run(start, Started(bot, i, h)) == Midway(rows, nextSeq, bot, pending[i..], log)
      {
        OneTurn(start, bot, i, h, rows, nextSeq, pending[i..], log);
        var ok := SendToBot(bot, pending[i]);
        if !ok { break; }
        if h.ackOk(i) { rows := Acked(rows, pending[i].seqNo); }
        delivered := true;
        assert Tagged(bot, pending[..i]) + [Sent(bot, pending[i])] == Tagged(bot, pending[..i + 1]);
        i := i + 1;
      }
      LastTurn(start, bot, i, h, rows, nextSeq, pending[i..], log, Reachable(bot));
      assert i == |pending| || (i == 0 && !Reachable(bot));
      assert delivered ==> pending[..i] == pending;
    }

    /** Queue under the message's key and flush. A session already over delivers nothing; a frame that cannot be
        queued is handed over directly if the bot is reachable, and the outbox is left alone. */
    method DeliverEvent(bot: Bot, session: string, messageId: string, frame: string, over: bool, enqueueOk: bool,
                        h: StoreHealth)
      returns (sent: bool)
      modifies this`rows, this`nextSeq, this`log, this`direct
      ensures over ==> !sent && BoxView() == old(BoxView()) && direct == old(direct)
      ensures !over && !enqueueOk ==>
                sent == Reachable(bot) && BoxView() == old(BoxView())
                && direct == old(direct) + (if sent then [(bot, frame)] else [])
      ensures !over && enqueueOk ==>
                var op := Enqueue(bot, session, FrameKey(bot, messageId), frame);
                var queued := Step(old(BoxView()), op);
                var p := Listed(queued.rows, bot, queued.nextSeq, h);
                && sent == (Reachable(bot) && p != []) && direct == old(direct)
                && BoxView() == Run(old(BoxView()), [op] + FlushOps(bot, if sent then |p| else 0, h, Reachable(bot)))
    {
      if over { return false; }
      if !enqueueOk {
        sent := CanSend(bot);
        if sent { direct := direct + [(bot, frame)]; }
        return;
      }
      ghost var start := BoxView();
      var key := FrameKey(bot, messageId);
      var op := Enqueue(bot, session, key, frame);
      if !(exists n :: n in rows && rows[n].key == key) {
        rows := rows[nextSeq := Row(bot, session, key, frame, false)];
        nextSeq := nextSeq + 1;
      }
      assert BoxView() == Step(start, op);
      RunMore(start, [], op);
      RunNothing(start);
      assert [] + [op] == [op];
      hide Run, Pending, Pairs;
      ghost var p := Listed(rows, bot, nextSeq, h);
      sent := FlushOutbox(bot, h);
      RunJoin(start, [op], FlushOps(bot, if sent then |p| else 0, h, Reachable(bot)));
    }
  }
}
