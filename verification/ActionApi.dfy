/** The action endpoint as the service runs it: the tables are fields updated in place, one request at a time. */
module ActionApi {
  import opened Collections
  import opened ActionJournal
  import opened ActionRuns

  /** Everything a request meets outside the tables: store errors, the admission checks, the clock, and what the
      interpreter produces. */
  datatype Weather = Weather(now: int, gate: Gate, beginOk: bool, journalOk: bool, response: Response,
                             session: Option<string>, finishOk: bool)

  /** The steps of one request; those after an early answer change nothing. */
  function Ops(env: Weather): seq<Op> {
    [Admit(0, env.now, env.gate, env.beginOk), Journal(0, env.journalOk), Execute(0, env.response, env.session),
     Complete(0, env.finishOk)]
  }

  lemma FourSteps(w: World, env: Weather)
    ensures var o := Ops(env); Run(w, o) == Step(Step(Step(Step(w, o[0]), o[1]), o[2]), o[3])
  {
    var o := Ops(env);
    RunNothing(w);
    RunSplit(w, [], o[0]);
    RunSplit(w, o[..1], o[1]);
    RunSplit(w, o[..2], o[2]);
    RunSplit(w, o[..3], o[3]);
    assert o[..1] == [] + [o[0]] && o[..2] == o[..1] + [o[1]] && o[..3] == o[..2] + [o[2]] && o == o[..3] + [o[3]];
  }

  class ActionApi {
    var journal: map<Key, Record>
    var claims: map<(string, string), string>
    var bindings: seq<Binding>

    constructor ()
      ensures Tables() == EMPTY.store
    {
      journal, claims, bindings := map[], map[], [];
    }

    function Tables(): Store
      reads this
    {
      Store(journal, claims, bindings)
    }

    method BeginControllerAction(req: Request, now: int, gate: Gate) returns (start: Start)
      modifies this
      ensures (Tables(), start) == Begin(old(Tables()), req, now, gate)
    {
      if !gate.admitted { return Denied; }
      if req.key in journal {
        var record := journal[req.key];
        if record.hash != req.hash { return Mismatch; }
        if record.phase.Completed? { return Replay(record.phase.response); }
        if record.phase.Processing? && now - record.receivedAt <= LEASE_MS { return Busy; }
        if record.phase.Processing? {
          journal := journal[req.key := record.(phase := Indeterminate)];
        }
        return Unknown;
      }
      if !gate.withinRate { return Denied; }
      var decision := NotAnOpen;
      if req.open.Some? {
        var d := DecideOpen(Tables(), req.key.controller, req.scope, req.open.value, gate.live);
        if d.None? { return Denied; }
        decision := d.value;
      }
      if decision == Create && !gate.withinSessions { return Denied; }
      if req.open.Some? {
        claims := claims[(req.key.controller, req.open.value.triggerRef) := req.scope];
      }
      journal := journal[req.key := Record(req.hash, req.scope, req.open, Processing, now)];
      return Started(decision);
    }

    method FinishControllerAction(key: Key, response: Response, binding: Option<Binding>) returns (ok: bool)
      modifies this
      ensures ok == Finish(old(Tables()), key, response, binding).Some?
      ensures Tables() == if ok then Finish(old(Tables()), key, response, binding).value else old(Tables())
    {
      if binding.Some? && !Binds(Tables(), key, binding.value) { return false; }
      if key !in journal || !journal[key].phase.Processing? { return false; }
      if binding.Some? {
        var i, b := 0, binding.value;
        ghost var before := bindings;
        while i < |bindings|
          invariant 0 <= i <= |bindings| == |before| && journal == old(journal) && claims == old(claims)
          invariant forall k :: 0 <= k < i ==> bindings[k] == Retired(before, key.controller, b.intent.triggerRef)[k]
          invariant forall k :: i <= k < |bindings| ==> bindings[k] == before[k]
        {
          if CurrentFor(bindings[i], key.controller, b.intent.triggerRef) {
            bindings := bindings[i := bindings[i].(current := false)];
          }
          i := i + 1;
        }
        assert bindings == Retired(before, key.controller, b.intent.triggerRef);
        bindings := bindings + [b.(current := true)];
      }
      journal := journal[key := journal[key].(phase := Completed(response))];
      return true;
    }

    /** One request is a run of one new thread: same tables, same answer, and the interpreter ran exactly when
        that run executed. */
    method ExecuteActionRequest(req: Request, env: Weather) returns (answer: Answer, ran: bool)
      modifies this
      ensures var w := Run(World(old(Tables()), [Thread(req, Arrived)], []), Ops(env));
              && w.store == Tables() && w.log != [] && w.log[|w.log| - 1] == Answered(0, req.key, answer)
              && (ran <==> Executed(0, req.key) in w.log)
    {
      hide Begin, Finish, Run;
      ran := false;
      ghost var w0, o := World(Tables(), [Thread(req, Arrived)], []), Ops(env);
      FourSteps(w0, env);
      ghost var w1 := Step(w0, o[0]);
      if !env.beginOk {
        answer := Unavailable;
        assert w1.threads[0].stage.Over? && w1.log == [Answered(0, req.key, answer)];
        return;
      }
      var start := BeginControllerAction(req, env.now, env.gate);
      if !start.Started? {
        match start {
          case Denied => answer := Refused;
          case Mismatch => answer := DifferentRequest;
          case Replay(response) => answer := Reply(response);
          case Busy => answer := InProgress;
          case Unknown => answer := OutcomeUnknown;
        }
        assert w1.threads[0].stage.Over? && w1.store == Tables() && w1.log == [Answered(0, req.key, answer)];
        return;
      }
      ghost var w2 := Step(w1, o[1]);
      if !env.journalOk {
        answer := Unavailable;
        assert w2.threads[0].stage.Over? && w2.store == Tables();
        assert w2.log == [Began(0, req.key, start.decision), Answered(0, req.key, answer)];
        return;
      }
      var response, binding := env.response, None;
      if start.decision.Deduplicate? {
        response := OpenedBefore(req.key.action, start.decision.session);
      } else {
        ran := true;
        if req.open.Some? && env.session.Some? {
          binding := Some(Binding(req.key.controller, req.scope, req.open.value, env.session.value, true));
        }
      }
      ghost var w3 := Step(w2, o[2]);
      assert w3.store == Tables() && w3.threads[0] == Thread(req, Ran(response, binding));
      assert w3.log == [Began(0, req.key, start.decision)] + (if ran then [Executed(0, req.key)] else []);
      var finished := false;
      if env.finishOk {
        finished := FinishControllerAction(req.key, response, binding);
      }
      answer := if finished then Reply(response) else PersistenceFailed;
      ghost var w4 := Step(w3, o[3]);
      assert w4.store == Tables() && w4.log == w3.log + [Answered(0, req.key, answer)];
    }
  }
}
