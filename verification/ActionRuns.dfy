/** What the action journal promises over every run of requests, retries, store errors and crashes. */
module ActionRuns {
  import opened Collections
  import opened ActionJournal

  predicate Active(stage: Stage) {
    stage.Admitted? || stage.Accepted? || stage.Ran?
  }

  ghost predicate HasBegun(log: seq<Event>, t: nat, key: Key) {
    exists i :: 0 <= i < |log| && log[i].Began? && log[i].thread == t && log[i].key == key
  }

  predicate HasReply(s: Store, key: Key, r: Response) {
    key in s.journal && s.journal[key].phase == Completed(r)
  }

  predicate Admits(s: Store, req: Request) {
    req.key in s.journal && s.journal[req.key].hash == req.hash && s.journal[req.key].scope == req.scope
    && s.journal[req.key].open == req.open
  }

  // ---- the store only grows ----

  predicate PhaseGrows(p: Phase, q: Phase) {
    p == q || p.Processing?
  }

  predicate Grows(s: Store, s': Store) {
    forall key :: key in s.journal ==>
      key in s'.journal && s'.journal[key].(phase := s.journal[key].phase) == s.journal[key]
      && PhaseGrows(s.journal[key].phase, s'.journal[key].phase)
  }

  // ---- the safety invariant ----

  predicate IsBegin(e: Event, key: Key) { e.Began? && e.key == key }
  predicate IsExecution(e: Event, key: Key) { e.Executed? && e.key == key }

  ghost predicate OneBegin(log: seq<Event>) {
    forall key, i, j :: 0 <= i < |log| && 0 <= j < |log| && IsBegin(log[i], key) && IsBegin(log[j], key) ==> i == j
  }

  ghost predicate OneExecution(log: seq<Event>) {
    forall key, i, j :: 0 <= i < |log| && 0 <= j < |log| && IsExecution(log[i], key) && IsExecution(log[j], key) ==>
      i == j
  }

  /** What a single event of the log guarantees about the present. */
  ghost predicate Holds(w: World, e: Event) {
    match e
    case Began(t, key, _) => t < |w.threads| && w.threads[t].req.key == key && Admits(w.store, w.threads[t].req)
    && !w.threads[t].stage.Arrived?
    case Executed(t, key) =>
      t < |w.threads| && HasBegun(w.log, t, key) && (w.threads[t].stage.Ran? || w.threads[t].stage.Over?)
    case Answered(t, key, answer) =>
      t < |w.threads| && w.threads[t].req.key == key
      && (answer.Reply? ==> HasReply(w.store, key, answer.response)
                            && w.store.journal[key].hash == w.threads[t].req.hash)
    case Reported(key, status) => status.CompletedWith? ==> HasReply(w.store, key, status.response)
  }

  ghost predicate Inv(w: World) {
    && OneBegin(w.log) && OneExecution(w.log)
    && (forall i :: 0 <= i < |w.log| ==> Holds(w, w.log[i]))
    && (forall t :: 0 <= t < |w.threads| && Active(w.threads[t].stage) ==> HasBegun(w.log, t, w.threads[t].req.key))
  }

  /** A later world in which no thread went back and nothing stored was lost. */
  ghost predicate Later(w: World, w': World) {
    && Grows(w.store, w'.store) && |w.threads| <= |w'.threads| && w.log <= w'.log
    && (forall t :: 0 <= t < |w.threads| ==>
          && w'.threads[t].req == w.threads[t].req
          && (!w.threads[t].stage.Arrived? ==> !w'.threads[t].stage.Arrived?)
          && (w.threads[t].stage.Ran? || w.threads[t].stage.Over? ==>
                w'.threads[t].stage.Ran? || w'.threads[t].stage.Over?))
  }

  lemma StillHolds(w: World, w': World, e: Event)
    requires Later(w, w') && Holds(w, e)
    ensures Holds(w', e)
  {
    if e.Executed? {
      StillBegun(w.log, w'.log, e.thread, e.key);
    }
  }

  lemma StillBegun(log: seq<Event>, log': seq<Event>, t: nat, key: Key)
    requires log <= log' && HasBegun(log, t, key)
    ensures HasBegun(log', t, key)
  {
    var i :| 0 <= i < |log| && log[i].Began? && log[i].thread == t && log[i].key == key;
    assert log'[i] == log[i];
  }

  /** A step that logs at most one event, true when logged, keeps the invariant. */
  lemma Extend(w: World, w': World, e: Event)
    requires Inv(w) && Later(w, w') && (w'.log == w.log || (w'.log == w.log + [e] && Holds(w', e)))
    requires w'.log != w.log && e.Began? ==> e.key !in w.store.journal
    requires w'.log != w.log && e.Executed? ==>
               e.thread < |w.threads| && HasBegun(w.log, e.thread, e.key) && w.threads[e.thread].stage.Accepted?
    requires forall t :: 0 <= t < |w'.threads| && Active(w'.threads[t].stage) ==>
               (t < |w.threads| && Active(w.threads[t].stage)) || HasBegun(w'.log, t, w'.threads[t].req.key)
    ensures Inv(w')
  {
    forall i | 0 <= i < |w'.log| ensures Holds(w', w'.log[i]) {
      if i < |w.log| {
        assert w'.log[i] == w.log[i];
        StillHolds(w, w', w.log[i]);
      }
    }
    forall t | 0 <= t < |w'.threads| && Active(w'.threads[t].stage) ensures HasBegun(w'.log, t, w'.threads[t].req.key) {
      if t < |w.threads| && Active(w.threads[t].stage) {
        StillBegun(w.log, w'.log, t, w.threads[t].req.key);
      }
    }
    if w'.log != w.log {
      NewEventIsFirst(w, e);
      OnceMore(w.log, e);
    }
  }

  lemma NewEventIsFirst(w: World, e: Event)
    requires Inv(w)
    requires e.Began? ==> e.key !in w.store.journal
    requires e.Executed? ==> e.thread < |w.threads| && HasBegun(w.log, e.thread, e.key)
                             && w.threads[e.thread].stage.Accepted?
    ensures e.Began? ==> forall i :: 0 <= i < |w.log| ==> !IsBegin(w.log[i], e.key)
    ensures e.Executed? ==> forall i :: 0 <= i < |w.log| ==> !IsExecution(w.log[i], e.key)
  {
    if e.Began? {
      forall i | 0 <= i < |w.log| ensures !IsBegin(w.log[i], e.key) {
        assert Holds(w, w.log[i]);
      }
    }
    if e.Executed? {
      forall i | 0 <= i < |w.log| ensures !IsExecution(w.log[i], e.key) {
        assert Holds(w, w.log[i]);
        if IsExecution(w.log[i], e.key) {
          SameStarter(w, w.log[i].thread, e.thread, e.key);
        }
      }
    }
  }

  lemma SameStarter(w: World, t: nat, u: nat, key: Key)
    requires OneBegin(w.log) && HasBegun(w.log, t, key) && HasBegun(w.log, u, key)
    ensures t == u
  {
    var i :| 0 <= i < |w.log| && w.log[i].Began? && w.log[i].thread == t && w.log[i].key == key;
    var j :| 0 <= j < |w.log| && w.log[j].Began? && w.log[j].thread == u && w.log[j].key == key;
    assert IsBegin(w.log[i], key) && IsBegin(w.log[j], key);
  }

  lemma OnceMore(log: seq<Event>, e: Event)
    requires OneBegin(log) && OneExecution(log)
    requires e.Began? ==> forall i :: 0 <= i < |log| ==> !IsBegin(log[i], e.key)
    requires e.Executed? ==> forall i :: 0 <= i < |log| ==> !IsExecution(log[i], e.key)
    ensures OneBegin(log + [e]) && OneExecution(log + [e])
  {
    assert forall i :: 0 <= i < |log| ==> (log + [e])[i] == log[i];
  }

  lemma BeginFacts(s: Store, req: Request, now: int, gate: Gate)
    ensures var (s', start) := Begin(s, req, now, gate);
            && Grows(s, s')
            && (start.Replay? ==> HasReply(s', req.key, start.response) && s'.journal[req.key].hash == req.hash)
            && (start.Started? ==> req.key !in s.journal && Admits(s', req))
  {
    hide DecideOpen;
  }

  lemma AdmitKeeps(w: World, t: nat, now: int, gate: Gate)
    requires Inv(w) && t < |w.threads| && w.threads[t].stage.Arrived?
    ensures Inv(AdmitStep(w, t, now, gate))
  {
    var w' := AdmitStep(w, t, now, gate);
    var req := w.threads[t].req;
    BeginFacts(w.store, req, now, gate);
    hide Begin, Inv, HasReply, Admits, Grows;
    var start := Begin(w.store, req, now, gate).1;
    var e := w'.log[|w.log|];
    assert w'.log == w.log + [e];
    if start.Started? { assert HasBegun(w'.log, t, req.key); }
    Extend(w, w', e);
  }

  lemma ExecuteKeeps(w: World, t: nat, response: Response, session: Option<string>)
    requires Inv(w) && t < |w.threads| && w.threads[t].stage.Accepted?
    ensures Inv(ExecuteStep(w, t, response, session))
  {
    var w' := ExecuteStep(w, t, response, session);
    var req := w.threads[t].req;
    assert Active(w.threads[t].stage);
    assert HasBegun(w.log, t, req.key);
    if w'.log != w.log {
      assert w'.log == w.log + [Executed(t, req.key)];
      StillBegun(w.log, w'.log, t, req.key);
    }
    hide Inv;
    Extend(w, w', Executed(t, req.key));
  }

  lemma CompleteKeeps(w: World, t: nat, ok: bool)
    requires Inv(w) && t < |w.threads| && w.threads[t].stage.Ran?
    ensures Inv(CompleteStep(w, t, ok))
  {
    var w' := CompleteStep(w, t, ok);
    var req := w.threads[t].req;
    assert Active(w.threads[t].stage);
    assert HasBegun(w.log, t, req.key);
    var i :| 0 <= i < |w.log| && w.log[i].Began? && w.log[i].thread == t && w.log[i].key == req.key;
    assert Holds(w, w.log[i]);
    var stage := w.threads[t].stage;
    var answer := if ok && Finish(w.store, req.key, stage.response, stage.binding).Some? then Reply(stage.response)
                  else PersistenceFailed;
    hide Inv;
    Extend(w, w', Answered(t, req.key, answer));
  }

  lemma StepKeepsInv(w: World, op: Op)
    requires Inv(w)
    ensures Inv(Step(w, op))
  {
    var w' := Step(w, op);
    hide Inv, AdmitStep, ExecuteStep, CompleteStep;
    if w' != w {
      match op
      case Admit(t, now, gate, ok) => if ok { AdmitKeeps(w, t, now, gate); }
      else { Extend(w, w', Answered(t, w.threads[t].req.key, Unavailable)); }
      case Arrive(_) => Extend(w, w', Reported(Key("", ""), NotFound));
      case Reconcile(key, scope, now) => Extend(w, w', Reported(key, StatusOf(w.store, key, scope, now)));
      case Journal(t, _) => Extend(w, w', Answered(t, w.threads[t].req.key, Unavailable));
      case Execute(t, response, session) => ExecuteKeeps(w, t, response, session);
      case Complete(t, ok) => CompleteKeeps(w, t, ok);
      case Die(t) => Extend(w, w', Reported(Key("", ""), NotFound));
    }
  }

  lemma {:induction false} RunKeepsInv(ops: seq<Op>)
    ensures Inv(Run(EMPTY, ops))
  {
    if ops != [] {
      RunKeepsInv(ops[..|ops| - 1]);
      hide Inv;
      StepKeepsInv(Run(EMPTY, ops[..|ops| - 1]), ops[|ops| - 1]);
    }
  }

  // ---- at most once, and one answer ----

  /** The response an event reveals to a caller, if any. */
  function Told(e: Event): Option<Response> {
    match e
    case Answered(_, _, Reply(r)) => Some(r)
    case Reported(_, CompletedWith(r)) => Some(r)
    case _ => None
  }

  /** Over every run: an action is interpreted at most once; every caller that is told a response, by a retry or
      by reconciliation, is told the one stored response, and only for the request that was admitted; whoever
      interprets is the thread that was admitted. */
  lemma JournalSafety(ops: seq<Op>)
    ensures var w := Run(EMPTY, ops);
            && OneExecution(w.log)
            && (forall i, j :: 0 <= i < |w.log| && 0 <= j < |w.log| && w.log[i].key == w.log[j].key
                               && Told(w.log[i]).Some? && Told(w.log[j]).Some? ==>
                  Told(w.log[i]) == Told(w.log[j]))
            && (forall i :: 0 <= i < |w.log| && Told(w.log[i]).Some? ==>
                  HasReply(w.store, w.log[i].key, Told(w.log[i]).value))
            && (forall i :: 0 <= i < |w.log| && w.log[i].Answered? && w.log[i].answer.Reply? ==>
                  w.log[i].thread < |w.threads|
                  && w.threads[w.log[i].thread].req.hash == w.store.journal[w.log[i].key].hash)
            && (forall i :: 0 <= i < |w.log| && w.log[i].Executed? ==>
                  && w.log[i].thread < |w.threads| && HasBegun(w.log, w.log[i].thread, w.log[i].key)
                  && Admits(w.store, w.threads[w.log[i].thread].req))
            && (forall key, t: nat, u: nat :: HasBegun(w.log, t, key) && HasBegun(w.log, u, key) ==> t == u)
  {
    var w := Run(EMPTY, ops);
    RunKeepsInv(ops);
    hide Run, Step;
    forall i | 0 <= i < |w.log| ensures Holds(w, w.log[i]) {}
    forall i | 0 <= i < |w.log| && w.log[i].Executed? ensures Admits(w.store, w.threads[w.log[i].thread].req) {
      var t, key := w.log[i].thread, w.log[i].key;
      assert Holds(w, w.log[i]);
      var j :| 0 <= j < |w.log| && w.log[j].Began? && w.log[j].thread == t && w.log[j].key == key;
      assert Holds(w, w.log[j]);
    }
    forall key, t: nat, u: nat | HasBegun(w.log, t, key) && HasBegun(w.log, u, key) ensures t == u {
      SameStarter(w, t, u, key);
    }
  }

  // ---- crashes ----

  predicate Undecided(w: World, key: Key) {
    key in w.store.journal && !w.store.journal[key].phase.Completed?
  }

  ghost predicate NobodyActive(w: World, key: Key) {
    forall t :: 0 <= t < |w.threads| && w.threads[t].req.key == key ==> !Active(w.threads[t].stage)
  }

  /** No response can ever be stored for the action any more. */
  ghost predicate Sealed(w: World, key: Key) {
    Undecided(w, key) && (w.store.journal[key].phase.Indeterminate? || NobodyActive(w, key))
  }

  /** An event that tells nobody a response. */
  predicate Quiet(e: Event) {
    match e
    case Answered(_, _, answer) => !answer.Reply?
    case Reported(_, status) => status in {NotFound, StillProcessing, UnknownOutcome}
    case _ => true
  }

  lemma BeginOnUndecided(s: Store, req: Request, now: int, gate: Gate, key: Key)
    requires key in s.journal && !s.journal[key].phase.Completed?
    ensures var (s', start) := Begin(s, req, now, gate);
            && key in s'.journal && !s'.journal[key].phase.Completed?
            && (s.journal[key].phase.Indeterminate? ==> s'.journal[key].phase.Indeterminate?)
            && (req.key == key ==> !start.Replay? && !start.Started?)
  {
    hide DecideOpen;
  }

  lemma SealedAdmit(w: World, t: nat, now: int, gate: Gate, key: Key)
    requires Sealed(w, key) && t < |w.threads| && w.threads[t].stage.Arrived?
    ensures var w' := AdmitStep(w, t, now, gate);
            && Sealed(w', key) && |w'.log| == |w.log| + 1 && w.log <= w'.log
            && (w'.log[|w.log|].key == key ==> Quiet(w'.log[|w.log|]))
  {
    BeginOnUndecided(w.store, w.threads[t].req, now, gate, key);
    hide Begin;
  }

  lemma SealedComplete(w: World, t: nat, ok: bool, key: Key)
    requires Sealed(w, key) && t < |w.threads| && w.threads[t].stage.Ran?
    ensures var w' := CompleteStep(w, t, ok);
            && Sealed(w', key) && |w'.log| == |w.log| + 1 && w.log <= w'.log
            && (w'.log[|w.log|].key == key ==> Quiet(w'.log[|w.log|]))
  {
    hide Retired, Binds;
    assert Active(w.threads[t].stage);
  }

  lemma SealedStep(w: World, op: Op, key: Key)
    requires Sealed(w, key)
    ensures Sealed(Step(w, op), key) && w.log <= Step(w, op).log
    ensures forall i :: |w.log| <= i < |Step(w, op).log| && Step(w, op).log[i].key == key ==> Quiet(Step(w, op).log[i])
  {
    hide AdmitStep, CompleteStep;
    var w' := Step(w, op);
    if op.Admit? && w' != w && op.ok {
      SealedAdmit(w, op.t, op.now, op.gate, key);
    } else if op.Complete? && w' != w {
      SealedComplete(w, op.t, op.ok, key);
    }
  }

  /** Once sealed, the action is reported only as processing or unknown, for ever. */
  lemma {:induction false} SealedForever(w: World, ops: seq<Op>, key: Key)
    requires Sealed(w, key)
    ensures Sealed(Run(w, ops), key) && w.log <= Run(w, ops).log
    ensures forall i :: |w.log| <= i < |Run(w, ops).log| && Run(w, ops).log[i].key == key ==> Quiet(Run(w, ops).log[i])
  {
    if ops != [] {
      var front, op := ops[..|ops| - 1], ops[|ops| - 1];
      SealedForever(w, front, key);
      hide Sealed;
      SealedStep(Run(w, front), op, key);
    }
  }

  // ---- a thread at work means nothing is stored yet ----

  ghost predicate Pending(w: World) {
    forall t :: 0 <= t < |w.threads| && Active(w.threads[t].stage) ==> Undecided(w, w.threads[t].req.key)
  }

  lemma CompleteOnly(w: World, op: Op, key: Key)
    requires Undecided(w, key) && !Undecided(Step(w, op), key)
    ensures op.Complete? && op.t < |w.threads| && w.threads[op.t].stage.Ran? && w.threads[op.t].req.key == key
            && Step(w, op).threads[op.t].stage.Over?
  {
    if op.Admit? && Step(w, op) != w && op.ok {
      BeginOnUndecided(w.store, w.threads[op.t].req, op.now, op.gate, key);
    }
    hide Begin, Retired, Binds;
  }

  lemma NewlyActive(w: World, op: Op, t: nat)
    requires t < |Step(w, op).threads| && Active(Step(w, op).threads[t].stage)
    ensures t < |w.threads| && Step(w, op).threads[t].req == w.threads[t].req
    ensures !Active(w.threads[t].stage) ==> Undecided(Step(w, op), w.threads[t].req.key)
  {
    if op.Admit? && Step(w, op) != w && op.ok {
      hide DecideOpen;
    }
  }

  lemma StepKeepsPending(w: World, op: Op)
    requires Inv(w) && Pending(w)
    ensures Pending(Step(w, op))
  {
    var w' := Step(w, op);
    hide Step;
    forall t | 0 <= t < |w'.threads| && Active(w'.threads[t].stage) ensures Undecided(w', w'.threads[t].req.key) {
      NewlyActive(w, op, t);
      var key := w.threads[t].req.key;
      if Active(w.threads[t].stage) && !Undecided(w', key) {
        CompleteOnly(w, op, key);
        SameStarter(w, t, op.t, key);
      }
    }
  }

  lemma {:induction false} RunKeepsPending(ops: seq<Op>)
    ensures Pending(Run(EMPTY, ops))
  {
    if ops != [] {
      RunKeepsInv(ops[..|ops| - 1]);
      RunKeepsPending(ops[..|ops| - 1]);
      hide Inv, Pending;
      StepKeepsPending(Run(EMPTY, ops[..|ops| - 1]), ops[|ops| - 1]);
    }
  }

  /** A crash anywhere between admission and completion: whatever happens afterwards, the action never has a
      response, nobody is told one, and reconciliation says processing or unknown. */
  lemma CrashIsNeverCompleted(before: seq<Op>, t: nat, after: seq<Op>)
    requires t < |Run(EMPTY, before).threads| && Active(Run(EMPTY, before).threads[t].stage)
    ensures var w := Step(Run(EMPTY, before), Die(t));
            var key := w.threads[t].req.key;
            && Undecided(Run(w, after), key)
            && (forall i :: |w.log| <= i < |Run(w, after).log| && Run(w, after).log[i].key == key ==>
                  Quiet(Run(w, after).log[i]))
  {
    var u := Run(EMPTY, before);
    var w, key := Step(u, Die(t)), u.threads[t].req.key;
    RunKeepsInv(before);
    RunKeepsPending(before);
    forall s | 0 <= s < |w.threads| && w.threads[s].req.key == key ensures !Active(w.threads[s].stage) {
      if s != t && Active(u.threads[s].stage) { SameStarter(u, s, t, key); }
    }
    assert Sealed(w, key);
    SealedForever(w, after, key);
  }

  /** Telling a retry that the outcome is unknown is final, even while the first thread is still running. */
  lemma UnknownIsFinal(before: seq<Op>, t: nat, now: int, gate: Gate, after: seq<Op>)
    requires var u := Run(EMPTY, before); t < |u.threads| && u.threads[t].stage.Arrived?
    requires Begin(Run(EMPTY, before).store, Run(EMPTY, before).threads[t].req, now, gate).1.Unknown?
    ensures var w := Step(Run(EMPTY, before), Admit(t, now, gate, true));
            var key := w.threads[t].req.key;
            && Undecided(Run(w, after), key)
            && (forall i :: |w.log| <= i < |Run(w, after).log| && Run(w, after).log[i].key == key ==>
                  Quiet(Run(w, after).log[i]))
  {
    var w := Step(Run(EMPTY, before), Admit(t, now, gate, true));
    assert Sealed(w, w.threads[t].req.key);
    SealedForever(w, after, w.threads[t].req.key);
  }

  // ---- a reconciliation answer can still change ----

  const LATE: seq<Op> := [
    Arrive(Request(Key("c", "a"), "h", "s", None)),
    Admit(0, 0, Gate(true, true, true, {}), true),
    Journal(0, true),
    Reconcile(Key("c", "a"), "s", LEASE_MS + 1),
    Execute(0, Interpreted(200, "done"), None),
    Complete(0, true),
    Reconcile(Key("c", "a"), "s", LEASE_MS + 2)]

  lemma RunNothing(w: World)
    ensures Run(w, []) == w
  {
  }

  lemma RunSplit(w: World, ops: seq<Op>, op: Op)
    ensures Run(w, ops + [op]) == Step(Run(w, ops), op)
  {
    assert (ops + [op])[..|ops|] == ops;
  }

  /** Unlike the answer to a retry, an unknown outcome read by reconciliation is provisional: it only compares
      the clock with the lease, and a slow thread may still complete. */
  lemma ReconciliationIsProvisional()
    ensures var log := Run(EMPTY, LATE).log; var key := Key("c", "a");
            Reported(key, UnknownOutcome) in log && Reported(key, CompletedWith(Interpreted(200, "done"))) in log
  {
    var key := Key("c", "a");
    var r := Request(key, "h", "s", None);
    var w1 := Step(EMPTY, LATE[0]);
    assert LATE[..1] == [] + [LATE[0]]; RunSplit(EMPTY, [], LATE[0]);
    assert LATE[..2] == LATE[..1] + [LATE[1]]; RunSplit(EMPTY, LATE[..1], LATE[1]);
    assert LATE[..3] == LATE[..2] + [LATE[2]]; RunSplit(EMPTY, LATE[..2], LATE[2]);
    assert LATE[..4] == LATE[..3] + [LATE[3]]; RunSplit(EMPTY, LATE[..3], LATE[3]);
    assert LATE[..5] == LATE[..4] + [LATE[4]]; RunSplit(EMPTY, LATE[..4], LATE[4]);
    assert LATE[..6] == LATE[..5] + [LATE[5]]; RunSplit(EMPTY, LATE[..5], LATE[5]);
    assert LATE == LATE[..6] + [LATE[6]]; RunSplit(EMPTY, LATE[..6], LATE[6]);
    hide Run;
    var w2 := Step(w1, LATE[1]);
    assert w2.threads[0].stage == Admitted(NotAnOpen) && w2.store.journal[key] == Record("h", "s", None, Processing, 0);
    var w3 := Step(w2, LATE[2]);
    var w4 := Step(w3, LATE[3]);
    var w5 := Step(w4, LATE[4]);
    assert w4.log[1] == Reported(key, UnknownOutcome);
    var w6 := Step(w5, LATE[5]);
    assert w6.store.journal[key].phase == Completed(Interpreted(200, "done"));
    var w7 := Step(w6, LATE[6]);
    assert w7.log[1] == Reported(key, UnknownOutcome)
           && w7.log[|w7.log| - 1] == Reported(key, CompletedWith(Interpreted(200, "done")));
  }
}
