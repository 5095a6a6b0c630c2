/** Which scope owns a trigger, and which session is its current one, over every run of the action journal. */
module TriggerOwnership {
  import opened Collections
  import opened ActionJournal
  import opened ActionRuns

  function TriggerOf(b: Binding): (string, string) {
    (b.controller, b.intent.triggerRef)
  }

  /** Every session opened for a trigger lies in the scope that claimed the trigger. */
  predicate InClaimedScope(s: Store) {
    forall i :: 0 <= i < |s.bindings| ==> TriggerOf(s.bindings[i]) in s.claims
                                          && s.claims[TriggerOf(s.bindings[i])] == s.bindings[i].scope
  }

  predicate OneCurrent(bs: seq<Binding>) {
    forall i, j :: 0 <= i < j < |bs| && TriggerOf(bs[i]) == TriggerOf(bs[j]) ==> !(bs[i].current && bs[j].current)
  }

  /** Every admitted open holds the claim it was admitted under. */
  predicate AdmittedHoldClaims(s: Store) {
    forall key :: key in s.journal && s.journal[key].open.Some? ==>
      var trigger := (key.controller, s.journal[key].open.value.triggerRef);
      trigger in s.claims && s.claims[trigger] == s.journal[key].scope
  }

  predicate Owned(s: Store) {
    InClaimedScope(s) && OneCurrent(s.bindings) && AdmittedHoldClaims(s)
  }

  lemma BeginKeepsOwned(s: Store, req: Request, now: int, gate: Gate)
    requires Owned(s)
    ensures Owned(Begin(s, req, now, gate).0)
    ensures forall trigger :: trigger in s.claims ==>
              trigger in Begin(s, req, now, gate).0.claims
              && Begin(s, req, now, gate).0.claims[trigger] == s.claims[trigger]
  {
    var s' := Begin(s, req, now, gate).0;
    assert s'.bindings == s.bindings;
    if req.open.Some? && Begin(s, req, now, gate).1.Started? {
      var trigger := (req.key.controller, req.open.value.triggerRef);
      assert trigger in s.claims ==> s.claims[trigger] == req.scope;
    }
  }

  lemma RetiredHasNoCurrent(bs: seq<Binding>, controller: string, triggerRef: string)
    requires OneCurrent(bs)
    ensures var r := Retired(bs, controller, triggerRef);
            OneCurrent(r) && forall i :: 0 <= i < |r| && TriggerOf(r[i]) == (controller, triggerRef) ==> !r[i].current
  {
  }

  lemma FinishKeepsOwned(s: Store, key: Key, response: Response, binding: Option<Binding>)
    requires Owned(s) && Finish(s, key, response, binding).Some?
    ensures Owned(Finish(s, key, response, binding).value) && Finish(s, key, response, binding).value.claims == s.claims
  {
    var s' := Finish(s, key, response, binding).value;
    if binding.Some? {
      RetiredHasNoCurrent(s.bindings, key.controller, binding.value.intent.triggerRef);
    }
  }

  lemma StepKeepsOwned(w: World, op: Op)
    requires Owned(w.store)
    ensures Owned(Step(w, op).store)
    ensures forall trigger :: trigger in w.store.claims ==>
              trigger in Step(w, op).store.claims && Step(w, op).store.claims[trigger] == w.store.claims[trigger]
  {
    hide Owned, Begin, Finish;
    var w' := Step(w, op);
    if op.Admit? && w' != w && op.ok {
      BeginKeepsOwned(w.store, w.threads[op.t].req, op.now, op.gate);
    } else if op.Complete? && w' != w {
      var stage, key := w.threads[op.t].stage, w.threads[op.t].req.key;
      if Finish(w.store, key, stage.response, stage.binding).Some? {
        FinishKeepsOwned(w.store, key, stage.response, stage.binding);
      }
    }
  }

  /** Over every run: a claimed trigger keeps its scope, all its sessions lie in that scope, and at most one of
      them is current. */
  lemma {:induction false} TriggersOwned(ops: seq<Op>, more: seq<Op>)
    ensures Owned(Run(EMPTY, ops).store)
    ensures Owned(Run(Run(EMPTY, ops), more).store)
    ensures forall trigger :: trigger in Run(EMPTY, ops).store.claims ==>
              trigger in Run(Run(EMPTY, ops), more).store.claims
              && Run(Run(EMPTY, ops), more).store.claims[trigger] == Run(EMPTY, ops).store.claims[trigger]
    decreases |ops| + |more|
  {
    if more != [] {
      TriggersOwned(ops, more[..|more| - 1]);
      hide Owned, Step;
      StepKeepsOwned(Run(Run(EMPTY, ops), more[..|more| - 1]), more[|more| - 1]);
    } else if ops != [] {
      TriggersOwned(ops[..|ops| - 1], []);
      hide Owned, Step;
      StepKeepsOwned(Run(EMPTY, ops[..|ops| - 1]), ops[|ops| - 1]);
    }
  }

  /** A current session of the trigger that is still live. */
  ghost predicate LiveCurrent(s: Store, req: Request, live: set<string>, b: Binding)
    requires req.open.Some?
  {
    && b in s.bindings && b.controller == req.key.controller && b.intent.triggerRef == req.open.value.triggerRef
       && b.current
    && b.session in live
  }

  /** Both fingerprints are given, and equal. */
  predicate SamePrint(b: Binding, req: Request)
    requires req.open.Some?
  {
    b.intent.fingerprint.Some? && req.open.value.fingerprint.Some?
    && b.intent.fingerprint.value == req.open.value.fingerprint.value
  }

  /** In every reachable store an open is refused for its trigger exactly when another scope claimed it, so the
      second scope comparison of the admission never decides. Otherwise it is deduplicated to a live current session
      of the trigger exactly when both fingerprints are given and equal, supersedes one exactly when they are not,
      and creates a session exactly when no current one is live. */
  lemma OpenDecision(ops: seq<Op>, req: Request, live: set<string>)
    requires req.open.Some?
    ensures var s := Run(EMPTY, ops).store; var i := req.open.value;
            var trigger := (req.key.controller, i.triggerRef);
            var d := DecideOpen(s, req.key.controller, req.scope, i, live);
            && (d.None? <==> trigger in s.claims && s.claims[trigger] != req.scope)
            && (d.Some? ==>
                  && (forall x :: d.value == Deduplicate(x) <==>
                        exists b :: LiveCurrent(s, req, live, b) && b.session == x && SamePrint(b, req))
                  && (forall x :: d.value == Supersede(x) <==>
                        exists b :: LiveCurrent(s, req, live, b) && b.session == x && !SamePrint(b, req))
                  && (d.value == Create <==> forall b :: !LiveCurrent(s, req, live, b))
                  && d.value != NotAnOpen)
            && (d.Some? ==> forall b :: LiveCurrent(s, req, live, b) ==> b.scope == req.scope)
  {
    var s := Run(EMPTY, ops).store;
    TriggersOwned(ops, []);
    hide Run;
    var current := FindCurrent(s.bindings, req.key.controller, req.open.value.triggerRef);
    if current.Some? {
      OnlyCurrent(s.bindings, current.value, req.key.controller, req.open.value.triggerRef);
      ScopeIsClaimed(s, current.value);
      if current.value.session in live {
        assert LiveCurrent(s, req, live, current.value);
      }
      hide InClaimedScope, OneCurrent, AdmittedHoldClaims;
    }
  }

  lemma ScopeIsClaimed(s: Store, b: Binding)
    requires InClaimedScope(s) && b in s.bindings
    ensures (b.controller, b.intent.triggerRef) in s.claims && s.claims[(b.controller, b.intent.triggerRef)] == b.scope
  {
    var i :| 0 <= i < |s.bindings| && s.bindings[i] == b;
    assert TriggerOf(s.bindings[i]) in s.claims;
  }

  lemma OnlyCurrent(bs: seq<Binding>, c: Binding, controller: string, triggerRef: string)
    requires OneCurrent(bs) && c in bs && CurrentFor(c, controller, triggerRef)
    ensures forall b :: b in bs && CurrentFor(b, controller, triggerRef) ==> b == c
  {
    forall b | b in bs && CurrentFor(b, controller, triggerRef) ensures b == c {
      var i :| 0 <= i < |bs| && bs[i] == b;
      var j :| 0 <= j < |bs| && bs[j] == c;
      assert TriggerOf(bs[i]) == TriggerOf(bs[j]);
      assert i == j;
    }
  }

  // ---- completion is never refused for its binding ----

  ghost predicate BindingsMatch(w: World) {
    forall t :: 0 <= t < |w.threads| && w.threads[t].stage.Ran? && w.threads[t].stage.binding.Some? ==>
      var b, req := w.threads[t].stage.binding.value, w.threads[t].req;
      b.controller == req.key.controller && b.scope == req.scope && req.open == Some(b.intent)
  }

  lemma StepKeepsBindings(w: World, op: Op)
    requires BindingsMatch(w)
    ensures BindingsMatch(Step(w, op))
  {
    hide Begin, Finish;
  }

  lemma {:induction false} RunKeepsBindings(ops: seq<Op>)
    ensures BindingsMatch(Run(EMPTY, ops))
  {
    if ops != [] {
      RunKeepsBindings(ops[..|ops| - 1]);
      hide BindingsMatch, Step;
      StepKeepsBindings(Run(EMPTY, ops[..|ops| - 1]), ops[|ops| - 1]);
    }
  }

  /** In every reachable world a thread that has run can complete unless a retry has declared its outcome unknown. */
  lemma CompletionAccepted(ops: seq<Op>, t: nat)
    requires t < |Run(EMPTY, ops).threads| && Run(EMPTY, ops).threads[t].stage.Ran?
    ensures var w := Run(EMPTY, ops); var req, stage := w.threads[t].req, w.threads[t].stage;
            && req.key in w.store.journal
            && (Finish(w.store, req.key, stage.response, stage.binding).Some? <==>
                  !w.store.journal[req.key].phase.Indeterminate?)
  {
    var w := Run(EMPTY, ops);
    RunKeepsBindings(ops);
    RunKeepsInv(ops);
    RunKeepsPending(ops);
    TriggersOwned(ops, []);
    hide Run;
    var req := w.threads[t].req;
    assert Active(w.threads[t].stage);
    var i :| 0 <= i < |w.log| && w.log[i].Began? && w.log[i].thread == t && w.log[i].key == req.key;
    assert Holds(w, w.log[i]);
    assert Undecided(w, req.key);
  }
}
