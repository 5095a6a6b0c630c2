/** What the admission, the completion and the reconciliation read decide, told by the tables before and after. */
module ActionTables {
  import opened Collections
  import opened ActionJournal
  import opened ActionRuns
  import opened TriggerOwnership

  // ---- admission ----

  /** The lease of five minutes on an admitted action has not run out. */
  predicate Leased(record: Record, now: int) {
    now - record.receivedAt <= 300000
  }

  /** An action id seen before: another request is refused, a completed action replayed, a processing one is busy
      until its lease runs out and unknown from then on, and only that last answer changes the table. */
  lemma RetryAnswers(s: Store, req: Request, now: int, gate: Gate)
    requires gate.admitted && req.key in s.journal
    ensures var (s', start) := Begin(s, req, now, gate); var record := s.journal[req.key];
            var lapsed := record.phase.Processing? && !Leased(record, now);
            && (start == Mismatch <==> record.hash != req.hash)
            && (record.hash == req.hash ==>
                  && (forall r :: start == Replay(r) <==> record.phase == Completed(r))
                  && (start == Busy <==> record.phase.Processing? && Leased(record, now))
                  && (start == Unknown <==> record.phase.Indeterminate? || lapsed))
            && s'.claims == s.claims && s'.bindings == s.bindings
            && s'.journal == if record.hash == req.hash
               && lapsed then s.journal[req.key := record.(phase := Indeterminate)]
                             else s.journal
  {
  }

  /** What the gate and the trigger refuse. */
  predicate Refuses(s: Store, req: Request, gate: Gate) {
    || !gate.admitted
    || (req.key !in s.journal
        && (!gate.withinRate
            || (req.open.Some?
                && var d := DecideOpen(s, req.key.controller, req.scope, req.open.value, gate.live);
                   d.None? || (d.value.Create? && !gate.withinSessions))))
  }

  /** A denial changes nothing and is given exactly to what is refused. */
  lemma DenialExact(s: Store, req: Request, now: int, gate: Gate)
    ensures Begin(s, req, now, gate).1 == Denied <==> Refuses(s, req, gate)
    ensures Refuses(s, req, gate) ==> Begin(s, req, now, gate).0 == s
  {
    hide DecideOpen;
  }

  /** An action id not seen before, and not refused, is started: it is recorded as processing from now on, its
      trigger is claimed for its scope, and nothing else changes. */
  lemma StartExact(s: Store, req: Request, now: int, gate: Gate)
    requires req.key !in s.journal && !Refuses(s, req, gate)
    ensures var (s', start) := Begin(s, req, now, gate);
            && start.Started? && s'.bindings == s.bindings
            && s'.journal == s.journal[req.key := Record(req.hash, req.scope, req.open, Processing, now)]
            && (req.open.None? ==> s'.claims == s.claims && start.decision == NotAnOpen)
            && (req.open.Some? ==>
                  && s'.claims == s.claims[(req.key.controller, req.open.value.triggerRef) := req.scope]
                  && Some(start.decision) == DecideOpen(s, req.key.controller, req.scope, req.open.value, gate.live))
  {
    hide DecideOpen;
  }

  // ---- completion ----

  /** The binding is the one the action was admitted for. */
  predicate Admitted(s: Store, key: Key, b: Binding) {
    && key in s.journal && s.journal[key].open == Some(b.intent) && b.controller == key.controller
    && b.scope == s.journal[key].scope
    && (b.controller, b.intent.triggerRef) in s.claims && s.claims[(b.controller, b.intent.triggerRef)] == b.scope
  }

  predicate SameTrigger(a: Binding, b: Binding) {
    a.controller == b.controller && a.intent.triggerRef == b.intent.triggerRef
  }

  /** Completion is accepted exactly for a processing action and, with a session, one admitted for it. It stores the
      response and changes no other action; the new session becomes current, the others of its trigger cease to be,
      and those of other triggers stay as they are. */
  lemma CompletionExact(s: Store, key: Key, response: Response, binding: Option<Binding>)
    ensures var done := Finish(s, key, response, binding);
            && (done.Some? <==> key in s.journal && s.journal[key].phase.Processing?
                                && (binding.Some? ==> Admitted(s, key, binding.value)))
            && (done.Some? ==>
                  && done.value.claims == s.claims
                  && done.value.journal == s.journal[key := s.journal[key].(phase := Completed(response))])
            && (done.Some? && binding.None? ==> done.value.bindings == s.bindings)
            && (done.Some? && binding.Some? ==>
                  var b, bs, bs' := binding.value, s.bindings, done.value.bindings;
                  && |bs'| == |bs| + 1 && bs'[|bs|] == b.(current := true)
                  && forall i :: 0 <= i < |bs| ==>
                       bs'[i] == if SameTrigger(bs[i], b) then bs[i].(current := false) else bs[i])
  {
  }

  /** Running an admitted action: a deduplicated open is answered with the session it found and runs nothing;
      anything else is interpreted, and an open that produced a session carries it as its binding. */
  lemma RunExact(w: World, t: nat, response: Response, session: Option<string>)
    requires t < |w.threads| && w.threads[t].stage.Accepted?
    ensures var w', req, d := Step(w, Execute(t, response, session)), w.threads[t].req, w.threads[t].stage.decision;
            && w'.store == w.store
            && (d.Deduplicate? ==>
                  w'.threads[t].stage == Ran(OpenedBefore(req.key.action, d.session), None) && w'.log == w.log)
            && (!d.Deduplicate? ==>
                  && w'.log == w.log + [Executed(t, req.key)] && w'.threads[t].stage.Ran?
                     && w'.threads[t].stage.response == response
                  && w'.threads[t].stage.binding
                     == if req.open.None? || session.None? then None
                        else Some(Binding(req.key.controller, req.scope, req.open.value, session.value, true)))
  {
  }

  /** Over every run: a thread whose action opened a session, completing while the action is processing, leaves that
      session as the only current one of its trigger and is answered with the response it produced. */
  lemma OpenedIsCurrent(ops: seq<Op>, t: nat)
    requires t < |Run(EMPTY, ops).threads| && Run(EMPTY, ops).threads[t].stage.Ran?
    ensures var w := Run(EMPTY, ops); var req, stage := w.threads[t].req, w.threads[t].stage;
            var w' := Step(w, Complete(t, true));
            req.key in w.store.journal && w.store.journal[req.key].phase.Processing? ==>
              && HasReply(w'.store, req.key, stage.response)
                 && w'.log == w.log + [Answered(t, req.key, Reply(stage.response))]
              && (stage.binding.Some? ==>
                    && stage.binding.value.(current := true) in w'.store.bindings
                    && forall b :: b in w'.store.bindings && SameTrigger(b, stage.binding.value) && b.current ==>
                         b == stage.binding.value.(current := true))
  {
    var w := Run(EMPTY, ops);
    var req, stage := w.threads[t].req, w.threads[t].stage;
    CompletionAccepted(ops, t);
    CompletionExact(w.store, req.key, stage.response, stage.binding);
    hide Run, Finish;
    var done := Finish(w.store, req.key, stage.response, stage.binding);
    if done.Some? && stage.binding.Some? {
      var bs, bs' := w.store.bindings, done.value.bindings;
      assert bs'[|bs|] in bs';
      forall b | b in bs' && SameTrigger(b, stage.binding.value) && b.current
          ensures b == stage.binding.value.(current := true) {
        var i :| 0 <= i < |bs'| && bs'[i] == b;
        assert i == |bs|;
      }
    }
  }

  // ---- reconciliation ----

  /** What reconciliation reports of an action, in the scope it was admitted for and in any other. */
  lemma ReportExact(s: Store, key: Key, scope: string, now: int)
    ensures var status := StatusOf(s, key, scope, now);
            && (status == NotFound <==> key !in s.journal || s.journal[key].scope != scope)
            && (status != NotFound ==>
                  var record := s.journal[key];
                  && (forall r :: status == CompletedWith(r) <==> record.phase == Completed(r))
                  && (status == StillProcessing <==> record.phase.Processing? && Leased(record, now))
                  && (status == UnknownOutcome <==>
                        record.phase.Indeterminate? || (record.phase.Processing? && !Leased(record, now))))
  {
  }
}
