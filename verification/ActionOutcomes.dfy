/** When an undecided action can still be decided: exactly when it is not sealed. */
module ActionOutcomes {
  import opened Collections
  import opened ActionJournal
  import opened ActionRuns
  import opened TriggerOwnership

  lemma {:induction false} RunJoin(w: World, a: seq<Op>, b: seq<Op>)
    ensures Run(w, a + b) == Run(Run(w, a), b)
  {
    if b == [] {
      assert a + b == a;
    } else {
      assert (a + b)[..|a + b| - 1] == a + b[..|b| - 1];
      RunJoin(w, a, b[..|b| - 1]);
    }
  }

  /** Thread `t` is at work on the action, which nobody has declared unknown. */
  predicate Working(w: World, t: nat, key: Key) {
    && t < |w.threads| && w.threads[t].req.key == key
    && key in w.store.journal && w.store.journal[key].phase.Processing?
  }

  /** An accepted thread can run. */
  lemma CanRun(ops: seq<Op>, t: nat, key: Key) returns (more: seq<Op>)
    requires Working(Run(EMPTY, ops), t, key) && Active(Run(EMPTY, ops).threads[t].stage)
    ensures ops <= more && Working(Run(EMPTY, more), t, key) && Run(EMPTY, more).threads[t].stage.Ran?
  {
    hide Run;
    more := ops;
    if Run(EMPTY, more).threads[t].stage.Admitted? {
      RunSplit(EMPTY, more, Journal(t, true));
      more := more + [Journal(t, true)];
    }
    if Run(EMPTY, more).threads[t].stage.Accepted? {
      var run := Execute(t, Interpreted(200, ""), None);
      RunSplit(EMPTY, more, run);
      more := more + [run];
    }
  }

  /** An undecided action that is not sealed can still be completed: its thread only has to go on. */
  lemma UnsealedCanComplete(ops: seq<Op>, key: Key) returns (more: seq<Op>, r: Response)
    requires Undecided(Run(EMPTY, ops), key) && !Sealed(Run(EMPTY, ops), key)
    ensures ops <= more && HasReply(Run(EMPTY, more).store, key, r)
  {
    var w := Run(EMPTY, ops);
    var t :| 0 <= t < |w.threads| && w.threads[t].req.key == key && Active(w.threads[t].stage);
    hide Run;
    more := CanRun(ops, t, key);
    CompletionAccepted(more, t);
    RunSplit(EMPTY, more, Complete(t, true));
    r := Run(EMPTY, more).threads[t].stage.response;
    hide Retired, Binds;
    more := more + [Complete(t, true)];
  }

  ghost predicate UndecidedForEver(ops: seq<Op>, key: Key) {
    forall more :: ops <= more ==> Undecided(Run(EMPTY, more), key)
  }

  /** An undecided action stays undecided whatever follows exactly when it is sealed: declared unknown to a retry,
      or left by every thread that worked on it. Reconciliation, which only compares the clock with the lease, may
      say unknown of an action that is not. */
  lemma UndecidedForEverExactlyWhenSealed(ops: seq<Op>, key: Key)
    requires Undecided(Run(EMPTY, ops), key)
    ensures UndecidedForEver(ops, key) <==> Sealed(Run(EMPTY, ops), key)
  {
    hide Run, Sealed, Undecided;
    if Sealed(Run(EMPTY, ops), key) {
      forall more | ops <= more ensures Undecided(Run(EMPTY, more), key) {
        var rest := more[|ops|..];
        assert more == ops + rest;
        RunJoin(EMPTY, ops, rest);
        SealedForever(Run(EMPTY, ops), rest, key);
        SealedIsUndecided(Run(EMPTY, more), key);
      }
    } else {
      var more, r := UnsealedCanComplete(ops, key);
      RepliedIsDecided(Run(EMPTY, more), key, r);
    }
  }

  lemma SealedIsUndecided(w: World, key: Key)
    requires Sealed(w, key)
    ensures Undecided(w, key)
  {
  }

  lemma RepliedIsDecided(w: World, key: Key, r: Response)
    requires HasReply(w.store, key, r)
    ensures !Undecided(w, key)
  {
  }

  /** So an unknown outcome read by reconciliation is final exactly when the action is sealed. */
  lemma ReconciledUnknownIsFinal(ops: seq<Op>, key: Key, scope: string, now: int)
    requires StatusOf(Run(EMPTY, ops).store, key, scope, now).UnknownOutcome?
    ensures UndecidedForEver(ops, key) <==> Sealed(Run(EMPTY, ops), key)
  {
    UndecidedForEverExactlyWhenSealed(ops, key);
  }
}
