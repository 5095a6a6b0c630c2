/** The sequential action loop as a run of single steps: handling signals one after the other is one of the
    interleavings, and handlers that overlap are others. */
module CouncilLoops {
  import opened Collections
  import opened Session
  import opened Coordinator
  import opened CouncilRuns
  import opened CouncilBudget

  /** What every world reached by steps remembers of the present. */
  ghost predicate Current(w: World) {
    w.core.row in w.rows && w.core.roster in w.rosters && Distinct(w.core.roster)
  }

  lemma {:induction false} LatestSaid(log: seq<Event>)
    ensures forall b :: b in LatestSettled(log) ==> Said(b, LatestSettled(log)[b]) in log
  {
    if log != [] {
      LatestSaid(log[..|log| - 1]);
      assert log == log[..|log| - 1] + [log[|log| - 1]];
    }
  }

  /** A snapshot read now is one that a handler may have. */
  lemma ReadIsSeen(w: World, candidates: seq<Bot>)
    requires Current(w)
    ensures Seen(w, Read(w.core, candidates))
  {
    LatestSaid(w.core.log);
  }

  lemma {:induction false} RunFirst(w: World, t: Texts, op: Op, rest: seq<Op>)
    ensures Run(w, t, [op] + rest) == Run(Step(w, t, op), t, rest)
  {
    var all := [op] + rest;
    if rest == [] {
      assert all == [op] && [op][..0] == [];
    } else {
      assert all[..|all| - 1] == [op] + rest[..|rest| - 1];
      RunFirst(w, t, op, rest[..|rest| - 1]);
    }
  }

  lemma {:induction false} RunJoin(w: World, t: Texts, a: seq<Op>, b: seq<Op>)
    ensures Run(w, t, a + b) == Run(Run(w, t, a), t, b)
  {
    if b == [] {
      assert a + b == a;
    } else {
      assert (a + b)[..|a + b| - 1] == a + b[..|b| - 1];
      RunJoin(w, t, a, b[..|b| - 1]);
    }
  }

  lemma RunNone(w: World, t: Texts)
    ensures Run(w, t, []) == w
  {
  }

  // ---- what is seen stays seen ----

  ghost predicate Later(w: World, w': World) {
    w.rows <= w'.rows && w.rosters <= w'.rosters && w.core.log <= w'.core.log && w'.core.triggerRef == w.core.triggerRef
  }

  lemma {:induction false} CountPrefix(a: seq<Event>, b: seq<Event>, kind: Event -> bool)
    requires a <= b
    ensures CountEvents(a, kind) <= CountEvents(b, kind)
    decreases |b|
  {
    if a != b {
      CountPrefix(a, b[..|b| - 1], kind);
    }
  }

  lemma SeenLater(w: World, w': World, s: Snapshot)
    requires Seen(w, s) && Later(w, w')
    ensures Seen(w', s)
  {
    CountPrefix(w.core.log, w'.core.log, IsSynthesisPrompt());
    hide CountEvents;
    assert forall e :: e in w.core.log ==> e in w'.core.log;
  }

  lemma TurnAppends(c: Core, task: Task, failed: bool, t: Texts, s: Surroundings)
    requires Distinct(c.roster)
    ensures c.log <= Turn(c, task, failed, t, s).core.log && Turn(c, task, failed, t, s).core.triggerRef == c.triggerRef
  {
    hide Trim, Read, QuorumActions, Tasks;
    if task.Do? && task.action.TrimReviewer? { TrimFacts(c, task.action.bot); }
  }

  // ---- one turn of the loop is one step ----

  /** The step that executes the head of thread `i` as the sequential loop would. */
  function ExecOf(w: World, i: nat, s: Surroundings): Op
    requires i < |w.threads| && w.threads[i].todo != []
  {
    var task := w.threads[i].todo[0];
    var read := if task.Do? && task.action.TrimReviewer? then Trim(w.core, task.action.bot).0 else w.core;
    Exec(i, SpareFor(task, s), Read(read, s.candidates))
  }

  /** The turn of the loop is what the executor performs for that step. */
  lemma TurnIsPerformed(w: World, t: Texts, i: nat, s: Surroundings)
    requires i < |w.threads| && w.threads[i].todo != [] && Distinct(w.core.roster)
    ensures var th, op := w.threads[i], ExecOf(w, i, s);
            Turn(w.core, th.todo[0], th.failed, t, s) == Perform(w.core, th.todo[0], th.failed, t, op.spare, op.reread)
  {
    hide Perform, Read, Trim;
  }

  lemma TurnIsStep(w: World, t: Texts, i: nat, s: Surroundings)
    requires Current(w) && i < |w.threads| && w.threads[i].todo != []
    ensures var th := w.threads[i];
            var out, w' := Turn(w.core, th.todo[0], th.failed, t, s), Step(w, t, ExecOf(w, i, s));
            && w'.core == out.core && w'.threads == w.threads[i := Thread(out.nested + th.todo[1..], out.failed)]
            && Current(w') && Later(w, w')
  {
    hide Read, Seen, Trim, Distinct, Turn, Perform;
    var th := w.threads[i];
    var out := Turn(w.core, th.todo[0], th.failed, t, s);
    var after := Update(w, out.core, w.threads[i := Thread(out.nested + th.todo[1..], out.failed)]);
    TurnIsPerformed(w, t, i, s);
    TurnFacts(w.core, th.todo[0], th.failed, t, s);
    TurnAppends(w.core, th.todo[0], th.failed, t, s);
    ReadIsSeen(after, s.candidates);
    if out.nested != [] {
      TrimLeaves(w.core, th.todo[0], th.failed, t, s);
    }
  }

  /** When a trim starts nested work, that work reads the core the trim left. */
  lemma TrimLeaves(c: Core, task: Task, failed: bool, t: Texts, s: Surroundings)
    requires Distinct(c.roster)
    ensures Turn(c, task, failed, t, s).nested != [] ==>
              task.Do? && task.action.TrimReviewer? && Turn(c, task, failed, t, s).core == Trim(c, task.action.bot).0
  {
    hide Read, QuorumActions, Tasks, Trim;
  }

  /** Running a thread alone to its end computes what the loop computes. */
  lemma {:induction false} LoopIsRun(w: World, t: Texts, i: nat, s: Surroundings) returns (ops: seq<Op>)
    requires Current(w) && i < |w.threads|
    ensures var r := Loop(w.core, w.threads[i].todo, w.threads[i].failed, t, s); var w' := Run(w, t, ops);
            && w'.core == r.0 && w'.threads == w.threads[i := Thread([], r.1)] && Current(w') && Later(w, w')
    decreases Trims(w.threads[i].todo), |w.threads[i].todo|
  {
    var th := w.threads[i];
    hide Turn, Run, Step, Trims, Read, Loop, Distinct;
    if th.todo == [] {
      LoopEnd(w.core, th.failed, t, s);
      RunNone(w, t);
      return [];
    }
    var out := Turn(w.core, th.todo[0], th.failed, t, s);
    TurnShrinks(w.core, th.todo, th.failed, t, s);
    TurnIsStep(w, t, i, s);
    LoopStep(w.core, th.todo, th.failed, t, s);
    var op := ExecOf(w, i, s);
    var w1 := Step(w, t, op);
    var rest := LoopIsRun(w1, t, i, s);
    RunFirst(w, t, op, rest);
    return [op] + rest;
  }

  lemma TurnShrinks(c: Core, todo: seq<Task>, failed: bool, t: Texts, s: Surroundings)
    requires Distinct(c.roster) && todo != []
    ensures var out := Turn(c, todo[0], failed, t, s); var next := out.nested + todo[1..];
            Trims(next) < Trims(todo) || (Trims(next) == Trims(todo) && |next| < |todo|)
  {
    var out := Turn(c, todo[0], failed, t, s);
    TurnFacts(c, todo[0], failed, t, s);
    TrimsAppend(out.nested, todo[1..]);
    hide Turn;
  }

  /** A new thread, run alone to its end. */
  lemma SpawnIsRun(w: World, t: Texts, op: Op, todo: seq<Task>, s: Surroundings) returns (ops: seq<Op>)
    requires Current(w) && Step(w, t, op) == Update(w, w.core, w.threads + [Thread(todo, false)])
    ensures var w' := Run(w, t, ops);
            w'.core == Loop(w.core, todo, false, t, s).0 && Current(w') && Later(w, w')
  {
    hide Loop, Run, Step;
    var w1 := Step(w, t, op);
    var rest := LoopIsRun(w1, t, |w.threads|, s);
    RunFirst(w, t, op, rest);
    return [op] + rest;
  }

  // ---- handling one signal, and a whole session ----

  lemma SeqStepIsRun(w: World, t: Texts, op: SeqOp) returns (ops: seq<Op>)
    requires Current(w)
    ensures Run(w, t, ops).core == SeqStep(w.core, t, op) && Current(Run(w, t, ops))
  {
    hide Loop, Read, QuorumActions, CouncilActions, Tasks, Run, Rerequests;
    match op {
      case SBegin => ops := One(w, t, Begin);
      case SVote(bot) => ops := One(w, t, Vote(bot));
      case SSay(bot, text) => ops := One(w, t, Say(bot, text));
      case SReseat(roster, chair, quorumN) => ops := One(w, t, Reseat(roster, chair, quorumN));
      case SForceClose => ops := One(w, t, ForceClose);
      case SDone(bot, explicit, s) =>
        var cx := Read(w.core, s.candidates);
        ReadIsSeen(w, s.candidates);
        var n := Rerequests(w.core.log, bot);
        ops := SpawnIsRun(w, t, Done(cx, bot, explicit, n),
                          Tasks(CouncilActions(cx, t, bot, explicit, n), cx, explicit), s);
      case SRosterChanged(s) =>
        var cx := Read(w.core, s.candidates);
        ReadIsSeen(w, s.candidates);
        ops := SpawnIsRun(w, t, RosterChanged(cx), Tasks(QuorumActions(cx, t, false), cx, false), s);
      case STrim(bot, s) =>
        var cx := Read(w.core, s.candidates);
        ReadIsSeen(w, s.candidates);
        TrimTask(bot, cx);
        ops := SpawnIsRun(w, t, Sweep(bot, cx), [Do(TrimReviewer(bot), cx, false)], s);
    }
  }

  lemma TrimTask(bot: Bot, cx: Snapshot)
    ensures Tasks([TrimReviewer(bot)], cx, false) == [Do(TrimReviewer(bot), cx, false)]
  {
  }

  lemma One(w: World, t: Texts, op: Op) returns (ops: seq<Op>)
    ensures ops == [op] && Run(w, t, ops) == Step(w, t, op)
  {
    ops := [op];
    assert [op] + [] == ops;
    RunFirst(w, t, op, []);
    RunNone(Step(w, t, op), t);
  }

  /** Handling everything one after the other is one of the interleaved runs. */
  lemma {:induction false} SeqRunIsRun(t: Texts, roster: seq<Bot>, chair: Option<Bot>, quorumN: int,
                                       triggerRef: Option<string>, sops: seq<SeqOp>)
    returns (ops: seq<Op>)
    requires Distinct(roster)
    ensures var w := Run(Fresh(roster, chair, quorumN, triggerRef), t, ops);
            w.core == SeqRun(Core(Row(Open, chair, quorumN), roster, triggerRef, []), t, sops) && Current(w)
  {
    var opening := Fresh(roster, chair, quorumN, triggerRef);
    if sops == [] {
      RunNone(opening, t);
      return [];
    }
    var front := SeqRunIsRun(t, roster, chair, quorumN, triggerRef, sops[..|sops| - 1]);
    var w := Run(opening, t, front);
    var last := SeqStepIsRun(w, t, sops[|sops| - 1]);
    RunJoin(opening, t, front, last);
    return front + last;
  }

  /** So the safety of every interleaving holds of the sequential handlers, and of the action loop they run. */
  lemma SequentialSafety(t: Texts, roster: seq<Bot>, chair: Option<Bot>, quorumN: int, triggerRef: Option<string>,
                         sops: seq<SeqOp>)
    requires Distinct(roster)
    ensures Safe(SeqRun(Core(Row(Open, chair, quorumN), roster, triggerRef, []), t, sops).log, t)
  {
    var ops := SeqRunIsRun(t, roster, chair, quorumN, triggerRef, sops);
    CouncilSafety(t, roster, chair, quorumN, triggerRef, ops);
  }

  // ---- overlapping handlers ----

  /** Handlers of the chair's done that all read one snapshot each spend a prompt of their own. */
  lemma {:induction false} OverlapSpends(w: World, t: Texts, cx: Snapshot, bot: Bot, s: Surroundings, handlers: nat)
      returns (ops: seq<Op>)
    requires Current(w) && Seen(w, cx) && w.core.row.phase == Quorum
    requires Requeues(cx, t, bot, false) && NextChair(cx.candidates, bot) != bot
    ensures SynthesisPrompts(Run(w, t, ops).core.log) == SynthesisPrompts(w.core.log) + handlers
    decreases handlers
  {
    hide Loop, Run, Seen, CouncilActions, Tasks, CountEvents, Distinct;
    if handlers == 0 {
      RunNone(w, t);
      return [];
    }
    var one := SpawnIsRun(w, t, Done(cx, bot, false, 0), Tasks(CouncilActions(cx, t, bot, false, 0), cx, false), s);
    var w1 := Run(w, t, one);
    ChairLoop(w.core, cx, t, bot, false, 0, s);
    var next := NextChair(cx.candidates, bot);
    CountGrows(w.core.log, Prompted(next, SynthesisRetry(cx.synthesisAttempts + 1)), IsSynthesisPrompt());
    SeenLater(w, w1, cx);
    var rest := OverlapSpends(w1, t, cx, bot, s, handlers - 1);
    RunJoin(w, t, one, rest);
    return one + rest;
  }

  /** The budget needs handlers one after the other: with a second chair-capable bot, handlers that read the same
      attempt count send any number of synthesis prompts in one session. */
  lemma OverlapExceedsBudget(t: Texts, chair: Bot, other: Bot, reviewer: Bot, handlers: nat) returns (ops: seq<Op>)
    requires chair != reviewer && other != chair && t.delivered("report") && !t.parseable("oops")
    ensures SynthesisPrompts(Run(Fresh([chair, reviewer], Some(chair), 1, Some("controller:x")), t, ops).core.log) == 1
            + handlers
  {
    var s := Surroundings([chair, other], (b: Bot) => None);
    var opening := Fresh([chair, reviewer], Some(chair), 1, Some("controller:x"));
    StallIsReached(t, chair, reviewer, s);
    var first := SeqRunIsRun(t, [chair, reviewer], Some(chair), 1, Some("controller:x"), StallOps(chair, reviewer, s));
    var w := Run(opening, t, first);
    var cx := Read(w.core, s.candidates);
    assert w.core == Stalled(chair, reviewer, s);
    StalledReads(chair, reviewer, s);
    ReadIsSeen(w, s.candidates);
    assert "controller:" <= "controller:x";
    hide SeqRun, Run, CountEvents, LatestSettled, Voters, Seen;
    var rest := OverlapSpends(w, t, cx, chair, s, handlers);
    RunJoin(opening, t, first, rest);
    return first + rest;
  }

  // ---- and when they do not ----

  /** The number a synthesis prompt carries: one more than the attempts its handler had counted. */
  function Number(c: Content): int {
    if c.SynthesisRetry? then c.attempt else 1
  }

  predicate InBudget(c: Content) {
    c.SynthesisRetry? ==> 1 <= c.attempt <= MAX_SYNTHESIS_ATTEMPTS
  }

  ghost predicate TaskInBudget(task: Task) {
    task.Do? && task.action.Prompt? ==> InBudget(task.action.content)
  }

  ghost predicate TodoInBudget(todo: seq<Task>) {
    forall k :: 0 <= k < |todo| ==> TaskInBudget(todo[k])
  }

  ghost predicate LogInBudget(log: seq<Event>) {
    forall i :: 0 <= i < |log| && log[i].Prompted? ==> InBudget(log[i].content)
  }

  ghost predicate Numbered(w: World) {
    LogInBudget(w.core.log) && forall i :: 0 <= i < |w.threads| ==> TodoInBudget(w.threads[i].todo)
  }

  lemma PolicyInBudget(s: Snapshot, t: Texts, bot: Bot, explicit: bool, rerequests: int)
    requires 0 <= s.synthesisAttempts
    ensures TodoInBudget(Tasks(CouncilActions(s, t, bot, explicit, rerequests), s, explicit))
    ensures TodoInBudget(Tasks(QuorumActions(s, t, explicit), s, explicit))
  {
    var actions := CouncilActions(s, t, bot, explicit, rerequests);
    forall k | 0 <= k < |actions| ensures actions[k].Prompt? ==> InBudget(actions[k].content) {
      CouncilParts(s, t, bot, explicit, rerequests, actions[k]);
      RequeueParts(s, bot, actions[k]);
      hide CouncilActions, RequeueActions, NextChair, QuorumSeen, ReportDelivered, SynthesisFailed;
    }
  }

  lemma PerformInBudget(c: Core, task: Task, failed: bool, t: Texts, spare: Option<Bot>, reread: Snapshot)
    requires Distinct(c.roster) && LogInBudget(c.log) && TaskInBudget(task)
    ensures var e := Perform(c, task, failed, t, spare, reread); LogInBudget(e.core.log) && TodoInBudget(e.nested)
  {
    hide Distinct, Trim, QuorumSeen;
    if task.Do? && task.action.TrimReviewer? { TrimFacts(c, task.action.bot); }
  }

  lemma StepKeepsNumbers(w: World, t: Texts, op: Op)
    requires Numbered(w)
    ensures Numbered(Step(w, t, op))
  {
    hide Perform, CouncilActions, QuorumActions, Seen, Distinct, Tasks;
    match op
    case Done(snap, bot, explicit, rerequests) =>
      if Seen(w, snap) {
        SeenCounts(w, snap);
        PolicyInBudget(snap, t, bot, explicit, rerequests);
      }
    case RosterChanged(snap) =>
      if Seen(w, snap) {
        SeenCounts(w, snap);
        PolicyInBudget(snap, t, Bot(""), false, 0);
      }
    case Sweep(bot, snap) => TrimTask(bot, snap);
    case Exec(i, spare, reread) =>
      if i < |w.threads| && w.threads[i].todo != [] && Distinct(w.core.roster) {
        var th := w.threads[i];
        assert TodoInBudget(th.todo) && TaskInBudget(th.todo[0]);
        PerformInBudget(w.core, th.todo[0], th.failed, t, spare, reread);
      }
    case _ =>
  }

  lemma SeenCounts(w: World, s: Snapshot)
    requires Seen(w, s)
    ensures 0 <= s.synthesisAttempts
  {
  }

  lemma {:induction false} RunKeepsNumbers(w: World, t: Texts, ops: seq<Op>)
    requires Numbered(w)
    ensures Numbered(Run(w, t, ops))
  {
    if ops != [] {
      RunKeepsNumbers(w, t, ops[..|ops| - 1]);
      hide Numbered, Step;
      StepKeepsNumbers(Run(w, t, ops[..|ops| - 1]), t, ops[|ops| - 1]);
    }
  }

  /** Two synthesis prompts of the log were decided on one attempt count. */
  ghost predicate SharedCount(log: seq<Event>) {
    exists i, j :: 0 <= i < j < |log| && SameNumber(log[i], log[j])
  }

  predicate SameNumber(a: Event, b: Event) {
    IsSynthesisPrompt()(a) && IsSynthesisPrompt()(b) && Number(a.content) == Number(b.content)
  }

  function NumbersIn(log: seq<Event>): set<int> {
    set i | 0 <= i < |log| && IsSynthesisPrompt()(log[i]) :: Number(log[i].content)
  }

  ghost predicate DistinctCounts(log: seq<Event>) {
    forall i, j :: 0 <= i < j < |log| ==> !SameNumber(log[i], log[j])
  }

  lemma {:induction false} DistinctNumbers(log: seq<Event>)
    requires DistinctCounts(log)
    ensures SynthesisPrompts(log) == |NumbersIn(log)|
  {
    if log != [] {
      var n := |log| - 1;
      var front, e := log[..n], log[n];
      forall i, j | 0 <= i < j < |front| ensures !SameNumber(front[i], front[j]) {
        assert front[i] == log[i] && front[j] == log[j];
      }
      DistinctNumbers(front);
      assert log == front + [e];
      assert NumbersIn(log) == NumbersIn(front) + (if IsSynthesisPrompt()(e) then {Number(e.content)} else {});
      forall i | 0 <= i < |front| && IsSynthesisPrompt()(front[i]) && IsSynthesisPrompt()(e)
        ensures Number(front[i].content) != Number(e.content)
      {
        assert !SameNumber(log[i], log[n]);
      }
    }
  }

  lemma FewNumbers(s: set<int>)
    requires forall n :: n in s ==> 1 <= n <= MAX_SYNTHESIS_ATTEMPTS
    ensures |s| <= MAX_SYNTHESIS_ATTEMPTS
  {
    var all: set<int> := {1, 2, 3};
    forall n | n in s ensures n in all {}
    assert all == s + (all - s);
  }

  /** In every interleaving a session exceeds its synthesis budget only if two of its prompts were decided on one
      attempt count, that is by handlers that overlapped. */
  lemma OverBudgetMeansSharedCount(t: Texts, roster: seq<Bot>, chair: Option<Bot>, quorumN: int,
                                   triggerRef: Option<string>, ops: seq<Op>)
    ensures var log := Run(Fresh(roster, chair, quorumN, triggerRef), t, ops).core.log;
            SynthesisPrompts(log) > MAX_SYNTHESIS_ATTEMPTS ==> SharedCount(log)
  {
    var w := Fresh(roster, chair, quorumN, triggerRef);
    RunKeepsNumbers(w, t, ops);
    hide Run, CountEvents;
    var log := Run(w, t, ops).core.log;
    if DistinctCounts(log) {
      DistinctNumbers(log);
      FewNumbers(NumbersIn(log));
    }
  }
}
