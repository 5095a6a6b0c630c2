/** Done-signals handled one at a time: the synthesis budget and the report re-requests. */
module CouncilBudget {
  import opened Collections
  import opened Session
  import opened Coordinator
  import opened CouncilRuns

  // ---- the snapshot a handler reads when nothing runs beside it ----

  function Voters(log: seq<Event>): (r: seq<Bot>)
    ensures Distinct(r)
    ensures forall b :: b in r <==> Voted(b) in log
  {
    if log == [] then []
    else
      var rest, e := Voters(log[..|log| - 1]), log[|log| - 1];
      if e.Voted? && e.bot !in rest then rest + [e.bot] else rest
  }

  function LatestSettled(log: seq<Event>): map<Bot, string> {
    if log == [] then map[]
    else
      var rest, e := LatestSettled(log[..|log| - 1]), log[|log| - 1];
      if e.Said? then rest[e.bot := e.text] else rest
  }

  /** The settled text of a bot is the last thing it said. */
  lemma {:induction false} SettledIsLast(log: seq<Event>, bot: Bot)
    ensures bot in LatestSettled(log) ==> exists i :: SaidLast(log, bot, LatestSettled(log)[bot], i)
    ensures bot !in LatestSettled(log) ==> forall i :: 0 <= i < |log| ==> !(log[i].Said? && log[i].bot == bot)
  {
    if log != [] {
      var front, e := log[..|log| - 1], log[|log| - 1];
      SettledIsLast(front, bot);
      if e.Said? && e.bot == bot {
        assert SaidLast(log, bot, e.text, |log| - 1);
      } else if bot in LatestSettled(front) {
        var i :| SaidLast(front, bot, LatestSettled(front)[bot], i);
        assert SaidLast(log, bot, LatestSettled(front)[bot], i);
      }
    }
  }

  ghost predicate SaidLast(log: seq<Event>, bot: Bot, text: string, i: int) {
    0 <= i < |log| && log[i] == Said(bot, text) && forall j :: i < j < |log| ==> !(log[j].Said? && log[j].bot == bot)
  }

  function IsRerequestTo(bot: Bot): Event -> bool {
    (e: Event) => e.Prompted? && e.content.ReportRerequest? && e.to == bot
  }

  function Rerequests(log: seq<Event>, bot: Bot): nat {
    CountEvents(log, IsRerequestTo(bot))
  }

  function Read(c: Core, candidates: seq<Bot>): Snapshot {
    Snapshot(c.roster, c.row.chair, c.row.quorumN, Voters(c.log), LatestSettled(c.log), c.row.phase, c.triggerRef,
             SynthesisPrompts(c.log), candidates)
  }

  // ---- the action loop, run to its end ----

  /** What the surroundings answer while the loop runs: the chair-capable bots, and the spare a trim finds. */
  datatype Surroundings = Surroundings(candidates: seq<Bot>, spare: Bot -> Option<Bot>)

  function Trims(todo: seq<Task>): nat {
    if todo == [] then 0
    else (if todo[0].Do? && todo[0].action.TrimReviewer? then 1 else 0) + Trims(todo[1..])
  }

  lemma {:induction false} TrimsAppend(a: seq<Task>, b: seq<Task>)
    ensures Trims(a + b) == Trims(a) + Trims(b)
  {
    if a == [] {
      assert a + b == b;
    } else {
      assert (a + b)[1..] == a[1..] + b;
      TrimsAppend(a[1..], b);
    }
  }

  function SpareFor(task: Task, s: Surroundings): Option<Bot> {
    if task.Do? && task.action.TrimReviewer? then s.spare(task.action.bot) else None
  }

  function Turn(c: Core, task: Task, failed: bool, t: Texts, s: Surroundings): Effect
    requires Distinct(c.roster)
  {
    if task.Do? && task.action.TrimReviewer? then
      var trimmed := Trim(c, task.action.bot).0;
      Perform(c, task, failed, t, SpareFor(task, s), Read(trimmed, s.candidates))
    else
      Perform(c, task, failed, t, None, Read(c, s.candidates))
  }

  lemma {:induction false} NoTrims(todo: seq<Task>)
    requires forall k :: 0 <= k < |todo| ==> !(todo[k].Do? && todo[k].action.TrimReviewer?)
    ensures Trims(todo) == 0
  {
    if todo != [] {
      NoTrims(todo[1..]);
    }
  }

  lemma NestedTrims(reread: Snapshot, t: Texts)
    ensures Trims(Tasks(QuorumActions(reread, t, false), reread, false)) == 0
    ensures Trims(Tasks(QuorumActions(reread, t, false), reread, false) + [Return]) == 0
  {
    QuorumNeverTrims(reread, t);
    hide QuorumActions, Tasks, Trims;
    var todo := Tasks(QuorumActions(reread, t, false), reread, false);
    NoTrims(todo);
    NoTrims(todo + [Return]);
  }

  lemma QuorumNeverTrims(s: Snapshot, t: Texts)
    ensures forall k :: 0 <= k < |QuorumActions(s, t, false)| ==> !QuorumActions(s, t, false)[k].TrimReviewer?
  {
    hide QuorumSeen;
  }

  lemma TurnFacts(c: Core, task: Task, failed: bool, t: Texts, s: Surroundings)
    requires Distinct(c.roster)
    ensures Distinct(Turn(c, task, failed, t, s).core.roster)
    ensures Trims(Turn(c, task, failed, t, s).nested) == 0
    ensures Turn(c, task, failed, t, s).nested != [] ==> task.Do? && task.action.TrimReviewer?
  {
    hide Trim, Read, QuorumActions, Tasks, Trims;
    var out := Turn(c, task, failed, t, s);
    assert Trims([]) == 0 by { NoTrims([]); }
    if task.Do? && task.action.TrimReviewer? {
      NestedTrims(Read(Trim(c, task.action.bot).0, s.candidates), t);
      TrimFacts(c, task.action.bot);
    } else {
      assert out.nested == [];
    }
  }

  function Loop(c: Core, todo: seq<Task>, failed: bool, t: Texts, s: Surroundings): (r: (Core, bool))
    requires Distinct(c.roster)
    ensures Distinct(r.0.roster)
    decreases Trims(todo), |todo|
  {
    if todo == [] then (c, failed)
    else
      var out := Turn(c, todo[0], failed, t, s);
      TurnFacts(c, todo[0], failed, t, s);
      TrimsAppend(out.nested, todo[1..]);
      Loop(out.core, out.nested + todo[1..], out.failed, t, s)
  }

  lemma {:induction false} LoopAppend(c: Core, a: seq<Task>, b: seq<Task>, failed: bool, t: Texts, s: Surroundings)
    requires Distinct(c.roster)
    ensures Loop(c, a + b, failed, t, s) == Loop(Loop(c, a, failed, t, s).0, b, Loop(c, a, failed, t, s).1, t, s)
    decreases Trims(a), |a|
  {
    hide Turn;
    if a == [] {
      assert a + b == b;
    } else {
      var out := Turn(c, a[0], failed, t, s);
      TurnFacts(c, a[0], failed, t, s);
      TrimsAppend(out.nested, a[1..]);
      assert (a + b)[0] == a[0] && out.nested + (a + b)[1..] == (out.nested + a[1..]) + b;
      LoopAppend(out.core, out.nested + a[1..], b, out.failed, t, s);
    }
  }

  lemma LoopStep(c: Core, todo: seq<Task>, failed: bool, t: Texts, s: Surroundings)
    requires Distinct(c.roster) && todo != []
    ensures var out := Turn(c, todo[0], failed, t, s);
            Distinct(out.core.roster) && Loop(c, todo, failed, t, s)
              == Loop(out.core, out.nested + todo[1..], out.failed, t, s)
            && (out.nested == [] ==> Loop(c, todo, failed, t, s) == Loop(out.core, todo[1..], out.failed, t, s))
  {
    TurnFacts(c, todo[0], failed, t, s);
    assert [] + todo[1..] == todo[1..];
    hide Turn;
  }

  lemma LoopEnd(c: Core, failed: bool, t: Texts, s: Surroundings)
    requires Distinct(c.roster)
    ensures Loop(c, [], failed, t, s) == (c, failed)
  {
  }

  /** The action loop as the source writes it: one pass over the actions, a nested call for a trim. */
  method RunActions(c: Core, actions: seq<Action>, snap: Snapshot, explicit: bool, t: Texts, s: Surroundings)
      returns (r: Core)
    requires Distinct(c.roster)
    ensures Distinct(r.roster)
    ensures r == Loop(c, Tasks(actions, snap, explicit), false, t, s).0
    decreases Trims(Tasks(actions, snap, explicit))
  {
    hide Loop, Read, QuorumActions, Keep;
    r := c;
    var failed := false;
    ghost var todo := Tasks(actions, snap, explicit);
    assert todo[0..] == todo;
    for i := 0 to |actions|
      invariant Distinct(r.roster)
      invariant Trims(todo[i..]) <= Trims(todo)
      invariant Loop(c, todo, false, t, s) == Loop(r, todo[i..], failed, t, s)
    {
      var task := Do(actions[i], snap, explicit);
      assert todo[i..][0] == task && todo[i..][1..] == todo[i + 1..];
      LoopStep(r, todo[i..], failed, t, s);
      match actions[i] {
        case Relay(_, _) =>
          failed := false;
        case Prompt(to, content) =>
          if !failed { r := Logged(r, Prompted(to, content)); }
        case ReassignChair(to) =>
          failed := false;
          r := r.(roster := Admit(r.roster, to), row := r.row.(chair := Some(to)));
        case TrimReviewer(bot) =>
          var trimmed, again := Trim(r, bot).0, Trim(r, bot).1;
          TrimFacts(r, bot);
          if CanReplace(r, bot, s.spare(bot)) {
            r := Replaced(r, bot, s.spare(bot).value);
          } else if again {
            var reread := Read(trimmed, s.candidates);
            var nested := Tasks(QuorumActions(reread, t, false), reread, false);
            NestedReturns(trimmed, nested, todo[i + 1..], t, s);
            NestedTrims(reread, t);
            r := RunActions(trimmed, QuorumActions(reread, t, false), reread, false, t, s);
          } else {
            r := trimmed;
          }
          failed := false;
        case Transition(source, target) =>
          failed := r.row.phase != source;
          if !failed { r := Logged(r.(row := r.row.(phase := target)), Entered(snap, explicit)); }
        case Close(source, author, verdict) =>
          failed := false;
          if r.row.phase == source {
            r := Logged(r.(row := r.row.(phase := Closed)), PolicyClosed(snap, explicit, author, verdict));
          }
      }
    }
    LoopEnd(r, failed, t, s);
  }

  lemma NestedReturns(c: Core, nested: seq<Task>, rest: seq<Task>, t: Texts, s: Surroundings)
    requires Distinct(c.roster)
    ensures Loop(c, nested + [Return] + rest, false, t, s) == Loop(Loop(c, nested, false, t, s).0, rest, false, t, s)
  {
    var done := Loop(c, nested, false, t, s);
    assert nested + [Return] + rest == nested + ([Return] + rest);
    LoopAppend(c, nested, [Return] + rest, false, t, s);
    assert ([Return] + rest)[0] == Return && [] + ([Return] + rest)[1..] == rest;
    LoopStep(done.0, [Return] + rest, done.1, t, s);
    hide Loop;
  }

  // ---- the parts of one done-signal, in closed form ----

  /** The quorum part: entered with its prompt, or the flag set and nothing else. */
  lemma QuorumPart(c: Core, cx: Snapshot, explicit: bool, failed: bool, t: Texts, s: Surroundings)
    requires Distinct(c.roster)
    ensures Loop(c, Tasks(QuorumActions(cx, t, explicit), cx, explicit), failed, t, s)
            == if !QuorumSeen(cx, t, explicit) then (c, failed)
               else if c.row.phase != Deliberating then (c, true)
               else (QuorumEntry(c, cx, explicit), false)
  {
    var todo := Tasks(QuorumActions(cx, t, explicit), cx, explicit);
    hide Loop, QuorumSeen;
    if QuorumSeen(cx, t, explicit) {
      LoopStep(c, todo, failed, t, s);
      var out := Turn(c, todo[0], failed, t, s);
      if cx.chair.Some? {
        LoopStep(out.core, todo[1..], out.failed, t, s);
        var last := Turn(out.core, todo[1], out.failed, t, s);
        assert todo[1..][1..] == [];
        LoopEnd(last.core, last.failed, t, s);
      } else {
        assert todo[1..] == [];
        LoopEnd(out.core, out.failed, t, s);
      }
    } else {
      assert todo == [];
      LoopEnd(c, failed, t, s);
    }
  }

  function QuorumEntry(c: Core, cx: Snapshot, explicit: bool): Core {
    var entered := Logged(c.(row := c.row.(phase := Quorum)), Entered(cx, explicit));
    if cx.chair.Some? then Logged(entered, Prompted(cx.chair.value, QuorumPrompt)) else entered
  }

  lemma {:induction false} RelayPart(c: Core, todo: seq<Task>, failed: bool, t: Texts, s: Surroundings)
    requires Distinct(c.roster) && forall k :: 0 <= k < |todo| ==> todo[k].Do? && todo[k].action.Relay?
    ensures Loop(c, todo, failed, t, s) == (c, todo == [] && failed)
  {
    hide Loop;
    if todo == [] {
      LoopEnd(c, failed, t, s);
    } else {
      LoopStep(c, todo, failed, t, s);
      RelayPart(c, todo[1..], false, t, s);
    }
  }

  function Handover(c: Core, next: Bot): Core {
    c.(roster := Admit(c.roster, next), row := c.row.(chair := Some(next)))
  }

  /** The requeue part: with another candidate the seat moves and the retry is always sent; without one
      the retry is sent only if no suppressed transition precedes it. */
  lemma RequeuePart(c: Core, cx: Snapshot, bot: Bot, explicit: bool, failed: bool, t: Texts, s: Surroundings)
    requires Distinct(c.roster)
    ensures var next, retry := NextChair(cx.candidates, bot), SynthesisRetry(cx.synthesisAttempts + 1);
            Loop(c, Tasks(RequeueActions(cx, bot), cx, explicit), failed, t, s)
            == if next != bot then (Logged(Handover(c, next), Prompted(next, retry)), false)
               else if failed then (c, true)
               else (Logged(c, Prompted(bot, retry)), false)
  {
    var next, retry := NextChair(cx.candidates, bot), SynthesisRetry(cx.synthesisAttempts + 1);
    var prompt := [Do(Prompt(next, retry), cx, explicit)];
    var todo := Tasks(RequeueActions(cx, bot), cx, explicit);
    hide Loop, NextChair;
    if next == bot {
      assert todo == prompt;
      PromptPart(c, next, retry, cx, explicit, failed, t, s);
    } else {
      var relays := Tasks(Relays(cx.doneVoters, next, bot), cx, explicit);
      RelaysExact(cx.doneVoters, next, bot);
      hide Relays;
      assert forall k :: 0 <= k < |relays| ==> relays[k].action in Relays(cx.doneVoters, next, bot);
      assert todo[0] == Do(ReassignChair(next), cx, explicit) && todo[1..] == relays + prompt;
      LoopStep(c, todo, failed, t, s);
      LoopAppend(Handover(c, next), relays, prompt, false, t, s);
      RelayPart(Handover(c, next), relays, false, t, s);
      PromptPart(Handover(c, next), next, retry, cx, explicit, false, t, s);
    }
  }

  lemma PromptPart(c: Core, to: Bot, content: Content, cx: Snapshot, explicit: bool, failed: bool, t: Texts,
                   s: Surroundings)
    requires Distinct(c.roster)
    ensures Loop(c, [Do(Prompt(to, content), cx, explicit)], failed, t, s)
            == if failed then (c, true) else (Logged(c, Prompted(to, content)), false)
  {
    hide Loop;
    var todo := [Do(Prompt(to, content), cx, explicit)];
    LoopStep(c, todo, failed, t, s);
    var out := Turn(c, todo[0], failed, t, s);
    assert todo[1..] == [];
    LoopEnd(out.core, out.failed, t, s);
  }

  lemma ClosePart(c: Core, cx: Snapshot, bot: Bot, explicit: bool, failed: bool, t: Texts, s: Surroundings)
    requires Distinct(c.roster)
    ensures Loop(c, [Do(Close(Quorum, bot, FinalText(cx, bot)), cx, explicit)], failed, t, s).0
            == if c.row.phase != Quorum then c
               else Logged(c.(row := c.row.(phase := Closed)), PolicyClosed(cx, explicit, bot, FinalText(cx, bot)))
  {
    hide Loop;
    var todo := [Do(Close(Quorum, bot, FinalText(cx, bot)), cx, explicit)];
    LoopStep(c, todo, failed, t, s);
    var out := Turn(c, todo[0], failed, t, s);
    assert todo[1..] == [];
    LoopEnd(out.core, out.failed, t, s);
  }

  function HandleDone(c: Core, t: Texts, bot: Bot, explicit: bool, s: Surroundings): Core
    requires Distinct(c.roster)
  {
    var cx := Read(c, s.candidates);
    Loop(c, Tasks(CouncilActions(cx, t, bot, explicit, Rerequests(c.log, bot)), cx, explicit), false, t, s).0
  }

  // ---- the chair's own done ----

  lemma TasksAppend(a: seq<Action>, b: seq<Action>, cx: Snapshot, explicit: bool)
    ensures Tasks(a + b, cx, explicit) == Tasks(a, cx, explicit) + Tasks(b, cx, explicit)
  {
  }

  lemma ChairTasks(cx: Snapshot, t: Texts, bot: Bot, explicit: bool, rerequests: int)
    requires cx.chair == Some(bot)
    ensures CouncilActions(cx, t, bot, explicit, rerequests) == QuorumActions(cx, t, explicit)
            + ChairPart(cx, t, bot, explicit)
  {
    hide QuorumActions, ChairPart;
  }

  /** What the action list of a chair's done in Quorum does, in closed form. */
  lemma ChairLoop(c: Core, cx: Snapshot, t: Texts, bot: Bot, explicit: bool, rerequests: int, s: Surroundings)
    requires Distinct(c.roster) && c.row.phase == Quorum && cx.chair == Some(bot) && cx.phase == Quorum
    ensures var next, retry := NextChair(cx.candidates, bot), SynthesisRetry(cx.synthesisAttempts + 1);
            Loop(c, Tasks(CouncilActions(cx, t, bot, explicit, rerequests), cx, explicit), false, t, s).0
            == if !Requeues(cx, t, bot, explicit) then
                 Logged(c.(row := c.row.(phase := Closed)), PolicyClosed(cx, explicit, bot, FinalText(cx, bot)))
               else if next != bot then Logged(Handover(c, next), Prompted(next, retry))
               else if QuorumSeen(cx, t, explicit) then c
               else Logged(c, Prompted(bot, retry))
  {
    hide Loop, QuorumActions, QuorumSeen, CouncilActions, Requeues, RequeueActions, FinalText, NextChair, Tasks;
    var q, p := QuorumActions(cx, t, explicit), ChairPart(cx, t, bot, explicit);
    ChairTasks(cx, t, bot, explicit, rerequests);
    TasksAppend(q, p, cx, explicit);
    LoopAppend(c, Tasks(q, cx, explicit), Tasks(p, cx, explicit), false, t, s);
    QuorumPart(c, cx, explicit, false, t, s);
    var failed := QuorumSeen(cx, t, explicit);
    if Requeues(cx, t, bot, explicit) {
      RequeuePart(c, cx, bot, explicit, failed, t, s);
    } else {
      assert Tasks(p, cx, explicit) == [Do(Close(Quorum, bot, FinalText(cx, bot)), cx, explicit)];
      ClosePart(c, cx, bot, explicit, failed, t, s);
    }
  }

  /** A requeue spends one synthesis attempt exactly when the seat can move to another candidate or the
      quorum no longer holds. Otherwise the suppressed transition swallows the retry prompt as well, and
      the failed turn leaves no trace: the session is exactly as it was. */
  lemma RequeueSpends(c: Core, t: Texts, bot: Bot, explicit: bool, s: Surroundings)
    requires Distinct(c.roster) && Requeues(Read(c, s.candidates), t, bot, explicit)
    ensures var cx := Read(c, s.candidates); var d := HandleDone(c, t, bot, explicit, s);
            if NextChair(s.candidates, bot) != bot || !QuorumSeen(cx, t, explicit)
            then SynthesisPrompts(d.log) == SynthesisPrompts(c.log) + 1
                 && d.row.chair == Some(NextChair(s.candidates, bot))
                 && d.log == c.log + [Prompted(NextChair(s.candidates, bot),
                                               SynthesisRetry(SynthesisPrompts(c.log) + 1))]
            else d == c
  {
    hide Loop, QuorumSeen, NextChair, CouncilActions, CountEvents, Requeues, Read, Rerequests, Tasks;
    var cx := Read(c, s.candidates);
    var retry := Prompted(NextChair(s.candidates, bot), SynthesisRetry(SynthesisPrompts(c.log) + 1));
    RequeueReads(c, t, bot, explicit, s);
    ChairLoop(c, cx, t, bot, explicit, Rerequests(c.log, bot), s);
    CountGrows(c.log, retry, IsSynthesisPrompt());
  }

  lemma RequeueReads(c: Core, t: Texts, bot: Bot, explicit: bool, s: Surroundings)
    requires Requeues(Read(c, s.candidates), t, bot, explicit)
    ensures var cx := Read(c, s.candidates);
            && cx.phase == Quorum == c.row.phase && cx.chair == Some(bot) == c.row.chair
            && cx.candidates == s.candidates && cx.synthesisAttempts == SynthesisPrompts(c.log)
  {
  }

  // ---- a reviewer's done ----

  /** No policy close, no re-request, and at most one synthesis prompt, spent on leaving Deliberating. */
  ghost predicate Grows(c: Core, d: Core) {
    && Distinct(d.roster) && c.log <= d.log && d.triggerRef == c.triggerRef
    && (forall i :: |c.log| <= i < |d.log| ==> !d.log[i].PolicyClosed?)
    && SynthesisPrompts(d.log) <= SynthesisPrompts(c.log)
       + (if c.row.phase == Deliberating && d.row.phase != Deliberating then 1 else 0)
    && (c.row.phase !in {Open, Deliberating} ==> d.row.phase !in {Open, Deliberating})
    && (c.row.phase == Open ==> d.row.phase != Deliberating)
    && (c.row.phase == Deliberating ==> d.row.phase != Open)
    && (forall b :: Rerequests(d.log, b) == Rerequests(c.log, b))
  }

  lemma GrowsBy(c: Core, d: Core, e: Event)
    requires d.log == c.log + [e] && Distinct(d.roster) && d.triggerRef == c.triggerRef
    requires e.Entered? || e.ForceClosed?
    requires e.Entered? ==> c.row.phase == Deliberating && d.row.phase == Quorum
    requires e.ForceClosed? ==> d.row.phase == Closed
    ensures Grows(c, d)
  {
    CountGrows(c.log, e, IsSynthesisPrompt());
    forall b ensures Rerequests(d.log, b) == Rerequests(c.log, b) { CountGrows(c.log, e, IsRerequestTo(b)); }
  }

  lemma GrowsChain(a: Core, b: Core, c: Core)
    requires Grows(a, b) && Grows(b, c)
    ensures Grows(a, c)
  {
    hide CountEvents;
    assert a.log <= b.log <= c.log;
  }

  lemma EntryGrows(c: Core, cx: Snapshot, explicit: bool)
    requires Distinct(c.roster) && c.row.phase == Deliberating
    ensures Grows(c, QuorumEntry(c, cx, explicit))
  {
    var entered := Logged(c.(row := c.row.(phase := Quorum)), Entered(cx, explicit));
    GrowsBy(c, entered, Entered(cx, explicit));
    if cx.chair.Some? {
      var prompt := Prompted(cx.chair.value, QuorumPrompt);
      CountGrows(c.log, Entered(cx, explicit), IsSynthesisPrompt());
      CountGrows(entered.log, prompt, IsSynthesisPrompt());
      forall b ensures Rerequests(entered.log + [prompt], b) == Rerequests(c.log, b) {
        CountGrows(entered.log, prompt, IsRerequestTo(b));
      }
      hide CountEvents;
    }
  }

  lemma QuorumPartGrows(c: Core, cx: Snapshot, explicit: bool, failed: bool, t: Texts, s: Surroundings)
    requires Distinct(c.roster)
    ensures Grows(c, Loop(c, Tasks(QuorumActions(cx, t, explicit), cx, explicit), failed, t, s).0)
  {
    QuorumPart(c, cx, explicit, failed, t, s);
    hide Loop, QuorumActions, QuorumSeen, QuorumEntry;
    if c.row.phase == Deliberating {
      EntryGrows(c, cx, explicit);
    }
  }

  lemma TrimTurn(c: Core, bot: Bot, cx: Snapshot, explicit: bool, t: Texts, s: Surroundings)
    requires Distinct(c.roster)
    ensures var out, trimmed := Turn(c, Do(TrimReviewer(bot), cx, explicit), false, t, s), Trim(c, bot).0;
            var reread := Read(trimmed, s.candidates);
            && !out.failed && Grows(c, out.core)
            && (out.nested != [] ==> out.core == trimmed
                                     && out.nested == Tasks(QuorumActions(reread, t, false), reread, false) + [Return])
  {
    hide Trim, Read, QuorumActions, Tasks, CountEvents;
    TrimFacts(c, bot);
    var trimmed := Trim(c, bot).0;
    assert Grows(c, trimmed) by {
      if trimmed.log != c.log { GrowsBy(c, trimmed, ForceClosed); }
    }
  }

  /** A trim, with whatever it starts, run to its end. */
  lemma TrimPart(c: Core, bot: Bot, cx: Snapshot, explicit: bool, t: Texts, s: Surroundings)
    requires Distinct(c.roster)
    ensures Grows(c, Loop(c, [Do(TrimReviewer(bot), cx, explicit)], false, t, s).0)
    ensures !Loop(c, [Do(TrimReviewer(bot), cx, explicit)], false, t, s).1
  {
    hide Loop, Read, QuorumActions, Trim, Tasks, Turn, Grows;
    var task := Do(TrimReviewer(bot), cx, explicit);
    var out := Turn(c, task, false, t, s);
    LoopStep(c, [task], false, t, s);
    TrimTurn(c, bot, cx, explicit, t, s);
    assert [task][1..] == [];
    if out.nested == [] {
      LoopEnd(out.core, false, t, s);
    } else {
      var reread := Read(out.core, s.candidates);
      var nested := Tasks(QuorumActions(reread, t, false), reread, false);
      assert out.nested + [task][1..] == nested + [Return] + [];
      NestedReturns(out.core, nested, [], t, s);
      QuorumPartGrows(out.core, reread, false, false, t, s);
      var last := Loop(out.core, nested, false, t, s).0;
      LoopEnd(last, false, t, s);
      GrowsChain(c, out.core, last);
    }
  }

  function Rerequested(c: Core, bot: Bot): Core {
    Logged(c, Prompted(bot, ReportRerequest(Rerequests(c.log, bot) + 1)))
  }

  predicate AsksAgain(c: Core, cx: Snapshot, t: Texts, bot: Bot, explicit: bool) {
    && cx.chair != Some(bot) && VerdictContract(cx, explicit) && !ReportDelivered(cx, t, bot)
    && Rerequests(c.log, bot) < MAX_REVIEWER_REREQUESTS
  }

  lemma ReviewerLoop(c: Core, cx: Snapshot, t: Texts, bot: Bot, explicit: bool, s: Surroundings)
    requires Distinct(c.roster)
    ensures var d := Loop(c, Tasks(ReviewerPart(cx, t, bot, explicit, Rerequests(c.log, bot)), cx, explicit), false, t,
                          s).0;
            if AsksAgain(c, cx, t, bot, explicit) then d == Rerequested(c, bot) else Grows(c, d)
  {
    hide Loop, ReportDelivered, CountEvents;
    var part := ReviewerPart(cx, t, bot, explicit, Rerequests(c.log, bot));
    var todo := Tasks(part, cx, explicit);
    if part == [] {
      assert todo == [];
      LoopEnd(c, false, t, s);
    } else if part[0].Relay? {
      RelayPart(c, todo, false, t, s);
    } else if part[0].Prompt? {
      assert todo == [Do(Prompt(bot, ReportRerequest(Rerequests(c.log, bot) + 1)), cx, explicit)];
      PromptPart(c, bot, ReportRerequest(Rerequests(c.log, bot) + 1), cx, explicit, false, t, s);
    } else {
      assert todo == [Do(TrimReviewer(bot), cx, explicit)];
      TrimPart(c, bot, cx, explicit, t, s);
    }
  }

  /** Every done-signal except the chair's in Quorum: at most one re-request, then quorum bookkeeping. */
  lemma OtherDone(c: Core, t: Texts, bot: Bot, explicit: bool, s: Surroundings)
    requires Distinct(c.roster) && !(c.row.chair == Some(bot) && c.row.phase == Quorum)
    ensures var d := HandleDone(c, t, bot, explicit, s);
            if AsksAgain(c, Read(c, s.candidates), t, bot, explicit) then Grows(Rerequested(c, bot), d) else Grows(c, d)
  {
    var cx := Read(c, s.candidates);
    var r, q := ReviewerPart(cx, t, bot, explicit, Rerequests(c.log, bot)), QuorumActions(cx, t, explicit);
    assert CouncilActions(cx, t, bot, explicit, Rerequests(c.log, bot)) == r + q;
    hide Loop, ReviewerPart, QuorumActions, CouncilActions, Tasks, Grows, AsksAgain, CountEvents, Read;
    TasksAppend(r, q, cx, explicit);
    LoopAppend(c, Tasks(r, cx, explicit), Tasks(q, cx, explicit), false, t, s);
    ReviewerLoop(c, cx, t, bot, explicit, s);
    var (mid, failed) := Loop(c, Tasks(r, cx, explicit), false, t, s);
    QuorumPartGrows(mid, cx, explicit, failed, t, s);
    if !AsksAgain(c, cx, t, bot, explicit) {
      GrowsChain(c, mid, HandleDone(c, t, bot, explicit, s));
    }
  }

  // ---- sequential runs ----

  /** The roster-change policy, run on its own. */
  function HandleRosterChange(c: Core, t: Texts, s: Surroundings): (r: Core)
    requires Distinct(c.roster)
    ensures Distinct(r.roster)
  {
    var cx := Read(c, s.candidates);
    Loop(c, Tasks(QuorumActions(cx, t, false), cx, false), false, t, s).0
  }

  /** What the liveness sweep does to an unreachable reviewer: a replacement, or a trim with all it starts. */
  function HandleTrim(c: Core, t: Texts, bot: Bot, s: Surroundings): (r: Core)
    requires Distinct(c.roster)
    ensures Distinct(r.roster)
  {
    Loop(c, [Do(TrimReviewer(bot), Read(c, s.candidates), false)], false, t, s).0
  }

  datatype SeqOp =
    | SBegin
    | SVote(bot: Bot)
    | SSay(bot: Bot, text: string)
    | SReseat(roster: seq<Bot>, chair: Option<Bot>, quorumN: int)
    | SForceClose
    | SDone(bot: Bot, explicit: bool, around: Surroundings)
    | SRosterChanged(around: Surroundings)
    | STrim(bot: Bot, around: Surroundings)

  function SeqStep(c: Core, t: Texts, op: SeqOp): Core
    requires Distinct(c.roster)
  {
    match op
    case SBegin => if c.row.phase == Open then c.(row := c.row.(phase := Deliberating)) else c
    case SVote(bot) => Logged(c, Voted(bot))
    case SSay(bot, text) => Logged(c, Said(bot, text))
    case SReseat(roster, chair, quorumN) =>
      if Distinct(roster) then c.(roster := roster, row := c.row.(chair := chair, quorumN := quorumN)) else c
    case SForceClose => Force(c)
    case SDone(bot, explicit, around) => HandleDone(c, t, bot, explicit, around)
    case SRosterChanged(around) => HandleRosterChange(c, t, around)
    case STrim(bot, around) => HandleTrim(c, t, bot, around)
  }

  function SeqRun(c: Core, t: Texts, ops: seq<SeqOp>): (r: Core)
    requires Distinct(c.roster)
    ensures Distinct(r.roster)
  {
    if ops == [] then c else SeqStep(SeqRun(c, t, ops[..|ops| - 1]), t, ops[|ops| - 1])
  }

  /** Under a verdict contract the log says so at the close itself: a clean verdict or a spent budget. */
  ghost predicate ClosesEarned(log: seq<Event>, t: Texts) {
    forall i :: 0 <= i < |log| && log[i].PolicyClosed? && VerdictContract(log[i].snap, log[i].explicit) ==>
      || (t.parseable(log[i].verdict) && !t.errored(log[i].verdict))
      || SynthesisPrompts(log[..i]) == MAX_SYNTHESIS_ATTEMPTS
  }

  ghost predicate WithinBudget(c: Core, t: Texts) {
    && Distinct(c.roster)
    && SynthesisPrompts(c.log) <= MAX_SYNTHESIS_ATTEMPTS
    && (c.row.phase in {Open, Deliberating} ==> SynthesisPrompts(c.log) == 0)
    && (forall b :: Rerequests(c.log, b) <= MAX_REVIEWER_REREQUESTS)
    && ClosesEarned(c.log, t)
  }

  lemma GrowsWithin(c: Core, d: Core, t: Texts)
    requires WithinBudget(c, t) && Grows(c, d)
    ensures WithinBudget(d, t)
  {
    hide CountEvents;
    forall i | 0 <= i < |d.log| && d.log[i].PolicyClosed? ensures d.log[i] == c.log[i] && d.log[..i] == c.log[..i] {
    }
  }

  lemma LogsWithin(c: Core, d: Core, e: Event, t: Texts)
    requires WithinBudget(c, t) && d.log == c.log + [e] && Distinct(d.roster)
    requires d.row.phase in {Open, Deliberating} ==> c.row.phase in {Open, Deliberating}
    requires IsSynthesisPrompt()(e) ==> d.row.phase !in {Open, Deliberating}
                                        && SynthesisPrompts(c.log) < MAX_SYNTHESIS_ATTEMPTS
    requires forall b :: IsRerequestTo(b)(e) ==> Rerequests(c.log, b) < MAX_REVIEWER_REREQUESTS
    requires e.PolicyClosed? && VerdictContract(e.snap, e.explicit) ==>
               || (t.parseable(e.verdict) && !t.errored(e.verdict))
               || SynthesisPrompts(c.log) == MAX_SYNTHESIS_ATTEMPTS
    ensures WithinBudget(d, t)
  {
    CountGrows(c.log, e, IsSynthesisPrompt());
    forall b ensures Rerequests(d.log, b) <= MAX_REVIEWER_REREQUESTS {
      CountGrows(c.log, e, IsRerequestTo(b));
      assert Rerequests(c.log, b) <= MAX_REVIEWER_REREQUESTS;
    }
    hide CountEvents;
    forall i | 0 <= i < |d.log| && d.log[i].PolicyClosed?
      ensures d.log[..i] == if i < |c.log| then c.log[..i] else c.log
    {
    }
  }

  lemma DoneWithin(c: Core, t: Texts, bot: Bot, explicit: bool, s: Surroundings)
    requires WithinBudget(c, t)
    ensures WithinBudget(HandleDone(c, t, bot, explicit, s), t)
  {
    var cx := Read(c, s.candidates);
    var d := HandleDone(c, t, bot, explicit, s);
    if c.row.chair == Some(bot) && c.row.phase == Quorum {
      ChairLoop(c, cx, t, bot, explicit, Rerequests(c.log, bot), s);
      var next := NextChair(cx.candidates, bot);
      hide Loop, QuorumSeen, CouncilActions, NextChair, CountEvents;
      if !Requeues(cx, t, bot, explicit) {
        LogsWithin(c, d, PolicyClosed(cx, explicit, bot, FinalText(cx, bot)), t);
      } else if d != c {
        LogsWithin(c, d, Prompted(next, SynthesisRetry(cx.synthesisAttempts + 1)), t);
      }
    } else {
      OtherDone(c, t, bot, explicit, s);
      hide HandleDone, Grows, CountEvents, WithinBudget;
      if AsksAgain(c, cx, t, bot, explicit) {
        RerequestWithin(c, t, bot);
        GrowsWithin(Rerequested(c, bot), d, t);
      } else {
        GrowsWithin(c, d, t);
      }
    }
  }

  lemma RerequestWithin(c: Core, t: Texts, bot: Bot)
    requires WithinBudget(c, t) && Rerequests(c.log, bot) < MAX_REVIEWER_REREQUESTS
    ensures WithinBudget(Rerequested(c, bot), t)
  {
    hide CountEvents;
    LogsWithin(c, Rerequested(c, bot), Prompted(bot, ReportRerequest(Rerequests(c.log, bot) + 1)), t);
  }

  lemma SeqStepWithin(c: Core, t: Texts, op: SeqOp)
    requires WithinBudget(c, t)
    ensures WithinBudget(SeqStep(c, t, op), t)
  {
    hide CountEvents, HandleDone, Loop, Read, QuorumActions, Tasks;
    match op
    case SVote(bot) => LogsWithin(c, Logged(c, Voted(bot)), Voted(bot), t);
    case SSay(bot, text) => LogsWithin(c, Logged(c, Said(bot, text)), Said(bot, text), t);
    case SForceClose => if c.row.phase !in {Closed, Aborted} { LogsWithin(c, Force(c), ForceClosed, t); }
    case SDone(bot, explicit, around) => DoneWithin(c, t, bot, explicit, around);
    case SRosterChanged(around) =>
      QuorumPartGrows(c, Read(c, around.candidates), false, false, t, around);
      GrowsWithin(c, HandleRosterChange(c, t, around), t);
    case STrim(bot, around) =>
      TrimPart(c, bot, Read(c, around.candidates), false, t, around);
      GrowsWithin(c, HandleTrim(c, t, bot, around), t);
    case SBegin =>
    case SReseat(_, _, _) =>
  }

  /** Done-signals, roster changes and liveness trims handled one at a time: at most MAX_SYNTHESIS_ATTEMPTS
      synthesis prompts in a session's life, at most MAX_REVIEWER_REREQUESTS re-requests to any reviewer, and every
      policy close earned. */
  lemma {:induction false} SessionBudget(t: Texts, roster: seq<Bot>, chair: Option<Bot>, quorumN: int,
                                         triggerRef: Option<string>, ops: seq<SeqOp>)
    requires Distinct(roster)
    ensures WithinBudget(SeqRun(Core(Row(Open, chair, quorumN), roster, triggerRef, []), t, ops), t)
  {
    if ops != [] {
      SessionBudget(t, roster, chair, quorumN, triggerRef, ops[..|ops| - 1]);
      SeqStepWithin(SeqRun(Core(Row(Open, chair, quorumN), roster, triggerRef, []), t, ops[..|ops| - 1]), t,
                    ops[|ops| - 1]);
    }
  }

  // ---- a synthesis that stalls ----

  /** A reviewer's done that completes the quorum: the final is relayed, Quorum entered, the chair prompted. */
  lemma ReviewerEnters(c: Core, t: Texts, bot: Bot, explicit: bool, s: Surroundings)
    requires Distinct(c.roster) && c.row.phase == Deliberating && c.row.chair.Some? && c.row.chair != Some(bot)
    requires var cx := Read(c, s.candidates);
             (VerdictContract(cx, explicit) ==> ReportDelivered(cx, t, bot)) && QuorumSeen(cx, t, explicit)
    ensures HandleDone(c, t, bot, explicit, s) == QuorumEntry(c, Read(c, s.candidates), explicit)
  {
    var cx := Read(c, s.candidates);
    var r, q := ReviewerPart(cx, t, bot, explicit, Rerequests(c.log, bot)), QuorumActions(cx, t, explicit);
    assert r == [Relay(bot, cx.chair.value)];
    assert CouncilActions(cx, t, bot, explicit, Rerequests(c.log, bot)) == r + q;
    hide Loop, ReviewerPart, QuorumActions, CouncilActions, QuorumSeen, CountEvents, QuorumEntry;
    TasksAppend(r, q, cx, explicit);
    LoopAppend(c, Tasks(r, cx, explicit), Tasks(q, cx, explicit), false, t, s);
    RelayPart(c, Tasks(r, cx, explicit), false, t, s);
    QuorumPart(c, cx, explicit, false, t, s);
  }

  function Opening(chair: Bot, reviewer: Bot): Core {
    Core(Row(Open, Some(chair), 1), [chair, reviewer], Some("controller:x"), [])
  }

  /** A council one reviewer strong: the reviewer reports and is done, and the chair's synthesis has no trailer. */
  function StallOps(chair: Bot, reviewer: Bot, s: Surroundings): seq<SeqOp> {
    ReportOps(reviewer) + [SDone(reviewer, false, s)] + [SSay(chair, "oops")]
  }

  function Reported(chair: Bot, reviewer: Bot): Core {
    Core(Row(Deliberating, Some(chair), 1), [chair, reviewer], Some("controller:x"),
         [] + [Said(reviewer, "report")] + [Voted(reviewer)])
  }

  function Stalled(chair: Bot, reviewer: Bot, s: Surroundings): Core {
    var c := Reported(chair, reviewer);
    var log := c.log + [Entered(Read(c, s.candidates), false)] + [Prompted(chair, QuorumPrompt)]
               + [Said(chair, "oops")];
    c.(row := c.row.(phase := Quorum), log := log)
  }

  lemma SeqMore(c: Core, t: Texts, ops: seq<SeqOp>, op: SeqOp)
    requires Distinct(c.roster)
    ensures SeqRun(c, t, ops + [op]) == SeqStep(SeqRun(c, t, ops), t, op)
  {
    assert (ops + [op])[..|ops|] == ops;
  }

  lemma SeqNone(c: Core, t: Texts)
    requires Distinct(c.roster)
    ensures SeqRun(c, t, []) == c
  {
  }

  lemma ReportedReads(chair: Bot, reviewer: Bot, s: Surroundings)
    ensures var cx := Read(Reported(chair, reviewer), s.candidates);
            cx.synthesisAttempts == 0 && cx.settled == map[reviewer := "report"] && reviewer in cx.doneVoters
  {
    var l1 := [] + [Said(reviewer, "report")];
    ReadGrows([], Said(reviewer, "report"));
    ReadGrows(l1, Voted(reviewer));
    assert Reported(chair, reviewer).log[1] == Voted(reviewer);
  }

  lemma StalledReads(chair: Bot, reviewer: Bot, s: Surroundings)
    ensures var cx := Read(Stalled(chair, reviewer, s), s.candidates);
            cx.synthesisAttempts == 1 && cx.settled == map[reviewer := "report", chair := "oops"]
            && reviewer in cx.doneVoters
  {
    ReportedReads(chair, reviewer, s);
    var c := Reported(chair, reviewer);
    var entered := Entered(Read(c, s.candidates), false);
    hide Read, LatestSettled, CountEvents;
    var l1 := c.log + [entered];
    var l2 := l1 + [Prompted(chair, QuorumPrompt)];
    ReadGrows(c.log, entered);
    ReadGrows(l1, Prompted(chair, QuorumPrompt));
    ReadGrows(l2, Said(chair, "oops"));
    ReadParts(c, s.candidates);
    ReadParts(Stalled(chair, reviewer, s), s.candidates);
    assert Stalled(chair, reviewer, s).log[1] == Voted(reviewer);
  }

  lemma ReadParts(c: Core, candidates: seq<Bot>)
    ensures var cx := Read(c, candidates);
            && cx.chair == c.row.chair && cx.synthesisAttempts == SynthesisPrompts(c.log)
               && cx.settled == LatestSettled(c.log)
            && forall b :: b in cx.doneVoters <==> Voted(b) in c.log
  {
  }

  function ReportOps(reviewer: Bot): seq<SeqOp> {
    [SBegin] + [SSay(reviewer, "report")] + [SVote(reviewer)]
  }

  lemma ReportIsReached(t: Texts, chair: Bot, reviewer: Bot)
    requires chair != reviewer
    ensures SeqRun(Opening(chair, reviewer), t, ReportOps(reviewer)) == Reported(chair, reviewer)
  {
    hide SeqRun, HandleDone, HandleTrim, HandleRosterChange;
    var c0 := Opening(chair, reviewer);
    SeqNone(c0, t);
    SeqMore(c0, t, [], SBegin);
    assert [] + [SBegin] == [SBegin];
    SeqMore(c0, t, [SBegin], SSay(reviewer, "report"));
    SeqMore(c0, t, [SBegin] + [SSay(reviewer, "report")], SVote(reviewer));
  }

  /** The session is reached by handling one signal after the other from its opening. */
  lemma StallIsReached(t: Texts, chair: Bot, reviewer: Bot, s: Surroundings)
    requires chair != reviewer && t.delivered("report")
    ensures SeqRun(Opening(chair, reviewer), t, StallOps(chair, reviewer, s)) == Stalled(chair, reviewer, s)
  {
    hide SeqRun, HandleDone, Read, HandleTrim, HandleRosterChange;
    var c0, ops := Opening(chair, reviewer), ReportOps(reviewer);
    ReportIsReached(t, chair, reviewer);
    SeqMore(c0, t, ops, SDone(reviewer, false, s));
    SeqMore(c0, t, ops + [SDone(reviewer, false, s)], SSay(chair, "oops"));
    EnterStall(t, chair, reviewer, s);
    ReadParts(Reported(chair, reviewer), s.candidates);
  }

  lemma EnterStall(t: Texts, chair: Bot, reviewer: Bot, s: Surroundings)
    requires chair != reviewer && t.delivered("report")
    ensures var c := Reported(chair, reviewer);
            HandleDone(c, t, reviewer, false, s) == QuorumEntry(c, Read(c, s.candidates), false)
  {
    var c := Reported(chair, reviewer);
    ReportedReads(chair, reviewer, s);
    SoleReviewerCounts(Read(c, s.candidates), t, chair, reviewer);
    hide QuorumSeen, HandleDone, CountEvents, LatestSettled, Voters;
    ReviewerEnters(c, t, reviewer, false, s);
  }

  /** With no other chair-capable bot the chair's done asks for a requeue and changes nothing, so the session stays
      as it is, however often the chair signals done, until the chair says something else. */
  lemma StalledSynthesis(t: Texts, chair: Bot, reviewer: Bot, s: Surroundings)
    requires chair != reviewer && t.delivered("report") && !t.parseable("oops")
    requires s.candidates == [chair]
    ensures Requeues(Read(Stalled(chair, reviewer, s), s.candidates), t, chair, false)
    ensures HandleDone(Stalled(chair, reviewer, s), t, chair, false, s) == Stalled(chair, reviewer, s)
  {
    var c := Stalled(chair, reviewer, s);
    var cx := Read(c, s.candidates);
    StalledReads(chair, reviewer, s);
    SoleReviewerCounts(cx, t, chair, reviewer);
    assert "controller:" <= "controller:x";
    hide QuorumSeen, CountEvents, LatestSettled, Voters, HandleDone;
    RequeueSpends(c, t, chair, false, s);
  }

  lemma {:induction false} StalledHoweverOften(t: Texts, chair: Bot, reviewer: Bot, s: Surroundings, dones: seq<SeqOp>)
    requires chair != reviewer && t.delivered("report") && !t.parseable("oops") && s.candidates == [chair]
    requires forall i :: 0 <= i < |dones| ==> dones[i] == SDone(chair, false, s)
    ensures SeqRun(Opening(chair, reviewer), t, StallOps(chair, reviewer, s) + dones) == Stalled(chair, reviewer, s)
  {
    hide SeqRun, HandleDone, HandleTrim, HandleRosterChange, StallOps, Stalled;
    var ops := StallOps(chair, reviewer, s);
    if dones == [] {
      assert ops + dones == ops;
      StallIsReached(t, chair, reviewer, s);
    } else {
      var front := dones[..|dones| - 1];
      StalledHoweverOften(t, chair, reviewer, s, front);
      assert ops + dones == (ops + front) + [SDone(chair, false, s)];
      SeqMore(Opening(chair, reviewer), t, ops + front, SDone(chair, false, s));
      StalledSynthesis(t, chair, reviewer, s);
    }
  }

  lemma ReadGrows(log: seq<Event>, e: Event)
    ensures SynthesisPrompts(log + [e]) == SynthesisPrompts(log) + (if IsSynthesisPrompt()(e) then 1 else 0)
    ensures LatestSettled(log + [e]) == if e.Said? then LatestSettled(log)[e.bot := e.text] else LatestSettled(log)
    ensures SynthesisPrompts([]) == 0 && LatestSettled([]) == map[]
  {
    CountGrows(log, e, IsSynthesisPrompt());
    assert (log + [e])[..|log|] == log;
  }

  lemma SoleReviewerCounts(cx: Snapshot, t: Texts, chair: Bot, reviewer: Bot)
    requires chair != reviewer && cx.chair == Some(chair) && cx.roster == [chair, reviewer] && cx.quorumN == 1
    requires reviewer in cx.doneVoters && ReportDelivered(cx, t, reviewer)
    ensures QuorumSeen(cx, t, false)
  {
    var counted := CountedDoneVoters(cx, t, false);
    assert HasReport(cx, t)(reviewer);
    assert CountedReviewers(cx.roster, cx.chair, counted) == {reviewer};
    QuorumCountsDistinctReviewers(cx.roster, cx.chair, counted, 1);
  }
}
