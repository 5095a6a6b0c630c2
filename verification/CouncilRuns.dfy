/** The executor of coordinator actions and its interleaved runs. Every policy call reads a snapshot
    whose parts may each be stale; the executor keeps compare-and-set guards. */
module CouncilRuns {
  import opened Collections
  import opened Session
  import opened Coordinator

  /** Everything observable about a session, in the order it happened. */
  datatype Event =
    | Voted(bot: Bot)
    | Said(bot: Bot, text: string)
    | Prompted(to: Bot, content: Content)
    | Entered(snap: Snapshot, explicit: bool)
    | PolicyClosed(snap: Snapshot, explicit: bool, author: Bot, verdict: string)
    | ForceClosed

  datatype Row = Row(phase: Phase, chair: Option<Bot>, quorumN: int)

  datatype Core = Core(row: Row, roster: seq<Bot>, triggerRef: Option<string>, log: seq<Event>)

  /** One pending action together with the snapshot it was decided from. `Return` ends the nested run
      a trim starts: the outer run continues with its own flag, which the trim had cleared. */
  datatype Task = Do(action: Action, snap: Snapshot, explicit: bool) | Return

  /** One call of the action loop: what is left of it, and its transition_failed flag. */
  datatype Thread = Thread(todo: seq<Task>, failed: bool)

  datatype World = World(core: Core, rows: set<Row>, rosters: set<seq<Bot>>, threads: seq<Thread>)

  function Tasks(actions: seq<Action>, snap: Snapshot, explicit: bool): (r: seq<Task>)
    ensures |r| == |actions| && forall i :: 0 <= i < |r| ==> r[i] == Do(actions[i], snap, explicit)
  {
    seq(|actions|, i requires 0 <= i < |actions| => Do(actions[i], snap, explicit))
  }

  // ---- one action ----

  function Logged(c: Core, e: Event): Core {
    c.(log := c.log + [e])
  }

  function Force(c: Core): Core {
    if c.row.phase in {Closed, Aborted} then c else Logged(c.(row := c.row.(phase := Closed)), ForceClosed)
  }

  function Admit(roster: seq<Bot>, bot: Bot): seq<Bot> {
    if bot in roster then roster else roster + [bot]
  }

  /** What removing a reviewer leaves, and whether the roster-change policy runs next: a controller
      session below its fixed minimum and an exhausted roster fail closed instead. */
  function Trim(c: Core, bot: Bot): (Core, bool) {
    if bot !in c.roster then (c, false)
    else
      var roster := Keep(c.roster, Other(bot));
      var left := |Reviewers(roster, c.row.chair)|;
      var trimmed := c.(roster := roster);
      if (ControllerOpened(c.triggerRef) && c.row.quorumN > 0 && left < c.row.quorumN) || left == 0 then
        (Force(trimmed), false)
      else
        (trimmed.(row := c.row.(quorumN := if c.row.quorumN < left then c.row.quorumN else left)), true)
  }

  predicate CanReplace(c: Core, outgoing: Bot, spare: Option<Bot>) {
    c.row.phase !in {Closed, Aborted} && outgoing in c.roster && spare.Some? && spare.value !in c.roster
  }

  function Substitute(roster: seq<Bot>, outgoing: Bot, spare: Bot): (r: seq<Bot>)
    requires Distinct(roster) && spare !in roster
    ensures Distinct(r)
  {
    seq(|roster|, i requires 0 <= i < |roster| => if roster[i] == outgoing then spare else roster[i])
  }

  /** A replacement takes the seat, and the chair with it if the outgoing bot held it. */
  function Replaced(c: Core, outgoing: Bot, spare: Bot): Core
    requires Distinct(c.roster) && spare !in c.roster
  {
    var chair := if c.row.chair == Some(outgoing) then Some(spare) else c.row.chair;
    c.(roster := Substitute(c.roster, outgoing, spare), row := c.row.(chair := chair))
  }

  datatype Effect = Effect(core: Core, failed: bool, nested: seq<Task>)

  /** One turn of the action loop. `spare` is the replacement a trim found, if any; `reread` is the
      snapshot the roster-change policy reads after a trim. */
  function Perform(c: Core, task: Task, failed: bool, t: Texts, spare: Option<Bot>, reread: Snapshot): Effect
    requires Distinct(c.roster)
  {
    match task
    case Return => Effect(c, false, [])
    case Do(action, snap, explicit) =>
      match action
      case Relay(_, _) => Effect(c, false, [])
      case Prompt(to, content) =>
        if failed then Effect(c, failed, []) else Effect(Logged(c, Prompted(to, content)), failed, [])
      case ReassignChair(to) => Effect(c.(roster := Admit(c.roster, to), row := c.row.(chair := Some(to))), false, [])
      case TrimReviewer(bot) =>
        if CanReplace(c, bot, spare) then Effect(Replaced(c, bot, spare.value), false, [])
        else
          var (trimmed, again) := Trim(c, bot);
          Effect(trimmed, false, if again then Tasks(QuorumActions(reread, t, false), reread, false) + [Return] else [])
      case Transition(source, target) =>
        if c.row.phase == source then
          Effect(Logged(c.(row := c.row.(phase := target)), Entered(snap, explicit)), false, [])
        else Effect(c, true, [])
      case Close(source, author, verdict) =>
        if c.row.phase == source then
          Effect(Logged(c.(row := c.row.(phase := Closed)), PolicyClosed(snap, explicit, author, verdict)), false, [])
        else Effect(c, false, [])
  }

  // ---- interleaved runs ----

  datatype Op =
    | Begin
    | Vote(bot: Bot)
    | Say(bot: Bot, text: string)
    | Done(snap: Snapshot, bot: Bot, explicit: bool, rerequests: int)
    | RosterChanged(snap: Snapshot)
    | Sweep(bot: Bot, snap: Snapshot)
    | Reseat(roster: seq<Bot>, chair: Option<Bot>, quorumN: int)
    | ForceClose
    | Exec(i: nat, spare: Option<Bot>, reread: Snapshot)
    | Abandon(i: nat)

  // ---- counting prompts ----

  function CountEvents(log: seq<Event>, kind: Event -> bool): (n: nat) {
    if log == [] then 0
    else CountEvents(log[..|log| - 1], kind) + (if kind(log[|log| - 1]) then 1 else 0)
  }

  /** System messages that start with the quorum-prompt prefix: the first prompt and every retry. */
  function IsSynthesisPrompt(): Event -> bool {
    (e: Event) => e.Prompted? && !e.content.ReportRerequest?
  }

  function SynthesisPrompts(log: seq<Event>): nat {
    CountEvents(log, IsSynthesisPrompt())
  }

  lemma CountGrows(log: seq<Event>, e: Event, kind: Event -> bool)
    ensures CountEvents(log + [e], kind) == CountEvents(log, kind) + (if kind(e) then 1 else 0)
  {
    assert (log + [e])[..|log|] == log;
  }

  /** Each part of a snapshot was true at some earlier moment, not necessarily the same one; a stale count of
      synthesis prompts is at most the present one. */
  ghost predicate Seen(w: World, s: Snapshot) {
    && Row(s.phase, s.chair, s.quorumN) in w.rows && s.roster in w.rosters
    && s.triggerRef == w.core.triggerRef
    && (forall b :: b in s.doneVoters ==> Voted(b) in w.core.log)
    && (forall b :: b in s.settled ==> Said(b, s.settled[b]) in w.core.log)
    && 0 <= s.synthesisAttempts <= SynthesisPrompts(w.core.log)
  }

  ghost function Update(w: World, core: Core, threads: seq<Thread>): World {
    World(core, w.rows + {core.row}, w.rosters + {core.roster}, threads)
  }

  function Start(actions: seq<Action>, snap: Snapshot, explicit: bool): Thread {
    Thread(Tasks(actions, snap, explicit), false)
  }

  /** One step of the session. An operation that is not possible changes nothing. */
  ghost function Step(w: World, t: Texts, op: Op): World {
    match op
    case Begin =>
      if w.core.row.phase == Open then Update(w, w.core.(row := w.core.row.(phase := Deliberating)), w.threads) else w
    case Vote(bot) => Update(w, Logged(w.core, Voted(bot)), w.threads)
    case Say(bot, text) => Update(w, Logged(w.core, Said(bot, text)), w.threads)
    case Done(snap, bot, explicit, rerequests) =>
      var start := Start(CouncilActions(snap, t, bot, explicit, rerequests), snap, explicit);
      if Seen(w, snap) then Update(w, w.core, w.threads + [start]) else w
    case RosterChanged(snap) =>
      if Seen(w, snap) then Update(w, w.core, w.threads + [Start(QuorumActions(snap, t, false), snap, false)]) else w
    case Sweep(bot, snap) =>
      if Seen(w, snap) then Update(w, w.core, w.threads + [Start([TrimReviewer(bot)], snap, false)]) else w
    case Reseat(roster, chair, quorumN) =>
      var row := w.core.row.(chair := chair, quorumN := quorumN);
      if Distinct(roster) then Update(w, w.core.(roster := roster, row := row), w.threads) else w
    case ForceClose => Update(w, Force(w.core), w.threads)
    case Exec(i, spare, reread) =>
      if i < |w.threads| && w.threads[i].todo != [] && Distinct(w.core.roster) then
        var th := w.threads[i];
        var e := Perform(w.core, th.todo[0], th.failed, t, spare, reread);
        var after := Update(w, e.core, w.threads[i := Thread(e.nested + th.todo[1..], e.failed)]);
        if e.nested != [] ==> Seen(after, reread) then after else w
      else w
    case Abandon(i) => if i < |w.threads| then Update(w, w.core, w.threads[i := Thread([], false)]) else w
  }

  ghost function Run(w: World, t: Texts, ops: seq<Op>): World {
    if ops == [] then w else Step(Run(w, t, ops[..|ops| - 1]), t, ops[|ops| - 1])
  }

  function Fresh(roster: seq<Bot>, chair: Option<Bot>, quorumN: int, triggerRef: Option<string>): World {
    var row := Row(Open, chair, quorumN);
    World(Core(row, roster, triggerRef, []), {row}, {roster}, [])
  }

  // ---- the safety theorem ----

  /** Enough distinct rostered non-chair members had voted, and under the contract had posted a
      delivered report, before position `i` of the log. */
  ghost predicate Justified(s: Snapshot, explicit: bool, t: Texts, past: seq<Event>) {
    var counted := CountedReviewers(s.roster, s.chair, CountedDoneVoters(s, t, explicit));
    && Distinct(s.roster)
    && |counted| >= s.quorumN
    && (forall b :: b in counted ==> Voted(b) in past)
    && (VerdictContract(s, explicit) ==>
          forall b :: b in counted ==> exists text :: Said(b, text) in past && t.delivered(text))
  }

  /** The policy's reason to close: the snapshot's chair, in Quorum, with a final that under a verdict contract
      parses without an error banner or stands for a spent synthesis budget. */
  ghost predicate Decided(s: Snapshot, explicit: bool, author: Bot, verdict: string, t: Texts) {
    && s.chair == Some(author) && s.phase == Quorum && verdict == FinalText(s, author)
    && (VerdictContract(s, explicit) ==>
          (t.parseable(verdict) && !t.errored(verdict)) || s.synthesisAttempts >= MAX_SYNTHESIS_ATTEMPTS)
  }

  /** The same judged by what happened: the author really said the verdict, or said nothing; and under a verdict
      contract it is a clean one, or the whole synthesis budget had really been prompted for. */
  ghost predicate CloseEarned(s: Snapshot, explicit: bool, author: Bot, verdict: string, t: Texts, past: seq<Event>) {
    && s.chair == Some(author) && s.phase == Quorum && (verdict == "" || Said(author, verdict) in past)
    && (VerdictContract(s, explicit) ==>
          (t.parseable(verdict) && !t.errored(verdict)) || SynthesisPrompts(past) >= MAX_SYNTHESIS_ATTEMPTS)
  }

  lemma SeenEarns(w: World, t: Texts, s: Snapshot, explicit: bool, author: Bot, verdict: string)
    requires Seen(w, s) && Decided(s, explicit, author, verdict, t)
    ensures CloseEarned(s, explicit, author, verdict, t, w.core.log)
  {
  }

  lemma EarnedGrows(s: Snapshot, explicit: bool, author: Bot, verdict: string, t: Texts, past: seq<Event>, e: Event)
    requires CloseEarned(s, explicit, author, verdict, t, past)
    ensures CloseEarned(s, explicit, author, verdict, t, past + [e])
  {
    CountGrows(past, e, IsSynthesisPrompt());
  }

  ghost predicate AtMostOne(log: seq<Event>, kind: Event -> bool) {
    forall i, j :: 0 <= i < |log| && 0 <= j < |log| && kind(log[i]) && kind(log[j]) ==> i == j
  }

  function IsEntry(): Event -> bool { (e: Event) => e.Entered? }
  function IsClose(): Event -> bool { (e: Event) => e.PolicyClosed? }
  function IsQuorumPrompt(): Event -> bool { (e: Event) => e.Prompted? && e.content == QuorumPrompt }

  ghost predicate EnteredBefore(log: seq<Event>, i: nat) {
    exists k :: 0 <= k < i && k < |log| && log[k].Entered?
  }

  ghost predicate EnteredFor(log: seq<Event>, chair: Bot) {
    exists k :: 0 <= k < |log| && log[k].Entered? && log[k].snap.chair == Some(chair)
  }

  ghost predicate Safe(log: seq<Event>, t: Texts) {
    && AtMostOne(log, IsEntry()) && AtMostOne(log, IsClose()) && AtMostOne(log, IsQuorumPrompt())
    && (forall i :: 0 <= i < |log| && log[i].PolicyClosed? ==>
          EnteredBefore(log, i)
          && CloseEarned(log[i].snap, log[i].explicit, log[i].author, log[i].verdict, t, log[..i]))
    && (forall i :: 0 <= i < |log| && IsQuorumPrompt()(log[i]) ==> EnteredFor(log[..i], log[i].to))
    && (forall i :: 0 <= i < |log| && log[i].Entered? ==> Justified(log[i].snap, log[i].explicit, t, log[..i]))
  }

  // ---- the invariant behind it ----

  ghost predicate Armed(th: Thread) {
    th.todo != [] && th.todo[0].Do? && th.todo[0].action.Prompt? && th.todo[0].action.content == QuorumPrompt
    && !th.failed
  }

  ghost predicate IsQuorumTask(task: Task) {
    task.Do? && task.action.Prompt? && task.action.content == QuorumPrompt
  }

  ghost predicate TaskOk(task: Task, t: Texts, log: seq<Event>) {
    task.Do? ==>
      && (task.action.Transition? ==> task.action == Transition(Deliberating, Quorum)
                                      && Justified(task.snap, task.explicit, t, log))
      && (task.action.Close? ==>
            && task.action.source == Quorum
            && CloseEarned(task.snap, task.explicit, task.action.author, task.action.verdict, t, log))
      && (IsQuorumTask(task) ==> task.snap.chair == Some(task.action.to))
  }

  /** A quorum prompt always directly follows the transition decided from the same snapshot. */
  ghost predicate Paired(todo: seq<Task>) {
    forall k :: 0 < k < |todo| && IsQuorumTask(todo[k]) ==> FollowsTransition(todo, k)
  }

  ghost predicate FollowsTransition(todo: seq<Task>, k: nat)
    requires 0 < k < |todo|
  {
    todo[k - 1].Do? && todo[k - 1].action.Transition? && todo[k].Do? && todo[k - 1].snap == todo[k].snap
  }

  ghost predicate ThreadOk(th: Thread, t: Texts, log: seq<Event>) {
    Paired(th.todo) && forall k :: 0 <= k < |th.todo| ==> TaskOk(th.todo[k], t, log)
  }

  ghost predicate NoneOf(log: seq<Event>, kind: Event -> bool) {
    forall i :: 0 <= i < |log| ==> !kind(log[i])
  }

  ghost predicate PhaseOk(c: Core) {
    && (c.row.phase in {Open, Deliberating} ==> NoneOf(c.log, IsEntry()))
    && (c.row.phase == Quorum ==> EnteredBefore(c.log, |c.log|))
    && (c.row.phase != Closed ==> NoneOf(c.log, IsClose()))
  }

  ghost predicate ArmedOk(w: World) {
    && (forall i, j :: 0 <= i < |w.threads| && 0 <= j < |w.threads| && Armed(w.threads[i]) && Armed(w.threads[j]) ==>
          i == j)
    && (forall i :: 0 <= i < |w.threads| && Armed(w.threads[i]) ==>
          EnteredFor(w.core.log, w.threads[i].todo[0].action.to) && NoneOf(w.core.log, IsQuorumPrompt()))
    && (NoneOf(w.core.log, IsEntry()) ==> NoneOf(w.core.log, IsQuorumPrompt()))
  }

  ghost predicate Inv(w: World, t: Texts) {
    && Safe(w.core.log, t) && PhaseOk(w.core) && ArmedOk(w)
    && (forall r :: r in w.rosters ==> Distinct(r)) && w.core.roster in w.rosters
    && (forall i :: 0 <= i < |w.threads| ==> ThreadOk(w.threads[i], t, w.core.log))
  }

  // ---- how the log may grow ----

  lemma JustifiedGrows(s: Snapshot, explicit: bool, t: Texts, past: seq<Event>, e: Event)
    requires Justified(s, explicit, t, past)
    ensures Justified(s, explicit, t, past + [e])
  {
    if VerdictContract(s, explicit) {
      forall b | b in CountedReviewers(s.roster, s.chair, CountedDoneVoters(s, t, explicit))
        ensures exists text :: Said(b, text) in past + [e] && t.delivered(text)
      {
        var text :| Said(b, text) in past && t.delivered(text);
        assert Said(b, text) in past + [e];
      }
    }
  }

  lemma ThreadsGrow(threads: seq<Thread>, t: Texts, log: seq<Event>, e: Event)
    requires forall i :: 0 <= i < |threads| ==> ThreadOk(threads[i], t, log)
    ensures forall i :: 0 <= i < |threads| ==> ThreadOk(threads[i], t, log + [e])
  {
    forall i, k | 0 <= i < |threads| && 0 <= k < |threads[i].todo| ensures TaskOk(threads[i].todo[k], t, log + [e]) {
      var task := threads[i].todo[k];
      assert TaskOk(task, t, log);
      if task.Do? && task.action.Transition? {
        JustifiedGrows(task.snap, task.explicit, t, log, e);
      }
      if task.Do? && task.action.Close? {
        EarnedGrows(task.snap, task.explicit, task.action.author, task.action.verdict, t, log, e);
      }
    }
  }

  ghost predicate MayFollow(log: seq<Event>, e: Event, t: Texts) {
    && (e.Entered? ==> NoneOf(log, IsEntry()) && Justified(e.snap, e.explicit, t, log))
    && (e.PolicyClosed? ==> NoneOf(log, IsClose()) && EnteredBefore(log, |log|)
                            && CloseEarned(e.snap, e.explicit, e.author, e.verdict, t, log))
    && (IsQuorumPrompt()(e) ==> NoneOf(log, IsQuorumPrompt()) && EnteredFor(log, e.to))
  }

  lemma SafeGrows(log: seq<Event>, e: Event, t: Texts)
    requires Safe(log, t) && MayFollow(log, e, t)
    ensures Safe(log + [e], t)
  {
    hide Justified, CloseEarned;
    var longer := log + [e];
    assert longer[..|log|] == log;
    assert forall i :: 0 <= i < |log| ==> longer[..i] == log[..i];
    forall i | 0 <= i < |longer| && longer[i].PolicyClosed?
      ensures EnteredBefore(longer, i)
      ensures CloseEarned(longer[i].snap, longer[i].explicit, longer[i].author, longer[i].verdict, t, longer[..i])
    {
      if i < |log| {
        var k :| 0 <= k < i && k < |log| && log[k].Entered?;
        assert longer[k].Entered?;
      } else {
        var k :| 0 <= k < |log| && log[k].Entered?;
        assert longer[k].Entered?;
      }
    }
  }

  lemma FactsGrow(log: seq<Event>, e: Event)
    ensures EnteredBefore(log, |log|) || e.Entered? <==> EnteredBefore(log + [e], |log + [e]|)
    ensures forall b :: EnteredFor(log, b) ==> EnteredFor(log + [e], b)
    ensures e.Entered? && e.snap.chair.Some? ==> EnteredFor(log + [e], e.snap.chair.value)
    ensures forall kind :: NoneOf(log + [e], kind) <==> NoneOf(log, kind) && !kind(e)
  {
    var longer := log + [e];
    assert longer[|log|] == e;
    assert forall i :: 0 <= i < |log| ==> longer[i] == log[i];
    forall b | EnteredFor(log, b) ensures EnteredFor(longer, b) {
      var k :| 0 <= k < |log| && log[k].Entered? && log[k].snap.chair == Some(b);
      assert longer[k].Entered?;
    }
    if EnteredBefore(log, |log|) {
      var k :| 0 <= k < |log| && log[k].Entered?;
      assert longer[k].Entered?;
    }
    if EnteredBefore(longer, |longer|) && !e.Entered? {
      var k :| 0 <= k < |longer| && longer[k].Entered?;
      assert log[k].Entered?;
    }
    forall kind ensures NoneOf(longer, kind) <==> NoneOf(log, kind) && !kind(e) {
      if NoneOf(longer, kind) {
        forall i | 0 <= i < |log| ensures !kind(log[i]) { assert !kind(longer[i]); }
      }
    }
  }

  /** The phase changes an event stands for; without an event only the opening step moves the phase. */
  ghost predicate PhaseStep(p: Phase, q: Phase, e: Option<Event>) {
    if e.None? then q == p || (p == Open && q == Deliberating)
    else match e.value
      case Entered(_, _) => p == Deliberating && q == Quorum
      case PolicyClosed(_, _, _, _) => p == Quorum && q == Closed
      case ForceClosed => q == Closed
      case _ => q == p
  }

  function Appended(log: seq<Event>, e: Option<Event>): seq<Event> {
    if e.None? then log else log + [e.value]
  }

  /** Where an armed thread may come from: it was armed before, or the entry just made armed it. */
  ghost predicate ArmedFrom(before: seq<Thread>, after: seq<Thread>, e: Option<Event>, i: nat) {
    forall j :: 0 <= j < |after| && Armed(after[j]) ==>
      || (j < |before| && Armed(before[j]) && after[j].todo[0] == before[j].todo[0]
          && (e.Some? ==> !IsQuorumPrompt()(e.value)))
      || (j == i && e.Some? && e.value.Entered? && e.value.snap.chair == Some(after[j].todo[0].action.to))
  }

  lemma PhaseOkStep(c: Core, d: Core, e: Option<Event>)
    requires PhaseOk(c) && PhaseStep(c.row.phase, d.row.phase, e) && d.log == Appended(c.log, e)
    ensures PhaseOk(d)
    ensures e.Some? && e.value.Entered? ==> NoneOf(c.log, IsEntry())
    ensures e.Some? && e.value.PolicyClosed? ==> NoneOf(c.log, IsClose()) && EnteredBefore(c.log, |c.log|)
  {
    if e.Some? {
      FactsGrow(c.log, e.value);
    }
  }

  lemma ArmedOkStep(w: World, core: Core, threads: seq<Thread>, e: Option<Event>, i: nat)
    requires ArmedOk(w) && PhaseOk(w.core) && core.log == Appended(w.core.log, e)
    requires PhaseStep(w.core.row.phase, core.row.phase, e) && ArmedFrom(w.threads, threads, e, i)
    requires e.Some? && IsQuorumPrompt()(e.value) ==> EnteredFor(w.core.log, e.value.to)
    ensures ArmedOk(Update(w, core, threads))
  {
    hide PhaseOk;
    PhaseOkStep(w.core, core, e);
    if e.Some? {
      FactsGrow(w.core.log, e.value);
    }
  }

  /** One step rebuilt from its parts. */
  lemma Settle(w: World, t: Texts, core: Core, threads: seq<Thread>, e: Option<Event>, i: nat)
    requires Inv(w, t) && Distinct(core.roster) && core.log == Appended(w.core.log, e)
    requires PhaseStep(w.core.row.phase, core.row.phase, e) && ArmedFrom(w.threads, threads, e, i)
    requires e.Some? && e.value.Entered? ==> Justified(e.value.snap, e.value.explicit, t, w.core.log)
    requires e.Some? && e.value.PolicyClosed? ==>
               CloseEarned(e.value.snap, e.value.explicit, e.value.author, e.value.verdict, t, w.core.log)
    requires e.Some? && IsQuorumPrompt()(e.value) ==>
               NoneOf(w.core.log, IsQuorumPrompt()) && EnteredFor(w.core.log, e.value.to)
    requires forall j :: 0 <= j < |threads| ==> ThreadOk(threads[j], t, w.core.log)
    ensures Inv(Update(w, core, threads), t)
  {
    PhaseOkStep(w.core, core, e);
    ArmedOkStep(w, core, threads, e, i);
    hide ArmedOk, PhaseOk, Justified, ThreadOk;
    if e.Some? {
      SafeGrows(w.core.log, e.value, t);
      ThreadsGrow(threads, t, w.core.log, e.value);
    }
  }

  lemma SeenJustifies(w: World, t: Texts, s: Snapshot, explicit: bool)
    requires Seen(w, s) && QuorumSeen(s, t, explicit) && forall r :: r in w.rosters ==> Distinct(r)
    ensures Justified(s, explicit, t, w.core.log)
  {
    var done := CountedDoneVoters(s, t, explicit);
    QuorumCountsDistinctReviewers(s.roster, s.chair, done, s.quorumN);
    if VerdictContract(s, explicit) {
      forall b | b in CountedReviewers(s.roster, s.chair, done)
        ensures exists text :: Said(b, text) in w.core.log && t.delivered(text)
      {
        assert HasReport(s, t)(b);
        assert Said(b, s.settled[b]) in w.core.log && t.delivered(s.settled[b]);
      }
    }
  }

  /** The shape of every action list the policy emits. */
  ghost predicate Shaped(actions: seq<Action>, s: Snapshot, t: Texts, explicit: bool) {
    forall k :: 0 <= k < |actions| ==>
      && (actions[k].Transition? ==> actions[k] == Transition(Deliberating, Quorum) && QuorumSeen(s, t, explicit))
      && (actions[k].Close? ==> actions[k].source == Quorum
                                && Decided(s, explicit, actions[k].author, actions[k].verdict, t))
      && (actions[k].Prompt? && actions[k].content == QuorumPrompt ==> Licensed(actions, s, k))
  }

  ghost predicate Licensed(actions: seq<Action>, s: Snapshot, k: nat)
    requires k < |actions|
  {
    k > 0 && actions[k - 1] == Transition(Deliberating, Quorum) && actions[k].Prompt? && s.chair == Some(actions[k].to)
  }

  lemma QuorumShape(s: Snapshot, t: Texts, explicit: bool)
    ensures Shaped(QuorumActions(s, t, explicit), s, t, explicit)
  {
  }

  lemma CouncilShape(s: Snapshot, t: Texts, bot: Bot, explicit: bool, rerequests: int)
    ensures Shaped(CouncilActions(s, t, bot, explicit, rerequests), s, t, explicit)
  {
    var r, q, c := ReviewerPart(s, t, bot, explicit, rerequests), QuorumActions(s, t, explicit),
                   ChairPart(s, t, bot, explicit);
    QuorumShape(s, t, explicit);
    RelaysExact(s.doneVoters, NextChair(s.candidates, bot), bot);
    hide QuorumActions, NextChair, Relays, QuorumSeen, ReportDelivered, Shaped;
    Plain(r, q, c, s, t, explicit);
  }

  /** Framing a shaped list with actions that neither transition nor prompt for quorum. */
  lemma Plain(r: seq<Action>, q: seq<Action>, c: seq<Action>, s: Snapshot, t: Texts, explicit: bool)
    requires Shaped(q, s, t, explicit)
    requires forall a :: a in r + c ==>
               && !a.Transition? && (a.Prompt? ==> a.content != QuorumPrompt)
               && (a.Close? ==> a.source == Quorum && Decided(s, explicit, a.author, a.verdict, t))
    ensures Shaped(r + q + c, s, t, explicit)
  {
    var all := r + q + c;
    forall k | 0 <= k < |all| ensures
      && (all[k].Transition? ==> all[k] == Transition(Deliberating, Quorum) && QuorumSeen(s, t, explicit))
      && (all[k].Close? ==> all[k].source == Quorum && Decided(s, explicit, all[k].author, all[k].verdict, t))
      && (all[k].Prompt? && all[k].content == QuorumPrompt ==> Licensed(all, s, k))
    {
      if k < |r| {
        assert all[k] in r + c;
      } else if k < |r| + |q| {
        assert all[k] == q[k - |r|] && (k > |r| ==> all[k - 1] == q[k - |r| - 1]);
      } else {
        assert all[k] in r + c;
      }
    }
  }

  lemma StartOk(w: World, t: Texts, actions: seq<Action>, s: Snapshot, explicit: bool)
    requires Seen(w, s) && (forall r :: r in w.rosters ==> Distinct(r))
    requires Shaped(actions, s, t, explicit)
    ensures ThreadOk(Start(actions, s, explicit), t, w.core.log)
    ensures !Armed(Start(actions, s, explicit))
  {
    if QuorumSeen(s, t, explicit) {
      SeenJustifies(w, t, s, explicit);
    }
    forall k | 0 <= k < |actions| && actions[k].Close?
      ensures CloseEarned(s, explicit, actions[k].author, actions[k].verdict, t, w.core.log)
    {
      SeenEarns(w, t, s, explicit, actions[k].author, actions[k].verdict);
    }
    hide Seen, Justified, QuorumSeen, CloseEarned, Decided;
    var th := Start(actions, s, explicit);
    assert forall k :: 0 <= k < |actions| ==> th.todo[k].action == actions[k];
    assert Paired(th.todo) by {
      forall k | 0 < k < |th.todo| && IsQuorumTask(th.todo[k]) ensures FollowsTransition(th.todo, k) {
        assert actions[k].Prompt? && Licensed(actions, s, k);
      }
    }
  }

  /** Over every interleaving of done-signals, roster changes, crashes and forced closes, with stale
      snapshots: one quorum entry, one chair prompt for it, one policy close, each justified. */
  lemma CouncilSafety(t: Texts, roster: seq<Bot>, chair: Option<Bot>, quorumN: int, triggerRef: Option<string>,
                      ops: seq<Op>)
    requires Distinct(roster)
    ensures Safe(Run(Fresh(roster, chair, quorumN, triggerRef), t, ops).core.log, t)
  {
    RunKeepsInv(t, roster, chair, quorumN, triggerRef, ops);
  }

  lemma {:induction false} RunKeepsInv(t: Texts, roster: seq<Bot>, chair: Option<Bot>, quorumN: int,
                                       triggerRef: Option<string>, ops: seq<Op>)
    requires Distinct(roster)
    ensures Inv(Run(Fresh(roster, chair, quorumN, triggerRef), t, ops), t)
  {
    if ops != [] {
      RunKeepsInv(t, roster, chair, quorumN, triggerRef, ops[..|ops| - 1]);
      StepKeepsInv(Run(Fresh(roster, chair, quorumN, triggerRef), t, ops[..|ops| - 1]), t, ops[|ops| - 1]);
    }
  }

  /** Running the head of a thread leaves a well formed tail; nested work goes in front of it. */
  lemma TailOk(th: Thread, t: Texts, log: seq<Event>, nested: seq<Task>, failed: bool)
    requires th.todo != [] && ThreadOk(th, t, log)
    requires nested != [] ==> th.todo[0].Do? && th.todo[0].action.TrimReviewer? && nested[|nested| - 1] == Return
    requires ThreadOk(Thread(nested, false), t, log) && !Armed(Thread(nested, false))
    ensures ThreadOk(Thread(nested + th.todo[1..], failed), t, log)
    ensures Armed(Thread(nested + th.todo[1..], failed)) ==>
              nested == [] && FollowsTransition(th.todo, 1) && TaskOk(th.todo[1], t, log)
  {
    hide Justified;
    var todo := nested + th.todo[1..];
    forall k | 0 <= k < |todo|
      ensures TaskOk(todo[k], t, log) && (k > 0 && IsQuorumTask(todo[k]) ==> FollowsTransition(todo, k))
    {
      if k < |nested| {
        assert todo[k] == nested[k];
      } else {
        assert todo[k] == th.todo[k - |nested| + 1];
        if IsQuorumTask(todo[k]) {
          assert FollowsTransition(th.todo, k - |nested| + 1);
        }
      }
    }
    assert nested != [] ==> todo[0] == nested[0];
    assert nested == [] && todo != [] ==> todo[0] == th.todo[1];
  }

  lemma IdleOk(t: Texts, log: seq<Event>)
    ensures ThreadOk(Thread([], false), t, log)
  {
  }

  lemma ReturnOk(th: Thread, t: Texts, log: seq<Event>)
    requires ThreadOk(th, t, log)
    ensures ThreadOk(Thread(th.todo + [Return], th.failed), t, log)
  {
    hide Justified;
    var todo := th.todo + [Return];
    forall k | 0 <= k < |todo|
      ensures TaskOk(todo[k], t, log) && (k > 0 && IsQuorumTask(todo[k]) ==> FollowsTransition(todo, k))
    {
      if k < |th.todo| && k > 0 && IsQuorumTask(todo[k]) {
        assert FollowsTransition(th.todo, k);
      }
    }
  }

  ghost function EventOf(before: Core, after: Core): Option<Event> {
    if |after.log| <= |before.log| then None else Some(after.log[|before.log|])
  }

  /** What one turn of the loop does, whatever the action: at most one event, a matching phase change,
      nested work only after a trim. */
  lemma PerformFacts(c: Core, task: Task, failed: bool, t: Texts, spare: Option<Bot>, reread: Snapshot)
    requires Distinct(c.roster)
    requires task.Do? && task.action.Transition? ==> task.action == Transition(Deliberating, Quorum)
    requires task.Do? && task.action.Close? ==> task.action.source == Quorum
    ensures var out, e := Perform(c, task, failed, t, spare, reread),
            EventOf(c, Perform(c, task, failed, t, spare, reread).core);
            && Distinct(out.core.roster) && out.core.log == Appended(c.log, e)
               && PhaseStep(c.row.phase, out.core.row.phase, e)
            && (e.Some? && e.value.Entered? ==>
                  task.Do? && task.action.Transition? && e.value == Entered(task.snap, task.explicit))
            && (e.Some? && IsQuorumPrompt()(e.value) ==> IsQuorumTask(task) && !failed && e.value.to == task.action.to)
            && (e.Some? && e.value.PolicyClosed? ==>
                  task.Do? && task.action.Close?
                  && e.value == PolicyClosed(task.snap, task.explicit, task.action.author, task.action.verdict))
            && (task.Do? && task.action.Transition? && !out.failed ==> e.Some? && e.value.Entered?)
            && (out.nested != [] ==> task.Do? && task.action.TrimReviewer? && out.core.log == c.log
                                     && out.nested == Tasks(QuorumActions(reread, t, false), reread, false) + [Return])
  {
    hide QuorumActions, Tasks, Trim, Distinct;
    if task.Do? && task.action.TrimReviewer? {
      TrimFacts(c, task.action.bot);
    }
    if task.Do? && task.action.ReassignChair? {
      AdmitDistinct(c.roster, task.action.to);
    }
  }

  lemma AdmitDistinct(roster: seq<Bot>, bot: Bot)
    requires Distinct(roster)
    ensures Distinct(Admit(roster, bot))
  {
  }

  lemma TrimFacts(c: Core, bot: Bot)
    requires Distinct(c.roster)
    ensures Distinct(Trim(c, bot).0.roster) && Trim(c, bot).0.triggerRef == c.triggerRef
    ensures || (Trim(c, bot).0.log == c.log && Trim(c, bot).0.row.phase == c.row.phase)
            || (Trim(c, bot).0.log == c.log + [ForceClosed] && Trim(c, bot).0.row.phase == Closed && !Trim(c, bot).1)
  {
    KeepDistinct(c.roster, Other(bot));
  }

  /** Nested work is decided from a snapshot of the world the trim left behind, which logged nothing. */
  lemma NestedOk(w: World, t: Texts, core: Core, threads: seq<Thread>, reread: Snapshot)
    requires Inv(w, t) && Distinct(core.roster) && core.log == w.core.log && Seen(Update(w, core, threads), reread)
    ensures var nested := Thread(Tasks(QuorumActions(reread, t, false), reread, false) + [Return], false);
            ThreadOk(nested, t, w.core.log) && !Armed(nested)
  {
    var after := Update(w, core, threads);
    var start := Start(QuorumActions(reread, t, false), reread, false);
    QuorumShape(reread, t, false);
    StartOk(after, t, QuorumActions(reread, t, false), reread, false);
    ReturnOk(start, t, w.core.log);
    assert start.todo != [] ==> (start.todo + [Return])[0] == start.todo[0];
  }

  lemma ArmedAfter(threads: seq<Thread>, i: nat, th: Thread, e: Option<Event>)
    requires i < |threads|
    requires Armed(th) ==> e.Some? && e.value.Entered? && e.value.snap.chair == Some(th.todo[0].action.to)
    requires e.Some? && IsQuorumPrompt()(e.value) ==> forall j :: 0 <= j < |threads| && Armed(threads[j]) ==> j == i
    ensures ArmedFrom(threads, threads[i := th], e, i)
  {
  }

  /** The head of a thread, and what an armed thread knows. */
  lemma HeadOk(w: World, t: Texts, i: nat)
    requires Inv(w, t) && i < |w.threads| && w.threads[i].todo != []
    ensures ThreadOk(w.threads[i], t, w.core.log) && TaskOk(w.threads[i].todo[0], t, w.core.log)
            && Distinct(w.core.roster)
    ensures forall j :: 0 <= j < |w.threads| ==> ThreadOk(w.threads[j], t, w.core.log)
    ensures Armed(w.threads[i]) ==>
              && EnteredFor(w.core.log, w.threads[i].todo[0].action.to) && NoneOf(w.core.log, IsQuorumPrompt())
              && forall j :: 0 <= j < |w.threads| && Armed(w.threads[j]) ==> j == i
  {
    hide Safe, PhaseOk, Justified, CloseEarned;
  }

  lemma ExecKeepsInv(w: World, t: Texts, i: nat, spare: Option<Bot>, reread: Snapshot)
    requires Inv(w, t) && i < |w.threads| && w.threads[i].todo != [] && Distinct(w.core.roster)
    ensures Inv(Step(w, t, Exec(i, spare, reread)), t)
  {
    hide Inv, Safe, PhaseOk, ThreadOk, Justified, CloseEarned, Seen, Perform, QuorumActions, Tasks, Distinct;
    hide ArmedFrom, PhaseStep, EnteredFor, NoneOf;
    var th := w.threads[i];
    var task := th.todo[0];
    HeadOk(w, t, i);
    var out := Perform(w.core, task, th.failed, t, spare, reread);
    PerformFacts(w.core, task, th.failed, t, spare, reread);
    var next := Thread(out.nested + th.todo[1..], out.failed);
    var threads := w.threads[i := next];
    if out.nested != [] ==> Seen(Update(w, out.core, threads), reread) {
      if out.nested != [] { NestedOk(w, t, out.core, threads, reread); }
      IdleOk(t, w.core.log);
      TailOk(th, t, w.core.log, out.nested, out.failed);
      ArmedAfter(w.threads, i, next, EventOf(w.core, out.core));
      Settle(w, t, out.core, threads, EventOf(w.core, out.core), i);
    }
  }

  /** A step that leaves the threads alone and logs nothing a quorum or a close is about. */
  lemma Observe(w: World, t: Texts, core: Core, e: Option<Event>)
    requires Inv(w, t) && Distinct(core.roster) && core.log == Appended(w.core.log, e)
    requires PhaseStep(w.core.row.phase, core.row.phase, e)
    requires e.Some? ==> e.value.Voted? || e.value.Said? || e.value.ForceClosed?
    ensures Inv(Update(w, core, w.threads), t)
  {
    Settle(w, t, core, w.threads, e, 0);
  }

  lemma RosterDistinct(w: World, t: Texts)
    requires Inv(w, t)
    ensures Distinct(w.core.roster)
  {
  }

  lemma StepKeepsInv(w: World, t: Texts, op: Op)
    requires Inv(w, t)
    ensures Inv(Step(w, t, op), t)
  {
    RosterDistinct(w, t);
    hide Inv, Seen, CouncilActions, QuorumActions;
    match op
    case Vote(bot) => Observe(w, t, Logged(w.core, Voted(bot)), Some(Voted(bot)));
    case Say(bot, text) => Observe(w, t, Logged(w.core, Said(bot, text)), Some(Said(bot, text)));
    case Done(snap, bot, explicit, rerequests) =>
      if Seen(w, snap) {
        CouncilShape(snap, t, bot, explicit, rerequests);
        SpawnKeepsInv(w, t, CouncilActions(snap, t, bot, explicit, rerequests), snap, explicit);
      }
    case RosterChanged(snap) =>
      if Seen(w, snap) {
        QuorumShape(snap, t, false);
        SpawnKeepsInv(w, t, QuorumActions(snap, t, false), snap, false);
      }
    case Sweep(bot, snap) =>
      if Seen(w, snap) { SpawnKeepsInv(w, t, [TrimReviewer(bot)], snap, false); }
    case ForceClose =>
      Observe(w, t, Force(w.core), if w.core.row.phase in {Closed, Aborted} then None else Some(ForceClosed));
    case Begin =>
      if w.core.row.phase == Open { Observe(w, t, w.core.(row := w.core.row.(phase := Deliberating)), None); }
    case Reseat(roster, chair, quorumN) =>
      if Distinct(roster) {
        Observe(w, t, w.core.(roster := roster, row := w.core.row.(chair := chair, quorumN := quorumN)), None);
      }
    case Abandon(i) =>
      if i < |w.threads| { AbandonKeepsInv(w, t, i); }
    case Exec(i, spare, reread) =>
      if i < |w.threads| && w.threads[i].todo != [] {
        ExecKeepsInv(w, t, i, spare, reread);
      }
  }

  lemma AbandonKeepsInv(w: World, t: Texts, i: nat)
    requires Inv(w, t) && i < |w.threads|
    ensures Inv(Update(w, w.core, w.threads[i := Thread([], false)]), t)
  {
    Settle(w, t, w.core, w.threads[i := Thread([], false)], None, 0);
  }

  lemma SpawnKeepsInv(w: World, t: Texts, actions: seq<Action>, s: Snapshot, explicit: bool)
    requires Inv(w, t) && Seen(w, s) && Shaped(actions, s, t, explicit)
    ensures Inv(Update(w, w.core, w.threads + [Start(actions, s, explicit)]), t)
  {
    StartOk(w, t, actions, s, explicit);
    Settle(w, t, w.core, w.threads + [Start(actions, s, explicit)], None, 0);
  }
}
