/** What replacing or trimming a reviewer does to a session, told by its roster as a set. */
module CouncilTrims {
  import opened Collections
  import opened Session
  import opened Coordinator
  import opened CouncilRuns

  /** The reviewers a session keeps when `bot` goes: rostered, not `bot`, not the chair. */
  function Survivors(c: Core, bot: Bot): set<Bot> {
    set b | b in c.roster && b != bot && Some(b) != c.row.chair
  }

  /** A controller opened the session with an immutable minimum of reviewers. */
  predicate FixedMinimum(c: Core) {
    c.triggerRef.Some? && "controller:" <= c.triggerRef.value && c.row.quorumN > 0
  }

  /** The trim must close the session: nobody is left, or fewer than a fixed minimum. */
  predicate MustClose(c: Core, bot: Bot) {
    Survivors(c, bot) == {} || (FixedMinimum(c) && |Survivors(c, bot)| < c.row.quorumN)
  }

  predicate Terminal(p: Phase) {
    p == Closed || p == Aborted
  }

  function Smaller(a: int, b: int): int {
    if a <= b then a else b
  }

  /** `after` is `before` without `bot`, in the same order. */
  ghost predicate WithoutBot(after: seq<Bot>, before: seq<Bot>, bot: Bot) {
    && bot !in after && (forall b :: b in after <==> b in before && b != bot)
    && (exists i :: 0 <= i < |before| && before[i] == bot && after == before[..i] + before[i + 1..])
  }

  lemma SurvivorsCounted(c: Core, bot: Bot)
    requires Distinct(c.roster)
    ensures |Reviewers(Keep(c.roster, Other(bot)), c.row.chair)| == |Survivors(c, bot)|
  {
    var roster := Keep(c.roster, Other(bot));
    KeepDistinct(c.roster, Other(bot));
    KeepCount(roster, NotChair(c.row.chair));
    assert forall b :: b in Reviewers(roster, c.row.chair) <==> b in Survivors(c, bot);
    hide Keep, Distinct;
    assert Elements(Reviewers(roster, c.row.chair)) == Survivors(c, bot);
  }

  lemma KeepAround(before: seq<Bot>, bot: Bot, after: seq<Bot>)
    requires bot !in before && bot !in after
    ensures Keep(before + [bot] + after, Other(bot)) == before + after
  {
    var p, head := Other(bot), before + [bot];
    assert Keep(head, p) == before by {
      KeepAppend(before, [bot], p);
      KeepAll(before, p);
      KeepNone([bot], p);
      hide Keep;
    }
    KeepAppend(head, after, p);
    KeepAll(after, p);
    hide Keep;
  }

  lemma KeepOthers(roster: seq<Bot>, bot: Bot)
    requires Distinct(roster) && bot in roster
    ensures WithoutBot(Keep(roster, Other(bot)), roster, bot)
  {
    var i :| 0 <= i < |roster| && roster[i] == bot;
    var before, after := roster[..i], roster[i + 1..];
    assert roster == before + [bot] + after;
    assert bot !in before && bot !in after;
    KeepAround(before, bot, after);
  }

  /** Executing a trim for which no spare is found. A bot that has left already changes nothing. Otherwise the bot
      goes; the session is force-closed exactly when it must be; and if not, the quorum becomes the smaller of itself
      and the number of reviewers left, and the roster-change policy runs next. */
  lemma TrimOutcome(c: Core, bot: Bot, snap: Snapshot, explicit: bool, failed: bool, t: Texts, reread: Snapshot)
    requires Distinct(c.roster)
    ensures var e := Perform(c, Do(TrimReviewer(bot), snap, explicit), failed, t, None, reread);
            var closes := bot in c.roster && MustClose(c, bot);
            && !e.failed && e.core.triggerRef == c.triggerRef && e.core.row.chair == c.row.chair
            && (bot !in c.roster ==> e.core == c && e.nested == [])
            && (bot in c.roster ==> WithoutBot(e.core.roster, c.roster, bot))
            && (closes ==>
                  && e.nested == [] && Terminal(e.core.row.phase) && e.core.row.quorumN == c.row.quorumN
                  && e.core.log == c.log + (if Terminal(c.row.phase) then [] else [ForceClosed])
                  && (Terminal(c.row.phase) ==> e.core.row == c.row)
                     && (!Terminal(c.row.phase) ==> e.core.row.phase == Closed))
            && (bot in c.roster && !closes ==>
                  && e.core.log == c.log && e.core.row.phase == c.row.phase
                  && e.core.row.quorumN == Smaller(c.row.quorumN, |Survivors(c, bot)|)
                  && e.nested == Tasks(QuorumActions(reread, t, false), reread, false) + [Return])
  {
    TrimTold(c, bot);
    hide QuorumActions, Tasks, Trim, MustClose, WithoutBot, Survivors, Distinct;
  }

  lemma TrimTold(c: Core, bot: Bot)
    requires Distinct(c.roster)
    ensures var (after, again) := Trim(c, bot);
            && after.triggerRef == c.triggerRef && after.row.chair == c.row.chair
            && (again <==> bot in c.roster && !MustClose(c, bot))
            && (bot !in c.roster ==> after == c)
            && (bot in c.roster ==> WithoutBot(after.roster, c.roster, bot))
            && (bot in c.roster && MustClose(c, bot) ==>
                  && after.row == (if Terminal(c.row.phase) then c.row else c.row.(phase := Closed))
                  && after.log == c.log + (if Terminal(c.row.phase) then [] else [ForceClosed]))
            && (again ==> after.log == c.log
                          && after.row == c.row.(quorumN := Smaller(c.row.quorumN, |Survivors(c, bot)|)))
  {
    if bot in c.roster {
      SurvivorsCounted(c, bot);
      KeepOthers(c.roster, bot);
      MustCloseCounted(c, bot);
      TrimCases(c, bot);
    }
    hide Survivors, WithoutBot, Distinct, Closing, Keep, Reviewers, MustClose;
  }

  /** The same by numbers: how many reviewers are left. */
  predicate Closing(c: Core, left: nat) {
    left == 0 || (ControllerOpened(c.triggerRef) && c.row.quorumN > 0 && left < c.row.quorumN)
  }

  lemma MustCloseCounted(c: Core, bot: Bot)
    ensures MustClose(c, bot) <==> Closing(c, |Survivors(c, bot)|)
  {
    assert Survivors(c, bot) == {} <==> |Survivors(c, bot)| == 0;
    hide Survivors;
  }

  lemma TrimCases(c: Core, bot: Bot)
    requires bot in c.roster
    ensures var (after, again) := Trim(c, bot);
            var roster := Keep(c.roster, Other(bot)); var left := |Reviewers(roster, c.row.chair)|;
            && after.triggerRef == c.triggerRef && after.roster == roster && (again <==> !Closing(c, left))
            && (Closing(c, left) ==>
                  && after.row == (if Terminal(c.row.phase) then c.row else c.row.(phase := Closed))
                  && after.log == c.log + (if Terminal(c.row.phase) then [] else [ForceClosed]))
            && (again ==> after.log == c.log && after.row == c.row.(quorumN := Smaller(c.row.quorumN, left)))
  {
    hide Keep, Reviewers, ControllerOpened;
  }

  /** Executing it when a spare can take the seat: everyone keeps their place, the spare has the bot's, the chair
      moves with its holder, and nothing else changes. */
  lemma ReplaceOutcome(c: Core, bot: Bot, spare: Bot, snap: Snapshot, explicit: bool, failed: bool, t: Texts,
                       reread: Snapshot)
    requires Distinct(c.roster) && bot in c.roster && spare !in c.roster && !Terminal(c.row.phase)
    ensures var e := Perform(c, Do(TrimReviewer(bot), snap, explicit), failed, t, Some(spare), reread);
            && !e.failed && e.nested == [] && e.core.log == c.log && e.core.triggerRef == c.triggerRef
            && |e.core.roster| == |c.roster|
            && (forall i :: 0 <= i < |c.roster| ==>
                  e.core.roster[i] == if c.roster[i] == bot then spare else c.roster[i])
            && e.core.row.phase == c.row.phase && e.core.row.quorumN == c.row.quorumN
            && e.core.row.chair == if c.row.chair == Some(bot) then Some(spare) else c.row.chair
  {
  }

  /** Moving the chair: the new chair is seated and rostered, everyone else keeps their place, nothing is logged. */
  lemma ReassignOutcome(c: Core, to: Bot, snap: Snapshot, explicit: bool, failed: bool, t: Texts, reread: Snapshot)
    requires Distinct(c.roster)
    ensures var e := Perform(c, Do(ReassignChair(to), snap, explicit), failed, t, None, reread);
            && e.core.row == c.row.(chair := Some(to)) && e.core.log == c.log && e.nested == [] && !e.failed
            && to in e.core.roster && c.roster <= e.core.roster && |e.core.roster| <= |c.roster| + 1
            && (to in c.roster ==> e.core.roster == c.roster)
  {
  }

  // ---- a fixed minimum is never redefined ----

  lemma TrimKeepsMinimum(c: Core, task: Task, failed: bool, t: Texts, spare: Option<Bot>, reread: Snapshot)
    requires Distinct(c.roster) && FixedMinimum(c)
    ensures var e := Perform(c, task, failed, t, spare, reread);
            e.core.row.quorumN == c.row.quorumN && e.core.triggerRef == c.triggerRef
  {
    if task.Do? && task.action.TrimReviewer? && !CanReplace(c, task.action.bot, spare) {
      var bot := task.action.bot;
      TrimOutcome(c, bot, task.snap, task.explicit, failed, t, reread);
      SpareUnused(c, task, failed, t, spare, reread);
    }
    hide Trim, QuorumActions, Tasks, Keep, WithoutBot, Survivors;
  }

  lemma SpareUnused(c: Core, task: Task, failed: bool, t: Texts, spare: Option<Bot>, reread: Snapshot)
    requires Distinct(c.roster) && task.Do? && task.action.TrimReviewer? && !CanReplace(c, task.action.bot, spare)
    ensures Perform(c, task, failed, t, spare, reread) == Perform(c, task, failed, t, None, reread)
  {
    hide Trim, QuorumActions, Tasks;
  }

  lemma StepKeepsMinimum(w: World, t: Texts, op: Op)
    requires FixedMinimum(w.core) && !op.Reseat?
    ensures Step(w, t, op).core.row.quorumN == w.core.row.quorumN && Step(w, t, op).core.triggerRef == w.core.triggerRef
  {
    hide Perform, Seen, CouncilActions, QuorumActions, Distinct;
    if op.Exec? && op.i < |w.threads| && w.threads[op.i].todo != [] && Distinct(w.core.roster) {
      var th := w.threads[op.i];
      TrimKeepsMinimum(w.core, th.todo[0], th.failed, t, op.spare, op.reread);
    }
  }

  /** Over every run in which nobody sets the quorum by hand: a session a controller opened with a positive minimum
      keeps that minimum, however many reviewers are trimmed or replaced. */
  lemma {:induction false} MinimumIsKept(w: World, t: Texts, ops: seq<Op>)
    requires FixedMinimum(w.core) && forall i :: 0 <= i < |ops| ==> !ops[i].Reseat?
    ensures Run(w, t, ops).core.row.quorumN == w.core.row.quorumN && Run(w, t, ops).core.triggerRef == w.core.triggerRef
  {
    if ops != [] {
      MinimumIsKept(w, t, ops[..|ops| - 1]);
      hide Step;
      StepKeepsMinimum(Run(w, t, ops[..|ops| - 1]), t, ops[|ops| - 1]);
    }
  }
}
