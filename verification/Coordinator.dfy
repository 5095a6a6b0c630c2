/** The council policy: what a settled done-signal means. Pure; it reads a snapshot that may be
    stale and returns actions for an executor. */
module Coordinator {
  import opened Collections
  import opened Session

  /** The text classifiers of the council plugins, left uninterpreted: whether a settled text is a
      delivered report, carries a parseable verdict trailer, opens with the runtime's error banner. */
  datatype Texts = Texts(delivered: string -> bool, parseable: string -> bool, errored: string -> bool)

  datatype Snapshot = Snapshot(
    roster: seq<Bot>, chair: Option<Bot>, quorumN: int, doneVoters: seq<Bot>,
    settled: map<Bot, string>, phase: Phase, triggerRef: Option<string>,
    synthesisAttempts: int, candidates: seq<Bot>)

  /** Prompt texts are told apart only by the prefixes the transcript is later counted by. */
  datatype Content = QuorumPrompt | SynthesisRetry(attempt: int) | ReportRerequest(attempt: int)

  datatype Action =
    | Relay(from: Bot, to: Bot)
    | Prompt(to: Bot, content: Content)
    | Transition(source: Phase, target: Phase)
    | Close(source: Phase, author: Bot, verdict: string)
    | ReassignChair(to: Bot)
    | TrimReviewer(bot: Bot)

  const MAX_REVIEWER_REREQUESTS := 2
  const MAX_SYNTHESIS_ATTEMPTS := 3

  predicate ControllerOpened(triggerRef: Option<string>) {
    triggerRef.Some? && "controller:" <= triggerRef.value
  }

  predicate VerdictContract(cx: Snapshot, explicit: bool) {
    explicit || ControllerOpened(cx.triggerRef)
  }

  predicate ReportDelivered(cx: Snapshot, t: Texts, bot: Bot) {
    bot in cx.settled && t.delivered(cx.settled[bot])
  }

  function HasReport(cx: Snapshot, t: Texts): Bot -> bool {
    (b: Bot) => ReportDelivered(cx, t, b)
  }

  function CountedDoneVoters(cx: Snapshot, t: Texts, explicit: bool): seq<Bot> {
    if !VerdictContract(cx, explicit) then cx.doneVoters else Keep(cx.doneVoters, HasReport(cx, t))
  }

  predicate QuorumSeen(cx: Snapshot, t: Texts, explicit: bool) {
    QuorumReached(cx.roster, cx.chair, CountedDoneVoters(cx, t, explicit), cx.quorumN)
  }

  function QuorumActions(cx: Snapshot, t: Texts, explicit: bool): seq<Action> {
    if !QuorumSeen(cx, t, explicit) then []
    else
      [Transition(Deliberating, Quorum)]
      + (if cx.chair.Some? then [Prompt(cx.chair.value, QuorumPrompt)] else [])
  }

  function InvalidReviewerAction(bot: Bot, attempts: int): Action {
    if attempts >= MAX_REVIEWER_REREQUESTS then TrimReviewer(bot)
    else Prompt(bot, ReportRerequest(attempts + 1))
  }

  /** The first candidate that is not the failed chair, or the failed chair itself. */
  function NextChair(candidates: seq<Bot>, failed: Bot): (next: Bot)
    ensures next != failed ==> next in candidates
    ensures next == failed ==> forall i :: 0 <= i < |candidates| ==> candidates[i] == failed
    decreases |candidates|
  {
    if candidates == [] then failed
    else if candidates[0] != failed then candidates[0]
    else
      assert forall i :: 1 <= i < |candidates| ==> candidates[i] == candidates[1..][i - 1];
      NextChair(candidates[1..], failed)
  }

  function Relays(voters: seq<Bot>, next: Bot, failed: Bot): seq<Action> {
    if voters == [] then []
    else
      var v := voters[|voters| - 1];
      Relays(voters[..|voters| - 1], next, failed)
      + (if v != next && v != failed then [Relay(v, next)] else [])
  }

  function RequeueActions(cx: Snapshot, failed: Bot): seq<Action> {
    var next := NextChair(cx.candidates, failed);
    (if next != failed then [ReassignChair(next)] + Relays(cx.doneVoters, next, failed) else [])
    + [Prompt(next, SynthesisRetry(cx.synthesisAttempts + 1))]
  }

  function FinalText(cx: Snapshot, bot: Bot): string {
    if bot in cx.settled then cx.settled[bot] else ""
  }

  predicate SynthesisFailed(cx: Snapshot, t: Texts, bot: Bot) {
    !t.parseable(FinalText(cx, bot)) || t.errored(FinalText(cx, bot))
  }

  predicate Requeues(cx: Snapshot, t: Texts, bot: Bot, explicit: bool) {
    && Some(bot) == cx.chair && cx.phase == Quorum
    && VerdictContract(cx, explicit) && SynthesisFailed(cx, t, bot)
    && cx.synthesisAttempts < MAX_SYNTHESIS_ATTEMPTS
  }

  function ReviewerPart(cx: Snapshot, t: Texts, bot: Bot, explicit: bool, rerequests: int): seq<Action> {
    if Some(bot) == cx.chair then []
    else if VerdictContract(cx, explicit) && !ReportDelivered(cx, t, bot) then [InvalidReviewerAction(bot, rerequests)]
    else if cx.chair.Some? then [Relay(bot, cx.chair.value)]
    else []
  }

  function ChairPart(cx: Snapshot, t: Texts, bot: Bot, explicit: bool): seq<Action> {
    if Some(bot) != cx.chair || cx.phase != Quorum then []
    else if Requeues(cx, t, bot, explicit) then RequeueActions(cx, bot)
    else [Close(Quorum, bot, FinalText(cx, bot))]
  }

  function CouncilActions(cx: Snapshot, t: Texts, bot: Bot, explicit: bool, rerequests: int): seq<Action> {
    ReviewerPart(cx, t, bot, explicit, rerequests) + QuorumActions(cx, t, explicit) + ChairPart(cx, t, bot, explicit)
  }

  method RequeueSynthesis(cx: Snapshot, failed: Bot) returns (actions: seq<Action>)
    ensures actions == RequeueActions(cx, failed)
  {
    actions := [];
    var next := NextChair(cx.candidates, failed);
    var attempt := cx.synthesisAttempts + 1;
    if next != failed {
      actions := actions + [ReassignChair(next)];
      for i := 0 to |cx.doneVoters|
        invariant actions == [ReassignChair(next)] + Relays(cx.doneVoters[..i], next, failed)
      {
        var reviewer := cx.doneVoters[i];
        assert cx.doneVoters[..i + 1][..i] == cx.doneVoters[..i];
        if reviewer != next && reviewer != failed {
          actions := actions + [Relay(reviewer, next)];
        }
      }
      assert cx.doneVoters[..|cx.doneVoters|] == cx.doneVoters;
    }
    actions := actions + [Prompt(next, SynthesisRetry(attempt))];
  }

  method CouncilOnDone(cx: Snapshot, t: Texts, bot: Bot, explicit: bool, rerequests: int) returns (actions: seq<Action>)
    ensures actions == CouncilActions(cx, t, bot, explicit, rerequests)
  {
    hide QuorumActions, RequeueActions, FinalText, ReportDelivered;
    actions := [];
    var contract := VerdictContract(cx, explicit);
    if Some(bot) != cx.chair {
      if contract && !ReportDelivered(cx, t, bot) {
        actions := actions + [InvalidReviewerAction(bot, rerequests)];
      } else if cx.chair.Some? {
        actions := actions + [Relay(bot, cx.chair.value)];
      }
    }
    actions := actions + QuorumActions(cx, t, explicit);
    if Some(bot) == cx.chair && cx.phase == Quorum {
      var verdict := FinalText(cx, bot);
      var failed := !t.parseable(verdict) || t.errored(verdict);
      if contract && failed && cx.synthesisAttempts < MAX_SYNTHESIS_ATTEMPTS {
        var requeue := RequeueSynthesis(cx, bot);
        actions := actions + requeue;
      } else {
        actions := actions + [Close(Quorum, bot, verdict)];
      }
    }
  }

  // ---- what the policy promises of every snapshot ----

  lemma {:induction false} RelaysExact(voters: seq<Bot>, next: Bot, failed: Bot)
    ensures forall a :: a in Relays(voters, next, failed) <==>
              a.Relay? && a.to == next && a.from in voters && a.from != next && a.from != failed
  {
    if voters != [] {
      RelaysExact(voters[..|voters| - 1], next, failed);
    }
  }

  lemma CouncilParts(cx: Snapshot, t: Texts, bot: Bot, explicit: bool, rerequests: int, a: Action)
    ensures a in CouncilActions(cx, t, bot, explicit, rerequests) <==>
            || a in ReviewerPart(cx, t, bot, explicit, rerequests)
            || (QuorumSeen(cx, t, explicit) && (a == Transition(Deliberating, Quorum)
                                                || (cx.chair.Some? && a == Prompt(cx.chair.value, QuorumPrompt))))
            || a in ChairPart(cx, t, bot, explicit)
  {
    hide ReviewerPart, ChairPart, QuorumSeen;
  }

  lemma RequeueParts(cx: Snapshot, failed: Bot, a: Action)
    ensures a in RequeueActions(cx, failed) <==>
            var next := NextChair(cx.candidates, failed);
            || a == Prompt(next, SynthesisRetry(cx.synthesisAttempts + 1))
            || (next != failed && (a == ReassignChair(next)
                                   || (a.Relay? && a.to == next && a.from in cx.doneVoters && a.from != next
                                       && a.from != failed)))
  {
    RelaysExact(cx.doneVoters, NextChair(cx.candidates, failed), failed);
    hide NextChair, Relays;
  }

  /** Exactly which finals a done-signal forwards. A reviewer's own done never forwards an undelivered
      report under the contract; a chair hand-over forwards every done voter, delivered or not. */
  lemma RelayedFinals(cx: Snapshot, t: Texts, bot: Bot, explicit: bool, rerequests: int, source: Bot, to: Bot)
    ensures Relay(source, to) in CouncilActions(cx, t, bot, explicit, rerequests) <==>
            || (source == bot && Some(to) == cx.chair && to != bot
                && (VerdictContract(cx, explicit) ==> ReportDelivered(cx, t, bot)))
            || (Requeues(cx, t, bot, explicit) && to == NextChair(cx.candidates, bot) && to != bot
                && source in cx.doneVoters && source != to && source != bot)
  {
    CouncilParts(cx, t, bot, explicit, rerequests, Relay(source, to));
    RequeueParts(cx, bot, Relay(source, to));
    hide CouncilActions, RequeueActions, QuorumSeen, NextChair, ReportDelivered, SynthesisFailed;
  }

  /** A close is decided only by the chair, only in Quorum, and under the contract only on a verdict
      that parses and carries no error banner, or once the synthesis budget is spent. */
  lemma CloseDecision(cx: Snapshot, t: Texts, bot: Bot, explicit: bool, rerequests: int, a: Action)
    requires a.Close?
    ensures a in CouncilActions(cx, t, bot, explicit, rerequests) <==>
            && a == Close(Quorum, bot, FinalText(cx, bot)) && Some(bot) == cx.chair && cx.phase == Quorum
            && (VerdictContract(cx, explicit) ==>
                  || (t.parseable(a.verdict) && !t.errored(a.verdict))
                  || cx.synthesisAttempts >= MAX_SYNTHESIS_ATTEMPTS)
  {
    CouncilParts(cx, t, bot, explicit, rerequests, a);
    RequeueParts(cx, bot, a);
    hide CouncilActions, RequeueActions, QuorumSeen, NextChair, ReportDelivered;
  }

  /** Under the contract a voter without a delivered report adds nothing to quorum: dropping every such
      voter from the done list leaves the quorum decision as it was. */
  lemma UndeliveredNeverCounts(cx: Snapshot, t: Texts, explicit: bool, bot: Bot)
    requires VerdictContract(cx, explicit) && !ReportDelivered(cx, t, bot)
    ensures bot !in CountedReviewers(cx.roster, cx.chair, CountedDoneVoters(cx, t, explicit))
    ensures CountedDoneVoters(cx.(doneVoters := Keep(cx.doneVoters, Other(bot))), t, explicit)
            == CountedDoneVoters(cx, t, explicit)
  {
    var dropped := cx.(doneVoters := Keep(cx.doneVoters, Other(bot)));
    KeepTwice(cx.doneVoters, Other(bot), HasReport(cx, t));
    KeepSame(dropped.doneVoters, HasReport(dropped, t), HasReport(cx, t));
  }

  lemma {:induction false} KeepTwice(s: seq<Bot>, p: Bot -> bool, q: Bot -> bool)
    requires forall x :: x in s && q(x) ==> p(x)
    ensures Keep(Keep(s, p), q) == Keep(s, q)
  {
    if s != [] {
      var last := s[|s| - 1];
      KeepTwice(s[..|s| - 1], p, q);
      KeepAppend(Keep(s[..|s| - 1], p), if p(last) then [last] else [], q);
      assert Keep([last], q) == if q(last) then [last] else [];
    }
  }

  lemma {:induction false} KeepSame(s: seq<Bot>, p: Bot -> bool, q: Bot -> bool)
    requires forall x :: x in s ==> p(x) == q(x)
    ensures Keep(s, p) == Keep(s, q)
  {
    if s != [] {
      KeepSame(s[..|s| - 1], p, q);
    }
  }

  /** The candidate a requeue turns to: the first that is not the failed chair, or the failed chair when every
      candidate is. */
  lemma {:induction false} NextChairIsFirst(candidates: seq<Bot>, failed: Bot)
    ensures var next := NextChair(candidates, failed);
            next != failed ==> exists i :: IsFirstOther(candidates, failed, next, i)
    ensures NextChair(candidates, failed) == failed <==> forall i :: 0 <= i < |candidates| ==> candidates[i] == failed
  {
    if candidates != [] && candidates[0] == failed {
      NextChairIsFirst(candidates[1..], failed);
      var next := NextChair(candidates[1..], failed);
      if next != failed {
        var i :| IsFirstOther(candidates[1..], failed, next, i);
        assert forall j :: 0 < j <= i ==> candidates[j] == candidates[1..][j - 1];
        assert IsFirstOther(candidates, failed, next, i + 1);
      }
    } else if candidates != [] {
      assert IsFirstOther(candidates, failed, candidates[0], 0);
    }
  }

  predicate IsFirstOther(candidates: seq<Bot>, failed: Bot, next: Bot, i: int) {
    0 <= i < |candidates| && candidates[i] == next && next != failed && forall j :: 0 <= j < i ==>
      candidates[j] == failed
  }

  /** The reviewers a quorum is made of: rostered, not the chair, done, and under the contract with a delivered
      report. */
  function Quorate(cx: Snapshot, t: Texts, contract: bool): set<Bot> {
    set b | b in cx.roster && Some(b) != cx.chair && b in cx.doneVoters
            && (contract ==> b in cx.settled && t.delivered(cx.settled[b]))
  }

  predicate UnderContract(cx: Snapshot, explicit: bool) {
    explicit || (cx.triggerRef.Some? && "controller:" <= cx.triggerRef.value)
  }

  lemma QuorumMeans(cx: Snapshot, t: Texts, explicit: bool)
    requires Distinct(cx.roster)
    ensures QuorumSeen(cx, t, explicit) <==> |Quorate(cx, t, UnderContract(cx, explicit))| >= cx.quorumN
  {
    var counted := CountedDoneVoters(cx, t, explicit);
    QuorumCountsDistinctReviewers(cx.roster, cx.chair, counted, cx.quorumN);
    assert forall b :: b in counted <==> b in cx.doneVoters && (VerdictContract(cx, explicit) ==> HasReport(cx, t)(b));
    assert CountedReviewers(cx.roster, cx.chair, counted) == Quorate(cx, t, UnderContract(cx, explicit));
  }

  /** What becomes of a reviewer that signals done without a delivered report: asked again twice, then trimmed. */
  predicate Undelivered(cx: Snapshot, t: Texts, bot: Bot, explicit: bool) {
    Some(bot) != cx.chair && UnderContract(cx, explicit) && !(bot in cx.settled && t.delivered(cx.settled[bot]))
  }

  /** The chair's final failed and the budget of three is not spent. */
  predicate MayRetry(cx: Snapshot, t: Texts, bot: Bot, explicit: bool) {
    var final := if bot in cx.settled then cx.settled[bot] else "";
    && Some(bot) == cx.chair && cx.phase == Quorum && UnderContract(cx, explicit)
    && (!t.parseable(final) || t.errored(final)) && cx.synthesisAttempts < 3
  }

  /** Exactly when each remaining kind of action is emitted. */
  lemma PolicyExact(cx: Snapshot, t: Texts, bot: Bot, explicit: bool, rerequests: int, to: Bot, n: int, p: Phase,
                    q: Phase)
    ensures var actions := CouncilActions(cx, t, bot, explicit, rerequests);
            && (Prompt(to, ReportRerequest(n)) in actions <==>
                  to == bot && Undelivered(cx, t, bot, explicit) && rerequests < 2 && n == rerequests + 1)
            && (TrimReviewer(to) in actions <==> to == bot && Undelivered(cx, t, bot, explicit) && rerequests >= 2)
            && (Transition(p, q) in actions <==> p == Deliberating && q == Quorum && QuorumSeen(cx, t, explicit))
            && (Prompt(to, QuorumPrompt) in actions <==> QuorumSeen(cx, t, explicit) && cx.chair == Some(to))
            && (Prompt(to, SynthesisRetry(n)) in actions <==>
                  MayRetry(cx, t, bot, explicit) && to == NextChair(cx.candidates, bot)
                  && n == cx.synthesisAttempts + 1)
            && (ReassignChair(to) in actions <==>
                  MayRetry(cx, t, bot, explicit) && to == NextChair(cx.candidates, bot) && to != bot)
  {
    RetryMeans(cx, t, bot, explicit);
    Emitted(cx, t, bot, explicit, rerequests, Prompt(to, ReportRerequest(n)));
    Emitted(cx, t, bot, explicit, rerequests, TrimReviewer(to));
    Emitted(cx, t, bot, explicit, rerequests, Transition(p, q));
    Emitted(cx, t, bot, explicit, rerequests, Prompt(to, QuorumPrompt));
    Emitted(cx, t, bot, explicit, rerequests, Prompt(to, SynthesisRetry(n)));
    Emitted(cx, t, bot, explicit, rerequests, ReassignChair(to));
    hide CouncilActions, QuorumSeen, NextChair, Requeues, MayRetry;
  }

  lemma RetryMeans(cx: Snapshot, t: Texts, bot: Bot, explicit: bool)
    ensures Requeues(cx, t, bot, explicit) <==> MayRetry(cx, t, bot, explicit)
  {
  }

  /** Membership of one action, part by part. */
  lemma Emitted(cx: Snapshot, t: Texts, bot: Bot, explicit: bool, rerequests: int, a: Action)
    ensures var next := NextChair(cx.candidates, bot);
            a in CouncilActions(cx, t, bot, explicit, rerequests) <==>
              || (Undelivered(cx, t, bot, explicit) && a == InvalidReviewerAction(bot, rerequests))
              || (Some(bot) != cx.chair && !Undelivered(cx, t, bot, explicit) && cx.chair.Some?
                  && a == Relay(bot, cx.chair.value))
              || (QuorumSeen(cx, t, explicit) && (a == Transition(Deliberating, Quorum)
                                                  || (cx.chair.Some? && a == Prompt(cx.chair.value, QuorumPrompt))))
              || (Requeues(cx, t, bot, explicit)
                  && (a == Prompt(next, SynthesisRetry(cx.synthesisAttempts + 1))
                      || (next != bot && (a == ReassignChair(next)
                                          || (a.Relay? && a.to == next && a.from in cx.doneVoters && a.from != next
                                              && a.from != bot)))))
              || (Some(bot) == cx.chair && cx.phase == Quorum && !Requeues(cx, t, bot, explicit)
                  && a == Close(Quorum, bot, FinalText(cx, bot)))
  {
    CouncilParts(cx, t, bot, explicit, rerequests, a);
    RequeueParts(cx, bot, a);
    hide CouncilActions, RequeueActions, QuorumSeen, NextChair, SynthesisFailed, FinalText, InvalidReviewerAction;
  }
}
