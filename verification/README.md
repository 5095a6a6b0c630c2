# A verified model of the review control plane

The control plane runs review sessions in which several bots discuss a change and a chair writes the
verdict. Around it stand a controller that turns closed sessions into GitHub writes, a weekly report that
audits those writes, an investigation tool that follows correlations through two audit logs, and an
evaluation harness for review models. This project models the parts whose correctness is not visible from
any single function, and proves what they promise over every input, run or interleaving.

| area | modules |
|---|---|
| council protocol | `Session`, `Coordinator`, `CouncilRuns`, `CouncilTrims`, `CouncilBudget`, `CouncilLoops` |
| connections and outbox | `Hub`, `Outbox`, `OutboxKeys`, `OutboxTables`, `AppState` |
| action journal | `ActionJournal`, `ActionRuns`, `TriggerOwnership`, `ActionTables`, `ActionOutcomes`, `ActionApi` |
| event delivery | `EventDelivery`, `Dispatcher` |
| terminal writes and their audit | `Closing`, `CommentBody`, `VerdictTrailer`, `TextLaws`, `TrailerReading`, `ReportAudit`, `AuditVerdicts`, `PlannerAuditor` |
| weekly report | `StampOrder`, `AuditDedupe`, `Cohort`, `CohortLaws` |
| evaluation | `Json`, `StructuredOutput`, `StructuredOutputSpec`, `Evaluation` |
| investigation and printing | `Investigation`, `TomlString` |

`dafny verify dfyconfig.toml` checks everything.

Concurrent code is a step function over a state with an explicit log; a run is any sequence of steps, a
step that is not possible changes nothing, and a crash is a step. Code that works in place is a class or a
method with loops, proved equal to a function or to a run of those steps, so that what is proved of every
run holds of the methods. Functions that decide something are in turn characterised from outside: what they
answer is stated by the rows, receipts, texts or sets they read, as an if-and-only-if where there is one.

## How the main results hang together

- **Council.** The policy (`CouncilActions`) reads a snapshot each part of which may come from a different
  earlier moment. The executor (`Perform`) guards transitions and closes by compare-and-set. `CouncilSafety`
  holds over every interleaving of any number of action loops, including loops that die half way.
  `SessionBudget` holds when done-signals, roster changes and liveness trims are handled one after the other.
  `CouncilLoops` proves that the sequential action loop is a run of those steps, so that the safety of runs
  holds of the loop, that overlapping handlers can exceed the budget, and that only handlers which decide on
  one attempt count do. `CouncilTrims` says what a trim does to a session in terms of the reviewers left, and
  that a minimum fixed by a controller is never lowered.
- **Delivery.** `Hub` explains every stack by the run that produced it; `Outbox` counts repeated frames
  against lost acknowledgements; `OutboxTables` proves that only a purge meant for it takes a queued frame away;
  `AppState` is the class whose methods are runs of both.
- **Journal.** `ActionRuns` needs no lock between threads: admission and completion are transactions, and
  everything else may interleave or stop. `ActionTables` and `TriggerOwnership.OpenDecision` say exactly which
  answer and which table change each request gets. `ActionApi` shows that one request is one such thread.
- **Planner and auditor.** `Closing` plans writes and what the drain records for them, `ReportAudit` judges
  recorded rows with its own readers, `PlannerAuditor` proves first that the readers and then that the
  judgements agree. `AuditVerdicts.ClassifyExact` gives the exact condition of every category over any recorded
  rows, and `TrailerReading.ParseExact` the exact condition of every trailer over any text.
- **Recogniser.** The event-stream loop is first shown to be a fold over tokens and then to accept exactly a
  protocol stated without states.

## Where the code and its description differ

- A failed compare-and-set `Transition` is documented to suppress the `Prompt` immediately after it
  (src/coordinator.rs:51-53). The loop keeps the flag after a suppressed prompt (src/orchestrator.rs:1927-1940), so
  a later prompt of the same action list is suppressed as well. The model follows the loop.
  `CouncilBudget.RequeueSpends` states exactly when a failed synthesis is retried and when its retry prompt is
  swallowed, and `CouncilBudget.StalledHoweverOften` gives a session, reached from its opening, that stays as it
  is however often its chair signals done, until the chair says something else.
- A reviewer's own done never forwards an undelivered report, but a chair hand-over forwards the finals of
  all done voters (`Coordinator.RelayedFinals`).
- The outcome `unknown` told to a retry is final (`ActionRuns.UnknownIsFinal`); the same word from
  reconciliation is not (`ActionRuns.ReconciliationIsProvisional`): it is final exactly when the action is
  sealed, that is declared unknown to a retry or left by every thread that worked on it
  (`ActionOutcomes.UndecidedForEverExactlyWhenSealed`).
- A purge re-arms idempotency keys, and a flusher may still hold a purged frame, so a key can go out twice
  without any fault (`OutboxKeys.RearmedKeyRepeats`); `OutboxKeys.KeyRepeats` says when.
- Outbox keys join bot and message id with a colon, so a colon in a bot id can make the frame of one bot pass for a
  repetition of another's (`AppState.KeysTellApart`).
- Conflict names in the report's deduplication are joined with colons, so a colon in a service name can drop
  a row nobody contradicts (`AuditDedupe.ColonDropsARow`); without colons the rule is exact
  (`AuditDedupe.SurvivesExactly`).
- Admission compares a trigger's scope twice; the second comparison never decides
  (`TriggerOwnership.OpenDecision`).

## Model

| member | source | states |
|---|---|---|
| `Session.QuorumCountsDistinctReviewers` | src/session.rs:19-38 | quorum is reached exactly when the set of distinct rostered non-chair members that are done has at least `quorum_n` elements |
| `Session.CompletionMatchesQuorum` | src/coordinator.rs:215-225 | the evidence counted over voters equals the quorum count over reviewers, so evidence meets its requirement exactly when quorum holds |
| `Session.TrimKeepsCount` | src/orchestrator.rs:594-683 | trimming a reviewer that is not counted leaves the counted set, and hence every quorum, as it was |
| `Session.ValidateOpenSession` | src/controller.rs:336-412 | an open request is accepted exactly when roster, quorum, mode, chair and inputs meet all conditions at once; a rejection names the first check that fails, with its offender |
| `Session.QuorumReachable` | src/controller.rs:356-386 | every accepted roster reaches quorum once all its reviewers are counted |
| `Coordinator.RequeueSynthesis` | src/coordinator.rs:427-472 | the pushed action list is the specified hand-over, relays and retry prompt |
| `Coordinator.CouncilOnDone` | src/coordinator.rs:335-406 | the pushed action list is the specified one for every snapshot |
| `Coordinator.RelaysExact` | src/coordinator.rs:438-445 | a hand-over relays exactly the done voters other than the old and the new chair, to the new chair |
| `Coordinator.RelayedFinals` | src/coordinator.rs:346-361 | exactly which finals a done-signal forwards: a reviewer's own only if delivered under the contract, all done voters on a hand-over |
| `Coordinator.CloseDecision` | src/coordinator.rs:363-396 | a close is decided exactly by the chair in Quorum, and under the contract only on a clean verdict or a spent budget |
| `Coordinator.UndeliveredNeverCounts` | src/coordinator.rs:198-210 | under the contract a voter without a delivered report contributes nothing to quorum |
| `Coordinator.QuorumMeans` | src/coordinator.rs:168-210 | quorum is seen exactly when enough distinct rostered non-chair members are done and, under the contract, delivered |
| `Coordinator.PolicyExact` | src/coordinator.rs:227-406 | exactly when a done-signal leads to a re-request, a trim, the Quorum transition, the chair prompt, a synthesis retry or a new chair, with the attempt numbers |
| `Coordinator.NextChairIsFirst` | src/coordinator.rs:427-434 | the next chair is the first candidate other than the failed one, or the failed one when there is no other |
| `CouncilRuns.CouncilSafety` | src/coordinator.rs:51-80 | over every interleaving with stale snapshots: one Quorum entry, one chair prompt for it, one policy close after it; the entry backed by votes and delivered reports in the log, the close by a verdict its author really said and, under the contract, a clean one or a budget really prompted for |
| `CouncilRuns.RunKeepsInv` | src/orchestrator.rs:1927-2071 | the inductive invariant behind it holds in every reachable state |
| `CouncilRuns.StepKeepsInv` | src/orchestrator.rs:1927-2071 | every operation keeps that invariant: votes, texts, policy calls, roster changes, single executor actions, deaths, forced closes |
| `CouncilRuns.PerformFacts` | src/orchestrator.rs:1941-2071 | what one executed action may do to phase and log |
| `CouncilRuns.SeenJustifies` | src/coordinator.rs:168-189 | a stale snapshot that shows a quorum is backed by votes and delivered reports already in the log |
| `CouncilRuns.SeenEarns` | src/coordinator.rs:363-396 | a close decided from a stale snapshot is earned by what the log holds: the verdict was said, a spent budget was prompted for |
| `CouncilTrims.TrimOutcome` | src/orchestrator.rs:594-683 | a trim without a spare force-closes exactly when no reviewer is left or a controller's positive minimum exceeds those left; otherwise the quorum becomes the smaller of itself and their number and the roster-change policy runs |
| `CouncilTrims.ReplaceOutcome` | src/orchestrator.rs:939-1003 | a spare takes the seat in place, and the chair with it; nothing else changes |
| `CouncilTrims.ReassignOutcome` | src/orchestrator.rs:1941-2071 | a hand-over seats and rosters the new chair and moves nobody else |
| `CouncilTrims.MinimumIsKept` | src/orchestrator.rs:609-635 | over every run in which nobody sets the quorum by hand, a controller session keeps its positive minimum |
| `CouncilBudget.RunActions` | src/orchestrator.rs:1927-2071 | the action loop, with the nested loop a trim starts, computes the specified result |
| `CouncilBudget.SettledIsLast` | src/orchestrator.rs:1820-1828 | the settled text a snapshot holds for a bot is the last thing it said |
| `CouncilBudget.ChairLoop` | src/coordinator.rs:363-396 | closed form of what a chair's done in Quorum does to a session |
| `CouncilBudget.RequeueSpends` | src/coordinator.rs:427-472 | a requeue spends one synthesis attempt exactly when another candidate exists or quorum no longer holds; otherwise nothing at all changes |
| `CouncilBudget.ReviewerEnters` | src/coordinator.rs:335-361 | a reviewer's done that completes the quorum enters Quorum with exactly one chair prompt |
| `CouncilBudget.StalledSynthesis` | src/orchestrator.rs:1927-1940 | a concrete reachable session in which the chair's done asks for a requeue and changes nothing |
| `CouncilBudget.StallIsReached` | src/orchestrator.rs:1927-1940 | that session is reached from its opening by handling one signal after the other |
| `CouncilBudget.StalledHoweverOften` | src/orchestrator.rs:1927-1940 | it stays the same after any number of further dones of the chair |
| `CouncilBudget.TrimPart` | src/orchestrator.rs:559-683 | a trim with everything it starts closes nothing by policy and spends no budget beyond entering Quorum |
| `CouncilBudget.OtherDone` | src/coordinator.rs:227-251 | every other done-signal asks the same reviewer again at most once and otherwise only does quorum bookkeeping |
| `CouncilBudget.SessionBudget` | src/coordinator.rs:253-259 | handled one at a time, done-signals, roster changes and liveness trims cause at most `MAX_SYNTHESIS_ATTEMPTS` synthesis prompts, at most two re-requests per reviewer, and only earned closes |
| `CouncilLoops.LoopIsRun` | src/orchestrator.rs:1927-2071 | running one action loop alone to its end is a run of single steps with the same outcome |
| `CouncilLoops.SeqRunIsRun` | src/orchestrator.rs:1927-2071 | handling everything one after the other is one of the interleaved runs |
| `CouncilLoops.SequentialSafety` | src/coordinator.rs:51-80 | hence the council safety of every interleaving holds of the sequential handlers |
| `CouncilLoops.OverlapExceedsBudget` | src/coordinator.rs:388-396 | handlers that decide on one snapshot send any number of synthesis prompts in one session, so the budget needs them one after the other |
| `CouncilLoops.OverBudgetMeansSharedCount` | src/coordinator.rs:388-396 | in every interleaving a session exceeds its synthesis budget only if two of its prompts were decided on one attempt count |
| `Hub.StackExplained` | src/state.rs:449-504 | over every run a bot's stack holds exactly its live registrations in the order they were pushed |
| `Hub.UniqueGenerations` | src/state.rs:449-452 | no two registrations ever share a generation |
| `Hub.StacksAreNotSorted` | src/state.rs:449-460 | a run that leaves a stack in the opposite order of its generations |
| `Hub.HubSafety` | src/state.rs:449-514 | connected exactly when a registration is live, no empty stack, sends go to the latest live registration, and unregistering answers true exactly on the step from one live connection to none |
| `Outbox.PendingExact` | src/store.rs:4511-4520 | the pending read lists exactly the undelivered rows of the bot, ascending, as stored |
| `Outbox.StepKeepsInv` | src/state.rs:520-546 | enqueue, purge, read, send, acknowledge and crash all keep the ordering invariant of every bot |
| `Outbox.RunBounded` | src/state.rs:520-546 | repeated frames plus frames that may still be repeated never exceed the lost acknowledgements |
| `Outbox.OutboxSafety` | src/state.rs:520-546 | over every run: repeats are bounded by crashes and failed acknowledgements between send and ack; without one, frames go out in strictly increasing order; no frame ever overtakes an unsent earlier one |
| `OutboxKeys.RunSucceeds` | src/store.rs:4493-4509 | over every run each row is stored or was purged, and a row of a key was purged before the next of that key was queued |
| `OutboxKeys.OnlyQueuedIsSent` | src/state.rs:533-541 | only rows that were queued are ever held or sent, as they were queued |
| `OutboxKeys.KeyRepeats` | src/state.rs:594-605 | while no acknowledgement is lost, a key goes out twice only if a purge had removed the earlier row before the later frame was sent |
| `OutboxKeys.KeysOnce` | src/state.rs:594-605 | a key none of whose rows is purged goes out at most once, whatever is purged besides |
| `OutboxKeys.RearmedKeyRepeats` | src/store.rs:4531-4546 | a fault-free run in which a purge precedes both sends of one key |
| `OutboxTables.EnqueueExact` | src/store.rs:4493-4509 | a frame is stored under the next number exactly when no row has its key; otherwise nothing changes |
| `OutboxTables.PurgeExact` | src/store.rs:4531-4547 | a purge takes exactly the rows of the named sessions and bot |
| `OutboxTables.AckExact` | src/store.rs:4522-4529 | an acknowledgement marks the frame in flight and only that |
| `OutboxTables.NothingIsLost` | src/state.rs:520-606 | over every run a queued frame no later purge is meant for stays as queued, is listed until marked delivered, and is marked only after it was sent |
| `AppState.AppState.RegisterConn` | src/state.rs:449-470 | a registration is a draw and a push, and makes its connection the current one |
| `AppState.AppState.UnregisterConn` | src/state.rs:477-504 | removes the generation and answers as the hub model does |
| `AppState.AppState.SendToBot` | src/state.rs:508-514 | a frame goes to the newest connection, or nowhere, and the answer says which |
| `AppState.AppState.FlushOutbox` | src/state.rs:520-546 | everything listed goes out in order or nothing does; failed reads and ignored acknowledgement errors included, the whole flush is a run of outbox steps |
| `AppState.AppState.DeliverEvent` | src/state.rs:550-606 | an ended session delivers nothing; a frame that cannot be queued is sent directly and leaves the outbox alone; otherwise queueing and flushing is exactly the given run of outbox steps |
| `AppState.KeysTellApart` | src/state.rs:585-600 | the keys of two frames differ unless bot and message are the same, as long as bot ids hold no colon; a pair with a colon that coincides |
| `AppState.AppState.IsConnected` | src/state.rs:608-612 | with no empty stack stored, presence in the hub is having a current connection |
| `ActionRuns.BeginFacts` | src/store.rs:2215-2508 | admission loses nothing stored; a replay is the stored response of the same request; a start means the action was unknown |
| `ActionRuns.StepKeepsInv` | src/controller_api.rs:949-1267 | every step of every thread keeps one begin and one execution per action and every answer true |
| `ActionRuns.JournalSafety` | src/controller_api.rs:949-1267 | over every run an action is interpreted at most once, every caller is told the one stored response and only for the admitted request, and only the admitted thread interprets |
| `ActionRuns.SealedForever` | src/controller_api.rs:724-733 | once no thread can finish an action, nobody is ever told a response for it |
| `ActionRuns.CrashIsNeverCompleted` | src/controller_api.rs:1029-1178 | a crash between admission and completion is only ever reported as processing or unknown, whatever follows |
| `ActionRuns.UnknownIsFinal` | src/store.rs:2357-2373 | an unknown outcome told to a retry is final, even if the first thread is still running |
| `ActionRuns.ReconciliationIsProvisional` | src/controller_api.rs:724-733 | a concrete run in which reconciliation says unknown and later completed |
| `ActionOutcomes.UnsealedCanComplete` | src/controller_api.rs:1029-1267 | an undecided action that is not sealed can still be completed: its thread only has to go on |
| `ActionOutcomes.UndecidedForEverExactlyWhenSealed` | src/controller_api.rs:724-733 | an undecided action stays undecided whatever follows exactly when it is sealed |
| `ActionOutcomes.ReconciledUnknownIsFinal` | src/controller_api.rs:724-733 | an unknown outcome read by reconciliation is final exactly when the action is sealed |
| `TriggerOwnership.TriggersOwned` | src/store.rs:2391-2461 | over every run a claimed trigger keeps its scope, its sessions lie in that scope, and at most one is current |
| `TriggerOwnership.OpenDecision` | src/store.rs:2391-2466 | over every run: an open is refused for its trigger exactly when another scope claimed it; otherwise it is deduplicated exactly to a live current session with the same present fingerprint, supersedes exactly a live current one without, and creates exactly when none is live |
| `TriggerOwnership.CompletionAccepted` | src/store.rs:2510-2596 | a thread that has run can complete exactly unless a retry declared its outcome unknown |
| `ActionTables.RetryAnswers` | src/store.rs:2215-2373 | what a repeated action id is answered, by request hash, stored phase and lease, and the one table change it can cause |
| `ActionTables.DenialExact` | src/store.rs:2215-2508 | exactly what is refused, and that a refusal changes nothing |
| `ActionTables.StartExact` | src/store.rs:2391-2508 | an admitted new action is recorded as processing, its trigger claimed, nothing else touched |
| `ActionTables.CompletionExact` | src/store.rs:2510-2616 | exactly when a completion is accepted; it stores the response and makes the new session the only current one of its trigger |
| `ActionTables.RunExact` | src/controller_api.rs:1029-1178 | a deduplicated open interprets nothing and answers with the session it found; anything else is interpreted |
| `ActionTables.OpenedIsCurrent` | src/store.rs:2510-2596 | over every run a completed open leaves its session as the only current one of the trigger |
| `ActionTables.ReportExact` | src/controller_api.rs:724-733 | what reconciliation reports, by scope, phase and lease |
| `ActionApi.ActionApi.BeginControllerAction` | src/store.rs:2215-2508 | the table updates are the specified admission |
| `ActionApi.ActionApi.FinishControllerAction` | src/store.rs:2510-2616 | the table updates are the specified completion, or nothing changes |
| `ActionApi.ActionApi.ExecuteActionRequest` | src/controller_api.rs:949-1267 | one request is the run of one thread: same tables, same answer, interpreted exactly when that run executes |
| `EventDelivery.RunKeepsAccount` | src/store.rs:2748-2858 | every claim is paid for by the enqueue, a reclaim or a scheduled retry, and every attempt belongs to one worker |
| `EventDelivery.DeliverySafety` | src/controller_events.rs:262-361 | over every run with any number of workers, posts are at most four plus the reclaimed leases, and a dead letter needs the fourth attempt or the five-minute window |
| `EventDelivery.EnqueueExact` | src/store.rs:1579-1595 | an event is stored once, due at once and untried |
| `EventDelivery.ClaimExact` | src/store.rs:2771-2806 | a due pending event is claimed for thirty seconds and its attempt counted; nothing else is |
| `EventDelivery.ExpiryExact` | src/store.rs:2755-2760 | a claim goes back to pending exactly when its lease is over |
| `EventDelivery.SettleExact` | src/controller_events.rs:288-322 | settling a row in delivery stores delivered exactly on success, a retry due 10, 30 or 90 seconds after the claim for the first three attempts within five minutes, and a dead letter otherwise; a settled row is not touched |
| `EventDelivery.RunTells` | src/store.rs:2812-2858 | over every run a delivered row had a signed success, and a row is a dead letter exactly when giving it up was recorded |
| `EventDelivery.TerminalIsFinal` | src/store.rs:2812-2858 | delivered and dead rows never change or get claimed again |
| `Dispatcher.Dispatcher.ClaimControllerEvents` | src/store.rs:2748-2810 | sweeps expired leases and claims the first due event in the stored order, if any |
| `Dispatcher.FirstDueMeans` | src/store.rs:2762-2771 | the claimed event precedes every due one by due time, then age, then row |
| `Dispatcher.Dispatcher.DispatchOnce` | src/controller_events.rs:262-361 | one turn, with a failed claim or settlement too, is a run of delivery steps; it claims nothing only when nothing is due, and leaves the claimed row delivered, due again, dead or leased as the answer says |
| `Closing.CanonicalIsStable` | crates/github-pr-controller/src/closing.rs:36-44 | a canonical commit id reads as itself |
| `Closing.VerifiedMeansSameCommit` | crates/github-pr-controller/src/closing.rs:319-390 | verified exactly when target and reviewed sha are full ids of one commit |
| `Closing.IntegrityExact` | crates/github-pr-controller/src/closing.rs:319-390 | when each disposition is given, by the two raw shas |
| `Closing.PlanRecords` | crates/github-pr-controller/src/closing.rs:142-308 | decision, counts, sha and findings a review plan records: the trailer's, with the reviewed or target sha |
| `Closing.WaiversExact` | crates/github-pr-controller/src/closing.rs:237-248 | the fired waivers are the ids of the waived findings that name one, in order |
| `Closing.AskPlan` | crates/github-pr-controller/src/closing.rs:149-176 | closing an ask publishes one comment and claims nothing |
| `Closing.InsufficientPlan` | crates/github-pr-controller/src/closing.rs:86-133 | the plan for too few reviewers is a notice with at most an error status and records nothing authoritative |
| `Closing.GateBindsToRound` | crates/github-pr-controller/src/lib.rs:2404-2556 | a status or review planned for a verified commit is let through exactly when the round on record is verified for that commit |
| `Closing.PlanShape` | crates/github-pr-controller/src/closing.rs:142-449 | a review session's plan is a verified comment, status and review on one commit, or a notice with at most an error status |
| `Closing.DecideClose` | crates/github-pr-controller/src/closing.rs:142-308 | the pushed plan is the specified one |
| `Closing.ReviewNeedsProof` | crates/github-pr-controller/src/closing.rs:142-449 | a review is planned exactly for a verified verdict, then status and review carry that commit; otherwise nothing authoritative is written |
| `Closing.PlannedWritesPassTheGate` | crates/github-pr-controller/src/lib.rs:2404-2556 | the drain's authority check never refuses a write planned for the recorded round |
| `VerdictTrailer.ReadCounts` | crates/github-pr-controller/src/verdict.rs:126-135 | the loop over the counts computes the specified counts or rejects |
| `VerdictTrailer.CountsMean` | crates/github-pr-controller/src/verdict.rs:126-135 | the counts are accepted exactly when every part is one, and each colour is the last number given for it |
| `VerdictTrailer.ParseVerdictTrailer` | crates/github-pr-controller/src/verdict.rs:116-170 | the whole parser computes the specified trailer, which is consistent and, by `TrailerReading.ParseExact`, the one the text spells |
| `VerdictTrailer.ParsedTrailerConsistent` | crates/github-pr-controller/src/verdict.rs:136-160 | no text parses to an approval beside blocking counts or to another word |
| `TrailerReading.UnfencedExact` | crates/github-pr-controller/src/verdict.rs:102-111 | what is read is every second piece of the text cut at its fences from the left |
| `TrailerReading.LastNonBlankExact` | crates/github-pr-controller/src/verdict.rs:116-117 | the line is the last one outside fences that is not blank, trimmed |
| `TrailerReading.InnerExact` | crates/github-pr-controller/src/verdict.rs:118-120 | the trailer stands between the last opening marker of that line and the first closing one after it |
| `TrailerReading.SpellsExact` | crates/github-pr-controller/src/verdict.rs:121-160 | the words are a trailer exactly when a decision word is followed by counts; it approves exactly when nothing blocks and both red and yellow are counted or the word is `approve` |
| `TrailerReading.ParseExact` | crates/github-pr-controller/src/verdict.rs:102-170 | for every text: a trailer is parsed exactly when the last line said outside fences holds it between its markers, and it is the one spelled there |
| `TrailerReading.NumberExact` | crates/github-pr-controller/src/verdict.rs:128-128 | decimal numbers with an optional sign are read up to the largest signed 64-bit one, negative ones but zero refused |
| `TextLaws.WordsLaw` | crates/github-pr-controller/src/verdict.rs:121-122 | the words are what stands between white space |
| `TextLaws.SplitUndoesJoin` | crates/github-pr-controller/src/closing.rs:613-630 | splitting undoes joining exactly on lines without breaks, without a carriage return before a break and without an empty end |
| `TextLaws.JoinUndoesSplit` | crates/github-pr-controller/src/closing.rs:613-630 | joining undoes splitting exactly on texts whose line ends are single line feeds and that do not end in one |
| `TextLaws.FindingsSpan` | crates/github-pr-controller/src/closing.rs:548-556 | the findings block runs from the first opening to the first closing after it |
| `TextLaws.CommentCases` | crates/github-pr-controller/src/closing.rs:585-611 | what is published without a trailer or without an anchor |
| `TextLaws.UnfenceLaw` | crates/github-pr-controller/src/closing.rs:637-662 | the first fence pair goes exactly when only a table stands between, and the rest follows the same rule |
| `TextLaws.FenceMeans` | crates/github-pr-controller/src/closing.rs:641-645 | a fence is a line that starts, after white space, with three backticks |
| `TextLaws.MachineMeans` | crates/github-pr-controller/src/closing.rs:613-628 | a machine line is blank or says `[done]` and nothing else |
| `TextLaws.TableMeans` | crates/github-pr-controller/src/closing.rs:645-655 | a table has a row and nothing but rows and blank lines |
| `CommentBody.UnfenceTables` | crates/github-pr-controller/src/closing.rs:637-662 | the loop computes the specified unfencing |
| `CommentBody.OnlyFencesGo` | crates/github-pr-controller/src/closing.rs:637-662 | the non-fence lines stay, all of them and in order |
| `CommentBody.CutReport` | crates/github-pr-controller/src/closing.rs:613-628 | truncating at the verdict line and popping machine lines computes the specified span |
| `CommentBody.RenderComment` | crates/github-pr-controller/src/closing.rs:585-630 | the truncating and popping loops compute the specified comment |
| `CommentBody.PublishedIsTheReport` | crates/github-pr-controller/src/closing.rs:585-630 | with anchor and trailer the comment is the span from the last anchor to the first verdict line, less trailing machine lines and fences |
| `CommentBody.NoiseBeforeIsIgnored` | crates/github-pr-controller/src/closing.rs:585-611 | nothing before the last anchor influences the comment |
| `CommentBody.OnlyFindingsWithoutAnchor` | crates/github-pr-controller/src/closing.rs:548-611 | without an anchor the comment depends on the text only through its findings block |
| `ReportAudit.ValidateCandidates` | scripts/review_round_weekly_report.py:743-750 | the candidate loop keeps exactly the passing receipts and notices every other |
| `ReportAudit.BindWrite` | scripts/review_round_weekly_report.py:721-757 | binding a write to its receipts computes the specified binding |
| `ReportAudit.ProveRows` | scripts/review_round_weekly_report.py:895-922 | the table of bindings proves exactly what each row proves on its own |
| `ReportAudit.ClassifySession` | scripts/review_round_weekly_report.py:812-935 | the whole decision computes the specified category, whose exact conditions `AuditVerdicts.ClassifyExact` gives |
| `ReportAudit.ReliableIsShown` | scripts/review_round_weekly_report.py:812-935 | reliable means that recorded receipts show a visible comment and the decision's status and review on the very commit target and round name |
| `AuditVerdicts.BindExact` | scripts/review_round_weekly_report.py:721-757 | a write is bound exactly when its payload parses, it has receipts, all pass and all name one provider object; the proof is the earliest |
| `AuditVerdicts.ShapeExact` | scripts/review_round_weekly_report.py:889-893 | the terminal rows are the expected kinds exactly when there is one row of each and no other |
| `AuditVerdicts.ExpectExact` | scripts/review_round_weekly_report.py:866-888 | what a round leads the report to expect: a failure notice, a verdict on the target commit, or nothing |
| `AuditVerdicts.ClassifyExact` | scripts/review_round_weekly_report.py:812-935 | every category exactly: superseded by event; reliable by a verified round shown on the target commit; a visible failure by a visible tombstone after a timeout, or by a failure round shown with its comment and, with a full target commit, an error status on it |
| `PlannerAuditor.PlannerAuditorAgree` | scripts/review_round_weekly_report.py:812-935 | a planned and faithfully carried out session is reliable exactly when verified with a consistent trailer, a visible failure when not verified, and pending only for a contradictory trailer |
| `PlannerAuditor.ReadersAgree` | scripts/review_round_weekly_report.py:213-216 | the report reads commit ids and tells diagnostic dispositions exactly as the planner does |
| `PlannerAuditor.InsufficientReviewersAgree` | crates/github-pr-controller/src/closing.rs:86-133 | the plan for too few reviewers is always judged a visible failure |
| `PlannerAuditor.ParsedVerdictsAreNeverPending` | scripts/review_round_weekly_report.py:812-935 | a session whose trailer came out of the parser is reliable when verified and a visible failure otherwise, never pending |
| `AuditDedupe.CollectAudit` | scripts/review_round_weekly_report.py:374-389 | the dictionaries hold the first row of every id, and the conflict names are those of disagreeing ids and keys and no others |
| `AuditDedupe.DedupeAudit` | scripts/review_round_weekly_report.py:373-396 | exactly the surviving rows, sorted, with distinct ids |
| `AuditDedupe.NoConflictMeansAgreement` | scripts/review_round_weekly_report.py:1411-1418 | the conflict set is empty exactly when no two rows of one id or one key disagree |
| `AuditDedupe.SurvivorsAgree` | scripts/review_round_weekly_report.py:391-395 | survivors never disagree about a shared key |
| `AuditDedupe.SurvivesExactly` | scripts/review_round_weekly_report.py:373-396 | with colon-free service names a row survives exactly when it is first of its id and neither its id nor its key has disagreeing rows |
| `AuditDedupe.ColonDropsARow` | scripts/review_round_weekly_report.py:386-393 | a concrete row dropped because of a colon in another service's name |
| `StampOrder.InsertKeepsOrder` | scripts/review_round_weekly_report.py:396-396 | sorting by time, sequence number and id keeps every earlier placement in order |
| `StampOrder.OrderMeans` | scripts/review_round_weekly_report.py:396-396 | time decides, then sequence number, then id, and of two different stamps one comes first |
| `Cohort.CompletedActions` | scripts/review_round_weekly_report.py:534-552 | a key joins to a session exactly when all its completions agree |
| `Cohort.ReadAcceptances` | scripts/review_round_weekly_report.py:559-582 | the two tables hold each group's rows or its running candidate |
| `Cohort.AcceptedCandidates` | scripts/review_round_weekly_report.py:555-598 | exactly one candidate per session, key or lone event of the week, the earliest or first, in order, with its conflict flag |
| `Cohort.CandidatesNameSessionsOnce` | scripts/review_round_weekly_report.py:584-590 | accepted candidates never name a session twice |
| `Cohort.CountCohort` | scripts/review_round_weekly_report.py:1428-1471 | asks and unknown count exactly the candidates of their kind, the accepted total is eligible sessions plus asks plus unknown, and each reliability category counts exactly the eligible sessions of that category |
| `Cohort.WeeklyCohort` | scripts/review_round_weekly_report.py:1428-1471 | the joined candidates of the week are each counted once, classified by the session classification, and a session counted reliable is demonstrated by its receipts |
| `CohortLaws.JoinExact` | scripts/review_round_weekly_report.py:534-552 | a key is joined to a session exactly when a row completed it so and no two completions differ; it is in conflict exactly when two do |
| `CohortLaws.CandidateExact` | scripts/review_round_weekly_report.py:555-590 | which acceptance stands for a session, a key or a lone event, and exactly when it is in conflict |
| `CohortLaws.KindsExact` | scripts/review_round_weekly_report.py:1434-1450 | exactly when a candidate is unknown, an ask or eligible |
| `StructuredOutput.RejectUnexpectedTools` | scripts/review_model_adapters.py:418-582 | the nested loops compute the specified verdict |
| `StructuredOutputSpec.EventsAreTokens` | scripts/review_model_adapters.py:418-582 | reading events is folding the recogniser over their tokens |
| `StructuredOutputSpec.AcceptsExactlyTheProtocol` | scripts/review_model_adapters.py:418-582 | accepted with attempts exactly when: declared first, alternating calls and results with matching distinct ids, at most eight attempts of which only the last succeeds, one envelope after them all |
| `StructuredOutputSpec.AcceptsSilence` | scripts/review_model_adapters.py:418-582 | accepted without attempts exactly for streams with no call or result and no early envelope |
| `StructuredOutputSpec.CompletionExact` | scripts/review_model_adapters.py:523-545 | exactly when a result block reports success or failure |
| `StructuredOutputSpec.TailExact` | scripts/review_model_adapters.py:562-574 | exactly which extra result an event may carry |
| `StructuredOutputSpec.MetadataExact` | scripts/review_model_adapters.py:463-473 | nothing is loaded and no tool but the one is declared |
| `StructuredOutputSpec.OutputExact` | scripts/review_model_adapters.py:585-613 | an event array gives an output exactly when the stream follows the protocol, its last envelope carries the output without an error report, and it is the input of the last attempt, if any |
| `StructuredOutputSpec.OutputIsTheFinalInput` | scripts/review_model_adapters.py:585-613 | an accepted envelope's output equals the input of the successful final call |
| `Evaluation.ExecutorPasses` | scripts/review_model_oci_executor.py:1057-1109 | the executor passes exactly when both controls are valid |
| `Evaluation.ValidShowsClaim` | scripts/review_model_oci_executor.py:1034-1049 | a valid control shows the claim its expectation states and carries no failure reason |
| `Evaluation.ControlExact` | scripts/review_model_oci_executor.py:1004-1049 | exactly when a control is valid, over everything its container did |
| `Evaluation.ReasonExact` | scripts/review_model_oci_executor.py:1004-1049 | exactly which reason an invalid control carries |
| `Evaluation.SubsetMeans` | scripts/review_model_oci_executor.py:193-199 | observations match exactly when every path of the expected one holds an equal value, or an object, in the actual one |
| `Evaluation.BlockedExactly` | scripts/review_model_oci_executor.py:1085-1093 | the environment is blamed exactly when it held a container back and none ran into a limit |
| `Evaluation.BaselineClaimExact` | scripts/review_model_evaluation.py:1951-1966 | a claim is read exactly when one is given and none contradicts it |
| `Evaluation.ValidationExact` | scripts/review_model_evaluation.py:1977-2018 | the controller records the status, controls and claim the executor reported |
| `Evaluation.ClassificationExact` | scripts/review_model_evaluation.py:2159-2205 | how an item is classified, scoreable or not |
| `Evaluation.RecheckAgrees` | scripts/review_model_evaluation.py:1977-2004 | the controller's recheck accepts exactly the executions the executor passed, which end in success with the expected baseline claim |
| `Evaluation.ScoreableMeans` | scripts/review_model_evaluation.py:2159-2205 | exactly when an item is scoreable, in terms of execution, both judges and the synthesis |
| `Evaluation.ScoredAsPlanned` | scripts/review_model_evaluation.py:2006-2018 | a scored item has the direction its plan's baseline expected, with both controls valid |
| `Evaluation.DecideState` | scripts/review_model_evaluation.py:2471-2490 | complete exactly when discovery, source and every item qualify, the other guards being implied; failed exactly when nothing was produced |
| `Investigation.CorrelationLinks` | src/bin/openabctl.rs:260-280 | the links of a record are exactly the correlations it carries, all eight fields |
| `Investigation.AddEvents` | src/bin/openabctl.rs:230-258 | adds only the given records, queues every link of a new one, and drops a record exactly when the bundle is full |
| `Investigation.QueryOne` | src/bin/openabctl.rs:175-194 | one logged read, what it adds and the gap it leaves |
| `Investigation.QueryServices` | src/bin/openabctl.rs:174-195 | both services are asked, all they return is added unless the bundle is full, and every failure or empty answer leaves its gap |
| `Investigation.ReadsOnce` | src/bin/openabctl.rs:159-163 | links asked for once each are read once each from either service, and no others are |
| `Investigation.GapsExact` | src/bin/openabctl.rs:175-194 | the gaps of the reads are exactly those of reads that failed or found nothing |
| `Investigation.Investigate` | src/bin/openabctl.rs:131-203 | terminates, reads each link at most once from either service, reports exactly the gaps of those reads and of the limits, never collects more than a closed set must hold, and without a failure or limit gap yields exactly the least closed set; the expansion limit is reported exactly when a found link was not followed, after all queries were spent, and the event limit exactly when a returned record is missing from a full bundle |
| `TomlString.TomlString` | src/api.rs:1391-1423 | the loop's output reads back as the value and holds no control character |
| `TomlString.RoundTrip` | src/api.rs:1391-1423 | a reader written from the grammar of TOML v1.0.0 returns every printed value |
| `TomlString.Injective` | src/api.rs:1391-1423 | two values never print alike |

## Left out

- CouncilBudget.SessionBudget: the bound is for signals handled one after the other; `CouncilLoops.OverlapExceedsBudget` shows that overlapping handlers need not keep it.
- Solo and pipeline coordinators, prompt texts, starters and text-done rules: single branches each.
- Wording, latency figures, Markdown rendering, cost and human metrics: they decide nothing that is modelled.
- Direct protocol replies to a bot: they bypass the outbox.
- Several processes on one outbox table, and reads that skip undecodable rows: not part of this model.
- Credentials, grants, quotas and rate windows of admission: one flag each, chosen freely by the environment.
- Execution inside the interpreter: one step with any response.
- Session recovery in reconciliation: only the reported state and response are modelled.
- The order in which pages of an audit read arrive and the final sort of the bundle: an audit read is one answer that is complete unless it reports an error.
- Row validation before deduplication and table indexes of the report: rows are taken as validated.
- Float payloads that are not finite: rejected before the modelled code.
- Docker, process and file handling of the executor: one outcome per container.
- Evaluation.ReasonExact: output that cannot be read as a result has one reason here, whatever the reader complained about.
- Plan validation of the executor: only what it guarantees of the two controls.
- PlannerAuditor.PlannerAuditorAgree: assumes that the stored payload text parses back to the planned payload and that receipts name their write by id and digest.
- CommentBody.CommentBody: which characters are white space is left open.
- TextLaws.FenceMeans: for any white space that does not include the backtick.
- TextLaws.MachineMeans: for any white space that does not include the brackets.
- SQL, HTTP, WebSocket, signing and configuration code: input and output only.
