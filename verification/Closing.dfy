/** Turning a closed session into GitHub writes: the planner, and the gate and receipts of its drain. */
module Closing {
  import opened Collections
  import opened Json

  datatype Trailer = Trailer(decision: string, red: Option<int>, yellow: Option<int>, green: Option<int>)

  datatype Finding = Finding(id: string, status: string, waiverId: Option<string>)

  datatype FindingsBlock = FindingsBlock(headSha: Option<string>, findings: seq<Finding>)

  datatype Parsed = Parsed(trailer: Option<Trailer>, findings: Option<FindingsBlock>)

  datatype Target = Target(repo: string, prNumber: int, headSha: Option<string>)

  /** The rendered texts of a plan; how they are worded decides nothing. */
  datatype Wording = Wording(comment: string, review: string, description: string, notice: string)

  datatype Write = Write(kind: string, payload: Object)

  datatype Plan = Plan(
    decision: string, red: int, yellow: int, green: int, headSha: Option<string>,
    verifiedCommitId: Option<string>, disposition: string,
    findings: seq<Finding>, firedWaivers: seq<string>, writes: seq<Write>)

  const STATUS_CONTEXT := "openab/council"

  // ---- commit ids and trailers ----

  predicate IsHex(c: char) {
    '0' <= c <= '9' || 'a' <= c <= 'f' || 'A' <= c <= 'F'
  }

  function LowerChar(c: char): char {
    if 'A' <= c <= 'Z' then (c as int + 32) as char else c
  }

  function Lower(s: string): string {
    seq(|s|, i requires 0 <= i < |s| => LowerChar(s[i]))
  }

  function CanonicalCommitId(value: string): Option<string> {
    if |value| == 40 && forall i :: 0 <= i < |value| ==> IsHex(value[i]) then Some(Lower(value)) else None
  }

  /** A canonical id is a fixed point: reading it again, by either service, yields itself. */
  lemma CanonicalIsStable(value: string)
    requires CanonicalCommitId(value).Some?
    ensures CanonicalCommitId(CanonicalCommitId(value).value) == CanonicalCommitId(value)
  {
    var id := CanonicalCommitId(value).value;
    assert forall i :: 0 <= i < |id| ==> IsHex(value[i]) && id[i] == LowerChar(value[i]) && IsHex(id[i])
                                         && LowerChar(id[i]) == id[i];
    assert Lower(id) == id;
  }

  function OrZero(n: Option<int>): int {
    if n.Some? then n.value else 0
  }

  predicate Blocking(t: Trailer) {
    OrZero(t.red) > 0 || OrZero(t.yellow) > 0
  }

  predicate RequestsChanges(t: Trailer) {
    Blocking(t) || t.decision == "request_changes"
  }

  /** A decision word this service emits, never `approve` beside blocking counts. */
  predicate Consistent(t: Trailer) {
    t.decision in {"approve", "request_changes"} && (Blocking(t) ==> t.decision == "request_changes")
  }

  // ---- integrity ----

  datatype Integrity = Integrity(disposition: string, target: Option<string>, verified: Option<string>,
                                 reviewed: Option<string>)

  function ClassifyIntegrity(target: Target, parsed: Parsed): Integrity {
    if target.headSha.None? || target.headSha.value == "" then Integrity("missing_target", None, None, target.headSha)
    else
      var t := CanonicalCommitId(target.headSha.value);
      if t.None? then Integrity("invalid_target", None, None, target.headSha)
      else if parsed.findings.None? || parsed.findings.value.headSha.None?
              then Integrity("missing_reviewed_sha", t, None, None)
      else
        var raw := parsed.findings.value.headSha.value;
        if raw == "" then Integrity("missing_reviewed_sha", t, None, Some(raw))
        else
          var reviewed := CanonicalCommitId(raw);
          if reviewed.None? then Integrity("invalid_reviewed_sha", t, None, Some(raw))
          else if reviewed != t then Integrity("reviewed_sha_mismatch", t, None, Some(raw))
          else Integrity("verified", reviewed, reviewed, reviewed)
  }

  const DIAGNOSTIC: set<string> := {
    "unparseable", "insufficient_valid_reviewers", "missing_target", "invalid_target",
    "missing_reviewed_sha", "invalid_reviewed_sha", "reviewed_sha_mismatch"}

  function TargetCommit(target: Target): Option<string> {
    if target.headSha.None? then None else CanonicalCommitId(target.headSha.value)
  }

  /** The proof behind a verified round: both shas are full commit ids and name the same commit. */
  lemma VerifiedMeansSameCommit(target: Target, parsed: Parsed)
    ensures var i := ClassifyIntegrity(target, parsed);
            && (i.disposition == "verified" <==> i.verified.Some?)
            && (i.disposition == "verified" <==>
                  && TargetCommit(target).Some? && parsed.findings.Some? && parsed.findings.value.headSha.Some?
                  && CanonicalCommitId(parsed.findings.value.headSha.value) == TargetCommit(target))
            && (i.disposition != "verified" ==> i.disposition in DIAGNOSTIC)
            && i.target == TargetCommit(target) && (i.verified.Some? ==> i.verified == i.target)
  {
  }

  // ---- the plans ----

  function RoundMarker(session: string): string {
    "<!-- openab-round:" + session + " -->"
  }

  function Marked(text: string, session: string): string {
    text + "\n\n" + RoundMarker(session)
  }

  function CommentWrite(target: Target, commentId: Option<int>, body: string): Write {
    Write("comment", map["repo" := Str(target.repo), "pr_number" := Int(target.prNumber),
                         "comment_id" := if commentId.Some? then Int(commentId.value) else Null, "body" := Str(body)])
  }

  function StatusWrite(target: Target, sha: string, state: string, description: string): Write {
    Write("status", map["repo" := Str(target.repo), "sha" := Str(sha), "commit_id" := Str(sha), "state" := Str(state),
                        "context" := Str(STATUS_CONTEXT), "description" := Str(description)])
  }

  function ReviewWrite(target: Target, event: string, commit: string, body: string): Write {
    Write("review", map["repo" := Str(target.repo), "pr_number" := Int(target.prNumber), "event" := Str(event),
                        "commit_id" := Str(commit), "body" := Str(body)])
  }

  function StatusState(trailer: Option<Trailer>): string {
    if trailer.None? then "error" else if RequestsChanges(trailer.value) then "failure" else "success"
  }

  function ErrorWrites(target: Target, commentId: Option<int>, session: string, w: Wording): seq<Write> {
    [CommentWrite(target, commentId, Marked(w.notice, session))]
    + (if TargetCommit(target).Some? then [StatusWrite(target, TargetCommit(target).value, "error", w.description)]
       else [])
  }

  function PlanInsufficientReviewers(target: Target, session: string, w: Wording): Plan {
    Plan("unknown", 0, 0, 0, target.headSha, None, "insufficient_valid_reviewers", [], [],
         ErrorWrites(target, None, session, w))
  }

  function PlanIntegrityFailure(target: Target, t: Trailer, commentId: Option<int>, session: string, i: Integrity,
                                w: Wording): Plan {
    Plan("sha_integrity_failed", OrZero(t.red), OrZero(t.yellow), OrZero(t.green), i.reviewed, i.verified,
         i.disposition, [], [],
         [CommentWrite(target, commentId, Marked(w.notice, session))]
         + (if i.target.Some? then [StatusWrite(target, i.target.value, "error", w.description)] else []))
  }

  function FindingsOf(parsed: Parsed): seq<Finding> {
    if parsed.findings.Some? then parsed.findings.value.findings else []
  }

  function WaiversOf(findings: seq<Finding>): seq<string> {
    if findings == [] then []
    else
      var last := findings[|findings| - 1];
      WaiversOf(findings[..|findings| - 1]) + (if last.status == "waived"
                                               && last.waiverId.Some? then [last.waiverId.value] else [])
  }

  function ReviewEvent(t: Trailer): string {
    if RequestsChanges(t) then "REQUEST_CHANGES" else "APPROVE"
  }

  function UnparseableIntegrity(target: Target, parsed: Parsed): Integrity {
    Integrity("unparseable", TargetCommit(target), None,
              if parsed.findings.Some? && parsed.findings.value.headSha.Some? then parsed.findings.value.headSha
                 else target.headSha)
  }

  function PlanClose(target: Target, parsed: Parsed, commentId: Option<int>, session: string, isAsk: bool,
                     w: Wording): Plan {
    if isAsk then
      Plan("ask", 0, 0, 0, target.headSha, None, "ask", [], [],
           [CommentWrite(target, commentId, Marked(w.comment, session))])
    else
      var i := if parsed.trailer.Some? then ClassifyIntegrity(target, parsed) else UnparseableIntegrity(target, parsed);
      if parsed.trailer.Some? && i.disposition != "verified" then
        PlanIntegrityFailure(target, parsed.trailer.value, commentId, session, i, w)
      else
        var writes :=
          [CommentWrite(target, commentId, Marked(w.comment, session))]
          + (if i.target.Some? then [StatusWrite(target, i.target.value, StatusState(parsed.trailer), w.description)]
             else [])
          + (if parsed.trailer.Some? && i.verified.Some? then
               [ReviewWrite(target, ReviewEvent(parsed.trailer.value), i.verified.value, Marked(w.review, session))]
             else []);
        Plan(if parsed.trailer.Some? then parsed.trailer.value.decision else "unknown",
             if parsed.trailer.Some? then OrZero(parsed.trailer.value.red) else 0,
             if parsed.trailer.Some? then OrZero(parsed.trailer.value.yellow) else 0,
             if parsed.trailer.Some? then OrZero(parsed.trailer.value.green) else 0,
             i.reviewed, i.verified, i.disposition, FindingsOf(parsed), WaiversOf(FindingsOf(parsed)), writes)
  }

  /** The planner as the source writes it, pushing writes in order. */
  method DecideClose(target: Target, parsed: Parsed, commentId: Option<int>, session: string, isAsk: bool, w: Wording)
      returns (plan: Plan)
    ensures plan == PlanClose(target, parsed, commentId, session, isAsk, w)
  {
    if isAsk {
      return Plan("ask", 0, 0, 0, target.headSha, None, "ask", [], [],
                  [CommentWrite(target, commentId, Marked(w.comment, session))]);
    }
    var i: Integrity;
    var red, yellow, green, decision := 0, 0, 0, "unknown";
    if parsed.trailer.Some? {
      var t := parsed.trailer.value;
      red, yellow, green, decision := OrZero(t.red), OrZero(t.yellow), OrZero(t.green), t.decision;
      i := ClassifyIntegrity(target, parsed);
      if i.disposition != "verified" {
        return PlanIntegrityFailure(target, t, commentId, session, i, w);
      }
    } else {
      i := UnparseableIntegrity(target, parsed);
    }
    var findings := FindingsOf(parsed);
    var waivers: seq<string> := [];
    for k := 0 to |findings|
      invariant waivers == WaiversOf(findings[..k])
    {
      assert findings[..k + 1][..k] == findings[..k];
      if findings[k].status == "waived" && findings[k].waiverId.Some? {
        waivers := waivers + [findings[k].waiverId.value];
      }
    }
    assert findings[..|findings|] == findings;
    var writes := [CommentWrite(target, commentId, Marked(w.comment, session))];
    if i.target.Some? {
      writes := writes + [StatusWrite(target, i.target.value, StatusState(parsed.trailer), w.description)];
    }
    VerifiedMeansSameCommit(target, parsed);
    if parsed.trailer.Some? {
      writes := writes + [ReviewWrite(target, ReviewEvent(parsed.trailer.value), i.verified.value,
                                      Marked(w.review, session))];
    }
    return Plan(decision, red, yellow, green, i.reviewed, i.verified, i.disposition, findings, waivers, writes);
  }

  // ---- what every plan promises ----

  predicate HasKind(plan: Plan, kind: string) {
    exists i :: 0 <= i < |plan.writes| && plan.writes[i].kind == kind
  }

  /** The two forms a review session's plan can take. */
  lemma PlanShape(target: Target, parsed: Parsed, commentId: Option<int>, session: string, w: Wording)
    ensures var plan := PlanClose(target, parsed, commentId, session, false, w);
            if plan.disposition == "verified" then
              && parsed.trailer.Some? && plan.verifiedCommitId.Some? && TargetCommit(target) == plan.verifiedCommitId
              && parsed.findings.Some? && parsed.findings.value.headSha.Some?
              && CanonicalCommitId(parsed.findings.value.headSha.value) == plan.verifiedCommitId
              && plan.writes == [
                   CommentWrite(target, commentId, Marked(w.comment, session)),
                   StatusWrite(target, plan.verifiedCommitId.value, StatusState(parsed.trailer), w.description),
                   ReviewWrite(target, ReviewEvent(parsed.trailer.value), plan.verifiedCommitId.value,
                               Marked(w.review, session))]
            else
              && plan.verifiedCommitId.None? && plan.disposition in DIAGNOSTIC
              && (parsed.trailer.Some? ==> plan.findings == [] && plan.firedWaivers == [])
              && plan.writes
                 == [CommentWrite(target, commentId,
                                  Marked(if parsed.trailer.Some? then w.notice else w.comment, session))]
                    + (if TargetCommit(target).None? then []
                       else [StatusWrite(target, TargetCommit(target).value, "error", w.description)])
  {
    hide ClassifyIntegrity, CanonicalCommitId, CommentWrite, StatusWrite, ReviewWrite, Marked, ReviewEvent, WaiversOf;
    VerifiedMeansSameCommit(target, parsed);
  }

  /** A formal review is planned exactly for a verified verdict; then status and review carry the one commit
      both shas name. Without it nothing authoritative is recorded: no findings, no waivers, no commit proof,
      and a status, if any, says error. */
  lemma ReviewNeedsProof(target: Target, parsed: Parsed, commentId: Option<int>, session: string, w: Wording)
    ensures var plan := PlanClose(target, parsed, commentId, session, false, w);
            && (HasKind(plan, "review") <==> plan.disposition == "verified")
            && (plan.disposition == "verified" ==>
                  && plan.verifiedCommitId.Some? && TargetCommit(target) == plan.verifiedCommitId
                  && CanonicalCommitId(parsed.findings.value.headSha.value) == plan.verifiedCommitId
                  && |plan.writes| == 3
                  && plan.writes[1].payload["sha"] == plan.writes[1].payload["commit_id"]
                       == plan.writes[2].payload["commit_id"]
                     == Str(plan.verifiedCommitId.value))
            && (plan.disposition != "verified" ==> plan.verifiedCommitId.None? && plan.disposition in DIAGNOSTIC)
            && (parsed.trailer.Some? && plan.disposition != "verified" ==>
                  plan.findings == [] && plan.firedWaivers == [])
            && (forall i :: 0 <= i < |plan.writes| && plan.writes[i].kind == "status"
                            && plan.disposition != "verified" ==>
                  plan.writes[i].payload["state"] == Str("error"))
  {
    PlanShape(target, parsed, commentId, session, w);
    var plan := PlanClose(target, parsed, commentId, session, false, w);
    hide PlanClose, CanonicalCommitId, Marked;
    if plan.disposition == "verified" {
      assert plan.writes[2].kind == "review";
    }
  }

  /** When each disposition is given, by the two raw shas alone. */
  lemma IntegrityExact(target: Target, parsed: Parsed)
    ensures var d := ClassifyIntegrity(target, parsed).disposition;
            var given := target.headSha.Some? && target.headSha.value != "";
            var full := TargetCommit(target).Some?;
            var reviewed := if parsed.findings.None? then None else parsed.findings.value.headSha;
            var named := reviewed.Some? && reviewed.value != "";
            var read := if named then CanonicalCommitId(reviewed.value) else None;
            && (d == "missing_target" <==> !given)
            && (d == "invalid_target" <==> given && !full)
            && (d == "missing_reviewed_sha" <==> full && !named)
            && (d == "invalid_reviewed_sha" <==> full && named && read.None?)
            && (d == "reviewed_sha_mismatch" <==> full && read.Some? && read != TargetCommit(target))
            && (d == "verified" <==> full && read == TargetCommit(target))
  {
    hide Lower;
  }

  predicate Fires(f: Finding) {
    f.status == "waived" && f.waiverId.Some?
  }

  lemma WaiversStep(findings: seq<Finding>, n: nat)
    requires |findings| == n + 1
    ensures WaiversOf(findings)
            == WaiversOf(findings[..n]) + (if Fires(findings[n]) then [findings[n].waiverId.value] else [])
  {
  }

  /** The fired waivers are the ids of the waived findings that name one, in order; `at` are their places. */
  lemma {:induction false} WaiversExact(findings: seq<Finding>) returns (at: seq<nat>)
    ensures |at| == |WaiversOf(findings)|
    ensures forall t, u :: 0 <= t < u < |at| ==> at[t] < at[u]
    ensures forall t :: 0 <= t < |at| ==> at[t] < |findings| && Fires(findings[at[t]])
                                          && WaiversOf(findings)[t] == findings[at[t]].waiverId.value
    ensures forall i :: 0 <= i < |findings| && Fires(findings[i]) ==> i in at
  {
    if findings == [] { return []; }
    var n := |findings| - 1;
    at := WaiversExact(findings[..n]);
    WaiversStep(findings, n);
    hide WaiversOf;
    if Fires(findings[n]) { at := at + [n]; }
  }

  /** What a plan records besides its writes: the decision and the counts are the trailer's, except that a failed
      proof replaces the decision; the sha is the reviewed one, canonical once verified, and the target's where the
      report names none. */
  lemma PlanRecords(target: Target, parsed: Parsed, commentId: Option<int>, session: string, w: Wording)
    ensures var plan, t := PlanClose(target, parsed, commentId, session, false, w), parsed.trailer;
            var reviewed := if parsed.findings.None? then None else parsed.findings.value.headSha;
            && plan.decision == (if t.None? then "unknown" else if plan.disposition == "verified" then t.value.decision
                                 else "sha_integrity_failed")
            && (t.None? ==> plan.red == plan.yellow == plan.green == 0)
            && (t.Some? ==> plan.red == OrZero(t.value.red) && plan.yellow == OrZero(t.value.yellow)
                            && plan.green == OrZero(t.value.green))
            && plan.headSha == (if plan.disposition == "verified" then plan.verifiedCommitId
                                else if plan.disposition in {"missing_target", "invalid_target"} then target.headSha
                                else if t.None? && reviewed.None? then target.headSha
                                else reviewed)
            && (t.None? || plan.disposition == "verified" ==>
                  plan.findings == FindingsOf(parsed) && plan.firedWaivers == WaiversOf(plan.findings))
  {
    hide CanonicalCommitId, WaiversOf, StatusWrite, CommentWrite, ReviewWrite, Marked, ReviewEvent, StatusState;
  }

  /** Closing an ask publishes its one comment and claims nothing about any commit. */
  lemma AskPlan(target: Target, parsed: Parsed, commentId: Option<int>, session: string, w: Wording)
    ensures var plan := PlanClose(target, parsed, commentId, session, true, w);
            && plan.decision == plan.disposition == "ask" && plan.red == plan.yellow == plan.green == 0
            && plan.headSha == target.headSha && plan.verifiedCommitId == None
            && plan.findings == [] && plan.firedWaivers == []
            && plan.writes == [CommentWrite(target, commentId, Marked(w.comment, session))]
  {
  }

  /** A session with too few reviewers gets a notice and at most an error status, and claims nothing either. */
  lemma InsufficientPlan(target: Target, session: string, w: Wording)
    ensures var plan := PlanInsufficientReviewers(target, session, w);
            && plan.decision == "unknown" && plan.disposition == "insufficient_valid_reviewers"
            && plan.red == plan.yellow == plan.green == 0 && plan.headSha == target.headSha
            && plan.verifiedCommitId == None && plan.findings == [] && plan.firedWaivers == []
            && plan.writes
               == [CommentWrite(target, None, Marked(w.notice, session))]
                  + (if TargetCommit(target).None? then []
                     else [StatusWrite(target, TargetCommit(target).value, "error", w.description)])
  {
  }

  // ---- the drain: authority gate and receipts ----

  datatype Round = Round(decision: string, disposition: string, verifiedCommitId: Option<string>)

  function RoundOf(plan: Plan): Round {
    Round(plan.decision, plan.disposition, plan.verifiedCommitId)
  }

  function CommitOf(v: Json): Option<string> {
    if v.Str? then CanonicalCommitId(v.s) else None
  }

  predicate OccursAt(text: string, part: string, i: nat) {
    i + |part| <= |text| && text[i..i + |part|] == part
  }

  predicate Contains(text: string, part: string) {
    exists i :: 0 <= i <= |text| && OccursAt(text, part, i)
  }

  /** The pre-send check: a success or failure status and a review need the recorded round's proof. */
  predicate AuthorityGate(round: Round, session: string, write: Write) {
    var p := write.payload;
    var status := write.kind == "status" && Get(p, "state") in {Str("success"), Str("failure")};
    var review := write.kind == "review";
    status || review ==>
      && round.disposition == "verified"
      && CommitOf(Get(p, "commit_id")).Some?
      && (status ==> CommitOf(Get(p, "sha")) == CommitOf(Get(p, "commit_id")))
      && (review ==> Get(p, "event") in {Str("APPROVE"), Str("REQUEST_CHANGES")})
      && (review ==> Get(p, "body").Str? && Contains(Get(p, "body").s, RoundMarker(session)))
      && round.verifiedCommitId.Some? && CanonicalCommitId(round.verifiedCommitId.value)
           == CommitOf(Get(p, "commit_id"))
  }

  lemma MarkedContains(text: string, session: string)
    ensures Contains(Marked(text, session), RoundMarker(session))
  {
    var all, part := Marked(text, session), RoundMarker(session);
    var i := |all| - |part|;
    assert OccursAt(all, part, i);
  }

  /** The gate never refuses a write its own controller planned for the round it recorded. */
  lemma PlannedWritesPassTheGate(target: Target, parsed: Parsed, commentId: Option<int>, session: string, isAsk: bool,
                                 w: Wording, k: nat)
    requires k < |PlanClose(target, parsed, commentId, session, isAsk, w).writes|
    ensures var plan := PlanClose(target, parsed, commentId, session, isAsk, w);
            AuthorityGate(RoundOf(plan), session, plan.writes[k])
  {
    hide AuthorityGate, CanonicalCommitId, Marked, CommentWrite, StatusWrite, ReviewWrite;
    var plan := PlanClose(target, parsed, commentId, session, isAsk, w);
    var round := RoundOf(plan);
    GateComments(round, session, target, commentId);
    if !isAsk {
      PlanShape(target, parsed, commentId, session, w);
      hide PlanClose;
      if TargetCommit(target).Some? {
        CanonicalIsStable(target.headSha.value);
        GateErrors(round, session, target, TargetCommit(target).value, w.description);
      }
      if plan.disposition == "verified" {
        var sha, t := plan.verifiedCommitId.value, parsed.trailer;
        GateStatus(round, session, target, sha, StatusState(t), w.description);
        GateReview(round, session, target, ReviewEvent(t.value), sha, w.review);
      }
    }
  }

  lemma GateComments(round: Round, session: string, target: Target, commentId: Option<int>)
    ensures forall body :: AuthorityGate(round, session, CommentWrite(target, commentId, body))
  {
  }

  lemma GateErrors(round: Round, session: string, target: Target, sha: string, description: string)
    ensures AuthorityGate(round, session, StatusWrite(target, sha, "error", description))
  {
  }

  lemma GateStatus(round: Round, session: string, target: Target, sha: string, state: string, description: string)
    requires round.disposition == "verified" && round.verifiedCommitId == Some(sha)
             && CanonicalCommitId(sha) == Some(sha)
    ensures AuthorityGate(round, session, StatusWrite(target, sha, state, description))
  {
    hide CanonicalCommitId;
  }

  lemma GateReview(round: Round, session: string, target: Target, event: string, sha: string, text: string)
    requires round.disposition == "verified" && round.verifiedCommitId == Some(sha)
             && CanonicalCommitId(sha) == Some(sha)
    ensures event in {"APPROVE", "REQUEST_CHANGES"} ==>
              AuthorityGate(round, session, ReviewWrite(target, event, sha, Marked(text, session)))
  {
    MarkedContains(text, session);
    hide CanonicalCommitId, Contains, Marked, RoundMarker;
  }

  /** A status or review planned for a verified commit is let through exactly when the round on record is verified
      for that same commit: a write left over from another commit is refused. */
  lemma GateBindsToRound(target: Target, parsed: Parsed, commentId: Option<int>, session: string, w: Wording,
                         round: Round, k: nat)
    requires PlanClose(target, parsed, commentId, session, false, w).disposition == "verified" && 1 <= k <= 2
    ensures var plan := PlanClose(target, parsed, commentId, session, false, w);
            && |plan.writes| == 3
            && (AuthorityGate(round, session, plan.writes[k]) <==>
                  round.disposition == "verified" && round.verifiedCommitId.Some?
                  && CanonicalCommitId(round.verifiedCommitId.value) == plan.verifiedCommitId)
  {
    PlanShape(target, parsed, commentId, session, w);
    var plan := PlanClose(target, parsed, commentId, session, false, w);
    CanonicalIsStable(target.headSha.value);
    MarkedContains(w.review, session);
    hide PlanClose, CanonicalCommitId, Marked, Contains, RoundMarker;
    var sha, t := plan.verifiedCommitId.value, parsed.trailer;
    assert StatusState(t) in {"success", "failure"} && ReviewEvent(t.value) in {"APPROVE", "REQUEST_CHANGES"};
    if k == 1 {
      GateStatusOnly(round, session, target, sha, StatusState(t), w.description);
    } else {
      GateReviewOnly(round, session, target, ReviewEvent(t.value), sha, w.review);
    }
  }

  lemma GateStatusOnly(round: Round, session: string, target: Target, sha: string, state: string, description: string)
    requires CanonicalCommitId(sha) == Some(sha) && state in {"success", "failure"}
    ensures AuthorityGate(round, session, StatusWrite(target, sha, state, description)) <==>
              round.disposition == "verified" && round.verifiedCommitId.Some?
              && CanonicalCommitId(round.verifiedCommitId.value) == Some(sha)
  {
    hide CanonicalCommitId;
  }

  lemma GateReviewOnly(round: Round, session: string, target: Target, event: string, sha: string, text: string)
    requires CanonicalCommitId(sha) == Some(sha) && event in {"APPROVE", "REQUEST_CHANGES"}
    ensures AuthorityGate(round, session, ReviewWrite(target, event, sha, Marked(text, session))) <==>
              round.disposition == "verified" && round.verifiedCommitId.Some?
              && CanonicalCommitId(round.verifiedCommitId.value) == Some(sha)
  {
    MarkedContains(text, session);
    hide CanonicalCommitId, Contains, Marked, RoundMarker;
  }

  /** What the drain records for a write that went through, given the provider's ids. */
  function Receipt(write: Write, providerId: int, reconciled: bool): Object {
    var p := write.payload;
    if write.kind == "comment" then
      if Get(p, "comment_id").Int? then map["comment_id" := p["comment_id"], "reconciled" := Bool(false)]
      else map["comment_id" := Int(providerId), "reconciled" := Bool(reconciled)]
    else if write.kind == "status" then
      map["sha" := Get(p, "sha"), "context" := Get(p, "context"), "state" := Get(p, "state")]
    else
      map["review_id" := Int(providerId), "commit_id" := Get(p, "commit_id"), "reconciled" := Bool(reconciled),
          "state" := Str(if Get(p, "event") == Str("APPROVE") then "APPROVED" else "CHANGES_REQUESTED")]
  }
}
