/** The planner and the auditor agree: what the controller plans and carries out is what the report,
    written independently, accepts as proof. */
module PlannerAuditor {
  import opened Collections
  import opened Json
  import opened Closing
  import opened ReportAudit
  import opened VerdictTrailer

  function OptStr(s: Option<string>): Json {
    if s.Some? then Str(s.value) else Null
  }

  function RoundRow(plan: Plan): AuditRound {
    AuditRound(Str(plan.decision), Str(plan.disposition), OptStr(plan.verifiedCommitId))
  }

  /** A receipt the drain would have recorded for this write. */
  ghost predicate Faithful(write: Write, provider: Object) {
    exists id: int, reconciled: bool :: id > 0 && provider == Receipt(write, id, reconciled)
  }

  /** The write has receipts, every one faithful, and they name one provider object. */
  ghost predicate Receipted(row: Row, write: Write, os: seq<Observation>, c: Codec) {
    var mine := Keep(os, About(row, c));
    && mine != []
    && (forall o :: o in mine ==> Faithful(write, o.provider) && Signature(o) == Signature(mine[0]))
  }

  /** The rows and observations both services recorded for a plan; other sessions' observations may be mixed in. */
  ghost predicate Recorded(plan: Plan, rows: seq<Row>, os: seq<Observation>, c: Codec) {
    && |rows| == |plan.writes|
    && forall i :: 0 <= i < |rows| ==>
         && rows[i].kind == plan.writes[i].kind && c.parse(rows[i].payloadText) == Some(plan.writes[i].payload)
         && Receipted(rows[i], plan.writes[i], os, c)
  }

  /** The case the report sees when nothing else went wrong. */
  function CaseOf(target: Target, plan: Plan, rows: seq<Row>, os: seq<Observation>): Case {
    Case(Some(OptStr(target.headSha)), false, Some(RoundRow(plan)), false, rows, false, false, false, os, true, true)
  }

  // ---- two readers of commit ids ----

  lemma {:induction false} LoweredAlike(s: string)
    ensures Lowered(s) == Lower(s)
  {
    if s != "" {
      LoweredAlike(s[1..]);
      assert Lower(s) == [LowerChar(s[0])] + Lower(s[1..]);
    }
  }

  lemma HexAlike(c: char)
    ensures c in HEX_DIGITS <==> IsHex(c)
  {
    if IsHex(c) {
      var i := if c <= '9' then c as int - '0' as int else if c <= 'F' then c as int - 'A' as int + 16
               else c as int - 'a' as int + 10;
      assert HEX_DIGITS[i] == c;
    }
  }

  /** The report reads commit ids, and tells diagnostic dispositions, exactly as the planner does. */
  lemma ReadersAgree()
    ensures forall v :: FullSha(v) == if v.Str? then CanonicalCommitId(v.s) else None
    ensures DIAGNOSTIC_DISPOSITIONS == DIAGNOSTIC
  {
    forall v ensures FullSha(v) == if v.Str? then CanonicalCommitId(v.s) else None {
      if v.Str? {
        LoweredAlike(v.s);
        forall c ensures c in HEX_DIGITS <==> IsHex(c) { HexAlike(c); }
        hide IsHex, Lowered, Lower;
      }
    }
  }

  // ---- one write ----

  lemma BindReceipted(row: Row, write: Write, os: seq<Observation>, c: Codec, status: Json, event: Json)
    requires row.kind == write.kind && c.parse(row.payloadText) == Some(write.payload) && Receipted(row, write, os, c)
    requires forall p :: Faithful(write, p) ==> ValidateProvider(write.kind, write.payload, p, status, event).ok
    ensures var b := Bind(row, os, c, status, event);
            && b.Bound? && b.payload == write.payload && Faithful(write, b.proof.provider)
            && b.visible == ValidateProvider(write.kind, write.payload, b.proof.provider, status, event).visible
  {
    hide ValidateProvider, Faithful, Concerns, Signature, StampOf;
    var mine := Keep(os, About(row, c));
    KeepAll(mine, Passes(row.kind, write.payload, status, event));
  }

  lemma BindRefused(row: Row, write: Write, os: seq<Observation>, c: Codec, status: Json, event: Json)
    requires row.kind == write.kind && c.parse(row.payloadText) == Some(write.payload) && Receipted(row, write, os, c)
    requires forall p :: Faithful(write, p) ==> !ValidateProvider(write.kind, write.payload, p, status, event).ok
    ensures !Bind(row, os, c, status, event).Bound?
  {
    hide ValidateProvider, Faithful, Concerns, Signature;
    var mine := Keep(os, About(row, c));
    KeepNone(mine, Passes(row.kind, write.payload, status, event));
  }

  lemma CommentValid(target: Target, commentId: Option<int>, body: string, provider: Object)
    requires commentId.Some? ==> commentId.value > 0
    requires Faithful(CommentWrite(target, commentId, body), provider)
    ensures ValidateComment(CommentWrite(target, commentId, body).payload, provider) == Check(true, true)
  {
  }

  lemma StatusValid(target: Target, sha: string, state: string, description: string, provider: Object, expected: Json)
    requires CanonicalCommitId(sha) == Some(sha) && Faithful(StatusWrite(target, sha, state, description), provider)
    ensures ValidateStatus(StatusWrite(target, sha, state, description).payload, provider, expected).ok <==>
              expected == Str(state)
    ensures FullSha(Get(provider, "sha")) == Some(sha)
  {
    ReadersAgree();
    hide FullSha;
    hide CanonicalCommitId;
  }

  lemma ReviewValid(target: Target, event: string, commit: string, body: string, provider: Object, expected: Json)
    requires event in {"APPROVE", "REQUEST_CHANGES"}
    requires CanonicalCommitId(commit) == Some(commit) && Faithful(ReviewWrite(target, event, commit, body), provider)
    ensures ValidateReview(ReviewWrite(target, event, commit, body).payload, provider, expected).ok <==>
              expected == Str(event)
    ensures FullSha(Get(provider, "commit_id")) == Some(commit)
  {
    ReadersAgree();
    hide FullSha;
    hide CanonicalCommitId;
  }

  // ---- one row against the expectation ----

  lemma CommentProven(row: Row, target: Target, commentId: Option<int>, body: string, e: Expectation,
                      os: seq<Observation>, c: Codec, sha: Json)
    requires commentId.Some? ==> commentId.value > 0
    requires var w := CommentWrite(target, commentId, body);
             row.kind == w.kind
             && c.parse(row.payloadText) == Some(w.payload) && Receipted(row, w, os, c)
    ensures RowProven(row, e, os, c, sha)
  {
    var w := CommentWrite(target, commentId, body);
    forall p | Faithful(w, p) ensures ValidateProvider(w.kind, w.payload, p, Null, Null) == Check(true, true) {
      CommentValid(target, commentId, body, p);
    }
    BindReceipted(row, w, os, c, Null, Null);
    hide Bind, Faithful, ValidateProvider;
  }

  lemma StatusProven(row: Row, target: Target, sha: string, state: string, description: string, e: Expectation,
                     os: seq<Observation>, c: Codec, head: Json)
    requires CanonicalCommitId(sha) == Some(sha) && FullSha(head) == Some(sha)
    requires var w := StatusWrite(target, sha, state, description);
             row.kind == w.kind
             && c.parse(row.payloadText) == Some(w.payload) && Receipted(row, w, os, c)
    ensures RowProven(row, e, os, c, head) <==> e.status == Str(state)
  {
    ReadersAgree();
    hide FullSha;
    var w := StatusWrite(target, sha, state, description);
    forall p | Faithful(w, p) ensures ValidateProvider(w.kind, w.payload, p, e.status, Null).ok <==>
      e.status == Str(state) {
      StatusValid(target, sha, state, description, p, e.status);
    }
    if e.status == Str(state) {
      BindReceipted(row, w, os, c, e.status, Null);
      StatusValid(target, sha, state, description, Bind(row, os, c, e.status, Null).proof.provider, e.status);
    } else {
      BindRefused(row, w, os, c, e.status, Null);
    }
    hide Bind, Faithful, ValidateProvider, CanonicalCommitId;
  }

  lemma ReviewProven(row: Row, target: Target, event: string, commit: string, body: string, e: Expectation,
                     os: seq<Observation>, c: Codec, head: Json)
    requires event in {"APPROVE", "REQUEST_CHANGES"}
    requires CanonicalCommitId(commit) == Some(commit) && FullSha(head) == Some(commit)
    requires var w := ReviewWrite(target, event, commit, body);
             row.kind == w.kind
             && c.parse(row.payloadText) == Some(w.payload) && Receipted(row, w, os, c)
    ensures RowProven(row, e, os, c, head) <==> e.event == Str(event)
  {
    ReadersAgree();
    hide FullSha;
    var w := ReviewWrite(target, event, commit, body);
    forall p | Faithful(w, p) ensures ValidateProvider(w.kind, w.payload, p, Null, e.event).ok <==>
      e.event == Str(event) {
      ReviewValid(target, event, commit, body, p, e.event);
    }
    if e.event == Str(event) {
      BindReceipted(row, w, os, c, Null, e.event);
      ReviewValid(target, event, commit, body, Bind(row, os, c, Null, e.event).proof.provider, e.event);
    } else {
      BindRefused(row, w, os, c, Null, e.event);
    }
    hide Bind, Faithful, ValidateProvider, CanonicalCommitId;
  }

  // ---- the whole session ----

  ghost predicate AllProven(rows: seq<Row>, e: Expectation, os: seq<Observation>, c: Codec, head: Json) {
    forall i :: 0 <= i < |rows| ==> RowProven(rows[i], e, os, c, head)
  }

  /** The report's judgement of such a case, when every row is a terminal one. */
  lemma CaseJudged(target: Target, plan: Plan, rows: seq<Row>, os: seq<Observation>, c: Codec)
    requires forall r :: r in rows ==> r.kind in TERMINAL
    ensures var head := OptStr(target.headSha); var e := Expect(head, RoundRow(plan));
            Classify(CaseOf(target, plan, rows, os), c)
            == if e.None? || |rows| != |e.value.kinds| || KindSet(rows) != e.value.kinds
            || !AllProven(rows, e.value, os, c, head) then PendingOrUnknown
               else if e.value.diagnostic then VisibleFailure else Reliable
  {
    hide RowProven, Expect, KindSet;
    KeepAll(rows, IsTerminal());
  }

  lemma ExpectDiagnostic(head: Json, decision: string, disposition: string)
    requires disposition in DIAGNOSTIC
    ensures var e := Expect(head, AuditRound(Str(decision), Str(disposition), Null));
            && e.Some? && e.value.diagnostic
            && (FullSha(head).Some? ==> e.value.kinds == {"comment", "status"} && e.value.status == Str("error"))
            && (FullSha(head).None? ==> e.value.kinds == {"comment"})
  {
    ReadersAgree();
    hide FullSha;
    hide CanonicalCommitId;
  }

  lemma OneOrTwoRows(rows: seq<Row>, a: string, b: string)
    requires 1 <= |rows| <= 2 && rows[0].kind == a && (|rows| == 2 ==> rows[1].kind == b)
    ensures KindSet(rows) == if |rows| == 2 then {a, b} else {a}
  {
    assert rows[0].kind in KindSet(rows) && (|rows| == 2 ==> rows[1].kind in KindSet(rows));
  }

  /** Two rows, comment and error status, against the expectation of a diagnostic round. */
  lemma DiagnosticAgrees(target: Target, plan: Plan, commentId: Option<int>, body: string, description: string,
                         rows: seq<Row>, os: seq<Observation>, c: Codec)
    requires commentId.Some? ==> commentId.value > 0
    requires plan.disposition in DIAGNOSTIC && plan.verifiedCommitId.None?
    requires plan.writes == [CommentWrite(target, commentId, body)]
                            + (if TargetCommit(target).Some?
                               then [StatusWrite(target, TargetCommit(target).value, "error", description)] else [])
    requires Recorded(plan, rows, os, c)
    ensures Classify(CaseOf(target, plan, rows, os), c) == VisibleFailure
  {
    ReadersAgree();
    hide FullSha;
    hide RowProven, CanonicalCommitId, Receipted, Expect, KindSet, Classify;
    var head := OptStr(target.headSha);
    ExpectDiagnostic(head, plan.decision, plan.disposition);
    var e := Expect(head, RoundRow(plan)).value;
    assert rows[0].kind == "comment";
    CommentProven(rows[0], target, commentId, body, e, os, c, head);
    if TargetCommit(target).Some? {
      CanonicalIsStable(target.headSha.value);
      assert plan.writes[1] == StatusWrite(target, TargetCommit(target).value, "error", description)
             && rows[1].kind == "status";
      StatusProven(rows[1], target, TargetCommit(target).value, "error", description, e, os, c, head);
    }
    OneOrTwoRows(rows, "comment", "status");
    CaseJudged(target, plan, rows, os, c);
    hide CommentWrite, StatusWrite, Recorded;
  }

  /** What a verified round leads the report to expect, against what its trailer made the planner write. */
  lemma ExpectVerified(head: Json, sha: string, decision: string, t: Trailer)
    requires FullSha(head) == Some(sha) && CanonicalCommitId(sha) == Some(sha) && decision == t.decision
    ensures var e := Expect(head, AuditRound(Str(decision), Str("verified"), Str(sha)));
            && (e.Some? ==> e.value.kinds == {"comment", "status", "review"} && !e.value.diagnostic)
            && (Consistent(t) <==> e.Some? && e.value.status == Str(StatusState(Some(t)))
                                   && e.value.event == Str(ReviewEvent(t)))
  {
    ReadersAgree();
    hide FullSha;
    hide CanonicalCommitId;
  }

  lemma ThreeRows(rows: seq<Row>, a: string, b: string, c: string)
    requires |rows| == 3 && rows[0].kind == a && rows[1].kind == b && rows[2].kind == c
    ensures KindSet(rows) == {a, b, c}
  {
    assert rows[0].kind in KindSet(rows) && rows[1].kind in KindSet(rows) && rows[2].kind in KindSet(rows);
  }

  /** Three rows against the expectation of a verified round. */
  lemma VerifiedAgrees(target: Target, plan: Plan, t: Trailer, commentId: Option<int>, body: string,
                       description: string, review: string,
                       rows: seq<Row>, os: seq<Observation>, c: Codec)
    requires commentId.Some? ==> commentId.value > 0
    requires plan.disposition == "verified" && plan.decision == t.decision
    requires plan.verifiedCommitId.Some? && plan.verifiedCommitId == TargetCommit(target)
    requires var sha := plan.verifiedCommitId.value;
             plan.writes == [CommentWrite(target, commentId, body),
                             StatusWrite(target, sha, StatusState(Some(t)), description),
                             ReviewWrite(target, ReviewEvent(t), sha, review)]
    requires Recorded(plan, rows, os, c)
    ensures Classify(CaseOf(target, plan, rows, os), c) == if Consistent(t) then Reliable else PendingOrUnknown
  {
    ReadersAgree();
    hide FullSha;
    hide RowProven, CanonicalCommitId, Receipted, Expect, Consistent, StatusState, KindSet, Classify;
    var head, sha := OptStr(target.headSha), plan.verifiedCommitId.value;
    CanonicalIsStable(target.headSha.value);
    ExpectVerified(head, sha, plan.decision, t);
    assert rows[0].kind == "comment" && rows[1].kind == "status" && rows[2].kind == "review";
    ThreeRows(rows, "comment", "status", "review");
    CaseJudged(target, plan, rows, os, c);
    var expected := Expect(head, RoundRow(plan));
    if expected.Some? {
      CommentProven(rows[0], target, commentId, body, expected.value, os, c, head);
      StatusProven(rows[1], target, sha, StatusState(Some(t)), description, expected.value, os, c, head);
      ReviewProven(rows[2], target, ReviewEvent(t), sha, review, expected.value, os, c, head);
    }
    hide CommentWrite, StatusWrite, ReviewWrite, Recorded, ReviewEvent;
  }

  /** For every closed review session that is not an ask: if each planned write has faithful receipts and the
      capture is complete, the report calls the session reliable exactly when the plan was verified and its
      trailer is consistent, and a visible failure when it was not verified. It is left pending only for a
      verified plan whose trailer contradicts itself. */
  lemma PlannerAuditorAgree(target: Target, parsed: Parsed, commentId: Option<int>, session: string, w: Wording,
                            rows: seq<Row>, os: seq<Observation>, c: Codec)
    requires commentId.Some? ==> commentId.value > 0
    requires Recorded(PlanClose(target, parsed, commentId, session, false, w), rows, os, c)
    ensures var plan := PlanClose(target, parsed, commentId, session, false, w);
            Classify(CaseOf(target, plan, rows, os), c)
            == if plan.disposition != "verified" then VisibleFailure
               else if Consistent(parsed.trailer.value) then Reliable
               else PendingOrUnknown
  {
    ReadersAgree();
    hide FullSha;
    var plan := PlanClose(target, parsed, commentId, session, false, w);
    VerifiedMeansSameCommit(target, parsed);
    hide Classify, Recorded, ClassifyIntegrity, CanonicalCommitId, Consistent;
    if plan.disposition == "verified" {
      VerifiedAgrees(target, plan, parsed.trailer.value, commentId, Marked(w.comment, session), w.description,
                     Marked(w.review, session), rows, os, c);
    } else if parsed.trailer.Some? {
      DiagnosticAgrees(target, plan, commentId, Marked(w.notice, session), w.description, rows, os, c);
    } else {
      DiagnosticAgrees(target, plan, commentId, Marked(w.comment, session), w.description, rows, os, c);
    }
  }

  /** So a session whose trailer came out of the parser is never left pending: it is reliable when verified and a
      visible failure otherwise. */
  lemma ParsedVerdictsAreNeverPending(target: Target, parsed: Parsed, commentId: Option<int>, session: string,
                                      w: Wording,
                                      rows: seq<Row>, os: seq<Observation>, c: Codec, text: string, sp: char -> bool)
    requires commentId.Some? ==> commentId.value > 0
    requires Recorded(PlanClose(target, parsed, commentId, session, false, w), rows, os, c)
    requires parsed.trailer == ParseTrailer(text, sp)
    ensures var plan := PlanClose(target, parsed, commentId, session, false, w);
            Classify(CaseOf(target, plan, rows, os), c) == if plan.disposition == "verified" then Reliable
            else VisibleFailure
  {
    hide Classify, Recorded, ParseTrailer, Consistent, ClassifyIntegrity;
    PlannerAuditorAgree(target, parsed, commentId, session, w, rows, os, c);
    if parsed.trailer.Some? {
      ParsedTrailerConsistent(text, sp);
    }
  }

  lemma InsufficientReviewersAgree(target: Target, session: string, w: Wording, rows: seq<Row>, os: seq<Observation>,
                                   c: Codec)
    requires Recorded(PlanInsufficientReviewers(target, session, w), rows, os, c)
    ensures Classify(CaseOf(target, PlanInsufficientReviewers(target, session, w), rows, os), c) == VisibleFailure
  {
    hide Classify, Recorded, CanonicalCommitId;
    DiagnosticAgrees(target, PlanInsufficientReviewers(target, session, w), None, Marked(w.notice, session),
                     w.description, rows, os, c);
  }
}
