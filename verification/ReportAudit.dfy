/** The weekly report's judgement of one session: do the recorded writes prove a reliable outcome? It shares
    no code with the planner and reads only what both services recorded. */
module ReportAudit {
  import opened Collections
  import opened Json
  import opened StampOrder

  /** Parsing, digest and id rendering, left uninterpreted. */
  datatype Codec = Codec(parse: string -> Option<Object>, digest: string -> string, idText: int -> string)

  datatype Row = Row(id: int, session: string, kind: string, payloadText: string)

  datatype Observation = Observation(
    session: string, writeId: string, operation: string, requestSha: string, provider: Object,
    occurredAt: int, seqNo: int, eventId: string)

  const TERMINAL: set<string> := {"comment", "status", "review", "comment_abandon"}

  const HEX_DIGITS := "0123456789abcdefABCDEF"

  const DIAGNOSTIC_DISPOSITIONS: set<string> := {
    "unparseable", "insufficient_valid_reviewers", "missing_target", "invalid_target", "missing_reviewed_sha",
    "invalid_reviewed_sha", "reviewed_sha_mismatch"}

  function Lowered(s: string): string {
    if s == "" then ""
    else [if 'A' <= s[0] <= 'Z' then (s[0] as int + 32) as char else s[0]] + Lowered(s[1..])
  }

  /** The report's own reading of a commit id. */
  function FullSha(v: Json): Option<string> {
    if v.Str? && |v.s| == 40 && (forall c :: c in v.s ==> c in HEX_DIGITS) then Some(Lowered(v.s)) else None
  }

  predicate HasAll(o: Object, keys: set<string>) {
    keys <= o.Keys
  }

  // ---- one receipt against one write ----

  datatype Check = Check(ok: bool, visible: bool)

  const BAD := Check(false, false)

  predicate PositiveInt(v: Json) {
    v.Int? && v.n > 0
  }

  function ValidateComment(payload: Object, provider: Object): Check {
    if !HasAll(payload, {"repo", "pr_number", "body", "comment_id"}) then BAD
    else if !payload["repo"].Str? || !payload["pr_number"].Int? then BAD
    else if payload["comment_id"] != Null && !payload["comment_id"].Int? then BAD
    else if !HasAll(provider, {"comment_id", "reconciled"}) || !provider["reconciled"].Bool? then BAD
    else Check(PositiveInt(provider["comment_id"]), PositiveInt(provider["comment_id"]))
  }

  function ValidateAbandon(payload: Object, provider: Object): Check {
    if !HasAll(payload, {"repo", "pr_number", "body"}) then BAD
    else if !payload["repo"].Str? || !payload["pr_number"].Int? then BAD
    else if !HasAll(provider, {"comment_id", "reconciled"}) || !provider["reconciled"].Bool? then BAD
    else if provider["comment_id"] != Null && !PositiveInt(provider["comment_id"]) then BAD
    else Check(true, PositiveInt(provider["comment_id"]))
  }

  function ValidateStatus(payload: Object, provider: Object, expected: Json): Check {
    if !HasAll(payload, {"repo", "sha", "commit_id", "state", "context"})
       || !HasAll(provider, {"sha", "context", "state"}) then BAD
    else
      var sha := FullSha(payload["sha"]);
      if sha.None? || FullSha(payload["commit_id"]) != sha || FullSha(provider["sha"]) != sha then BAD
      else if !payload["context"].Str? || provider["context"] != payload["context"] then BAD
      else if provider["state"] != payload["state"] || expected != payload["state"] then BAD
      else Check(true, false)
  }

  function ValidateReview(payload: Object, provider: Object, expected: Json): Check {
    if !HasAll(payload, {"repo", "pr_number", "event", "commit_id", "body"})
       || !HasAll(provider, {"review_id", "state", "commit_id", "reconciled"}) then BAD
    else if !payload["pr_number"].Int? then BAD
    else
      var sha := FullSha(payload["commit_id"]);
      if sha.None? || FullSha(provider["commit_id"]) != sha || !provider["reconciled"].Bool? then BAD
      else if payload["event"] != expected then BAD
      else if provider["state"] != Str(if expected == Str("APPROVE") then "APPROVED" else "CHANGES_REQUESTED") then BAD
      else if !PositiveInt(provider["review_id"]) then BAD
      else Check(true, false)
  }

  function ValidateProvider(kind: string, payload: Object, provider: Object, status: Json, event: Json): Check {
    if kind == "comment" then ValidateComment(payload, provider)
    else if kind == "comment_abandon" then ValidateAbandon(payload, provider)
    else if kind == "status" then ValidateStatus(payload, provider, status)
    else if kind == "review" then ValidateReview(payload, provider, event)
    else BAD
  }

  // ---- binding a write to its receipts ----

  datatype Binding =
    | InvalidPayload | Missing | InvalidReceipt | Conflict
    | Bound(proof: Observation, visible: bool, payload: Object)

  predicate Concerns(o: Observation, row: Row, c: Codec) {
    o.session == row.session && o.writeId == c.idText(row.id) && o.operation == row.kind
    && o.requestSha == c.digest(row.payloadText)
  }

  function About(row: Row, c: Codec): Observation -> bool {
    (o: Observation) => Concerns(o, row, c)
  }

  function Passes(kind: string, payload: Object, status: Json, event: Json): Observation -> bool {
    (o: Observation) => ValidateProvider(kind, payload, o.provider, status, event).ok
  }

  function Signature(o: Observation): Object {
    o.provider - {"reconciled"}
  }

  function StampOf(): Observation -> Stamp {
    (o: Observation) => Stamp(o.occurredAt, o.seqNo, o.eventId)
  }

  function Bind(row: Row, os: seq<Observation>, c: Codec, status: Json, event: Json): Binding {
    var payload := c.parse(row.payloadText);
    if payload.None? then InvalidPayload
    else
      var candidates := Keep(os, About(row, c));
      if candidates == [] then Missing
      else
        BindValid(row.kind, payload.value, Keep(candidates, Passes(row.kind, payload.value, status, event)),
                  |candidates|, status, event)
  }

  /** The binding the passing receipts make, of so many candidates. */
  function BindValid(kind: string, payload: Object, valid: seq<Observation>, candidates: nat, status: Json,
                     event: Json): Binding {
    if valid == [] then InvalidReceipt
    else if |valid| != candidates then Conflict
    else if exists o :: o in valid && Signature(o) != Signature(valid[0]) then Conflict
    else
      var proof := Earliest(valid, StampOf());
      Bound(proof, ValidateProvider(kind, payload, proof.provider, status, event).visible, payload)
  }

  /** The candidate loop of the source. */
  method ValidateCandidates(candidates: seq<Observation>, kind: string, payload: Object, status: Json, event: Json)
    returns (valid: seq<Observation>, invalid: bool)
    ensures valid == Keep(candidates, Passes(kind, payload, status, event)) && (invalid <==> |valid| != |candidates|)
  {
    hide ValidateProvider, Keep;
    valid, invalid := [], false;
    ghost var passes := Passes(kind, payload, status, event);
    assert Keep(candidates[..0], passes) == [] by { assert |Keep(candidates[..0], passes)| <= 0; }
    for i := 0 to |candidates|
      invariant valid == Keep(candidates[..i], passes) && |valid| <= i && (invalid <==> |valid| < i)
    {
      KeepStep(candidates, passes, i);
      if ValidateProvider(kind, payload, candidates[i].provider, status, event).ok {
        valid := valid + [candidates[i]];
      } else {
        invalid := true;
      }
    }
    assert candidates[..|candidates|] == candidates;
  }

  method BindWrite(row: Row, os: seq<Observation>, c: Codec, status: Json, event: Json) returns (b: Binding)
    ensures b == Bind(row, os, c, status, event)
  {
    hide ValidateProvider, Concerns, Keep, BindValid;
    var payload := c.parse(row.payloadText);
    if payload.None? { return InvalidPayload; }
    var candidates := Keep(os, About(row, c));
    if candidates == [] { return Missing; }
    var valid, invalid := ValidateCandidates(candidates, row.kind, payload.value, status, event);
    b := DecideBinding(row.kind, payload.value, valid, invalid, |candidates|, status, event);
  }

  method DecideBinding(kind: string, payload: Object, valid: seq<Observation>, invalid: bool, ghost candidates: nat,
                       status: Json, event: Json) returns (b: Binding)
    requires invalid <==> |valid| != candidates
    ensures b == BindValid(kind, payload, valid, candidates, status, event)
  {
    hide ValidateProvider, Signature, Earliest;
    if valid == [] { return InvalidReceipt; }
    if invalid { return Conflict; }
    if exists o :: o in valid && Signature(o) != Signature(valid[0]) { return Conflict; }
    var proof := Earliest(valid, StampOf());
    return Bound(proof, ValidateProvider(kind, payload, proof.provider, status, event).visible, payload);
  }

  // ---- classifying a session ----

  datatype Category = Reliable | VisibleFailure | Superseded | PendingOrUnknown

  datatype AuditRound = AuditRound(decision: Json, disposition: Json, verified: Json)

  datatype Case = Case(
    target: Option<Json>, targetConflict: bool, round: Option<AuditRound>, roundConflict: bool,
    writes: seq<Row>, writeConflict: bool, superseded: bool, timeout: bool,
    observations: seq<Observation>, actionCompleted: bool, sourceComplete: bool)

  function IsTerminal(): Row -> bool { (r: Row) => r.kind in TERMINAL }
  function IsAbandon(): Row -> bool { (r: Row) => r.kind == "comment_abandon" }

  function TerminalRows(rows: seq<Row>): seq<Row> {
    Keep(rows, IsTerminal())
  }

  predicate TombstoneVisible(rows: seq<Row>, os: seq<Observation>, c: Codec) {
    var abandon := Keep(TerminalRows(rows), IsAbandon());
    |abandon| == 1 && Bind(abandon[0], os, c, Null, Null).Bound? && Bind(abandon[0], os, c, Null, Null).visible
  }

  /** What a recorded round leads the report to expect, or none when the round proves nothing. */
  datatype Expectation = Expectation(kinds: set<string>, status: Json, event: Json, diagnostic: bool)

  function Expect(target: Json, round: AuditRound): Option<Expectation> {
    var targetSha, verified := FullSha(target), FullSha(round.verified);
    if !round.disposition.Str? || !round.decision.Str? then None
    else if round.disposition == Str("legacy_unverified")
            && round.decision !in {Str("unparseable"), Str("insufficient_valid_reviewers")} then None
    else if round.disposition.s in DIAGNOSTIC_DISPOSITIONS
            || round.decision in {Str("unparseable"), Str("insufficient_valid_reviewers")} then
      if verified.Some? then None
      else if targetSha.Some? then Some(Expectation({"comment", "status"}, Str("error"), Null, true))
      else Some(Expectation({"comment"}, Null, Null, true))
    else if round.disposition == Str("verified") && round.decision in {Str("approve"), Str("request_changes")} then
      if targetSha.None? || verified != targetSha then None
      else if round.decision == Str("approve") then
        Some(Expectation({"comment", "status", "review"}, Str("success"), Str("APPROVE"), false))
      else Some(Expectation({"comment", "status", "review"}, Str("failure"), Str("REQUEST_CHANGES"), false))
    else None
  }

  function KindSet(rows: seq<Row>): set<string> {
    set i | 0 <= i < |rows| :: rows[i].kind
  }

  function BindTerminal(row: Row, e: Expectation, os: seq<Observation>, c: Codec): Binding {
    Bind(row, os, c, if row.kind == "status" then e.status else Null, if row.kind == "review" then e.event else Null)
  }

  /** The commit a bound status or review carries, in payload and receipt, is the target commit. */
  predicate CommitMatches(kind: string, b: Binding, target: Json)
    requires b.Bound?
  {
    kind in {"status", "review"} ==>
      && FullSha(target).Some?
      && FullSha(Get(b.payload, "commit_id")) == FullSha(target)
      && (kind == "status" ==> FullSha(Get(b.payload, "sha")) == FullSha(target)
                               && FullSha(Get(b.proof.provider, "sha")) == FullSha(target))
      && (kind == "review" ==> FullSha(Get(b.proof.provider, "commit_id")) == FullSha(target))
  }

  predicate RowProven(row: Row, e: Expectation, os: seq<Observation>, c: Codec, target: Json) {
    var b := BindTerminal(row, e, os, c);
    b.Bound? && (row.kind == "comment" ==> b.visible) && CommitMatches(row.kind, b, target)
  }

  function Classify(k: Case, c: Codec): Category {
    if k.superseded then Superseded
    else if k.target.None? || k.targetConflict || !k.actionCompleted then PendingOrUnknown
    else
      var terminal := TerminalRows(k.writes);
      if k.timeout then
        if |terminal| == 1 && terminal[0].kind == "comment_abandon" && TombstoneVisible(k.writes, k.observations, c)
           && k.sourceComplete && !k.writeConflict then VisibleFailure else PendingOrUnknown
      else if k.round.None? || k.roundConflict || k.writeConflict then PendingOrUnknown
      else
        var e := Expect(k.target.value, k.round.value);
        if e.None? then PendingOrUnknown
        else if |terminal| != |e.value.kinds| || KindSet(terminal) != e.value.kinds then PendingOrUnknown
        else if exists i :: 0 <= i < |terminal|
                            && !RowProven(terminal[i], e.value, k.observations, c, k.target.value) then PendingOrUnknown
        else if !k.sourceComplete then PendingOrUnknown
        else if e.value.diagnostic then VisibleFailure
        else Reliable
  }

  // ---- the classification as the source runs it ----

  lemma {:induction false} KindCount(rows: seq<Row>)
    ensures |KindSet(rows)| <= |rows|
    ensures |KindSet(rows)| == |rows| ==> forall i, j :: 0 <= i < j < |rows| ==> rows[i].kind != rows[j].kind
  {
    if rows != [] {
      var n := |rows| - 1;
      var init := rows[..n];
      KindCount(init);
      assert forall i :: 0 <= i < n ==> init[i] == rows[i];
      assert KindSet(rows) == KindSet(init) + {rows[n].kind};
      assert forall i :: 0 <= i < n ==> init[i].kind in KindSet(init);
    }
  }

  /** `bindings` holds the binding of each of the first `n` rows under its kind, and nothing else. */
  ghost predicate Tabled(bindings: map<string, Binding>, terminal: seq<Row>, n: nat, e: Expectation,
                         os: seq<Observation>, c: Codec) {
    && n <= |terminal|
    && (forall j :: 0 <= j < n ==> terminal[j].kind in bindings
                                   && bindings[terminal[j].kind] == BindTerminal(terminal[j], e, os, c))
    && (forall kind :: kind in bindings ==> bindings[kind].Bound? && exists j :: 0 <= j < n && terminal[j].kind == kind)
  }

  predicate TableProves(bindings: map<string, Binding>, target: Json)
    requires forall kind :: kind in bindings ==> bindings[kind].Bound?
  {
    && ("comment" in bindings ==> bindings["comment"].visible)
    && ("status" in bindings ==> CommitMatches("status", bindings["status"], target))
    && ("review" in bindings ==> CommitMatches("review", bindings["review"], target))
  }

  lemma TableMeans(bindings: map<string, Binding>, terminal: seq<Row>, e: Expectation, os: seq<Observation>, c: Codec,
                   target: Json)
    requires Tabled(bindings, terminal, |terminal|, e, os, c)
    requires forall i :: 0 <= i < |terminal| ==> terminal[i].kind in {"comment", "status", "review"}
    ensures TableProves(bindings, target) <==> forall i :: 0 <= i < |terminal| ==>
              RowProven(terminal[i], e, os, c, target)
  {
    hide BindTerminal, Bind, FullSha;
    if TableProves(bindings, target) {
      forall i | 0 <= i < |terminal| ensures RowProven(terminal[i], e, os, c, target) {
        assert bindings[terminal[i].kind] == BindTerminal(terminal[i], e, os, c);
      }
    }
    if forall i :: 0 <= i < |terminal| ==> RowProven(terminal[i], e, os, c, target) {
      forall kind | kind in bindings ensures (kind == "comment" ==> bindings[kind].visible)
      && CommitMatches(kind, bindings[kind], target) {
        var j :| 0 <= j < |terminal| && terminal[j].kind == kind;
        assert RowProven(terminal[j], e, os, c, target);
      }
    }
  }

  lemma TableMore(bindings: map<string, Binding>, terminal: seq<Row>, n: nat, e: Expectation, os: seq<Observation>,
                  c: Codec)
    requires n < |terminal| && Tabled(bindings, terminal, n, e, os, c) && BindTerminal(terminal[n], e, os, c).Bound?
    requires forall i, j :: 0 <= i < j < |terminal| ==> terminal[i].kind != terminal[j].kind
    ensures Tabled(bindings[terminal[n].kind := BindTerminal(terminal[n], e, os, c)], terminal, n + 1, e, os, c)
  {
    hide BindTerminal;
    var bindings' := bindings[terminal[n].kind := BindTerminal(terminal[n], e, os, c)];
    forall kind | kind in bindings' ensures exists j :: 0 <= j < n + 1 && terminal[j].kind == kind {
      if kind == terminal[n].kind { assert terminal[n].kind == kind; }
    }
  }

  /** Binds the rows one by one into a table keyed by kind, then reads the table. */
  method ProveRows(terminal: seq<Row>, e: Expectation, os: seq<Observation>, c: Codec, target: Json) returns (ok: bool)
    requires |terminal| == |e.kinds| && KindSet(terminal) == e.kinds && e.kinds <= {"comment", "status", "review"}
    ensures ok <==> forall i :: 0 <= i < |terminal| ==> RowProven(terminal[i], e, os, c, target)
  {
    hide Bind, CommitMatches, Tabled, FullSha;
    KindCount(terminal);
    var bindings: map<string, Binding> := map[];
    assert Tabled(map[], terminal, 0, e, os, c) by { EmptyTable(terminal, e, os, c); }
    for i := 0 to |terminal|
      invariant Tabled(bindings, terminal, i, e, os, c)
    {
      var b := BindWrite(terminal[i], os, c, if terminal[i].kind == "status" then e.status else Null,
                         if terminal[i].kind == "review" then e.event else Null);
      if !b.Bound? {
        assert !RowProven(terminal[i], e, os, c, target);
        return false;
      }
      TableMore(bindings, terminal, i, e, os, c);
      bindings := bindings[terminal[i].kind := b];
    }
    assert forall i :: 0 <= i < |terminal| ==> terminal[i].kind in KindSet(terminal);
    TableMeans(bindings, terminal, e, os, c, target);
    AllBound(bindings, terminal, e, os, c);
    hide RowProven;
    if "comment" in bindings && !bindings["comment"].visible { return false; }
    if "status" in bindings && !CommitMatches("status", bindings["status"], target) { return false; }
    if "review" in bindings && !CommitMatches("review", bindings["review"], target) { return false; }
    return true;
  }

  lemma EmptyTable(terminal: seq<Row>, e: Expectation, os: seq<Observation>, c: Codec)
    ensures Tabled(map[], terminal, 0, e, os, c)
  {
  }

  lemma AllBound(bindings: map<string, Binding>, terminal: seq<Row>, e: Expectation, os: seq<Observation>, c: Codec)
    requires Tabled(bindings, terminal, |terminal|, e, os, c)
    ensures forall kind :: kind in bindings ==> bindings[kind].Bound?
  {
  }

  method ClassifySession(k: Case, c: Codec) returns (r: Category)
    ensures r == Classify(k, c)
  {
    hide RowProven, FullSha, TombstoneVisible, KindSet;
    if k.superseded { return Superseded; }
    if k.target.None? || k.targetConflict || !k.actionCompleted { return PendingOrUnknown; }
    var terminal := TerminalRows(k.writes);
    if k.timeout {
      var complete := |terminal| == 1 && terminal[0].kind == "comment_abandon"
                      && TombstoneVisible(k.writes, k.observations, c);
      return if complete && k.sourceComplete && !k.writeConflict then VisibleFailure else PendingOrUnknown;
    }
    if k.round.None? || k.roundConflict || k.writeConflict { return PendingOrUnknown; }
    var expected := Expect(k.target.value, k.round.value);
    if expected.None? { return PendingOrUnknown; }
    var e := expected.value;
    if |terminal| != |e.kinds| || KindSet(terminal) != e.kinds { return PendingOrUnknown; }
    var proven := ProveRows(terminal, e, k.observations, c, k.target.value);
    if !proven || !k.sourceComplete { return PendingOrUnknown; }
    return if e.diagnostic then VisibleFailure else Reliable;
  }

  // ---- what a reliable session proves ----

  /** A receipt for one of the session's own writes, matched by session, write id, kind and digest of the stored
      payload. */
  ghost predicate Receipts(k: Case, c: Codec, kind: string, o: Observation) {
    o in k.observations && exists row :: row in k.writes && row.kind == kind && Concerns(o, row, c)
  }

  ghost predicate ShowsComment(k: Case, c: Codec, o: Observation) {
    Receipts(k, c, "comment", o) && PositiveInt(Get(o.provider, "comment_id"))
  }

  ghost predicate ShowsStatus(k: Case, c: Codec, o: Observation, sha: string, approve: bool) {
    Receipts(k, c, "status", o) && FullSha(Get(o.provider, "sha")) == Some(sha)
    && Get(o.provider, "state") == Str(if approve then "success" else "failure")
  }

  ghost predicate ShowsReview(k: Case, c: Codec, o: Observation, sha: string, approve: bool) {
    Receipts(k, c, "review", o) && FullSha(Get(o.provider, "commit_id")) == Some(sha)
    && PositiveInt(Get(o.provider, "review_id"))
    && Get(o.provider, "state") == Str(if approve then "APPROVED" else "CHANGES_REQUESTED")
  }

  lemma BoundIsReceipt(k: Case, c: Codec, row: Row, status: Json, event: Json)
    requires row in TerminalRows(k.writes) && Bind(row, k.observations, c, status, event).Bound?
    ensures var b := Bind(row, k.observations, c, status, event);
            && Receipts(k, c, row.kind, b.proof) && c.parse(row.payloadText) == Some(b.payload)
            && b.visible == ValidateProvider(row.kind, b.payload, b.proof.provider, status, event).visible
            && ValidateProvider(row.kind, b.payload, b.proof.provider, status, event).ok
  {
    hide ValidateProvider, Concerns;
    var candidates := Keep(k.observations, About(row, c));
    var valid := Keep(candidates, Passes(row.kind, c.parse(row.payloadText).value, status, event));
    assert Earliest(valid, StampOf()) in valid && Earliest(valid, StampOf()) in candidates;
    assert Passes(row.kind, c.parse(row.payloadText).value, status, event)(Earliest(valid, StampOf()));
    assert About(row, c)(Earliest(valid, StampOf()));
  }

  /** The provider objects a reliable session shows: a visible comment, and a status and a review on one commit. */
  ghost predicate Shown(k: Case, c: Codec, sha: string, approve: bool) {
    && (exists o :: ShowsComment(k, c, o))
    && (exists o :: ShowsStatus(k, c, o, sha, approve))
    && (exists o :: ShowsReview(k, c, o, sha, approve))
  }

  /** What a receipt that passed says. */
  lemma ProviderShows(payload: Object, provider: Object, status: Json, event: Json)
    ensures ValidateComment(payload, provider).visible ==> PositiveInt(Get(provider, "comment_id"))
    ensures ValidateStatus(payload, provider, status).ok ==> Get(provider, "state") == status
    ensures ValidateReview(payload, provider, event).ok ==>
              && PositiveInt(Get(provider, "review_id"))
              && Get(provider, "state") == Str(if event == Str("APPROVE") then "APPROVED" else "CHANGES_REQUESTED")
  {
    hide FullSha;
  }

  lemma RowShows(k: Case, c: Codec, row: Row, e: Expectation, target: Json, sha: string, approve: bool)
    requires row in TerminalRows(k.writes) && row.kind in {"comment", "status", "review"}
             && FullSha(target) == Some(sha)
    requires e.status == Str(if approve then "success" else "failure")
    requires e.event == Str(if approve then "APPROVE" else "REQUEST_CHANGES")
    ensures RowProven(row, e, k.observations, c, target) ==> RowShown(k, c, row, sha, approve)
  {
    if RowProven(row, e, k.observations, c, target) {
      var o := BindTerminal(row, e, k.observations, c).proof;
      BoundIsReceipt(k, c, row, if row.kind == "status" then e.status else Null,
                     if row.kind == "review" then e.event else Null);
      var b := BindTerminal(row, e, k.observations, c);
      ProviderShows(b.payload, o.provider, e.status, e.event);
      assert if row.kind == "comment" then ShowsComment(k, c, o)
             else if row.kind == "status" then ShowsStatus(k, c, o, sha, approve)
             else ShowsReview(k, c, o, sha, approve)
      by {
        hide Bind, Receipts, FullSha, ValidateComment, ValidateStatus, ValidateReview, PositiveInt;
      }
    }
  }

  /** Some receipt shows what a row of this kind stands for. */
  ghost predicate RowShown(k: Case, c: Codec, row: Row, sha: string, approve: bool) {
    && (row.kind == "comment" ==> exists o :: ShowsComment(k, c, o))
    && (row.kind == "status" ==> exists o :: ShowsStatus(k, c, o, sha, approve))
    && (row.kind == "review" ==> exists o :: ShowsReview(k, c, o, sha, approve))
  }

  /** The target, the round and the recorded receipts all speak of one commit, and nothing else terminal was
      written: a comment, the decision's status and the decision's review. */
  ghost predicate Demonstrated(k: Case, c: Codec) {
    && k.target.Some? && k.round.Some? && FullSha(k.target.value).Some?
       && FullSha(k.round.value.verified) == FullSha(k.target.value)
    && k.round.value.decision in {Str("approve"), Str("request_changes")}
    && Shown(k, c, FullSha(k.target.value).value, k.round.value.decision == Str("approve"))
    && |TerminalRows(k.writes)| == 3 && !k.timeout && !k.superseded && k.sourceComplete
  }

  /** The report says reliable only for sessions whose receipts demonstrate it. */
  lemma ReliableIsShown(k: Case, c: Codec)
    ensures Classify(k, c) == Reliable ==> Demonstrated(k, c)
  {
    hide RowProven, FullSha, TombstoneVisible, ShowsComment, ShowsStatus, ShowsReview, BindTerminal, TerminalRows;
    if Classify(k, c) == Reliable {
      var e := Expect(k.target.value, k.round.value).value;
      var terminal := TerminalRows(k.writes);
      var sha := FullSha(k.target.value).value;
      assert "comment" in KindSet(terminal) && "status" in KindSet(terminal) && "review" in KindSet(terminal);
      var i :| 0 <= i < |terminal| && terminal[i].kind == "comment";
      var j :| 0 <= j < |terminal| && terminal[j].kind == "status";
      var n :| 0 <= n < |terminal| && terminal[n].kind == "review";
      var approve := k.round.value.decision == Str("approve");
      RowShows(k, c, terminal[i], e, k.target.value, sha, approve);
      RowShows(k, c, terminal[j], e, k.target.value, sha, approve);
      RowShows(k, c, terminal[n], e, k.target.value, sha, approve);
    }
  }
}
