/** When the report gives a session each of its categories, told by the recorded rows and receipts alone. */
module AuditVerdicts {
  import opened Collections
  import opened Json
  import opened StampOrder
  import opened ReportAudit

  // ---- what a receipt confirms ----

  /** The fields of a stored comment, tombstone included. */
  predicate NamesPull(payload: Object) {
    && "repo" in payload && payload["repo"].Str? && "pr_number" in payload && payload["pr_number"].Int?
    && "body" in payload
  }

  predicate SaysReconciled(provider: Object) {
    "reconciled" in provider && provider["reconciled"].Bool?
  }

  predicate NamesComment(provider: Object) {
    "comment_id" in provider && provider["comment_id"].Int? && provider["comment_id"].n > 0
  }

  predicate ConfirmsComment(payload: Object, provider: Object) {
    && NamesPull(payload) && "comment_id" in payload && (payload["comment_id"].Null? || payload["comment_id"].Int?)
    && SaysReconciled(provider) && NamesComment(provider)
  }

  /** A tombstone that is visible. */
  predicate ConfirmsAbandon(payload: Object, provider: Object) {
    NamesPull(payload) && SaysReconciled(provider) && NamesComment(provider)
  }

  /** `key` holds this commit, in any case of letters. */
  predicate Holds(o: Object, key: string, sha: string) {
    key in o && FullSha(o[key]) == Some(sha)
  }

  predicate ConfirmsStatus(payload: Object, provider: Object, state: string, sha: string) {
    && "repo" in payload && Holds(payload, "sha", sha) && Holds(payload, "commit_id", sha)
       && Holds(provider, "sha", sha)
    && "state" in payload && payload["state"] == Str(state) && "state" in provider && provider["state"] == Str(state)
    && "context" in payload && payload["context"].Str? && "context" in provider
    && provider["context"] == payload["context"]
  }

  predicate ConfirmsReview(payload: Object, provider: Object, approve: bool, sha: string) {
    && "repo" in payload && "pr_number" in payload && payload["pr_number"].Int? && "body" in payload
    && Holds(payload, "commit_id", sha) && Holds(provider, "commit_id", sha) && SaysReconciled(provider)
    && "event" in payload && payload["event"] == Str(if approve then "APPROVE" else "REQUEST_CHANGES")
    && "state" in provider && provider["state"] == Str(if approve then "APPROVED" else "CHANGES_REQUESTED")
    && "review_id" in provider && provider["review_id"].Int? && provider["review_id"].n > 0
  }

  lemma CommentChecks(payload: Object, provider: Object)
    ensures ValidateComment(payload, provider)
            == Check(ConfirmsComment(payload, provider), ConfirmsComment(payload, provider))
  {
  }

  lemma AbandonChecks(payload: Object, provider: Object)
    ensures ValidateAbandon(payload, provider).visible <==> ConfirmsAbandon(payload, provider)
    ensures ValidateAbandon(payload, provider).ok <==>
              NamesPull(payload) && SaysReconciled(provider) && "comment_id" in provider
              && (provider["comment_id"] == Null || NamesComment(provider))
  {
  }

  lemma StatusChecks(payload: Object, provider: Object, state: string, sha: string)
    ensures ConfirmsStatus(payload, provider, state, sha) <==>
              ValidateStatus(payload, provider, Str(state)).ok && FullSha(Get(payload, "sha")) == Some(sha)
  {
    hide FullSha;
  }

  lemma ReviewChecks(payload: Object, provider: Object, approve: bool, sha: string)
    ensures ConfirmsReview(payload, provider, approve, sha) <==>
              && ValidateReview(payload, provider, Str(if approve then "APPROVE" else "REQUEST_CHANGES")).ok
              && FullSha(Get(payload, "commit_id")) == Some(sha)
  {
    hide FullSha;
  }

  // ---- binding a write to its receipts ----

  /** A receipt recorded for the write: same session, write id, kind and digest of the stored payload. */
  ghost predicate For(o: Observation, row: Row, os: seq<Observation>, c: Codec) {
    && o in os && o.session == row.session && o.writeId == c.idText(row.id) && o.operation == row.kind
    && o.requestSha == c.digest(row.payloadText)
  }

  /** Two receipts name the same provider object, whether or not either was reconciled. */
  ghost predicate SameObject(a: Object, b: Object) {
    forall key :: key != "reconciled" ==> (key in a <==> key in b) && (key in a ==> a[key] == b[key])
  }

  /** The payload can be read and there are receipts, all naming one provider object. */
  ghost predicate OneObject(row: Row, os: seq<Observation>, c: Codec) {
    && c.parse(row.payloadText).Some?
    && (exists o :: For(o, row, os, c))
    && (forall o, o' :: For(o, row, os, c) && For(o', row, os, c) ==> SameObject(o.provider, o'.provider))
  }

  lemma SameSignature(o: Observation, o': Observation)
    ensures Signature(o) == Signature(o') <==> SameObject(o.provider, o'.provider)
  {
    var a, b := o.provider, o'.provider;
    if SameObject(a, b) {
      assert Signature(o).Keys == Signature(o').Keys;
    } else if Signature(o) == Signature(o') {
      forall key | key != "reconciled" ensures (key in a <==> key in b) && (key in a ==> a[key] == b[key]) {
        assert key in Signature(o) <==> key in a;
        assert key in Signature(o') <==> key in b;
      }
    }
  }

  lemma {:induction false} KeepsFewer<T(!new)>(s: seq<T>, p: T -> bool)
    ensures |Keep(s, p)| == |s| <==> forall x :: x in s ==> p(x)
  {
    if s != [] {
      var front := s[..|s| - 1];
      KeepsFewer(front, p);
      assert s == front + [s[|s| - 1]];
    }
  }

  predicate Passing(row: Row, payload: Object, o: Observation, status: Json, event: Json) {
    ValidateProvider(row.kind, payload, o.provider, status, event).ok
  }

  /** The receipts of a write, as the binding lists them. */
  lemma Candidates(row: Row, os: seq<Observation>, c: Codec)
    ensures forall o :: o in Keep(os, About(row, c)) <==> For(o, row, os, c)
  {
    assert forall o :: About(row, c)(o) <==> Concerns(o, row, c);
  }

  lemma BindValidExact(kind: string, payload: Object, valid: seq<Observation>, n: nat, status: Json, event: Json)
    ensures var b := BindValid(kind, payload, valid, n, status, event);
            && !b.InvalidPayload? && !b.Missing?
            && (b == InvalidReceipt <==> valid == [])
            && (b.Bound? <==> valid != [] && |valid| == n && Agreeing(valid))
            && (b.Bound? ==>
                  && b.proof in valid && b.payload == payload
                  && (forall o :: o in valid ==> !Before(StampOf()(o), StampOf()(b.proof)))
                  && b.visible == ValidateProvider(kind, payload, b.proof.provider, status, event).visible)
  {
    if valid != [] { AgreeingMeans(valid); }
    hide Agreeing, Signature, ValidateProvider, StampOf, Before;
  }

  lemma AgreeingMeans(os: seq<Observation>)
    requires os != []
    ensures Agreeing(os) <==> forall o :: o in os ==> Signature(o) == Signature(os[0])
  {
    hide SameObject, Signature;
    if Agreeing(os) {
      forall o | o in os ensures Signature(o) == Signature(os[0]) { SameSignature(o, os[0]); }
    }
    if forall o :: o in os ==> Signature(o) == Signature(os[0]) {
      forall o, o' | o in os && o' in os ensures SameObject(o.provider, o'.provider) { SameSignature(o, o'); }
    }
  }

  ghost predicate Agreeing(os: seq<Observation>) {
    forall o, o' :: o in os && o' in os ==> SameObject(o.provider, o'.provider)
  }

  /** There are receipts, and all of them pass. */
  ghost predicate AllPass(row: Row, os: seq<Observation>, c: Codec, status: Json, event: Json) {
    && c.parse(row.payloadText).Some? && (exists o :: For(o, row, os, c))
    && forall o :: For(o, row, os, c) ==> Passing(row, c.parse(row.payloadText).value, o, status, event)
  }

  /** There are receipts, and none of them passes. */
  ghost predicate NonePasses(row: Row, os: seq<Observation>, c: Codec, status: Json, event: Json) {
    && c.parse(row.payloadText).Some? && (exists o :: For(o, row, os, c))
    && forall o :: For(o, row, os, c) ==> !Passing(row, c.parse(row.payloadText).value, o, status, event)
  }

  /** How the binding sees the receipts: the candidates and, of them, the passing ones. */
  lemma BindSees(row: Row, os: seq<Observation>, c: Codec, status: Json, event: Json, candidates: seq<Observation>,
                 valid: seq<Observation>)
    requires c.parse(row.payloadText).Some? && candidates == Keep(os, About(row, c))
    requires valid == Keep(candidates, Passes(row.kind, c.parse(row.payloadText).value, status, event))
    ensures forall o :: o in candidates <==> For(o, row, os, c)
    ensures candidates == [] <==> !exists o :: For(o, row, os, c)
    ensures NonePasses(row, os, c, status, event) <==> candidates != [] && valid == []
    ensures AllPass(row, os, c, status, event) <==> candidates != [] && |valid| == |candidates|
    ensures OneObject(row, os, c) <==> candidates != [] && Agreeing(candidates)
    ensures |valid| == |candidates| ==> valid == candidates
  {
    var payload := c.parse(row.payloadText).value;
    var passes := Passes(row.kind, payload, status, event);
    Candidates(row, os, c);
    KeepLaw(candidates, passes);
    PassesMeans(row, payload, status, event);
    hide *;
    SeenAsFor(row, os, c, status, event, candidates, |valid| == |candidates|, valid == []);
  }

  lemma SeenAsFor(row: Row, os: seq<Observation>, c: Codec, status: Json, event: Json, candidates: seq<Observation>,
                  all: bool, none: bool)
    requires c.parse(row.payloadText).Some? && forall o :: o in candidates <==> For(o, row, os, c)
    requires var payload := c.parse(row.payloadText).value;
             && (all <==> forall o :: o in candidates ==> Passing(row, payload, o, status, event))
             && (none <==> forall o :: o in candidates ==> !Passing(row, payload, o, status, event))
    ensures candidates == [] <==> !exists o :: For(o, row, os, c)
    ensures NonePasses(row, os, c, status, event) <==> candidates != [] && none
    ensures AllPass(row, os, c, status, event) <==> candidates != [] && all
    ensures OneObject(row, os, c) <==> candidates != [] && Agreeing(candidates)
  {
    hide For, Passing, SameObject;
    if candidates != [] { assert candidates[0] in candidates; }
  }

  lemma PassesMeans(row: Row, payload: Object, status: Json, event: Json)
    ensures forall o :: Passes(row.kind, payload, status, event)(o) <==> Passing(row, payload, o, status, event)
  {
    hide ValidateProvider;
  }

  lemma KeepLaw<T(!new)>(s: seq<T>, p: T -> bool)
    ensures |Keep(s, p)| == |s| <==> forall x :: x in s ==> p(x)
    ensures |Keep(s, p)| == |s| ==> Keep(s, p) == s
    ensures Keep(s, p) == [] <==> forall x :: x in s ==> !p(x)
  {
    KeepsFewer(s, p);
    if |Keep(s, p)| == |s| { KeepAll(s, p); }
    if forall x :: x in s ==> !p(x) { KeepNone(s, p); }
    if Keep(s, p) == [] {
      forall x | x in s ensures !p(x) { assert x !in Keep(s, p); }
    }
  }

  /** Bound exactly when there are receipts for the write, all pass and all name one object; the proof is then the
      earliest of them. Of the failures, `InvalidReceipt` says that there are receipts and none passes. */
  lemma BindExact(row: Row, os: seq<Observation>, c: Codec, status: Json, event: Json)
    ensures var b, payload := Bind(row, os, c, status, event), c.parse(row.payloadText);
            && (b == InvalidPayload <==> payload.None?)
            && (b == Missing <==> payload.Some? && !exists o :: For(o, row, os, c))
            && (b == InvalidReceipt <==> NonePasses(row, os, c, status, event))
            && (b.Bound? <==> OneObject(row, os, c) && AllPass(row, os, c, status, event))
            && (b.Bound? ==>
                  && For(b.proof, row, os, c) && Some(b.payload) == payload
                  && (forall o :: For(o, row, os, c) ==> !Before(StampOf()(o), StampOf()(b.proof)))
                  && b.visible == ValidateProvider(row.kind, b.payload, b.proof.provider, status, event).visible)
  {
    var payload := c.parse(row.payloadText);
    if payload.Some? {
      var candidates := Keep(os, About(row, c));
      var valid := Keep(candidates, Passes(row.kind, payload.value, status, event));
      BindSees(row, os, c, status, event, candidates, valid);
      BindValidExact(row.kind, payload.value, valid, |candidates|, status, event);
      hide ValidateProvider, For, About, Passes, Keep, BindValid, Before, StampOf, OneObject, AllPass, NonePasses,
      Agreeing;
    }
  }

  // ---- what a row shows ----

  ghost predicate CommentShown(row: Row, os: seq<Observation>, c: Codec) {
    OneObject(row, os, c)
    && forall o :: For(o, row, os, c) ==> ConfirmsComment(c.parse(row.payloadText).value, o.provider)
  }

  ghost predicate AbandonShown(row: Row, os: seq<Observation>, c: Codec) {
    OneObject(row, os, c)
    && forall o :: For(o, row, os, c) ==> ConfirmsAbandon(c.parse(row.payloadText).value, o.provider)
  }

  ghost predicate StatusShown(row: Row, os: seq<Observation>, c: Codec, state: string, sha: string) {
    OneObject(row, os, c)
    && forall o :: For(o, row, os, c) ==> ConfirmsStatus(c.parse(row.payloadText).value, o.provider, state, sha)
  }

  ghost predicate ReviewShown(row: Row, os: seq<Observation>, c: Codec, approve: bool, sha: string) {
    OneObject(row, os, c)
    && forall o :: For(o, row, os, c) ==> ConfirmsReview(c.parse(row.payloadText).value, o.provider, approve, sha)
  }

  lemma CommentRow(row: Row, os: seq<Observation>, c: Codec)
    requires row.kind == "comment"
    ensures var b := Bind(row, os, c, Null, Null); b.Bound? && b.visible <==> CommentShown(row, os, c)
  {
    BindExact(row, os, c, Null, Null);
    if c.parse(row.payloadText).Some? {
      forall o: Observation { CommentChecks(c.parse(row.payloadText).value, o.provider); }
    }
    hide Bind, For, SameObject, ConfirmsComment, ValidateComment, Before;
  }

  lemma SameComment(row: Row, os: seq<Observation>, c: Codec, proof: Observation)
    requires OneObject(row, os, c) && For(proof, row, os, c) && NamesComment(proof.provider)
    ensures forall o :: For(o, row, os, c) ==> NamesComment(o.provider)
  {
    forall o | For(o, row, os, c) ensures NamesComment(o.provider) {
      assert SameObject(proof.provider, o.provider);
      assert "comment_id" in proof.provider;
    }
  }

  lemma AbandonRow(row: Row, os: seq<Observation>, c: Codec)
    requires row.kind == "comment_abandon"
    ensures var b := Bind(row, os, c, Null, Null); b.Bound? && b.visible <==> AbandonShown(row, os, c)
  {
    BindExact(row, os, c, Null, Null);
    if c.parse(row.payloadText).Some? {
      forall o: Observation { AbandonChecks(c.parse(row.payloadText).value, o.provider); }
    }
    var b := Bind(row, os, c, Null, Null);
    if b.Bound? && b.visible { SameComment(row, os, c, b.proof); }
    hide Bind, For, OneObject, ValidateAbandon, NamesPull, SaysReconciled, NamesComment, Before, StampOf, NonePasses;
  }

  lemma StatusRow(row: Row, os: seq<Observation>, c: Codec, e: Expectation, target: Json, state: string, sha: string)
    requires row.kind == "status" && e.status == Str(state) && FullSha(target) == Some(sha)
    ensures RowProven(row, e, os, c, target) <==> StatusShown(row, os, c, state, sha)
  {
    BindExact(row, os, c, e.status, Null);
    var b := BindTerminal(row, e, os, c);
    if c.parse(row.payloadText).Some? {
      forall o: Observation { StatusChecks(c.parse(row.payloadText).value, o.provider, state, sha); }
    }
    hide Bind, For, SameObject, FullSha, ValidateStatus, Before;
    if StatusShown(row, os, c, state, sha) {
      assert For(b.proof, row, os, c);
      assert ConfirmsStatus(b.payload, b.proof.provider, state, sha);
    }
  }

  lemma ReviewRow(row: Row, os: seq<Observation>, c: Codec, e: Expectation, target: Json, approve: bool, sha: string)
    requires row.kind == "review" && e.event == Str(if approve then "APPROVE" else "REQUEST_CHANGES")
             && FullSha(target) == Some(sha)
    ensures RowProven(row, e, os, c, target) <==> ReviewShown(row, os, c, approve, sha)
  {
    BindExact(row, os, c, Null, e.event);
    var b := BindTerminal(row, e, os, c);
    if c.parse(row.payloadText).Some? {
      forall o: Observation { ReviewChecks(c.parse(row.payloadText).value, o.provider, approve, sha); }
    }
    hide Bind, For, SameObject, FullSha, ValidateReview, Before;
    if ReviewShown(row, os, c, approve, sha) {
      assert For(b.proof, row, os, c);
      assert ConfirmsReview(b.payload, b.proof.provider, approve, sha);
    }
  }

  // ---- which rows were written ----

  ghost predicate OneRow(rows: seq<Row>, kind: string, i: int) {
    0 <= i < |rows| && rows[i].kind == kind && forall j :: 0 <= j < |rows| && rows[j].kind == kind ==> j == i
  }

  ghost predicate NoRow(rows: seq<Row>, kind: string) {
    forall j :: 0 <= j < |rows| ==> rows[j].kind != kind
  }

  /** One row of each of these kinds, and no other terminal row. */
  ghost predicate Exactly(rows: seq<Row>, kinds: set<string>) {
    forall kind :: kind in {"comment", "status", "review", "comment_abandon"} ==>
      if kind in kinds then exists i :: OneRow(rows, kind, i) else NoRow(rows, kind)
  }

  lemma TerminalStep(rows: seq<Row>, n: nat)
    requires |rows| == n + 1
    ensures TerminalRows(rows) == TerminalRows(rows[..n]) + (if rows[n].kind in TERMINAL then [rows[n]] else [])
  {
  }

  /** The places of the terminal rows. */
  lemma {:induction false} Places(rows: seq<Row>) returns (at: seq<nat>)
    ensures |at| == |TerminalRows(rows)|
    ensures forall t :: 0 <= t < |at| ==> at[t] < |rows| && rows[at[t]] == TerminalRows(rows)[t]
    ensures forall t, u :: 0 <= t < u < |at| ==> at[t] < at[u]
    ensures forall t :: 0 <= t < |at| ==> TerminalRows(rows)[t].kind in TERMINAL
    ensures forall i :: 0 <= i < |rows| && rows[i].kind in TERMINAL ==> i in at
  {
    if rows == [] { return []; }
    var n := |rows| - 1;
    at := Places(rows[..n]);
    TerminalStep(rows, n);
    hide TerminalRows;
    if rows[n].kind in TERMINAL { at := at + [n]; }
  }

  lemma DistinctKinds(rows: seq<Row>)
    requires forall i, j :: 0 <= i < j < |rows| ==> rows[i].kind != rows[j].kind
    ensures |KindSet(rows)| == |rows|
  {
    var kinds := seq(|rows|, i requires 0 <= i < |rows| => rows[i].kind);
    DistinctLength(kinds);
    assert forall i :: 0 <= i < |rows| ==> kinds[i] == rows[i].kind && kinds[i] in kinds;
    assert Elements(kinds) == KindSet(rows);
  }

  lemma ShapeHas(rows: seq<Row>, kinds: set<string>)
    requires kinds <= TERMINAL && |TerminalRows(rows)| == |kinds| && KindSet(TerminalRows(rows)) == kinds
    ensures Exactly(rows, kinds)
  {
    var terminal := TerminalRows(rows);
    var at := Places(rows);
    KindCount(terminal);
    hide TerminalRows;
    forall kind | kind in kinds ensures exists i :: OneRow(rows, kind, i) {
      var t :| 0 <= t < |terminal| && terminal[t].kind == kind;
      forall j | 0 <= j < |rows| && rows[j].kind == kind ensures j == at[t] {
        var u :| 0 <= u < |at| && at[u] == j;
        assert terminal[u].kind == kind;
      }
      assert OneRow(rows, kind, at[t]);
    }
    forall j | 0 <= j < |rows| && rows[j].kind in TERMINAL ensures rows[j].kind in kinds {
      var u :| 0 <= u < |at| && at[u] == j;
      assert terminal[u].kind in KindSet(terminal);
    }
  }

  lemma ShapeIs(rows: seq<Row>, kinds: set<string>)
    requires kinds <= TERMINAL && Exactly(rows, kinds)
    ensures |TerminalRows(rows)| == |kinds| && KindSet(TerminalRows(rows)) == kinds
  {
    var terminal := TerminalRows(rows);
    var at := Places(rows);
    hide TerminalRows;
    forall t | 0 <= t < |terminal| ensures terminal[t].kind in kinds {
      var kind := terminal[t].kind;
      assert rows[at[t]].kind == kind && !NoRow(rows, kind);
    }
    forall kind | kind in kinds ensures kind in KindSet(terminal) {
      var i :| OneRow(rows, kind, i);
      var t :| 0 <= t < |at| && at[t] == i;
      assert terminal[t].kind == kind;
    }
    forall t, u | 0 <= t < u < |terminal| ensures terminal[t].kind != terminal[u].kind {
      var kind := terminal[t].kind;
      var i :| OneRow(rows, kind, i);
      assert rows[at[t]].kind == kind && at[t] == i && at[u] != i;
    }
    assert KindSet(terminal) == kinds;
    DistinctKinds(terminal);
  }

  lemma ShapeExact(rows: seq<Row>, kinds: set<string>)
    requires kinds <= TERMINAL
    ensures |TerminalRows(rows)| == |kinds| && KindSet(TerminalRows(rows)) == kinds <==> Exactly(rows, kinds)
  {
    hide TerminalRows, KindSet, Exactly;
    if Exactly(rows, kinds) { ShapeIs(rows, kinds); }
    if |TerminalRows(rows)| == |kinds| && KindSet(TerminalRows(rows)) == kinds { ShapeHas(rows, kinds); }
  }

  // ---- what a session's rows show together ----

  ghost predicate CommentWritten(k: Case, c: Codec) {
    exists i :: OneRow(k.writes, "comment", i) && CommentShown(k.writes[i], k.observations, c)
  }

  ghost predicate StatusWritten(k: Case, c: Codec, state: string, sha: string) {
    exists i :: OneRow(k.writes, "status", i) && StatusShown(k.writes[i], k.observations, c, state, sha)
  }

  ghost predicate ReviewWritten(k: Case, c: Codec, approve: bool, sha: string) {
    exists i :: OneRow(k.writes, "review", i) && ReviewShown(k.writes[i], k.observations, c, approve, sha)
  }

  ghost predicate KindProven(k: Case, c: Codec, e: Expectation, target: Json, kind: string) {
    exists i :: OneRow(k.writes, kind, i) && RowProven(k.writes[i], e, k.observations, c, target)
  }

  ghost predicate AllProven(terminal: seq<Row>, e: Expectation, os: seq<Observation>, c: Codec, target: Json) {
    forall t :: 0 <= t < |terminal| ==> RowProven(terminal[t], e, os, c, target)
  }

  lemma RowsProven(k: Case, c: Codec, e: Expectation, target: Json)
    requires e.kinds <= TERMINAL && Exactly(k.writes, e.kinds)
    ensures AllProven(TerminalRows(k.writes), e, k.observations, c, target) <==>
              forall kind :: kind in e.kinds ==> KindProven(k, c, e, target, kind)
  {
    hide RowProven, TerminalRows, Classify;
    var rows, terminal := k.writes, TerminalRows(k.writes);
    var at := Places(rows);
    if forall t :: 0 <= t < |terminal| ==> RowProven(terminal[t], e, k.observations, c, target) {
      forall kind | kind in e.kinds ensures KindProven(k, c, e, target, kind) {
        var i :| OneRow(rows, kind, i);
        var t :| 0 <= t < |at| && at[t] == i;
        assert RowProven(terminal[t], e, k.observations, c, target);
      }
    }
    if forall kind :: kind in e.kinds ==> KindProven(k, c, e, target, kind) {
      forall t | 0 <= t < |terminal| ensures RowProven(terminal[t], e, k.observations, c, target) {
        var kind := terminal[t].kind;
        assert rows[at[t]].kind == kind && !NoRow(rows, kind);
        var i :| OneRow(rows, kind, i) && RowProven(rows[i], e, k.observations, c, target);
        assert at[t] == i;
      }
    }
  }

  lemma CommentProven(k: Case, c: Codec, e: Expectation, target: Json)
    ensures KindProven(k, c, e, target, "comment") <==> CommentWritten(k, c)
  {
    hide CommentShown, Bind;
    forall i | OneRow(k.writes, "comment", i)
    ensures RowProven(k.writes[i], e, k.observations, c, target) <==> CommentShown(k.writes[i], k.observations, c) {
      CommentRow(k.writes[i], k.observations, c);
    }
    hide RowProven;
  }

  lemma StatusProven(k: Case, c: Codec, e: Expectation, target: Json, state: string, sha: string)
    requires e.status == Str(state) && FullSha(target) == Some(sha)
    ensures KindProven(k, c, e, target, "status") <==> StatusWritten(k, c, state, sha)
  {
    hide StatusShown, RowProven;
    forall i | OneRow(k.writes, "status", i)
    ensures RowProven(k.writes[i], e, k.observations, c, target)
            <==> StatusShown(k.writes[i], k.observations, c, state, sha) {
      StatusRow(k.writes[i], k.observations, c, e, target, state, sha);
    }
  }

  lemma ReviewProven(k: Case, c: Codec, e: Expectation, target: Json, approve: bool, sha: string)
    requires e.event == Str(if approve then "APPROVE" else "REQUEST_CHANGES") && FullSha(target) == Some(sha)
    ensures KindProven(k, c, e, target, "review") <==> ReviewWritten(k, c, approve, sha)
  {
    hide ReviewShown, RowProven;
    forall i | OneRow(k.writes, "review", i)
    ensures RowProven(k.writes[i], e, k.observations, c, target)
            <==> ReviewShown(k.writes[i], k.observations, c, approve, sha) {
      ReviewRow(k.writes[i], k.observations, c, e, target, approve, sha);
    }
  }

  // ---- the categories ----

  /** One tombstone, visible, and nothing else terminal. */
  ghost predicate TombstoneShown(k: Case, c: Codec) {
    Exactly(k.writes, {"comment_abandon"})
    && exists i :: OneRow(k.writes, "comment_abandon", i) && AbandonShown(k.writes[i], k.observations, c)
  }

  /** One visible comment and, with a full target commit, one error status on it, and nothing else terminal. */
  ghost predicate FailureShown(k: Case, c: Codec, target: Json) {
    && CommentWritten(k, c)
    && match FullSha(target)
       case None => Exactly(k.writes, {"comment"})
       case Some(sha) => Exactly(k.writes, {"comment", "status"}) && StatusWritten(k, c, "error", sha)
  }

  /** One visible comment, one status and one review of the decision on the commit, and nothing else terminal. */
  ghost predicate VerdictShown(k: Case, c: Codec, approve: bool, sha: string) {
    && Exactly(k.writes, {"comment", "status", "review"}) && CommentWritten(k, c)
    && StatusWritten(k, c, if approve then "success" else "failure", sha) && ReviewWritten(k, c, approve, sha)
  }

  /** The round records a failure and carries no commit. */
  predicate SaysFailure(round: AuditRound) {
    && round.decision.Str? && round.disposition.Str? && FullSha(round.verified).None?
    && (|| round.decision.s in {"unparseable", "insufficient_valid_reviewers"}
        || round.disposition.s in {"unparseable", "insufficient_valid_reviewers", "missing_target", "invalid_target",
                                   "missing_reviewed_sha", "invalid_reviewed_sha", "reviewed_sha_mismatch"})
  }

  /** The round records a verified decision on the commit. */
  predicate SaysVerdict(round: AuditRound, approve: bool, sha: string) {
    && round.decision == Str(if approve then "approve" else "request_changes")
    && round.disposition == Str("verified") && FullSha(round.verified) == Some(sha)
  }

  lemma ExpectExact(target: Json, round: AuditRound)
    ensures var e, sha := Expect(target, round), FullSha(target);
            && (e.Some? && e.value.diagnostic <==> SaysFailure(round))
            && (e.Some? && !e.value.diagnostic <==>
                  sha.Some? && (SaysVerdict(round, true, sha.value) || SaysVerdict(round, false, sha.value)))
            && (SaysFailure(round) ==>
                  e.value == if sha.Some? then Expectation({"comment", "status"}, Str("error"), Null, true)
                             else Expectation({"comment"}, Null, Null, true))
            && (forall approve :: sha.Some? && SaysVerdict(round, approve, sha.value) ==>
                  e == Some(Expectation({"comment", "status", "review"}, Str(if approve then "success" else "failure"),
                                        Str(if approve then "APPROVE" else "REQUEST_CHANGES"), false)))
  {
    hide FullSha;
  }

  /** The session is settled enough to be judged at all. */
  predicate Judged(k: Case) {
    !k.superseded && k.target.Some? && !k.targetConflict && k.actionCompleted && k.sourceComplete && !k.writeConflict
  }

  predicate Recorded(k: Case) {
    Judged(k) && !k.timeout && k.round.Some? && !k.roundConflict
  }

  /** All rows the round leads to are there, and each is proven. */
  ghost predicate Meets(k: Case, c: Codec, e: Expectation)
    requires k.target.Some?
  {
    Exactly(k.writes, e.kinds) && forall kind :: kind in e.kinds ==> KindProven(k, c, e, k.target.value, kind)
  }

  /** The end of the decision, over the terminal rows. */
  lemma ClassifyUnfolds(k: Case, c: Codec, e: Option<Expectation>)
    requires Recorded(k) && e == Expect(k.target.value, k.round.value)
    ensures var terminal := TerminalRows(k.writes);
            Classify(k, c) == if e.None? || |terminal| != |e.value.kinds| || KindSet(terminal) != e.value.kinds
                                 || !AllProven(terminal, e.value, k.observations, c, k.target.value)
                              then PendingOrUnknown else if e.value.diagnostic then VisibleFailure else Reliable
  {
    hide RowProven, TerminalRows, KindSet, Expect, TombstoneVisible;
  }

  lemma ExpectedAreTerminal(target: Json, round: AuditRound)
    ensures Expect(target, round).Some? ==> Expect(target, round).value.kinds <= TERMINAL
  {
    hide FullSha;
  }

  lemma ClassifyRecorded(k: Case, c: Codec)
    requires Recorded(k)
    ensures var e := Expect(k.target.value, k.round.value);
            Classify(k, c) == if e.None? || !Meets(k, c, e.value) then PendingOrUnknown
                              else if e.value.diagnostic then VisibleFailure else Reliable
  {
    var e := Expect(k.target.value, k.round.value);
    ClassifyUnfolds(k, c, e);
    ExpectedAreTerminal(k.target.value, k.round.value);
    if e.Some? {
      ShapeExact(k.writes, e.value.kinds);
      if Exactly(k.writes, e.value.kinds) { RowsProven(k, c, e.value, k.target.value); }
    }
    hide Classify, AllProven, TerminalRows, KindSet, Expect, Exactly, KindProven, Recorded;
  }

  lemma MeetsFailure(k: Case, c: Codec, e: Expectation)
    requires k.target.Some? && (e.kinds == {"comment", "status"} || e.kinds == {"comment"})
    ensures Meets(k, c, e) <==>
              Exactly(k.writes, e.kinds) && KindProven(k, c, e, k.target.value, "comment")
              && (e.kinds == {"comment"} || KindProven(k, c, e, k.target.value, "status"))
  {
    hide Exactly, KindProven;
    assert "status" in {"comment", "status"} && "status" !in {"comment"};
  }

  lemma FailureMeets(k: Case, c: Codec)
    requires Recorded(k) && SaysFailure(k.round.value)
    ensures Meets(k, c, Expect(k.target.value, k.round.value).value) <==> FailureShown(k, c, k.target.value)
  {
    ExpectExact(k.target.value, k.round.value);
    var e := Expect(k.target.value, k.round.value).value;
    var sha := FullSha(k.target.value);
    CommentProven(k, c, e, k.target.value);
    if sha.Some? {
      StatusProven(k, c, e, k.target.value, "error", sha.value);
      assert "status" in e.kinds && e.kinds != {"comment"};
    }
    MeetsFailure(k, c, e);
    hide FullSha, Expect, Exactly, KindProven, CommentWritten, StatusWritten, SaysFailure, Meets, Recorded, Judged,
         SaysVerdict;
  }

  lemma MeetsVerdict(k: Case, c: Codec, e: Expectation)
    requires k.target.Some? && e.kinds == {"comment", "status", "review"}
    ensures Meets(k, c, e) <==>
              Exactly(k.writes, e.kinds) && KindProven(k, c, e, k.target.value, "comment")
              && KindProven(k, c, e, k.target.value, "status") && KindProven(k, c, e, k.target.value, "review")
  {
    hide Exactly, KindProven;
  }

  lemma VerdictMeets(k: Case, c: Codec, approve: bool, sha: string)
    requires Recorded(k) && FullSha(k.target.value) == Some(sha) && SaysVerdict(k.round.value, approve, sha)
    ensures Expect(k.target.value, k.round.value).Some?
    ensures Meets(k, c, Expect(k.target.value, k.round.value).value) <==> VerdictShown(k, c, approve, sha)
  {
    ExpectExact(k.target.value, k.round.value);
    var e := Expect(k.target.value, k.round.value).value;
    CommentProven(k, c, e, k.target.value);
    StatusProven(k, c, e, k.target.value, if approve then "success" else "failure", sha);
    ReviewProven(k, c, e, k.target.value, approve, sha);
    MeetsVerdict(k, c, e);
    hide FullSha, Expect, Exactly, KindProven, CommentWritten, StatusWritten, ReviewWritten, SaysVerdict, Meets,
         SaysFailure, Recorded, Judged;
  }

  lemma TimeoutShows(k: Case, c: Codec)
    ensures TombstoneShown(k, c) <==>
              && |TerminalRows(k.writes)| == 1 && TerminalRows(k.writes)[0].kind == "comment_abandon"
              && TombstoneVisible(k.writes, k.observations, c)
  {
    ShapeExact(k.writes, {"comment_abandon"});
    var terminal := TerminalRows(k.writes);
    var at := Places(k.writes);
    hide TerminalRows, Exactly, Bind, AbandonShown;
    if |terminal| == 1 {
      assert KindSet(terminal) == {terminal[0].kind};
      if terminal[0].kind == "comment_abandon" {
        AbandonRow(terminal[0], k.observations, c);
        KeepAll(terminal, IsAbandon());
        assert k.writes[at[0]] == terminal[0] && OneRow(k.writes, "comment_abandon", at[0]);
      }
    }
  }

  /** Every category exactly: superseded when a superseding event was recorded; reliable when a verified round on the
      target commit is shown by its comment, status and review; a visible failure when a timed-out session shows its
      tombstone, or a round that records a failure shows its notice; unknown in every other case. */
  lemma ClassifyExact(k: Case, c: Codec)
    ensures var r := Classify(k, c);
            && (r == Superseded <==> k.superseded)
            && (r == Reliable <==>
                  Recorded(k) && exists sha, approve ::
                    && FullSha(k.target.value) == Some(sha) && SaysVerdict(k.round.value, approve, sha)
                    && VerdictShown(k, c, approve, sha))
            && (r == VisibleFailure <==>
                  Judged(k) && if k.timeout then TombstoneShown(k, c)
                               else Recorded(k) && SaysFailure(k.round.value) && FailureShown(k, c, k.target.value))
  {
    if Recorded(k) {
      ClassifyRecorded(k, c);
      var e, sha := Expect(k.target.value, k.round.value), FullSha(k.target.value);
      ExpectExact(k.target.value, k.round.value);
      if SaysFailure(k.round.value) { FailureMeets(k, c); }
      forall approve | sha.Some? && SaysVerdict(k.round.value, approve, sha.value)
      ensures e.Some? && (Meets(k, c, e.value) <==> VerdictShown(k, c, approve, sha.value)) {
        VerdictMeets(k, c, approve, sha.value);
      }
      hide *;
    } else {
      TimeoutShows(k, c);
      hide FullSha, TombstoneShown, TombstoneVisible, TerminalRows, Expect, RowProven, KindSet;
    }
  }
}
