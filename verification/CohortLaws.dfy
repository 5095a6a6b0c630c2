/** What joining, grouping and sorting out the week's accepted actions mean, told by the audit rows alone. */
module CohortLaws {
  import opened Collections
  import opened StampOrder
  import opened ReportAudit
  import opened Cohort

  // ---- joining ----

  ghost predicate Finishes(audit: seq<AuditEvent>, e: AuditEvent, key: Key) {
    e in audit && e.kind == "action.completed" && e.outcome == "succeeded" && e.key == Some(key) && e.session.Some?
  }

  /** Two rows completed the key with different sessions or different content. */
  ghost predicate Disputed(audit: seq<AuditEvent>, key: Key) {
    exists e, d :: Finishes(audit, e, key) && Finishes(audit, d, key)
                   && (e.session != d.session || e.material != d.material)
  }

  /** A key is joined to a session exactly when a row completed it with that session and no two rows disagree; it is
      in conflict exactly when two do. */
  lemma JoinExact(audit: seq<AuditEvent>, completed: map<Key, string>, conflicts: set<Key>, key: Key, s: string)
    requires Joined(audit, completed, conflicts)
    ensures key in completed && completed[key] == s <==>
              !Disputed(audit, key) && exists e :: Finishes(audit, e, key) && e.session == Some(s)
    ensures key in conflicts <==> Disputed(audit, key)
  {
    var g := Completions(audit, key);
    assert forall e :: e in g <==> Finishes(audit, e, key) by {
      forall e ensures e in g <==> Finishes(audit, e, key) { assert e in g <==> e in audit && Completes(key)(e); }
    }
    ClashMeans(g);
    hide Finishes, Clash, Completions;
    if g != [] { assert g[0] in g; }
  }

  lemma ClashMeans(g: seq<AuditEvent>)
    ensures g != [] ==> (Clash(g) <==> exists e, d :: e in g && d in g
                                                   && (e.session != d.session || e.material != d.material))
  {
    if g != [] { assert g[0] in g; }
  }

  // ---- grouping ----

  ghost predicate Accepts(audit: seq<AuditEvent>, e: AuditEvent) {
    e in audit && e.kind == "action.accepted" && e.outcome == "accepted"
  }

  /** The acceptances counted together: those whose key is joined to the session, those of one key that is joined to
      none, or the rows of one event id without a key. */
  ghost predicate Together(audit: seq<AuditEvent>, completed: map<Key, string>, x: Natural, e: AuditEvent) {
    && Accepts(audit, e)
    && match x
       case BySession(s) => e.key.Some? && e.key.value in completed && completed[e.key.value] == s
       case ByKey(key) => e.key == Some(key) && key !in completed
       case ByEvent(id) => e.key.None? && e.eventId == id
  }

  /** Two of them differ in content. */
  ghost predicate Unlike(audit: seq<AuditEvent>, completed: map<Key, string>, x: Natural) {
    exists e, d :: Together(audit, completed, x, e) && Together(audit, completed, x, d) && e.material != d.material
  }

  ghost predicate FirstRow(audit: seq<AuditEvent>, completed: map<Key, string>, x: Natural, e: AuditEvent, i: int) {
    && 0 <= i < |audit| && audit[i] == e && Together(audit, completed, x, e)
    && forall j :: 0 <= j < i ==> !Together(audit, completed, x, audit[j])
  }

  lemma GroupMeans(audit: seq<AuditEvent>, completed: map<Key, string>, x: Natural)
    ensures forall e :: e in Group(audit, x, completed) <==> Together(audit, completed, x, e)
  {
    forall e ensures e in Group(audit, x, completed) <==> Together(audit, completed, x, e) {
      assert InGroup(x, completed)(e) <==> IsAcceptance(e) && NaturalOf(e, completed) == x;
    }
  }

  /** The first element that is kept is the first that satisfies the test. */
  lemma {:induction false} KeepFirst<T(!new)>(s: seq<T>, p: T -> bool) returns (i: nat)
    requires Keep(s, p) != []
    ensures i < |s| && s[i] == Keep(s, p)[0] && p(s[i]) && forall j :: 0 <= j < i ==> !p(s[j])
  {
    var n := |s| - 1;
    var front := s[..n];
    if Keep(front, p) != [] {
      i := KeepFirst(front, p);
    } else {
      i := n;
      forall j | 0 <= j < n ensures !p(s[j]) { assert front[j] in front && front[j] !in Keep(front, p); }
    }
  }

  lemma DifferMeans(g: seq<AuditEvent>)
    ensures g != [] ==> (Differ(g) <==> exists e, d :: e in g && d in g && e.material != d.material)
  {
    if g != [] { assert g[0] in g; }
  }

  /** The candidate of a group: the earliest acceptance joined to a session, the first row otherwise. It is in
      conflict exactly when two rows of the group differ or the completions of its key disagree. */
  lemma CandidateExact(audit: seq<AuditEvent>, completed: map<Key, string>, conflicts: set<Key>, x: Natural)
    requires Group(audit, x, completed) != []
    ensures var c := CandidateOf(Group(audit, x, completed), x, conflicts);
            && Together(audit, completed, x, c.event)
            && (x.BySession? ==>
                  && c.session == Some(x.session) && (c.joinConflict <==> Unlike(audit, completed, x))
                  && forall e :: Together(audit, completed, x, e) ==> !Before(StampAt(e), StampAt(c.event)))
            && (!x.BySession? ==>
                  && c.session == None
                  && (c.joinConflict <==> Unlike(audit, completed, x) || (x.ByKey? && x.key in conflicts))
                  && exists i :: FirstRow(audit, completed, x, c.event, i))
  {
    var g := Group(audit, x, completed);
    GroupMeans(audit, completed, x);
    DifferMeans(g);
    var c := CandidateOf(g, x, conflicts);
    assert g[0] in g;
    var i := KeepFirst(audit, InGroup(x, completed));
    if !x.BySession? {
      assert FirstRow(audit, completed, x, c.event, i) by {
        forall j | 0 <= j < i ensures !Together(audit, completed, x, audit[j]) {
          assert !InGroup(x, completed)(audit[j]);
        }
      }
    }
    hide Together, Group, Differ, Before, FirstRow;
  }

  function StampAt(e: AuditEvent): Stamp {
    Stamp(e.occurredAt, e.seqNo, e.eventId)
  }

  // ---- sorting out ----

  /** Unknown without a session or with a conflict of any kind; of the rest, an ask or a review by its target. */
  lemma KindsExact(c: Candidate, reasons: map<string, string>, conflicted: set<string>)
    ensures var target := TargetOf(reasons, conflicted);
            var known := c.session.Some? && !c.joinConflict && c.session.value in reasons
                         && c.session.value !in conflicted;
            && (Unknown(c, target) <==> !known)
            && (Ask(c, target) <==> known && reasons[c.session.value] == "ask")
            && (Eligible(c, target) <==> known && reasons[c.session.value] != "ask")
  {
  }
}
