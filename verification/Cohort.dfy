/** The weekly cohort: joining accepted actions to sessions, and counting every one of them exactly once. */
module Cohort {
  import opened Collections
  import opened StampOrder
  import opened ReportAudit

  datatype Key = Key(delivery: string, action: string, triggerRef: string)

  datatype AuditEvent = AuditEvent(kind: string, outcome: string, key: Option<Key>, session: Option<string>,
                                   eventId: string, seqNo: int, occurredAt: int, material: string)

  function EventStamp(): AuditEvent -> Stamp {
    (e: AuditEvent) => Stamp(e.occurredAt, e.seqNo, e.eventId)
  }

  // ---- completed actions ----

  function Completes(key: Key): AuditEvent -> bool {
    (e: AuditEvent) => e.kind == "action.completed" && e.outcome == "succeeded" && e.key == Some(key) && e.session.Some?
  }

  function Completions(audit: seq<AuditEvent>, key: Key): seq<AuditEvent> {
    Keep(audit, Completes(key))
  }

  predicate Clash(g: seq<AuditEvent>) {
    exists e :: e in g && (e.session != g[0].session || e.material != g[0].material)
  }

  /** The session a key completed with, when all its completions agree. */
  ghost predicate Joined(audit: seq<AuditEvent>, completed: map<Key, string>, conflicts: set<Key>) {
    forall key ::
      var g := Completions(audit, key);
      && (key in conflicts <==> g != [] && Clash(g))
      && (key in completed <==> g != [] && !Clash(g))
      && (key in completed ==> g[0].session == Some(completed[key]))
  }

  ghost predicate ReadSoFar(g: seq<AuditEvent>, key: Key, byKey: map<Key, (string, string)>, conflicts: set<Key>) {
    && (key in byKey <==> g != [])
    && (key in byKey ==> g[0].session == Some(byKey[key].0) && g[0].material == byKey[key].1)
    && (key in conflicts <==> g != [] && Clash(g))
  }

  lemma ClashMore(g: seq<AuditEvent>, e: AuditEvent)
    requires g != []
    ensures Clash(g + [e]) <==> Clash(g) || e.session != g[0].session || e.material != g[0].material
  {
    var h := g + [e];
    assert h[0] == g[0] && e in h && forall x :: x in h <==> x in g || x == e;
  }

  method CompletedActions(audit: seq<AuditEvent>) returns (completed: map<Key, string>, conflicts: set<Key>)
    ensures Joined(audit, completed, conflicts)
  {
    var byKey: map<Key, (string, string)> := map[];
    conflicts := {};
    hide Keep, Clash;
    for n := 0 to |audit|
      invariant forall key :: ReadSoFar(Completions(audit[..n], key), key, byKey, conflicts)
    {
      var e := audit[n];
      forall key ensures Completions(audit[..n + 1], key) == Completions(audit[..n], key)
      + (if Completes(key)(e) then [e] else []) {
        KeepStep(audit, Completes(key), n);
      }
      if e.kind != "action.completed" || e.outcome != "succeeded" || e.key.None? || e.session.None? {
        assert forall key :: Completions(audit[..n + 1], key) == Completions(audit[..n], key);
        continue;
      }
      var key, pair := e.key.value, (e.session.value, e.material);
      assert ReadSoFar(Completions(audit[..n], key), key, byKey, conflicts);
      if key !in byKey {
        byKey := byKey[key := pair];
        assert !Clash([e]) by { OneEvent(e); }
        assert Completions(audit[..n + 1], key) == [e];
      } else {
        ClashMore(Completions(audit[..n], key), e);
        if byKey[key] != pair {
          conflicts := conflicts + {key};
        }
      }
      assert forall k :: k != key ==> Completions(audit[..n + 1], k) == Completions(audit[..n], k);
    }
    assert audit[..|audit|] == audit;
    completed := map key | key in byKey && key !in conflicts :: byKey[key].0;
    assert forall key :: ReadSoFar(Completions(audit, key), key, byKey, conflicts);
  }

  lemma OneEvent(e: AuditEvent)
    ensures !Clash([e])
  {
  }

  // ---- accepted actions ----

  /** What an accepted action is counted under. */
  datatype Natural = BySession(session: string) | ByKey(key: Key) | ByEvent(eventId: string)

  datatype Candidate = Candidate(event: AuditEvent, session: Option<string>, joinConflict: bool)

  function NaturalOf(e: AuditEvent, completed: map<Key, string>): Natural {
    if e.key.None? then ByEvent(e.eventId)
    else if e.key.value in completed then BySession(completed[e.key.value])
    else ByKey(e.key.value)
  }

  predicate IsAcceptance(e: AuditEvent) {
    e.kind == "action.accepted" && e.outcome == "accepted"
  }

  function InGroup(natural: Natural, completed: map<Key, string>): AuditEvent -> bool {
    (e: AuditEvent) => IsAcceptance(e) && NaturalOf(e, completed) == natural
  }

  function Group(audit: seq<AuditEvent>, natural: Natural, completed: map<Key, string>): seq<AuditEvent> {
    Keep(audit, InGroup(natural, completed))
  }

  predicate Differ(g: seq<AuditEvent>) {
    exists e :: e in g && e.material != g[0].material
  }

  /** The one candidate that stands for a group: the earliest acceptance of a session, the first row otherwise;
      in conflict when the group's rows differ or the key's completions disagree. */
  function CandidateOf(g: seq<AuditEvent>, natural: Natural, conflicts: set<Key>): Candidate
    requires g != []
  {
    match natural
    case BySession(s) => Candidate(Earliest(g, EventStamp()), Some(s), Differ(g))
    case ByKey(key) => Candidate(g[0], None, key in conflicts || Differ(g))
    case ByEvent(_) => Candidate(g[0], None, Differ(g))
  }

  function Counted(completed: map<Key, string>): Candidate -> Natural {
    (c: Candidate) => if c.session.Some? then BySession(c.session.value) else NaturalOf(c.event, completed)
  }

  function CandidateStamp(): Candidate -> Stamp {
    (c: Candidate) => EventStamp()(c.event)
  }

  lemma GroupStep(audit: seq<AuditEvent>, n: nat, completed: map<Key, string>)
    requires n < |audit|
    ensures var e := audit[n];
            forall x :: Group(audit[..n + 1], x, completed)
                        == if IsAcceptance(e) && NaturalOf(e, completed) == x then Group(audit[..n], x, completed)
                        + [e] else Group(audit[..n], x, completed)
  {
    forall x ensures Group(audit[..n + 1], x, completed)
                     == if IsAcceptance(audit[n])
                     && NaturalOf(audit[n], completed) == x then Group(audit[..n], x, completed) + [audit[n]]
                        else Group(audit[..n], x, completed) {
      KeepStep(audit, InGroup(x, completed), n);
    }
  }

  lemma DifferMore(g: seq<AuditEvent>, e: AuditEvent)
    ensures g != [] ==> (Differ(g + [e]) <==> Differ(g) || e.material != g[0].material)
    ensures !Differ([e])
  {
    if g != [] {
      var h := g + [e];
      assert h[0] == g[0] && e in h && forall x :: x in h <==> x in g || x == e;
    }
  }

  /** After reading some rows: the whole group for a session ... */
  ghost predicate SessionAt(g: seq<AuditEvent>, s: string, grouped: map<string, seq<AuditEvent>>) {
    (s in grouped <==> g != []) && (s in grouped ==> grouped[s] == g)
  }

  ghost predicate SessionTable(prefix: seq<AuditEvent>, grouped: map<string, seq<AuditEvent>>, completed: map<Key,
                               string>) {
    forall s :: SessionAt(Group(prefix, BySession(s), completed), s, grouped)
  }

  /** ... and a running candidate for everything else. */
  ghost predicate RestAt(g: seq<AuditEvent>, x: Natural, unresolved: map<Natural, Candidate>, conflicts: set<Key>) {
    (x in unresolved <==> !x.BySession? && g != [])
    && (x in unresolved ==> unresolved[x] == CandidateOf(g, x, conflicts))
  }

  ghost predicate RestTable(prefix: seq<AuditEvent>, unresolved: map<Natural, Candidate>, completed: map<Key, string>,
                            conflicts: set<Key>) {
    forall x :: RestAt(Group(prefix, x, completed), x, unresolved, conflicts)
  }

  function NextGrouped(grouped: map<string, seq<AuditEvent>>, e: AuditEvent, x: Natural): map<string, seq<AuditEvent>> {
    if IsAcceptance(e) && x.BySession?
       then grouped[x.session := (if x.session in grouped then grouped[x.session] else []) + [e]] else grouped
  }

  function NextUnresolved(unresolved: map<Natural, Candidate>, e: AuditEvent, x: Natural,
                          conflicts: set<Key>): map<Natural, Candidate> {
    if !IsAcceptance(e) || x.BySession? then unresolved
    else if x !in unresolved then unresolved[x := Candidate(e, None, x.ByKey? && x.key in conflicts)]
    else if unresolved[x].event.material != e.material then unresolved[x := unresolved[x].(joinConflict := true)]
    else unresolved
  }

  lemma RestAtStep(g: seq<AuditEvent>, y: Natural, unresolved: map<Natural, Candidate>, conflicts: set<Key>,
                   e: AuditEvent, x: Natural)
    requires RestAt(g, y, unresolved, conflicts)
    ensures RestAt(if IsAcceptance(e) && x == y then g + [e] else g, y, NextUnresolved(unresolved, e, x, conflicts),
                   conflicts)
  {
    DifferMore(g, e);
    hide Differ, Earliest, IsAcceptance;
    if g == [] { assert g + [e] == [e]; }
  }

  lemma SessionAtStep(g: seq<AuditEvent>, s: string, grouped: map<string, seq<AuditEvent>>, e: AuditEvent, x: Natural)
    requires SessionAt(g, s, grouped)
    ensures SessionAt(if IsAcceptance(e) && x == BySession(s) then g + [e] else g, s, NextGrouped(grouped, e, x))
  {
  }

  lemma TablesStep(audit: seq<AuditEvent>, n: nat, grouped: map<string, seq<AuditEvent>>, unresolved: map<Natural,
                   Candidate>, completed: map<Key, string>, conflicts: set<Key>)
    requires n < |audit| && SessionTable(audit[..n], grouped, completed)
             && RestTable(audit[..n], unresolved, completed, conflicts)
    ensures var e := audit[n]; var x := NaturalOf(e, completed);
            && SessionTable(audit[..n + 1], NextGrouped(grouped, e, x), completed)
            && RestTable(audit[..n + 1], NextUnresolved(unresolved, e, x, conflicts), completed, conflicts)
  {
    var e := audit[n];
    var x := NaturalOf(e, completed);
    GroupStep(audit, n, completed);
    hide Group, RestAt, SessionAt, NaturalOf, IsAcceptance, NextUnresolved, NextGrouped;
    var prefix, unresolved' := audit[..n + 1], NextUnresolved(unresolved, e, x, conflicts);
    forall y ensures RestAt(Group(prefix, y, completed), y, unresolved', conflicts) {
      RestAtStep(Group(audit[..n], y, completed), y, unresolved, conflicts, e, x);
    }
    var grouped' := NextGrouped(grouped, e, x);
    forall s ensures SessionAt(Group(prefix, BySession(s), completed), s, grouped') {
      SessionAtStep(Group(audit[..n], BySession(s), completed), s, grouped, e, x);
    }
  }

  method ReadAcceptances(audit: seq<AuditEvent>, completed: map<Key, string>, conflicts: set<Key>)
    returns (grouped: map<string, seq<AuditEvent>>, unresolved: map<Natural, Candidate>)
    ensures SessionTable(audit, grouped, completed) && RestTable(audit, unresolved, completed, conflicts)
  {
    hide SessionTable, RestTable;
    grouped, unresolved := map[], map[];
    EmptyTables(audit, completed, conflicts);
    for n := 0 to |audit|
      invariant SessionTable(audit[..n], grouped, completed) && RestTable(audit[..n], unresolved, completed, conflicts)
    {
      var e := audit[n];
      TablesStep(audit, n, grouped, unresolved, completed, conflicts);
      if !IsAcceptance(e) { continue; }
      var x := NaturalOf(e, completed);
      if x.BySession? {
        grouped := grouped[x.session := (if x.session in grouped then grouped[x.session] else []) + [e]];
      } else if x !in unresolved {
        unresolved := unresolved[x := Candidate(e, None, x.ByKey? && x.key in conflicts)];
      } else if unresolved[x].event.material != e.material {
        unresolved := unresolved[x := unresolved[x].(joinConflict := true)];
      }
    }
    assert audit[..|audit|] == audit;
  }

  lemma EmptyTables(audit: seq<AuditEvent>, completed: map<Key, string>, conflicts: set<Key>)
    ensures SessionTable(audit[..0], map[], completed) && RestTable(audit[..0], map[], completed, conflicts)
  {
  }

  // ---- one candidate per group, sorted ----

  /** The naturals that occur among accepted actions. */
  function Naturals(audit: seq<AuditEvent>, completed: map<Key, string>): set<Natural> {
    set e | e in audit && IsAcceptance(e) :: NaturalOf(e, completed)
  }

  lemma NaturalsAreGroups(audit: seq<AuditEvent>, completed: map<Key, string>, x: Natural)
    ensures x in Naturals(audit, completed) <==> Group(audit, x, completed) != []
  {
    var g := Group(audit, x, completed);
    if g != [] { assert g[0] in g && InGroup(x, completed)(g[0]); }
    if e :| e in audit && IsAcceptance(e) && NaturalOf(e, completed) == x { assert InGroup(x, completed)(e) && e in g; }
  }

  /** The candidate of a group is counted under the group. */
  lemma CandidateCounted(audit: seq<AuditEvent>, completed: map<Key, string>, conflicts: set<Key>, x: Natural)
    requires Group(audit, x, completed) != []
    ensures Counted(completed)(CandidateOf(Group(audit, x, completed), x, conflicts)) == x
  {
    var g := Group(audit, x, completed);
    assert g[0] in g && InGroup(x, completed)(g[0]);
  }

  ghost predicate Selected(audit: seq<AuditEvent>, completed: map<Key, string>, conflicts: set<Key>,
                           inWeek: int -> bool, done: set<Natural>, c: Candidate) {
    exists x :: x in done && Group(audit, x, completed) != []
                && c == CandidateOf(Group(audit, x, completed), x, conflicts) && inWeek(c.event.occurredAt)
  }

  /** The list holds exactly the selected candidates of the naturals done so far. */
  ghost predicate Listed(accepted: seq<Candidate>, audit: seq<AuditEvent>, completed: map<Key, string>,
                         conflicts: set<Key>, inWeek: int -> bool, done: set<Natural>) {
    && DistinctBy(accepted, Counted(completed)) && InOrder(accepted, CandidateStamp())
    && (forall c :: c in accepted ==> Counted(completed)(c) in done)
    && (forall c :: c in accepted <==> Selected(audit, completed, conflicts, inWeek, done, c))
  }

  lemma ListMore(accepted: seq<Candidate>, audit: seq<AuditEvent>, completed: map<Key, string>, conflicts: set<Key>,
                 inWeek: int -> bool, done: set<Natural>, x: Natural, c: Candidate)
    requires Listed(accepted, audit, completed, conflicts, inWeek, done) && x !in done
    requires Group(audit, x, completed) != [] && c == CandidateOf(Group(audit, x, completed), x, conflicts)
    ensures Listed(if inWeek(c.event.occurredAt) then Inserted(accepted, c, CandidateStamp()) else accepted, audit,
                   completed, conflicts, inWeek, done + {x})
  {
    CandidateCounted(audit, completed, conflicts, x);
    SelectedMore(audit, completed, conflicts, inWeek, done, x, c);
    hide Selected, Group, CandidateOf, Counted, CandidateStamp, InOrder, DistinctBy, Inserted;
    InsertKeepsOrder(accepted, c, CandidateStamp());
    InsertedExact(accepted, c, CandidateStamp(), Counted(completed));
  }

  /** The candidate of a group, read from the tables. */
  method Choose(x: Natural, grouped: map<string, seq<AuditEvent>>, unresolved: map<Natural, Candidate>,
                ghost audit: seq<AuditEvent>, ghost completed: map<Key, string>, ghost conflicts: set<Key>)
    returns (c: Candidate)
    requires SessionTable(audit, grouped, completed) && RestTable(audit, unresolved, completed, conflicts)
             && Group(audit, x, completed) != []
    ensures c == CandidateOf(Group(audit, x, completed), x, conflicts)
  {
    hide Group, Earliest, Differ;
    assert RestAt(Group(audit, x, completed), x, unresolved, conflicts);
    if x.BySession? {
      assert SessionAt(Group(audit, x, completed), x.session, grouped);
      var g := grouped[x.session];
      c := Candidate(Earliest(g, EventStamp()), Some(x.session), Differ(g));
    } else {
      c := unresolved[x];
    }
  }

  /** Exactly one candidate for every natural of the week, in order; in particular no session twice. */
  method AcceptedCandidates(audit: seq<AuditEvent>, inWeek: int -> bool)
    returns (accepted: seq<Candidate>, total: nat, completed: map<Key, string>, conflicts: set<Key>)
    ensures Joined(audit, completed, conflicts)
    ensures DistinctBy(accepted, Counted(completed)) && InOrder(accepted, CandidateStamp())
    ensures forall c :: c in accepted <==> Selected(audit, completed, conflicts, inWeek, Naturals(audit, completed), c)
    ensures total == |Naturals(audit, completed)|
  {
    hide Joined, Naturals, Group, Listed, SessionTable, RestTable, CandidateOf, Selected, DistinctBy, InOrder,
    Inserted, Keys;
    completed, conflicts := CompletedActions(audit);
    var grouped, unresolved := ReadAcceptances(audit, completed, conflicts);
    TodoIsAll(audit, grouped, unresolved, completed, conflicts);
    var todo := Keys(grouped, unresolved);
    ghost var all := todo;
    accepted, total := [], 0;
    NothingYet(audit, completed, conflicts, inWeek);
    assert all - todo == {};
    while todo != {}
      invariant todo <= all && total == |all| - |todo|
      invariant Listed(accepted, audit, completed, conflicts, inWeek, all - todo)
    {
      var x :| x in todo;
      NaturalsAreGroups(audit, completed, x);
      var c := Choose(x, grouped, unresolved, audit, completed, conflicts);
      ListMore(accepted, audit, completed, conflicts, inWeek, all - todo, x, c);
      if inWeek(c.event.occurredAt) {
        accepted := Inserted(accepted, c, CandidateStamp());
      }
      assert all - (todo - {x}) == (all - todo) + {x};
      todo, total := todo - {x}, total + 1;
    }
    assert all - todo == all;
    ListedMeans(accepted, audit, completed, conflicts, inWeek, all);
  }

  function Keys(grouped: map<string, seq<AuditEvent>>, unresolved: map<Natural, Candidate>): set<Natural> {
    (set s | s in grouped :: BySession(s)) + unresolved.Keys
  }

  lemma ListedMeans(accepted: seq<Candidate>, audit: seq<AuditEvent>, completed: map<Key, string>, conflicts: set<Key>,
                    inWeek: int -> bool, done: set<Natural>)
    requires Listed(accepted, audit, completed, conflicts, inWeek, done)
    ensures DistinctBy(accepted, Counted(completed)) && InOrder(accepted, CandidateStamp())
    ensures forall c :: c in accepted <==> Selected(audit, completed, conflicts, inWeek, done, c)
  {
  }

  lemma NothingYet(audit: seq<AuditEvent>, completed: map<Key, string>, conflicts: set<Key>, inWeek: int -> bool)
    ensures Listed([], audit, completed, conflicts, inWeek, {})
  {
  }

  lemma TodoIsAll(audit: seq<AuditEvent>, grouped: map<string, seq<AuditEvent>>, unresolved: map<Natural, Candidate>,
                  completed: map<Key, string>, conflicts: set<Key>)
    requires SessionTable(audit, grouped, completed) && RestTable(audit, unresolved, completed, conflicts)
    ensures Keys(grouped, unresolved) == Naturals(audit, completed)
  {
    var todo := Keys(grouped, unresolved);
    forall x ensures x in todo <==> x in Naturals(audit, completed) {
      NaturalsAreGroups(audit, completed, x);
      hide Group, Naturals;
      assert RestAt(Group(audit, x, completed), x, unresolved, conflicts);
      if x.BySession? {
        assert SessionAt(Group(audit, x, completed), x.session, grouped);
        assert x in todo <==> x.session in grouped;
      }
    }
  }

  lemma SelectedMore(audit: seq<AuditEvent>, completed: map<Key, string>, conflicts: set<Key>, inWeek: int -> bool,
                     done: set<Natural>, x: Natural, c: Candidate)
    requires Group(audit, x, completed) != [] && c == CandidateOf(Group(audit, x, completed), x, conflicts)
    ensures forall d :: Selected(audit, completed, conflicts, inWeek, done + {x}, d)
                        <==> Selected(audit, completed, conflicts, inWeek, done, d)
                             || (d == c && inWeek(c.event.occurredAt))
  {
    hide Group, CandidateOf;
  }

  // ---- the counts ----

  datatype TargetKind = NoTarget | ConflictingTarget | AskTarget | ReviewTarget

  predicate Unknown(c: Candidate, target: string -> TargetKind) {
    c.session.None? || c.joinConflict || target(c.session.value) in {NoTarget, ConflictingTarget}
  }

  predicate Ask(c: Candidate, target: string -> TargetKind) {
    !Unknown(c, target) && target(c.session.value) == AskTarget
  }

  function IsAsk(target: string -> TargetKind): Candidate -> bool {
    (c: Candidate) => Ask(c, target)
  }

  function IsUnknown(target: string -> TargetKind): Candidate -> bool {
    (c: Candidate) => Unknown(c, target)
  }

  /** The positions of the candidates that satisfy `p`. */
  function Where(accepted: seq<Candidate>, p: Candidate -> bool): set<nat> {
    set i: nat | i < |accepted| && p(accepted[i])
  }

  lemma WhereNone(accepted: seq<Candidate>, p: Candidate -> bool)
    requires accepted == []
    ensures Where(accepted, p) == {}
  {
  }

  lemma WhereMore(accepted: seq<Candidate>, n: nat, p: Candidate -> bool)
    requires n < |accepted|
    ensures |Where(accepted[..n + 1], p)| == |Where(accepted[..n], p)| + (if p(accepted[n]) then 1 else 0)
  {
    assert Where(accepted[..n + 1], p) == Where(accepted[..n], p) + (if p(accepted[n]) then {n} else {});
  }

  predicate Eligible(c: Candidate, target: string -> TargetKind) {
    !Unknown(c, target) && target(c.session.value) == ReviewTarget
  }

  ghost predicate SessionOnce(accepted: seq<Candidate>) {
    forall i, j :: 0 <= i < j < |accepted| && accepted[i].session.Some? ==> accepted[i].session != accepted[j].session
  }

  /** The accepted candidates never name a session twice. */
  lemma CandidatesNameSessionsOnce(accepted: seq<Candidate>, completed: map<Key, string>)
    requires DistinctBy(accepted, Counted(completed))
    ensures SessionOnce(accepted)
  {
    forall i, j | 0 <= i < j < |accepted| && accepted[i].session.Some?
        ensures accepted[i].session != accepted[j].session {
      assert Counted(completed)(accepted[i]) != Counted(completed)(accepted[j]);
    }
  }

  /** The sessions of one category among the eligible ones. */
  function InCategory(sessions: set<string>, category: string -> Category, k: Category): set<string> {
    set s | s in sessions && category(s) == k
  }

  /** Each category counts exactly the sessions of that category, and the four sum to all of them. */
  ghost predicate Tallied(counts: map<Category, nat>, sessions: set<string>, category: string -> Category) {
    && counts.Keys == {Reliable, VisibleFailure, Superseded, PendingOrUnknown}
    && (forall k :: k in counts ==> counts[k] == |InCategory(sessions, category, k)|)
    && counts[Reliable] + counts[VisibleFailure] + counts[Superseded] + counts[PendingOrUnknown] == |sessions|
  }

  lemma CategoryMore(sessions: set<string>, category: string -> Category, s: string, k: Category)
    requires s !in sessions
    ensures |InCategory(sessions + {s}, category, k)| == |InCategory(sessions, category, k)|
            + (if category(s) == k then 1 else 0)
  {
    assert InCategory(sessions + {s}, category, k) == InCategory(sessions, category, k)
           + (if category(s) == k then {s} else {});
  }

  lemma TallyMore(counts: map<Category, nat>, sessions: set<string>, category: string -> Category, s: string)
    requires Tallied(counts, sessions, category) && s !in sessions
    ensures category(s) in counts && Tallied(counts[category(s) := counts[category(s)] + 1], sessions + {s}, category)
  {
    forall k ensures |InCategory(sessions + {s}, category, k)| == |InCategory(sessions, category, k)|
    + (if category(s) == k then 1 else 0) {
      CategoryMore(sessions, category, s, k);
    }
    hide InCategory;
    match category(s) case Reliable => case VisibleFailure => case Superseded => case PendingOrUnknown =>
  }

  lemma TallyNone(category: string -> Category)
    ensures Tallied(map[Reliable := 0, VisibleFailure := 0, Superseded := 0, PendingOrUnknown := 0], {}, category)
  {
    assert forall k :: InCategory({}, category, k) == {};
  }

  lemma KindTests(c: Candidate, target: string -> TargetKind)
    ensures (IsAsk(target)(c) <==> Ask(c, target)) && (IsUnknown(target)(c) <==> Unknown(c, target))
  {
  }

  /** The cohort loop. Nothing accepted is lost or counted twice: the total is eligible plus asks plus unknown,
      although the eligible are counted as a set of sessions and the rest one by one; and each reliability
      category counts exactly the eligible sessions of that category, so the four sum to the denominator. */
  method CountCohort(accepted: seq<Candidate>, target: string -> TargetKind, category: string -> Category)
    returns (eligible: set<string>, asks: nat, unknown: nat, counts: map<Category, nat>)
    requires SessionOnce(accepted)
    ensures asks == |Where(accepted, IsAsk(target))| && unknown == |Where(accepted, IsUnknown(target))|
    ensures |accepted| == |eligible| + asks + unknown
    ensures forall s :: s in eligible <==> exists c :: c in accepted && Eligible(c, target) && c.session == Some(s)
    ensures Tallied(counts, eligible, category)
  {
    hide Tallied, Where, IsAsk, IsUnknown;
    eligible, asks, unknown := {}, 0, 0;
    WhereNone(accepted[..0], IsAsk(target));
    WhereNone(accepted[..0], IsUnknown(target));
    counts := map[Reliable := 0, VisibleFailure := 0, Superseded := 0, PendingOrUnknown := 0];
    TallyNone(category);
    for i := 0 to |accepted|
      invariant i == |eligible| + asks + unknown
      invariant asks == |Where(accepted[..i], IsAsk(target))| && unknown == |Where(accepted[..i], IsUnknown(target))|
      invariant forall s :: s in eligible <==> exists j ::
                  0 <= j < i && Eligible(accepted[j], target) && accepted[j].session == Some(s)
      invariant Tallied(counts, eligible, category)
    {
      var c := accepted[i];
      WhereMore(accepted, i, IsAsk(target));
      WhereMore(accepted, i, IsUnknown(target));
      KindTests(c, target);
      if Unknown(c, target) {
        unknown := unknown + 1;
      } else if target(c.session.value) == AskTarget {
        asks := asks + 1;
      } else {
        var s := c.session.value;
        TallyMore(counts, eligible, category, s);
        eligible := eligible + {s};
        counts := counts[category(s) := counts[category(s)] + 1];
      }
    }
    assert accepted[..|accepted|] == accepted;
  }

  // ---- the cohort of a week ----

  /** What the report knows of a session's target: why it was opened, unless its rows conflict. */
  function TargetOf(reasons: map<string, string>, conflicted: set<string>): string -> TargetKind {
    (s: string) =>
      if s !in reasons then NoTarget
      else if s in conflicted then ConflictingTarget
      else if reasons[s] == "ask" then AskTarget
      else ReviewTarget
  }

  function Classified(cases: string -> Case, codec: Codec): string -> Category {
    (s: string) => Classify(cases(s), codec)
  }

  /** The report's cohort: the accepted actions of the week, joined, counted and classified. Every accepted candidate
      is counted once, the categories are those the classification gives the eligible sessions, and a session counted
      reliable is one whose receipts demonstrate it. */
  method WeeklyCohort(audit: seq<AuditEvent>, inWeek: int -> bool, reasons: map<string, string>,
                      conflicted: set<string>,
                      cases: string -> Case, codec: Codec)
    returns (accepted: seq<Candidate>, eligible: set<string>, asks: nat, unknown: nat, counts: map<Category, nat>,
             completed: map<Key, string>, conflicts: set<Key>)
    ensures Joined(audit, completed, conflicts)
    ensures forall c :: c in accepted <==> Selected(audit, completed, conflicts, inWeek, Naturals(audit, completed), c)
    ensures var target := TargetOf(reasons, conflicted);
            && |accepted| == |eligible| + asks + unknown
            && asks == |Where(accepted, IsAsk(target))| && unknown == |Where(accepted, IsUnknown(target))|
            && (forall s :: s in eligible <==> exists c :: c in accepted && Eligible(c, target) && c.session == Some(s))
    ensures Tallied(counts, eligible, Classified(cases, codec))
    ensures forall s :: s in InCategory(eligible, Classified(cases, codec), Reliable) ==> Demonstrated(cases(s), codec)
  {
    hide Joined, Selected, Naturals, Tallied, Where, Demonstrated, Classify, DistinctBy, InOrder;
    var total;
    accepted, total, completed, conflicts := AcceptedCandidates(audit, inWeek);
    CandidatesNameSessionsOnce(accepted, completed);
    eligible, asks, unknown, counts := CountCohort(accepted, TargetOf(reasons, conflicted), Classified(cases, codec));
    forall s | s in InCategory(eligible, Classified(cases, codec), Reliable) ensures Demonstrated(cases(s), codec) {
      ReliableIsShown(cases(s), codec);
    }
  }
}
