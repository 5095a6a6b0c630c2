/** Deduplicating audit rows in the weekly report: one row per event id, dropping ids and keys whose rows disagree. */
module AuditDedupe {
  import opened Collections
  import opened StampOrder

  /** A validated audit row; `material` renders every field in which copies must agree. */
  datatype AuditRow = AuditRow(eventId: string, service: string, eventKey: string, recordedAt: int, seqNo: int,
                               material: string)

  function EventConflict(id: string): string {
    "event:" + id
  }

  function KeyConflict(service: string, key: string): string {
    "key:" + service + ":" + key
  }

  // ---- what survives ----

  type Name = (string, string)

  function NameOf(r: AuditRow): Name {
    (r.service, r.eventKey)
  }

  function KeyText(name: Name): string {
    KeyConflict(name.0, name.1)
  }

  ghost predicate FirstOfId(rows: seq<AuditRow>, i: nat) {
    i < |rows| && forall j :: 0 <= j < i ==> rows[j].eventId != rows[i].eventId
  }

  /** Among the first `n` rows, two of one event id disagree. */
  ghost predicate IdDisagrees(rows: seq<AuditRow>, n: nat, id: string)
    requires n <= |rows|
  {
    exists i, j :: 0 <= i < n && 0 <= j < n && rows[i].eventId == id == rows[j].eventId
                   && rows[i].material != rows[j].material
  }

  /** Among the first `n` rows, two of one service and event key disagree. */
  ghost predicate KeyDisagrees(rows: seq<AuditRow>, n: nat, name: Name)
    requires n <= |rows|
  {
    exists i, j :: 0 <= i < n && 0 <= j < n && NameOf(rows[i]) == name == NameOf(rows[j])
                   && rows[i].material != rows[j].material
  }

  ghost predicate KeyTextDisagrees(rows: seq<AuditRow>, n: nat, text: string)
    requires n <= |rows|
  {
    exists name: Name :: KeyDisagrees(rows, n, name) && KeyText(name) == text
  }

  /** The first row of an id whose copies agree, unless a disagreeing key is written like its own. */
  ghost predicate Survives(rows: seq<AuditRow>, i: nat) {
    && FirstOfId(rows, i) && !IdDisagrees(rows, |rows|, rows[i].eventId)
    && !KeyTextDisagrees(rows, |rows|, KeyText(NameOf(rows[i])))
  }

  ghost predicate SurvivingRow(rows: seq<AuditRow>, r: AuditRow) {
    exists i: nat :: Survives(rows, i) && rows[i] == r
  }

  /** The conflict names the first `n` rows give rise to. */
  ghost predicate Conflicts(conflicts: set<string>, rows: seq<AuditRow>, n: nat)
    requires n <= |rows|
  {
    && (forall id :: EventConflict(id) in conflicts <==> IdDisagrees(rows, n, id))
    && (forall name: Name :: KeyText(name) in conflicts <==> KeyTextDisagrees(rows, n, KeyText(name)))
    && (forall text :: text in conflicts ==> NamesConflict(text))
  }

  /** A conflict is named after an event id or after a service and key, in that form. */
  ghost predicate NamesConflict(text: string) {
    (exists id :: text == EventConflict(id)) || (exists name: Name :: text == KeyText(name))
  }

  // ---- the order of the report ----

  function RowStamp(): AuditRow -> Stamp {
    (r: AuditRow) => Stamp(r.recordedAt, r.seqNo, r.eventId)
  }

  function RowId(): AuditRow -> string {
    (r: AuditRow) => r.eventId
  }

  // ---- reading one more row ----

  /** `f` is an earlier row like row `n`, or `n` itself when there is none. */
  ghost predicate EarlierId(rows: seq<AuditRow>, n: nat, f: nat) {
    f <= n < |rows| && rows[f].eventId == rows[n].eventId
    && (f == n ==> forall j :: 0 <= j < n ==> rows[j].eventId != rows[n].eventId)
  }

  ghost predicate EarlierKey(rows: seq<AuditRow>, n: nat, f: nat) {
    f <= n < |rows| && NameOf(rows[f]) == NameOf(rows[n])
    && (f == n ==> forall j :: 0 <= j < n ==> NameOf(rows[j]) != NameOf(rows[n]))
  }

  lemma IdStep(rows: seq<AuditRow>, n: nat, f: nat, id: string)
    requires EarlierId(rows, n, f)
    ensures IdDisagrees(rows, n + 1, id) <==>
              IdDisagrees(rows, n, id) || (id == rows[n].eventId && rows[f].material != rows[n].material)
  {
    if IdDisagrees(rows, n + 1, id) && !IdDisagrees(rows, n, id) {
      var i, j :| 0 <= i < n + 1 && 0 <= j < n + 1 && rows[i].eventId == id == rows[j].eventId
      && rows[i].material != rows[j].material;
      var k := if i == n then j else i;
      assert k < n && rows[k].material != rows[n].material && rows[k].eventId == id;
    }
  }

  lemma KeyStep(rows: seq<AuditRow>, n: nat, f: nat, name: Name)
    requires EarlierKey(rows, n, f)
    ensures KeyDisagrees(rows, n + 1, name) <==>
              KeyDisagrees(rows, n, name) || (name == NameOf(rows[n]) && rows[f].material != rows[n].material)
  {
    if KeyDisagrees(rows, n + 1, name) && !KeyDisagrees(rows, n, name) {
      var i, j :| 0 <= i < n + 1 && 0 <= j < n + 1 && NameOf(rows[i]) == name == NameOf(rows[j])
      && rows[i].material != rows[j].material;
      var k := if i == n then j else i;
      assert k < n && rows[k].material != rows[n].material && NameOf(rows[k]) == name;
    }
  }

  lemma TextStep(rows: seq<AuditRow>, n: nat, f: nat, text: string)
    requires EarlierKey(rows, n, f)
    ensures KeyTextDisagrees(rows, n + 1, text) <==>
              KeyTextDisagrees(rows, n, text)
              || (text == KeyText(NameOf(rows[n])) && rows[f].material != rows[n].material)
  {
    if KeyTextDisagrees(rows, n + 1, text) {
      var name: Name :| KeyDisagrees(rows, n + 1, name) && KeyText(name) == text;
      KeyStep(rows, n, f, name);
    }
    if KeyTextDisagrees(rows, n, text) {
      var name: Name :| KeyDisagrees(rows, n, name) && KeyText(name) == text;
      KeyStep(rows, n, f, name);
    }
    KeyStep(rows, n, f, NameOf(rows[n]));
  }

  lemma Texts(a: string, b: string, name: Name)
    ensures EventConflict(a) != KeyText(name) && (EventConflict(a) == EventConflict(b) ==> a == b)
  {
    assert EventConflict(a)[0] == 'e' && KeyText(name)[0] == 'k';
    if EventConflict(a) == EventConflict(b) {
      assert a == EventConflict(a)[6..] && b == EventConflict(b)[6..];
    }
  }

  function Marked(conflicts: set<string>, clash: bool, text: string): set<string> {
    if clash then conflicts + {text} else conflicts
  }

  lemma ConflictsStep(conflicts: set<string>, rows: seq<AuditRow>, n: nat, f: nat, g: nat)
    requires EarlierId(rows, n, f) && EarlierKey(rows, n, g) && Conflicts(conflicts, rows, n)
    ensures var c1 := Marked(conflicts, rows[f].material != rows[n].material, EventConflict(rows[n].eventId));
            Conflicts(Marked(c1, rows[g].material != rows[n].material, KeyText(NameOf(rows[n]))), rows, n + 1)
  {
    var id, name := rows[n].eventId, NameOf(rows[n]);
    var c1 := Marked(conflicts, rows[f].material != rows[n].material, EventConflict(id));
    var c2 := Marked(c1, rows[g].material != rows[n].material, KeyText(name));
    assert NamesConflict(EventConflict(id)) && NamesConflict(KeyText(name));
    hide NamesConflict;
    hide IdDisagrees, KeyTextDisagrees, EventConflict, KeyText, EarlierId, EarlierKey;
    forall x ensures EventConflict(x) in c2 <==> IdDisagrees(rows, n + 1, x) {
      IdStep(rows, n, f, x);
      Texts(x, id, name);
    }
    forall m: Name ensures KeyText(m) in c2 <==> KeyTextDisagrees(rows, n + 1, KeyText(m)) {
      TextStep(rows, n, g, KeyText(m));
      Texts(id, id, m);
    }
  }

  // ---- the loops ----

  /** `byEvent` holds, in `order`, the first row of every event id read so far; `at` says where each came from. */
  ghost predicate Firsts(rows: seq<AuditRow>, n: nat, byEvent: map<string, AuditRow>, at: map<string, nat>,
                         order: seq<string>) {
    && n <= |rows| && byEvent.Keys == at.Keys && Distinct(order) && (forall id :: id in order <==> id in byEvent)
    && (forall id :: id in at ==> at[id] < n && FirstOfId(rows, at[id]) && rows[at[id]].eventId == id
                                  && byEvent[id] == rows[at[id]])
    && (forall j :: 0 <= j < n ==> rows[j].eventId in byEvent)
  }

  ghost predicate KeyFirsts(rows: seq<AuditRow>, n: nat, byKey: map<Name, AuditRow>, at: map<Name, nat>) {
    && n <= |rows| && byKey.Keys == at.Keys
    && (forall name :: name in at ==> at[name] < n && NameOf(rows[at[name]]) == name && byKey[name] == rows[at[name]])
    && (forall j :: 0 <= j < n ==> NameOf(rows[j]) in byKey)
  }

  lemma FirstsStep(rows: seq<AuditRow>, n: nat, byEvent: map<string, AuditRow>, at: map<string, nat>,
                   order: seq<string>)
    requires n < |rows| && Firsts(rows, n, byEvent, at, order)
    ensures var id := rows[n].eventId;
            if id in byEvent then EarlierId(rows, n, at[id]) && Firsts(rows, n + 1, byEvent, at, order)
            else EarlierId(rows, n, n) && Firsts(rows, n + 1, byEvent[id := rows[n]], at[id := n], order + [id])
  {
    var id := rows[n].eventId;
    if id !in byEvent {
      assert forall x :: x in order + [id] <==> x in order || x == id;
    }
  }

  lemma KeyFirstsStep(rows: seq<AuditRow>, n: nat, byKey: map<Name, AuditRow>, at: map<Name, nat>)
    requires n < |rows| && KeyFirsts(rows, n, byKey, at)
    ensures var name := NameOf(rows[n]);
            if name in byKey then EarlierKey(rows, n, at[name]) && KeyFirsts(rows, n + 1, byKey, at)
            else EarlierKey(rows, n, n) && KeyFirsts(rows, n + 1, byKey[name := rows[n]], at[name := n])
  {
  }

  lemma ReadRow(rows: seq<AuditRow>, n: nat, conflicts: set<string>, byEvent: map<string, AuditRow>, at: map<string,
                nat>, order: seq<string>,
                byKey: map<Name, AuditRow>, keyAt: map<Name, nat>)
    requires n < |rows| && Firsts(rows, n, byEvent, at, order) && KeyFirsts(rows, n, byKey, keyAt)
             && Conflicts(conflicts, rows, n)
    ensures var row, name := rows[n], NameOf(rows[n]);
            var idClash := row.eventId in byEvent && byEvent[row.eventId].material != row.material;
            var keyClash := name in byKey && byKey[name].material != row.material;
            && Conflicts(Marked(Marked(conflicts, idClash, EventConflict(row.eventId)), keyClash, KeyText(name)), rows,
                         n + 1)
            && (if row.eventId in byEvent then Firsts(rows, n + 1, byEvent, at, order)
                else Firsts(rows, n + 1, byEvent[row.eventId := row], at[row.eventId := n], order + [row.eventId]))
            && (if name in byKey then KeyFirsts(rows, n + 1, byKey, keyAt)
                else KeyFirsts(rows, n + 1, byKey[name := row], keyAt[name := n]))
  {
    hide Firsts, KeyFirsts, Conflicts, EarlierId, EarlierKey, EventConflict, KeyConflict;
    FirstsStep(rows, n, byEvent, at, order);
    KeyFirstsStep(rows, n, byKey, keyAt);
    Located(rows, n, byEvent, at, order, byKey, keyAt);
    var f := if rows[n].eventId in byEvent then at[rows[n].eventId] else n;
    var g := if NameOf(rows[n]) in byKey then keyAt[NameOf(rows[n])] else n;
    ConflictsStep(conflicts, rows, n, f, g);
  }

  method CollectAudit(rows: seq<AuditRow>) returns (byEvent: map<string, AuditRow>, order: seq<string>,
                                                    conflicts: set<string>, ghost at: map<string, nat>)
    ensures Firsts(rows, |rows|, byEvent, at, order) && Conflicts(conflicts, rows, |rows|)
  {
    hide Firsts, KeyFirsts, Conflicts, EventConflict, KeyText;
    byEvent, order, conflicts, at := map[], [], {}, map[];
    var byKey: map<Name, AuditRow> := map[];
    ghost var keyAt: map<Name, nat> := map[];
    StartFacts(rows);
    for n := 0 to |rows|
      invariant Firsts(rows, n, byEvent, at, order) && KeyFirsts(rows, n, byKey, keyAt) && Conflicts(conflicts, rows, n)
    {
      var row := rows[n];
      var name := NameOf(row);
      ReadRow(rows, n, conflicts, byEvent, at, order, byKey, keyAt);
      if row.eventId in byEvent {
        if byEvent[row.eventId].material != row.material {
          conflicts := conflicts + {EventConflict(row.eventId)};
        }
      } else {
        byEvent, order, at := byEvent[row.eventId := row], order + [row.eventId], at[row.eventId := n];
      }
      if name in byKey {
        if byKey[name].material != row.material {
          conflicts := conflicts + {KeyText(name)};
        }
      } else {
        byKey, keyAt := byKey[name := row], keyAt[name := n];
      }
    }
  }

  lemma StartFacts(rows: seq<AuditRow>)
    ensures Firsts(rows, 0, map[], map[], []) && KeyFirsts(rows, 0, map[], map[]) && Conflicts({}, rows, 0)
  {
  }

  lemma Located(rows: seq<AuditRow>, n: nat, byEvent: map<string, AuditRow>, at: map<string, nat>, order: seq<string>,
                byKey: map<Name, AuditRow>, keyAt: map<Name, nat>)
    requires Firsts(rows, n, byEvent, at, order) && KeyFirsts(rows, n, byKey, keyAt)
    ensures byEvent.Keys == at.Keys && byKey.Keys == keyAt.Keys
    ensures forall id :: id in at ==> at[id] < |rows| && byEvent[id] == rows[at[id]]
    ensures forall name :: name in keyAt ==> keyAt[name] < |rows| && byKey[name] == rows[keyAt[name]]
  {
  }

  predicate Dropped(r: AuditRow, conflicts: set<string>) {
    EventConflict(r.eventId) in conflicts || KeyConflict(r.service, r.eventKey) in conflicts
  }

  /** A first row is kept exactly when it survives. */
  lemma KeptIffSurvives(rows: seq<AuditRow>, byEvent: map<string, AuditRow>, order: seq<string>,
                        conflicts: set<string>, at: map<string, nat>, r: AuditRow)
    requires Firsts(rows, |rows|, byEvent, at, order) && Conflicts(conflicts, rows, |rows|)
    ensures (r.eventId in byEvent && byEvent[r.eventId] == r && !Dropped(r, conflicts)) <==> SurvivingRow(rows, r)
  {
    hide IdDisagrees, KeyTextDisagrees, EventConflict, KeyConflict;
    assert KeyText(NameOf(r)) == KeyConflict(r.service, r.eventKey);
    if r.eventId in byEvent && byEvent[r.eventId] == r && !Dropped(r, conflicts) {
      assert Survives(rows, at[r.eventId]);
    }
    if i: nat :| Survives(rows, i) && rows[i] == r {
      var k := at[r.eventId];
      assert k == i;
    }
  }

  /** The report's rows are exactly the surviving rows, sorted and with distinct ids; the conflict names are
      exactly those of the disagreeing ids and keys. */
  method DedupeAudit(rows: seq<AuditRow>) returns (result: seq<AuditRow>, conflicts: set<string>)
    ensures InOrder(result, RowStamp()) && DistinctBy(result, RowId())
    ensures forall r :: r in result <==> SurvivingRow(rows, r)
    ensures Conflicts(conflicts, rows, |rows|)
  {
    hide InOrder, SurvivingRow, Conflicts, EventConflict, KeyConflict, Inserted, DistinctBy;
    var byEvent, order;
    ghost var at;
    byEvent, order, conflicts, at := CollectAudit(rows);
    result := [];
    assert InOrder([], RowStamp()) && DistinctBy([], RowId()) by { NoRows(); }
    for n := 0 to |order|
      invariant InOrder(result, RowStamp()) && DistinctBy(result, RowId())
      invariant forall r :: r in result <==> r.eventId in order[..n] && byEvent[r.eventId] == r
                                             && !Dropped(r, conflicts)
    {
      var row := byEvent[order[n]];
      assert row.eventId == order[n] && order[n] !in order[..n];
      assert forall id :: id in order[..n + 1] <==>
               id in order[..n] || id == order[n] by { assert order[..n + 1] == order[..n] + [order[n]]; }
      if EventConflict(row.eventId) in conflicts || KeyConflict(row.service, row.eventKey) in conflicts {
        continue;
      }
      InsertKeepsOrder(result, row, RowStamp());
      InsertedExact(result, row, RowStamp(), RowId());
      result := Inserted(result, row, RowStamp());
    }
    assert order[..|order|] == order;
    forall r ensures r in result <==> SurvivingRow(rows, r) {
      KeptIffSurvives(rows, byEvent, order, conflicts, at, r);
    }
  }

  lemma NoRows()
    ensures InOrder([], RowStamp()) && DistinctBy([], RowId())
  {
  }

  // ---- what that means ----

  /** Two survivors never disagree about a shared key. */
  lemma SurvivorsAgree(rows: seq<AuditRow>, i: nat, j: nat)
    requires Survives(rows, i) && Survives(rows, j) && NameOf(rows[i]) == NameOf(rows[j])
    ensures rows[i].material == rows[j].material
  {
    if rows[i].material != rows[j].material {
      assert KeyDisagrees(rows, |rows|, NameOf(rows[i]));
    }
  }

  predicate ColonFree(s: string) {
    forall i :: 0 <= i < |s| ==> s[i] != ':'
  }

  function FirstColon(s: string): nat {
    if s == "" || s[0] == ':' then 0 else 1 + FirstColon(s[1..])
  }

  lemma {:induction false} FirstColonAt(before: string, after: string)
    requires ColonFree(before)
    ensures FirstColon(before + ":" + after) == |before|
  {
    if before != "" {
      FirstColonAt(before[1..], after);
      assert (before + ":" + after)[1..] == before[1..] + ":" + after;
    }
  }

  lemma KeyTextsDiffer(a: Name, b: Name)
    requires ColonFree(a.0) && ColonFree(b.0) && KeyText(a) == KeyText(b)
    ensures a == b
  {
    var x, y := KeyText(a)[4..], KeyText(b)[4..];
    assert x == a.0 + ":" + a.1 && y == b.0 + ":" + b.1;
    FirstColonAt(a.0, a.1);
    FirstColonAt(b.0, b.1);
    assert a.0 == x[..|a.0|] && b.0 == y[..|b.0|];
    assert a.1 == x[|a.0| + 1..] && b.1 == y[|b.0| + 1..];
  }

  /** With colon-free service names a row survives exactly when it is the first of its id and neither its own id
      nor its own key has disagreeing rows. */
  lemma SurvivesExactly(rows: seq<AuditRow>, i: nat)
    requires forall j :: 0 <= j < |rows| ==> ColonFree(rows[j].service)
    ensures Survives(rows, i) <==>
              FirstOfId(rows, i) && !IdDisagrees(rows, |rows|, rows[i].eventId)
              && !KeyDisagrees(rows, |rows|, NameOf(rows[i]))
  {
    if FirstOfId(rows, i) {
      var name := NameOf(rows[i]);
      if KeyTextDisagrees(rows, |rows|, KeyText(name)) {
        var other: Name :| KeyDisagrees(rows, |rows|, other) && KeyText(other) == KeyText(name);
        var k :| 0 <= k < |rows| && NameOf(rows[k]) == other;
        KeyTextsDiffer(other, name);
      }
    }
  }

  const COLLIDING: seq<AuditRow> := [
    AuditRow("e1", "a:b", "c", 0, 0, "x"), AuditRow("e2", "a:b", "c", 0, 1, "y"), AuditRow("e3", "a", "b:c", 0, 2, "z")]

  /** A colon in a service name can drop a row nobody contradicts: two keys share one conflict name. */
  lemma ColonDropsARow()
    ensures FirstOfId(COLLIDING, 2) && !IdDisagrees(COLLIDING, 3, "e3") && !KeyDisagrees(COLLIDING, 3, ("a", "b:c"))
    ensures !Survives(COLLIDING, 2)
  {
    assert NameOf(COLLIDING[0]) == ("a:b", "c") == NameOf(COLLIDING[1]);
    assert KeyDisagrees(COLLIDING, 3, ("a:b", "c"));
    assert KeyText(("a:b", "c")) == "key:a:b:c" == KeyText(("a", "b:c"));
  }

  /** The report's completeness turns on the conflict set being empty: it is empty exactly when no two rows of one
      event id, and no two rows of one service and key, disagree. */
  lemma NoConflictMeansAgreement(conflicts: set<string>, rows: seq<AuditRow>)
    requires Conflicts(conflicts, rows, |rows|)
    ensures conflicts == {} <==>
              (forall id :: !IdDisagrees(rows, |rows|, id)) && (forall name: Name :: !KeyDisagrees(rows, |rows|, name))
  {
    hide IdDisagrees, KeyDisagrees, EventConflict, KeyText;
    if conflicts == {} {
      forall id ensures !IdDisagrees(rows, |rows|, id) { assert EventConflict(id) !in conflicts; }
      forall name: Name ensures !KeyDisagrees(rows, |rows|, name) { assert KeyText(name) !in conflicts; }
    } else {
      var text :| text in conflicts;
      assert NamesConflict(text);
      if name: Name :| text == KeyText(name) {
        assert KeyTextDisagrees(rows, |rows|, KeyText(name));
      }
    }
  }
}
