/** The evaluation gate: when the executor's controls pass, when the controller believes it, and when a whole
    evaluation counts as complete. */
module Evaluation {
  import opened Collections
  import opened Json

  // ---- the executor ----

  /** Every expected field is present with an equal value; lists and scalars compare whole. */
  predicate Subset(expected: Json, actual: Json)
    decreases expected
  {
    match expected
    case Obj(fields) => actual.Obj? && forall k :: k in fields ==>
      k in actual.fields && Subset(fields[k], actual.fields[k])
    case _ => PyEqual(expected, actual)
  }

  /** A control of the normalised plan; it must always exit with 0. */
  datatype Expected = Expected(name: string, observation: Object)

  predicate HasClaim(o: Object) {
    Get(o, "claim_present").Bool?
  }

  function Claim(o: Object): bool
    requires HasClaim(o)
  {
    o["claim_present"].b
  }

  /** What plan validation guarantees of the two controls. */
  predicate Normalised(runs: seq<Expected>) {
    && |runs| == 2
    && ((runs[0].name == "baseline" && runs[1].name == "counterexample")
        || (runs[0].name == "counterexample" && runs[1].name == "baseline"))
    && HasClaim(runs[0].observation) && HasClaim(runs[1].observation)
       && Claim(runs[0].observation) != Claim(runs[1].observation)
  }

  /** A control result after its own normalisation, which rejects a result without a boolean claim. */
  datatype Actual = Actual(exit: Option<int>, observation: Object, timeout: bool, outputLimit: bool, truncated: bool)

  /** What one container did; `actual` is none when the output could not be read as a result of this control. */
  datatype Outcome = Outcome(failed: bool, timedOut: bool, outputLimit: bool, code: int, blocked: bool,
                             actual: Option<Actual>)

  datatype RunRecord = RunRecord(name: string, valid: bool, actual: Option<Actual>, reason: Option<string>)

  function RunOneControl(e: Expected, o: Outcome): RunRecord {
    if o.failed then RunRecord(e.name, false, None, Some("process_runner_failed"))
    else if o.timedOut then RunRecord(e.name, false, None, Some("container_timeout"))
    else if o.outputLimit then RunRecord(e.name, false, None, Some("output_limit"))
    else if o.code != 0 then RunRecord(e.name, false, None,
                                       Some(if o.blocked then "environment_blocked" else "container_failed"))
    else if o.actual.None? || !HasClaim(o.actual.value.observation)
            then RunRecord(e.name, false, None, Some("invalid_runner_output"))
    else
      var a := o.actual.value;
      var valid :=
        && a.exit == Some(0) && !a.timeout && !a.outputLimit && !a.truncated
        && Subset(Obj(e.observation), Obj(a.observation))
        && PyEqual(Get(a.observation, "claim_present"), Get(e.observation, "claim_present"));
      RunRecord(e.name, valid, Some(a), if valid then None else Some("control_expectation_mismatch"))
  }

  datatype Execution = Execution(status: string, controlsPassed: bool, claim: Option<bool>, runs: seq<RunRecord>)

  function Named(runs: seq<RunRecord>, name: string): Option<RunRecord> {
    if runs == [] then None else if runs[0].name == name then Some(runs[0]) else Named(runs[1..], name)
  }

  function ClaimOf(r: RunRecord): Option<bool> {
    if r.actual.Some? && HasClaim(r.actual.value.observation) then Some(Claim(r.actual.value.observation)) else None
  }

  predicate AnyReason(runs: seq<RunRecord>, reason: string) {
    exists i :: 0 <= i < |runs| && runs[i].reason == Some(reason)
  }

  /** The environment is blamed unless an output limit or a timeout takes precedence. */
  predicate Blocked(runs: seq<RunRecord>) {
    AnyReason(runs, "environment_blocked") && !AnyReason(runs, "output_limit") && !AnyReason(runs, "container_timeout")
  }

  function Execute(runs: seq<Expected>, outcomes: string -> Outcome): Execution
    requires Normalised(runs)
  {
    var records := [RunOneControl(runs[0], outcomes(runs[0].name)), RunOneControl(runs[1], outcomes(runs[1].name))];
    var (baseline, counterexample) := if runs[0].name == "baseline" then (records[0], records[1])
    else (records[1], records[0]);
    var passed := baseline.valid && counterexample.valid && baseline.actual.Some? && counterexample.actual.Some?
                  && !PyEqual(Get(baseline.actual.value.observation, "claim_present"),
                              Get(counterexample.actual.value.observation, "claim_present"));
    Execution(if Blocked(records) then "environment_blocked" else if passed then "success" else "unproven", passed,
              ClaimOf(baseline), records)
  }

  // ---- the controller's own check ----

  predicate MeetsExpectation(e: Expected, actual: Option<Actual>) {
    actual.Some? && actual.value.exit == Some(0) && !actual.value.timeout
    && Subset(Obj(e.observation), Obj(actual.value.observation))
  }

  function ActualOf(r: Option<RunRecord>): Option<Actual> {
    if r.None? then None else r.value.actual
  }

  predicate ControlsPassed(runs: seq<Expected>, x: Execution) {
    && x.controlsPassed && |x.runs| == 2
    && (set r | r in x.runs :: r.name) == {"baseline", "counterexample"}
    && (forall i :: 0 <= i < |runs| ==> MeetsExpectation(runs[i], ActualOf(Named(x.runs, runs[i].name))))
    && var b, c := Named(x.runs, "baseline"), Named(x.runs, "counterexample");
       b.Some? && c.Some? && ClaimOf(b.value).Some? && ClaimOf(c.value).Some? && ClaimOf(b.value) != ClaimOf(c.value)
  }

  lemma BooleansCompare(a: Json, b: Json)
    requires a.Bool? && b.Bool?
    ensures PyEqual(a, b) <==> a == b
  {
  }

  /** A valid control shows the claim its expectation states. */
  lemma ValidShowsClaim(e: Expected, o: Outcome)
    requires HasClaim(e.observation)
    ensures var r := RunOneControl(e, o);
            && r.name == e.name
            && (r.actual.Some? ==> ClaimOf(r).Some?)
            && (r.valid ==> MeetsExpectation(e, r.actual) && ClaimOf(r) == Some(Claim(e.observation)) && r.reason.None?)
  {
    hide Subset;
    if o.actual.Some? && HasClaim(o.actual.value.observation) {
      BooleansCompare(Get(o.actual.value.observation, "claim_present"), Get(e.observation, "claim_present"));
    }
  }

  /** The container ended by itself with code 0 within its limits. */
  predicate EndedWell(o: Outcome) {
    !o.failed && !o.timedOut && !o.outputLimit && o.code == 0
  }

  /** A control is valid exactly when its container ended well and its output is a result of this control with exit
      code 0, within all limits, with every expected field and the expected claim. */
  lemma ControlExact(e: Expected, o: Outcome)
    requires HasClaim(e.observation)
    ensures var r := RunOneControl(e, o);
            && (r.valid <==>
                  && EndedWell(o) && o.actual.Some? && HasClaim(o.actual.value.observation)
                  && o.actual.value.exit == Some(0) && !o.actual.value.timeout && !o.actual.value.outputLimit
                  && !o.actual.value.truncated && Claim(o.actual.value.observation) == Claim(e.observation)
                  && Subset(Obj(e.observation), Obj(o.actual.value.observation)))
            && (r.actual == if EndedWell(o) && o.actual.Some?
                && HasClaim(o.actual.value.observation) then o.actual else None)
  {
    hide Subset;
    if o.actual.Some? && HasClaim(o.actual.value.observation) {
      BooleansCompare(Get(o.actual.value.observation, "claim_present"), Get(e.observation, "claim_present"));
    }
  }

  /** Why a control is not valid: the first that applies. */
  lemma ReasonExact(e: Expected, o: Outcome)
    ensures var r := RunOneControl(e, o);
            var readable := EndedWell(o) && o.actual.Some? && HasClaim(o.actual.value.observation);
            && (r.reason == None <==> r.valid)
            && (r.reason == Some("process_runner_failed") <==> o.failed)
            && (r.reason == Some("container_timeout") <==> !o.failed && o.timedOut)
            && (r.reason == Some("output_limit") <==> !o.failed && !o.timedOut && o.outputLimit)
            && (r.reason == Some("environment_blocked") <==>
                  !o.failed && !o.timedOut && !o.outputLimit && o.code != 0 && o.blocked)
            && (r.reason == Some("container_failed") <==>
                  !o.failed && !o.timedOut && !o.outputLimit && o.code != 0 && !o.blocked)
            && (r.reason == Some("invalid_runner_output") <==> EndedWell(o) && !readable)
            && (r.reason == Some("control_expectation_mismatch") <==> readable && !r.valid)
  {
    hide Subset, PyEqual;
  }

  // ---- what the comparison of observations means ----

  /** The value at the end of a path of field names. */
  function At(v: Json, path: seq<string>): Option<Json>
    decreases |path|
  {
    if path == [] then Some(v)
    else if v.Obj? && path[0] in v.fields then At(v.fields[path[0]], path[1..])
    else None
  }

  /** At this path the actual value has what the expected one has: an object, or an equal value. */
  predicate AgreesAt(expected: Json, actual: Json, path: seq<string>) {
    var e, a := At(expected, path), At(actual, path);
    e.Some? ==> a.Some? && if e.value.Obj? then a.value.Obj? else PyEqual(e.value, a.value)
  }

  lemma AtStep(v: Json, key: string, path: seq<string>)
    ensures At(v, [key] + path) == if v.Obj? && key in v.fields then At(v.fields[key], path) else None
  {
    assert ([key] + path)[1..] == path;
  }

  /** The comparison holds exactly when every path of the expected value agrees. */
  lemma {:induction false} SubsetMeans(expected: Json, actual: Json)
    ensures Subset(expected, actual) <==> forall path :: AgreesAt(expected, actual, path)
    decreases expected
  {
    hide PyEqual;
    if Subset(expected, actual) {
      forall path ensures AgreesAt(expected, actual, path) {
        if path != [] && expected.Obj? && path[0] in expected.fields {
          SubsetMeans(expected.fields[path[0]], actual.fields[path[0]]);
          assert AgreesAt(expected.fields[path[0]], actual.fields[path[0]], path[1..]);
        }
      }
    }
    if forall path :: AgreesAt(expected, actual, path) {
      assert AgreesAt(expected, actual, []);
      if expected.Obj? {
        forall k | k in expected.fields ensures k in actual.fields && Subset(expected.fields[k], actual.fields[k]) {
          assert AgreesAt(expected, actual, [k]);
          AtStep(expected, k, []);
          AtStep(actual, k, []);
          assert [k] + [] == [k];
          forall path ensures AgreesAt(expected.fields[k], actual.fields[k], path) {
            AtStep(expected, k, path);
            AtStep(actual, k, path);
            assert AgreesAt(expected, actual, [k] + path);
          }
          SubsetMeans(expected.fields[k], actual.fields[k]);
        }
      }
    }
  }

  function RecordOf(runs: seq<Expected>, outcomes: string -> Outcome, i: nat): RunRecord
    requires i < |runs|
  {
    RunOneControl(runs[i], outcomes(runs[i].name))
  }

  lemma ClaimsDiffer(a: RunRecord, b: RunRecord)
    requires a.actual.Some? && b.actual.Some? && ClaimOf(a).Some? && ClaimOf(b).Some?
    ensures var x := Get(a.actual.value.observation, "claim_present");
            var y := Get(b.actual.value.observation, "claim_present");
            !PyEqual(x, y) <==> ClaimOf(a) != ClaimOf(b)
  {
    BooleansCompare(Get(a.actual.value.observation, "claim_present"), Get(b.actual.value.observation, "claim_present"));
  }

  /** The executor passes exactly when both controls are valid: their claims then differ as the plan's do. */
  lemma ExecutorPasses(runs: seq<Expected>, outcomes: string -> Outcome)
    requires Normalised(runs)
    ensures var x := Execute(runs, outcomes);
            && x.runs == [RecordOf(runs, outcomes, 0), RecordOf(runs, outcomes, 1)]
            && (x.controlsPassed <==> RecordOf(runs, outcomes, 0).valid && RecordOf(runs, outcomes, 1).valid)
            && x.claim == ClaimOf(if runs[0].name == "baseline" then RecordOf(runs, outcomes, 0)
                                  else RecordOf(runs, outcomes, 1))
  {
    var r0, r1 := RecordOf(runs, outcomes, 0), RecordOf(runs, outcomes, 1);
    ValidShowsClaim(runs[0], outcomes(runs[0].name));
    ValidShowsClaim(runs[1], outcomes(runs[1].name));
    hide RunOneControl, MeetsExpectation, Blocked, ClaimOf;
    if r0.actual.Some? && r1.actual.Some? {
      ClaimsDiffer(r0, r1);
      ClaimsDiffer(r1, r0);
    }
    hide PyEqual, Claim, HasClaim;
  }

  lemma NamedBoth(r0: RunRecord, r1: RunRecord)
    requires r0.name != r1.name
    ensures Named([r0, r1], r0.name) == Some(r0) && Named([r0, r1], r1.name) == Some(r1)
    ensures (set r | r in [r0, r1] :: r.name) == {r0.name, r1.name}
  {
    assert [r0, r1][1..] == [r1];
    assert r0 in [r0, r1] && r1 in [r0, r1];
  }

  lemma RecheckPasses(runs: seq<Expected>, outcomes: string -> Outcome)
    requires Normalised(runs) && Execute(runs, outcomes).controlsPassed
    ensures ControlsPassed(runs, Execute(runs, outcomes))
  {
    var r0, r1 := RecordOf(runs, outcomes, 0), RecordOf(runs, outcomes, 1);
    ExecutorPasses(runs, outcomes);
    ValidShowsClaim(runs[0], outcomes(runs[0].name));
    ValidShowsClaim(runs[1], outcomes(runs[1].name));
    NamedBoth(r0, r1);
    hide Execute, RunOneControl, MeetsExpectation, Named, ClaimOf, Claim, HasClaim;
  }

  lemma PassingIsSuccess(runs: seq<Expected>, outcomes: string -> Outcome)
    requires Normalised(runs)
    ensures Execute(runs, outcomes).controlsPassed <==> Execute(runs, outcomes).status == "success"
  {
    var x := Execute(runs, outcomes);
    ExecutorPasses(runs, outcomes);
    ValidShowsClaim(runs[0], outcomes(runs[0].name));
    ValidShowsClaim(runs[1], outcomes(runs[1].name));
    hide RunOneControl, MeetsExpectation, ClaimOf, PyEqual, Claim, HasClaim;
    if x.controlsPassed { assert forall i :: 0 <= i < |x.runs| ==> x.runs[i].reason.None?; }
  }

  /** The recheck accepts exactly the executions the executor itself passed: those whose both controls are valid,
      which end in `success` and report the claim the plan expects of the baseline. */
  lemma RecheckAgrees(runs: seq<Expected>, outcomes: string -> Outcome)
    requires Normalised(runs)
    ensures var x := Execute(runs, outcomes);
            && (ControlsPassed(runs, x) <==> x.controlsPassed) && (x.controlsPassed <==> x.status == "success")
            && (x.controlsPassed <==> RecordOf(runs, outcomes, 0).valid && RecordOf(runs, outcomes, 1).valid)
            && (x.controlsPassed ==> x.claim == Some(Claim((if runs[0].name == "baseline" then runs[0]
                                                            else runs[1]).observation)))
  {
    ExecutorPasses(runs, outcomes);
    PassingIsSuccess(runs, outcomes);
    ValidShowsClaim(runs[0], outcomes(runs[0].name));
    ValidShowsClaim(runs[1], outcomes(runs[1].name));
    if Execute(runs, outcomes).controlsPassed { RecheckPasses(runs, outcomes); }
    hide Execute, RunOneControl, MeetsExpectation, Named, ClaimOf;
  }

  // ---- one item ----

  /** The validation record of an item; none when validation failed before execution. */
  datatype Validation = Validation(status: string, controlsPassed: bool, declared: Option<bool>, observed: Option<bool>)

  /** The claim the execution shows, unless what it declares and what its baseline shows differ. */
  function BaselineClaim(v: Validation): Option<bool> {
    if v.declared.Some? && v.observed.Some? && v.declared != v.observed then None
    else if v.observed.Some? then v.observed else v.declared
  }

  /** A claim is read from an execution exactly when one is given and none contradicts it. */
  lemma BaselineClaimExact(v: Validation, claim: bool)
    ensures BaselineClaim(v) == Some(claim) <==>
              && (v.declared == Some(claim) || v.observed == Some(claim))
              && v.declared != Some(!claim) && v.observed != Some(!claim)
  {
    OneOfTwo(v.declared, claim);
    OneOfTwo(v.observed, claim);
  }

  lemma OneOfTwo(x: Option<bool>, claim: bool)
    ensures x == None || x == Some(claim) || x == Some(!claim)
  {
    if x.Some? {
      var b: bool := x.value;
      assert b == claim || b == !claim;
    }
  }

  /** The executor blames the environment exactly when a container was blocked by it and none ran into its time or
      output limit. */
  lemma BlockedExactly(runs: seq<Expected>, outcomes: string -> Outcome)
    requires Normalised(runs)
    ensures var a, b := outcomes("baseline"), outcomes("counterexample");
            Execute(runs, outcomes).status == "environment_blocked" <==>
              (HeldBack(a) || HeldBack(b)) && !OverLimit(a) && !OverLimit(b)
  {
    var r0, r1 := RecordOf(runs, outcomes, 0), RecordOf(runs, outcomes, 1);
    var x := Execute(runs, outcomes);
    ReasonExact(runs[0], outcomes(runs[0].name));
    ReasonExact(runs[1], outcomes(runs[1].name));
    hide RunOneControl, PyEqual, ClaimOf;
    ReasonsOf(r0, r1, "environment_blocked");
    ReasonsOf(r0, r1, "output_limit");
    ReasonsOf(r0, r1, "container_timeout");
    assert x.runs == [r0, r1];
    hide AnyReason;
  }

  lemma ReasonsOf(r0: RunRecord, r1: RunRecord, reason: string)
    ensures AnyReason([r0, r1], reason) <==> r0.reason == Some(reason) || r1.reason == Some(reason)
  {
    assert [r0, r1][0] == r0 && [r0, r1][1] == r1;
  }

  predicate HeldBack(o: Outcome) {
    !o.failed && !o.timedOut && !o.outputLimit && o.code != 0 && o.blocked
  }

  predicate OverLimit(o: Outcome) {
    !o.failed && (o.timedOut || o.outputLimit)
  }

  function ValidationOf(runs: seq<Expected>, x: Execution): Validation {
    var passed := ControlsPassed(runs, x);
    var status :=
      if x.status == "environment_blocked" then "environment_blocked"
      else if !passed || x.status != "success" then "unproven"
      else x.status;
    var b := Named(x.runs, "baseline");
    Validation(status, passed, x.claim, if b.Some? then ClaimOf(b.value) else None)
  }

  datatype Judgment = Judgment(verdict: string, validationVerdict: string)

  datatype Synthesis = Synthesis(verdict: string, conflict: bool)

  datatype Item = Item(validation: Validation, judges: nat, judgments: seq<Judgment>, synthesis: Option<Synthesis>,
                       classification: string, scoreable: bool)

  function ExecutionClass(v: Validation): Option<string> {
    if v.status != "success" || !v.controlsPassed || BaselineClaim(v).None? then None
    else Some(if BaselineClaim(v).value then "executed_reproduced" else "executed_refuted")
  }

  predicate JudgesQualify(js: seq<Judgment>, direction: Option<string>) {
    && direction.Some? && |js| == 2
    && (forall i :: 0 <= i < |js| ==> js[i].validationVerdict == "valid"
                                      && js[i].verdict == if direction.value == "executed_reproduced" then "support"
                                         else "refute")
  }

  /** `verdict` is what the synthesis said, if it produced a valid result. */
  function Synthesise(js: seq<Judgment>, v: Validation, verdict: Option<string>): Option<Synthesis> {
    if |js| != 2 || verdict.None? then None
    else
      var direction := ExecutionClass(v);
      Some(Synthesis(verdict.value, direction.Some?
                     && verdict.value != if direction.value == "executed_reproduced" then "supported" else "refuted"))
  }

  function MakeItem(v: Validation, js: seq<Judgment>, verdict: Option<string>, sourceComplete: bool,
                    discoveryComplete: bool): Item {
    var direction, synthesis := ExecutionClass(v), Synthesise(js, v, verdict);
    var judges := JudgesQualify(js, direction);
    var qualified := judges && synthesis.Some? && !synthesis.value.conflict
                     && synthesis.value.verdict == if direction.value == "executed_reproduced" then "supported"
                        else "refuted";
    var classification := if qualified then direction.value else if v.status == "environment_blocked"
                          then "environment_blocked" else "unproven";
    Item(v, 2, js, synthesis, classification,
         sourceComplete && discoveryComplete && judges && qualified
         && classification in {"executed_reproduced", "executed_refuted"})
  }

  /** A scoreable item rests on an execution whose two controls passed, and both judges and the synthesis read
      its direction the same way. */
  lemma ScoreableMeans(v: Validation, js: seq<Judgment>, verdict: Option<string>, sourceComplete: bool,
                       discoveryComplete: bool)
    ensures var item := MakeItem(v, js, verdict, sourceComplete, discoveryComplete);
            item.scoreable <==>
              && sourceComplete && discoveryComplete && v.status == "success" && v.controlsPassed
                 && BaselineClaim(v).Some?
              && |js| == 2 && (forall i :: 0 <= i < 2 ==>
                                 js[i] == Judgment(if BaselineClaim(v).value then "support" else "refute", "valid"))
              && verdict == Some(if BaselineClaim(v).value then "supported" else "refuted")
  {
    var direction := ExecutionClass(v);
    if direction.Some? {
      assert direction.value == "executed_reproduced" <==> BaselineClaim(v).value;
    }
  }

  /** The direction an item qualifies in: its execution passed with that claim, both judges found it valid and ruled
      that way, and so did the synthesis. */
  predicate Qualifies(v: Validation, js: seq<Judgment>, verdict: Option<string>, claim: bool) {
    && v.status == "success" && v.controlsPassed && BaselineClaim(v) == Some(claim)
    && |js| == 2 && (forall i :: 0 <= i < 2 ==> js[i] == Judgment(if claim then "support" else "refute", "valid"))
    && verdict == Some(if claim then "supported" else "refuted")
  }

  /** How an item is classified, scoreable or not. */
  lemma ClassificationExact(v: Validation, js: seq<Judgment>, verdict: Option<string>, source: bool, discovery: bool)
    ensures var item := MakeItem(v, js, verdict, source, discovery);
            && item.classification == (if Qualifies(v, js, verdict, true) then "executed_reproduced"
                                       else if Qualifies(v, js, verdict, false) then "executed_refuted"
                                       else if v.status == "environment_blocked" then "environment_blocked"
                                       else "unproven")
            && (item.scoreable <==> source && discovery
                                    && (Qualifies(v, js, verdict, true) || Qualifies(v, js, verdict, false)))
            && (item.synthesis.Some? <==> |js| == 2 && verdict.Some?)
  {
    ScoreableMeans(v, js, verdict, source, discovery);
    var direction := ExecutionClass(v);
    if direction.Some? {
      OneOfTwo(BaselineClaim(v), true);
      assert direction.value == "executed_reproduced" <==> BaselineClaim(v).value;
    }
  }

  /** What the controller records of an execution. */
  lemma ValidationExact(runs: seq<Expected>, outcomes: string -> Outcome)
    requires Normalised(runs)
    ensures var x := Execute(runs, outcomes); var v := ValidationOf(runs, x);
            && v.status == x.status && (v.controlsPassed <==> x.controlsPassed) && v.declared == x.claim == v.observed
            && x.status in {"success", "unproven", "environment_blocked"}
  {
    var x := Execute(runs, outcomes);
    RecheckAgrees(runs, outcomes);
    ExecutorPasses(runs, outcomes);
    NamedBoth(RecordOf(runs, outcomes, 0), RecordOf(runs, outcomes, 1));
    ValidShowsClaim(runs[0], outcomes(runs[0].name));
    ValidShowsClaim(runs[1], outcomes(runs[1].name));
    StatusOneOf(runs, outcomes);
    hide Execute, ControlsPassed, RunOneControl, MeetsExpectation, Named, ClaimOf, Claim, HasClaim;
  }

  lemma StatusOneOf(runs: seq<Expected>, outcomes: string -> Outcome)
    requires Normalised(runs)
    ensures Execute(runs, outcomes).status in {"success", "unproven", "environment_blocked"}
  {
    hide RunOneControl, PyEqual, Blocked;
  }

  // ---- the state of the whole run ----

  datatype State = Complete | Partial | Failed

  function Attempts(item: Item): nat {
    item.judges + 1 + (if item.synthesis.Some? then 1 else 0)
  }

  ghost predicate Made(item: Item, sourceComplete: bool, discoveryComplete: bool) {
    exists v, js, verdict :: item == MakeItem(v, js, verdict, sourceComplete, discoveryComplete)
  }

  /** Validation got as far as an execution or a rejected plan. */
  predicate Touched(item: Item) {
    item.validation.status in {"success", "environment_blocked", "unproven"}
  }

  /** The state decision at the end of a run, with every guard it checks. */
  method DecideState(items: seq<Item>, sourceComplete: bool, discoveryComplete: bool) returns (state: State)
    requires forall i :: 0 <= i < |items| ==> Made(items[i], sourceComplete, discoveryComplete)
    ensures state == Complete <==> discoveryComplete && sourceComplete && forall i :: 0 <= i < |items| ==>
              items[i].scoreable
    ensures state == Failed <==>
              state != Complete && forall i :: 0 <= i < |items| ==>
                items[i].synthesis.None? && (discoveryComplete || !Touched(items[i]))
  {
    hide Touched, Made;
    var successful, attempted := 0, 1;
    var validated, qualified, reproduced, touched := true, true, false, false;
    for i := 0 to |items|
      invariant successful <= i && attempted <= 4 * i + 1
      invariant qualified <==> forall j :: 0 <= j < i ==> items[j].scoreable
      invariant successful == 0 <==> forall j :: 0 <= j < i ==> items[j].synthesis.None?
      invariant touched <==> exists j :: 0 <= j < i && Touched(items[j])
      invariant reproduced ==> successful > 0
      invariant qualified ==> successful == i && attempted == 4 * i + 1 && validated
    {
      var item := items[i];
      ItemFacts(item, sourceComplete, discoveryComplete);
      if item.synthesis.Some? { successful := successful + 1; }
      attempted := attempted + Attempts(item);
      if item.validation.status != "success" || !item.validation.controlsPassed { validated := false; }
      if !item.scoreable { qualified := false; }
      if item.classification == "executed_reproduced" { reproduced := true; }
      if Touched(item) { touched := true; }
    }
    if !discoveryComplete {
      state := if successful > 0 || touched then Partial else Failed;
    } else if attempted >= |items| * 4 + 1 && successful == |items| && validated && qualified && sourceComplete {
      state := Complete;
    } else {
      state := if successful > 0 || reproduced then Partial else Failed;
    }
  }

  lemma ItemFacts(item: Item, sourceComplete: bool, discoveryComplete: bool)
    requires Made(item, sourceComplete, discoveryComplete)
    ensures item.judges == 2 && Attempts(item) <= 4
    ensures item.classification == "executed_reproduced" ==> item.synthesis.Some?
    ensures item.scoreable ==> item.synthesis.Some? && item.validation.status == "success"
                               && item.validation.controlsPassed
  {
    var v, js, verdict :| item == MakeItem(v, js, verdict, sourceComplete, discoveryComplete);
    ScoreableMeans(v, js, verdict, sourceComplete, discoveryComplete);
  }

  /** End to end: an item validated by an execution of its plan is scored in the direction the plan's baseline
      expected, and only if both containers behaved as the plan said. */
  lemma ScoredAsPlanned(runs: seq<Expected>, outcomes: string -> Outcome, js: seq<Judgment>, verdict: Option<string>,
                        source: bool, discovery: bool)
    requires Normalised(runs)
    ensures var item := MakeItem(ValidationOf(runs, Execute(runs, outcomes)), js, verdict, source, discovery);
            item.scoreable ==>
              && RecordOf(runs, outcomes, 0).valid && RecordOf(runs, outcomes, 1).valid
              && item.classification == if Claim((if runs[0].name == "baseline" then runs[0] else runs[1]).observation)
                 then "executed_reproduced" else "executed_refuted"
  {
    var x := Execute(runs, outcomes);
    var v := ValidationOf(runs, x);
    RecheckAgrees(runs, outcomes);
    ScoreableMeans(v, js, verdict, source, discovery);
    ExecutorPasses(runs, outcomes);
    ValidShowsClaim(runs[0], outcomes(runs[0].name));
    ValidShowsClaim(runs[1], outcomes(runs[1].name));
    NamedBoth(RecordOf(runs, outcomes, 0), RecordOf(runs, outcomes, 1));
    hide Execute, ControlsPassed, RunOneControl, MeetsExpectation, Named, ClaimOf, Claim, HasClaim;
  }
}
