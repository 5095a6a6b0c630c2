/** The recogniser of a model CLI's event stream: bounded, ordered StructuredOutput attempts. */
module StructuredOutput {
  import opened Collections
  import opened Json

  const MAX_ATTEMPTS := 8
  const ID_LIMIT := 512
  const TEXT_LIMIT := 4096
  const SUCCESS := "Structured output provided successfully"
  const TOOL := "StructuredOutput"

  const FORBIDDEN: set<string> := {
    "tool", "tool_call", "tool_use", "tool_result", "function_call", "function_result", "file_write", "file_edit",
    "mcp_tool_call", "mcp_tool_use", "mcp_tool_result", "mcp", "shell_command", "command_execution", "file_read"}

  const METADATA: seq<string> := ["plugins", "skills", "mcp_servers", "mcpServers"]

  datatype Call = Call(id: string, index: nat, block: Object)

  datatype Attempt = Attempt(call: Call, success: bool, resultIndex: nat, result: Object, extra: Option<Json>)

  /** The loop's variables; `status` is the one reset for every event. */
  datatype State = State(
    declared: bool, misdeclared: bool, callIds: set<string>, resultIds: set<string>, attempts: seq<Attempt>,
    pending: Option<Call>, resultSeen: bool, successId: Option<string>, status: Option<bool>)

  const INITIAL := State(false, false, {}, {}, [], None, false, None, None)

  datatype Outcome = Accepted(attempts: seq<Attempt>) | Raised

  // ---- one event, check by check ----

  predicate IsForbidden(v: Json) {
    v.Str? && v.s in FORBIDDEN
  }

  predicate EmptyMetadata(v: Json) {
    v == Null || v == Arr([]) || v == Obj(map[])
  }

  predicate ToolsAllowed(v: Json) {
    v.Arr? && (v.items == [] || v.items == [Str(TOOL)])
  }

  predicate MetadataClean(e: Object) {
    && (forall k :: k in METADATA && k in e ==> EmptyMetadata(e[k]))
    && ("tools" in e ==> ToolsAllowed(e["tools"]))
  }

  predicate IsInit(e: Object) {
    Get(e, "type") == Str("system") && Get(e, "subtype") == Str("init")
  }

  function Blocks(e: Object): seq<Json> {
    var m := Get(e, "message");
    if m.Obj? && Get(m.fields, "content").Arr? then Get(m.fields, "content").items else []
  }

  function Role(e: Object): Json {
    var m := Get(e, "message");
    if m.Obj? then Get(m.fields, "role") else Null
  }

  /** The combined error flag of a result block, or none when a flag is no boolean or the two conflict. */
  function ErrorFlag(b: Object): Option<bool> {
    if ("is_error" in b && !b["is_error"].Bool?) || ("isError" in b && !b["isError"].Bool?) then None
    else if "is_error" in b && "isError" in b && b["is_error"] != b["isError"] then None
    else Some(Get(b, "is_error") == Bool(true) || Get(b, "isError") == Bool(true))
  }

  /** Whether a result block reports success, or none when its content fits neither reading. */
  function Completion(b: Object): Option<bool> {
    var flag := ErrorFlag(b);
    if flag.None? then None
    else if flag.value then
      if BoundedText(Get(b, "content"), TEXT_LIMIT) && Get(b, "content") != Str(SUCCESS) then Some(false) else None
    else if Get(b, "content") == Str(SUCCESS) then Some(true)
    else None
  }

  function CallStep(st: State, index: nat, e: Object, b: Object): Option<State> {
    if st.resultSeen || st.pending.Some? || st.successId.Some? || Get(e, "type") != Str("assistant")
       || Role(e) !in {Null, Str("assistant")} || Get(b, "name") != Str(TOOL) then None
    else if !st.declared then None
    else if !BoundedText(Get(b, "id"), ID_LIMIT) then None
    else if !Get(b, "input").Obj? then None
    else if b["id"].s in st.callIds || b["id"].s in st.resultIds then None
    else if |st.attempts| >= MAX_ATTEMPTS then None
    else Some(st.(callIds := st.callIds + {b["id"].s}, pending := Some(Call(b["id"].s, index, b))))
  }

  function ResultStep(st: State, index: nat, e: Object, b: Object): Option<State> {
    if Get(e, "type") != Str("user") || Role(e) !in {Null, Str("user")} then None
    else if st.resultSeen then None
    else if !BoundedText(Get(b, "tool_use_id"), ID_LIMIT) then None
    else if st.pending.None? then None
    else if b["tool_use_id"].s in st.resultIds then None
    else if b["tool_use_id"].s != st.pending.value.id then None
    else if "name" in b && b["name"] !in {Null, Str(TOOL)} then None
    else if Completion(b).None? then None
    else if Completion(b).value && st.successId.Some? then None
    else
      var id, ok := b["tool_use_id"].s, Completion(b).value;
      var extra := if "tool_use_result" in e then Some(e["tool_use_result"]) else None;
      Some(st.(resultIds := st.resultIds + {id}, pending := None, status := Some(ok),
               successId := if ok then Some(id) else st.successId,
               attempts := st.attempts + [Attempt(st.pending.value, ok, index, b, extra)]))
  }

  function BlockStep(st: State, index: nat, e: Object, block: Json): Option<State> {
    if !block.Obj? then Some(st)
    else
      var kind := Get(block.fields, "type");
      if kind == Str("tool_use") then CallStep(st, index, e, block.fields)
      else if kind == Str("tool_result") then ResultStep(st, index, e, block.fields)
      else if !Hashable(kind) || IsForbidden(kind) then None
      else Some(st)
  }

  function BlocksStep(st: State, index: nat, e: Object, blocks: seq<Json>): Option<State> {
    if blocks == [] then Some(st)
    else
      var before := BlocksStep(st, index, e, blocks[..|blocks| - 1]);
      if before.None? then None else BlockStep(before.value, index, e, blocks[|blocks| - 1])
  }

  /** Everything an event does before its blocks are read. */
  function HeaderStep(st: State, event: Json): Option<State> {
    if !event.Obj? then None
    else
      var e := event.fields;
      var kind := Get(e, "type");
      if !Hashable(kind) || IsForbidden(kind) then None
      else if kind == Str("result") && (st.resultSeen || st.pending.Some?) then None
      else
        var seen := st.(resultSeen := st.resultSeen || kind == Str("result"), status := None);
        var noted :=
          if !IsInit(e) then seen
          else if Get(e, "tools") == Arr([Str(TOOL)]) then seen.(declared := true)
          else if "tools" in e then seen.(misdeclared := true)
          else seen;
        if !MetadataClean(e) then None else Some(noted)
  }

  /** The completion metadata an event may carry beside its result block. */
  predicate TailAllowed(status: Option<bool>, e: Object) {
    "tool_use_result" in e && e["tool_use_result"] != Null ==>
      && status.Some?
      && BoundedText(e["tool_use_result"], TEXT_LIMIT)
      && (status.value <==> e["tool_use_result"] == Str(SUCCESS))
  }

  function EventStep(st: State, index: nat, event: Json): Option<State> {
    var head := HeaderStep(st, event);
    if head.None? then None
    else
      var body := BlocksStep(head.value, index, event.fields, Blocks(event.fields));
      if body.None? || !TailAllowed(body.value.status, event.fields) then None else body
  }

  function EventsStep(st: State, events: seq<Json>): Option<State> {
    if events == [] then Some(st)
    else
      var before := EventsStep(st, events[..|events| - 1]);
      if before.None? then None else EventStep(before.value, |events| - 1, events[|events| - 1])
  }

  function Verdict(st: State): Outcome {
    if st.attempts != [] then
      if !st.declared || st.misdeclared || st.pending.Some? || !st.resultSeen || st.successId.None?
         || !st.attempts[|st.attempts| - 1].success then Raised
      else Accepted(st.attempts)
    else if st.pending.Some? then Raised
    else Accepted([])
  }

  function Recognise(events: seq<Json>): Outcome {
    var end := EventsStep(INITIAL, events);
    if end.None? then Raised else Verdict(end.value)
  }

  /** The two nested loops of the source. */
  method RejectUnexpectedTools(events: seq<Json>) returns (out: Outcome)
    ensures out == Recognise(events)
  {
    var st := INITIAL;
    for index := 0 to |events|
      invariant EventsStep(INITIAL, events[..index]) == Some(st)
    {
      var event := events[index];
      assert events[..index + 1][..index] == events[..index];
      var head := HeaderStep(st, event);
      if head.None? {
        Stuck(INITIAL, events, index + 1);
        return Raised;
      }
      ghost var first := head.value;
      st := head.value;
      var blocks := Blocks(event.fields);
      for k := 0 to |blocks|
        invariant BlocksStep(first, index, event.fields, blocks[..k]) == Some(st)
      {
        assert blocks[..k + 1][..k] == blocks[..k];
        var next := BlockStep(st, index, event.fields, blocks[k]);
        if next.None? {
          BlocksStuck(first, index, event.fields, blocks, k + 1);
          Stuck(INITIAL, events, index + 1);
          return Raised;
        }
        st := next.value;
      }
      assert blocks[..|blocks|] == blocks;
      if !TailAllowed(st.status, event.fields) {
        Stuck(INITIAL, events, index + 1);
        return Raised;
      }
    }
    assert events[..|events|] == events;
    return Verdict(st);
  }

  lemma {:induction false} BlocksStuck(st: State, index: nat, e: Object, blocks: seq<Json>, k: nat)
    requires k <= |blocks| && BlocksStep(st, index, e, blocks[..k]).None?
    ensures BlocksStep(st, index, e, blocks).None?
  {
    if k < |blocks| {
      assert blocks[..|blocks| - 1][..k] == blocks[..k];
      BlocksStuck(st, index, e, blocks[..|blocks| - 1], k);
    } else {
      assert blocks[..k] == blocks;
    }
  }

  lemma {:induction false} Stuck(st: State, events: seq<Json>, k: nat)
    requires k <= |events| && EventsStep(st, events[..k]).None?
    ensures EventsStep(st, events).None?
  {
    if k < |events| {
      assert events[..|events| - 1][..k] == events[..k];
      Stuck(st, events[..|events| - 1], k);
    } else {
      assert events[..k] == events;
    }
  }
}
