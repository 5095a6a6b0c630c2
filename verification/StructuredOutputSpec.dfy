/** What an accepted event stream looks like, stated without the loop, and the proof that the loop
    accepts exactly those streams. */
module StructuredOutputSpec {
  import opened Collections
  import opened Json
  import opened StructuredOutput

  /** What one stream contributes to the protocol, in order. */
  datatype Token =
    | Declare
    | Misdeclare
    | Envelope
    | Called(call: Call)
    | Answered(id: string, ok: bool, index: nat, block: Object, extra: Option<Json>)

  // ---- events on their own: what each must satisfy, whatever came before ----

  predicate CallWellFormed(e: Object, b: Object) {
    && Get(e, "type") == Str("assistant") && Role(e) in {Null, Str("assistant")} && Get(b, "name") == Str(TOOL)
    && BoundedText(Get(b, "id"), ID_LIMIT) && Get(b, "input").Obj?
  }

  predicate ResultWellFormed(e: Object, b: Object) {
    && Get(e, "type") == Str("user") && Role(e) in {Null, Str("user")}
    && BoundedText(Get(b, "tool_use_id"), ID_LIMIT) && Get(b, "name") in {Null, Str(TOOL)} && Completion(b).Some?
  }

  predicate BlockWellFormed(e: Object, block: Json) {
    block.Obj? ==>
      var kind := Get(block.fields, "type");
      if kind == Str("tool_use") then CallWellFormed(e, block.fields)
      else if kind == Str("tool_result") then ResultWellFormed(e, block.fields)
      else Hashable(kind) && !IsForbidden(kind)
  }

  predicate IsResultBlock(block: Json) {
    block.Obj? && Get(block.fields, "type") == Str("tool_result")
  }

  /** The completion status of the last result block among `blocks`. */
  function LastStatus(blocks: seq<Json>): Option<bool> {
    if blocks == [] then None
    else if IsResultBlock(blocks[|blocks| - 1]) then Completion(blocks[|blocks| - 1].fields)
    else LastStatus(blocks[..|blocks| - 1])
  }

  predicate EventWellFormed(event: Json) {
    && event.Obj? && Hashable(Get(event.fields, "type")) && !IsForbidden(Get(event.fields, "type"))
    && MetadataClean(event.fields)
    && (forall k :: 0 <= k < |Blocks(event.fields)| ==> BlockWellFormed(event.fields, Blocks(event.fields)[k]))
    && TailAllowed(LastStatus(Blocks(event.fields)), event.fields)
  }

  function HeaderTokens(e: Object): seq<Token> {
    if Get(e, "type") == Str("result") then [Envelope]
    else if !IsInit(e) then []
    else if Get(e, "tools") == Arr([Str(TOOL)]) then [Declare]
    else if "tools" in e then [Misdeclare]
    else []
  }

  function BlockTokens(e: Object, index: nat, block: Json): seq<Token>
    requires BlockWellFormed(e, block)
  {
    if !block.Obj? then []
    else if Get(block.fields, "type") == Str("tool_use") then [Called(Call(block.fields["id"].s, index, block.fields))]
    else if Get(block.fields, "type") == Str("tool_result") then
      [Answered(block.fields["tool_use_id"].s, Completion(block.fields).value, index, block.fields,
                if "tool_use_result" in e then Some(e["tool_use_result"]) else None)]
    else []
  }

  function BlocksTokens(e: Object, index: nat, blocks: seq<Json>): seq<Token>
    requires forall k :: 0 <= k < |blocks| ==> BlockWellFormed(e, blocks[k])
  {
    if blocks == [] then []
    else BlocksTokens(e, index, blocks[..|blocks| - 1]) + BlockTokens(e, index, blocks[|blocks| - 1])
  }

  function EventTokens(event: Json, index: nat): seq<Token>
    requires EventWellFormed(event)
  {
    HeaderTokens(event.fields) + BlocksTokens(event.fields, index, Blocks(event.fields))
  }

  predicate AllWellFormed(events: seq<Json>) {
    forall i :: 0 <= i < |events| ==> EventWellFormed(events[i])
  }

  function Tokens(events: seq<Json>): seq<Token>
    requires AllWellFormed(events)
  {
    if events == [] then []
    else Tokens(events[..|events| - 1]) + EventTokens(events[|events| - 1], |events| - 1)
  }

  // ---- what the checks on one event mean ----

  /** `key` is absent or holds a boolean. */
  predicate FlagOrAbsent(b: Object, key: string) {
    key in b ==> b[key].Bool?
  }

  predicate Raises(b: Object, key: string) {
    key in b && b[key] == Bool(true)
  }

  /** A result block reports an outcome exactly when its error flags are booleans that do not contradict each other.
      Success is the fixed sentence without a raised flag; failure is any other bounded text with one. */
  lemma CompletionExact(b: Object)
    ensures var flags := FlagOrAbsent(b, "is_error") && FlagOrAbsent(b, "isError")
                         && ("is_error" in b && "isError" in b ==> b["is_error"] == b["isError"]);
            var raised := Raises(b, "is_error") || Raises(b, "isError");
            var sentence := "content" in b && b["content"] == Str("Structured output provided successfully");
            && (Completion(b) == Some(true) <==> flags && !raised && sentence)
            && (Completion(b) == Some(false) <==>
                  flags && raised && !sentence && "content" in b && b["content"].Str? && b["content"].s != ""
                  && Utf8Length(b["content"].s) <= 4096 && '\U{0}' !in b["content"].s)
  {
  }

  /** The extra result an event may carry: nothing, or bounded text beside a result block that says success exactly
      when the block does. */
  lemma TailExact(status: Option<bool>, e: Object)
    ensures var extra := if "tool_use_result" in e then e["tool_use_result"] else Null;
            TailAllowed(status, e) <==>
              || extra == Null
              || (status.Some? && extra.Str? && extra.s != "" && Utf8Length(extra.s) <= 4096 && '\U{0}' !in extra.s
                  && (status == Some(true) <==> extra.s == "Structured output provided successfully"))
  {
  }

  predicate NothingLoaded(e: Object, key: string) {
    key in e ==> e[key] in {Null, Arr([]), Obj(map[])}
  }

  /** No plug-in, skill or server is loaded, and no tool but the one. */
  lemma MetadataExact(e: Object)
    ensures MetadataClean(e) <==>
              && NothingLoaded(e, "plugins") && NothingLoaded(e, "skills") && NothingLoaded(e, "mcp_servers")
              && NothingLoaded(e, "mcpServers")
              && ("tools" in e ==> e["tools"] in {Arr([]), Arr([Str("StructuredOutput")])})
  {
    assert METADATA[0] in METADATA && METADATA[1] in METADATA && METADATA[2] in METADATA && METADATA[3] in METADATA;
    forall key | key in METADATA ensures key in {"plugins", "skills", "mcp_servers", "mcpServers"} { }
  }

  // ---- the protocol: the whole stream at once ----

  function IsStep(): Token -> bool { (x: Token) => x.Called? || x.Answered? }

  /** Calls and results only, in order. */
  function Steps(toks: seq<Token>): seq<Token> {
    Keep(toks, IsStep())
  }

  /** The steps a list of attempts stands for: each call directly answered under its own id. */
  function Flat(attempts: seq<Attempt>): seq<Token> {
    if attempts == [] then []
    else
      var a := attempts[|attempts| - 1];
      Flat(attempts[..|attempts| - 1]) + [Called(a.call),
                                          Answered(a.call.id, a.success, a.resultIndex, a.result, a.extra)]
  }

  /** At most MAX_ATTEMPTS attempts under pairwise distinct ids, all failed except a final success. */
  predicate Ordered(attempts: seq<Attempt>) {
    && |attempts| <= MAX_ATTEMPTS
    && (forall j, k :: 0 <= j < k < |attempts| ==> attempts[j].call.id != attempts[k].call.id)
    && (forall k :: 0 <= k < |attempts| ==> (attempts[k].success <==> k == |attempts| - 1))
  }

  predicate OneEnvelopeAfterAll(toks: seq<Token>) {
    exists i :: 0 <= i < |toks| && toks[i].Envelope?
      && forall j :: 0 <= j < |toks| ==> (toks[j].Envelope? ==> j == i) && (IsStep()(toks[j]) ==> j < i)
  }

  predicate DeclaredFirst(toks: seq<Token>) {
    exists i :: 0 <= i < |toks| && toks[i].Declare? && forall j :: 0 <= j < |toks| && toks[j].Called? ==> i < j
  }

  /** The declarative specification of a stream accepted with `attempts`. */
  predicate Protocol(toks: seq<Token>, attempts: seq<Attempt>) {
    && attempts != [] && Steps(toks) == Flat(attempts) && Ordered(attempts)
    && OneEnvelopeAfterAll(toks) && DeclaredFirst(toks) && Misdeclare !in toks
  }

  /** A stream without any call or result is accepted with no attempts if it has at most one envelope. */
  predicate Silent(toks: seq<Token>) {
    && Steps(toks) == []
    && forall i, j :: 0 <= i < j < |toks| ==> !(toks[i].Envelope? && toks[j].Envelope?)
  }

  // ---- the loop as a fold over tokens ----

  function TokenStep(st: State, tok: Token): Option<State> {
    match tok
    case Declare => Some(st.(declared := true))
    case Misdeclare => Some(st.(misdeclared := true))
    case Envelope => if st.resultSeen || st.pending.Some? then None else Some(st.(resultSeen := true))
    case Called(c) =>
      if st.resultSeen || st.pending.Some? || st.successId.Some? || !st.declared || c.id in st.callIds
         || c.id in st.resultIds
         || |st.attempts| >= MAX_ATTEMPTS then None
      else Some(st.(callIds := st.callIds + {c.id}, pending := Some(c)))
    case Answered(id, ok, index, block, extra) =>
      if st.resultSeen || st.pending.None? || id in st.resultIds || id != st.pending.value.id
         || (ok && st.successId.Some?) then None
      else Some(st.(resultIds := st.resultIds + {id}, pending := None, status := Some(ok),
                    successId := if ok then Some(id) else st.successId,
                    attempts := st.attempts + [Attempt(st.pending.value, ok, index, block, extra)]))
  }

  function Fold(st: State, toks: seq<Token>): Option<State> {
    if toks == [] then Some(st)
    else
      var before := Fold(st, toks[..|toks| - 1]);
      if before.None? then None else TokenStep(before.value, toks[|toks| - 1])
  }

  lemma {:induction false} FoldAppend(st: State, a: seq<Token>, b: seq<Token>)
    ensures Fold(st, a + b) == if Fold(st, a).None? then None else Fold(Fold(st, a).value, b)
  {
    if b == [] {
      assert a + b == a;
    } else {
      assert (a + b)[..|a + b| - 1] == a + b[..|b| - 1];
      FoldAppend(st, a, b[..|b| - 1]);
    }
  }

  function Forget(st: Option<State>): Option<State> {
    if st.None? then None else Some(st.value.(status := None))
  }

  /** The per-event status never decides whether a token is acceptable. */
  lemma {:induction false} FoldForgets(st: State, toks: seq<Token>)
    ensures Forget(Fold(st, toks)) == Forget(Fold(st.(status := None), toks))
  {
    if toks != [] {
      var front, tok := toks[..|toks| - 1], toks[|toks| - 1];
      FoldForgets(st, front);
      var a, b := Fold(st, front), Fold(st.(status := None), front);
      hide TokenStep;
      if a.Some? && b.Some? {
        StepForgets(a.value, b.value, tok);
      }
    }
  }

  lemma StepForgets(a: State, b: State, tok: Token)
    requires a.(status := None) == b.(status := None)
    ensures Forget(TokenStep(a, tok)) == Forget(TokenStep(b, tok))
  {
  }

  lemma FoldOne(st: State, tok: Token)
    ensures Fold(st, [tok]) == TokenStep(st, tok)
  {
    assert [tok][..0] == [];
  }

  lemma BlockIsTokens(st: State, index: nat, e: Object, block: Json)
    ensures BlockWellFormed(e, block) ==> BlockStep(st, index, e, block) == Fold(st, BlockTokens(e, index, block))
    ensures !BlockWellFormed(e, block) ==> BlockStep(st, index, e, block).None?
  {
    if BlockWellFormed(e, block) && BlockTokens(e, index, block) != [] {
      FoldOne(st, BlockTokens(e, index, block)[0]);
    }
  }

  lemma {:induction false} BlocksAreTokens(st: State, index: nat, e: Object, blocks: seq<Json>)
    ensures (forall k :: 0 <= k < |blocks| ==> BlockWellFormed(e, blocks[k])) ==>
              BlocksStep(st, index, e, blocks) == Fold(st, BlocksTokens(e, index, blocks))
    ensures (exists k :: 0 <= k < |blocks| && !BlockWellFormed(e, blocks[k])) ==> BlocksStep(st, index, e, blocks).None?
  {
    hide BlockStep, BlockTokens, BlockWellFormed;
    if blocks != [] {
      var front, last := blocks[..|blocks| - 1], blocks[|blocks| - 1];
      BlocksAreTokens(st, index, e, front);
      if BlocksStep(st, index, e, front).Some? {
        BlockIsTokens(BlocksStep(st, index, e, front).value, index, e, last);
      }
      if forall k :: 0 <= k < |blocks| ==> BlockWellFormed(e, blocks[k]) {
        FoldAppend(st, BlocksTokens(e, index, front), BlockTokens(e, index, last));
      }
    }
  }

  lemma {:induction false} StatusIsLast(st: State, index: nat, e: Object, blocks: seq<Json>)
    requires st.status.None? && BlocksStep(st, index, e, blocks).Some?
    ensures BlocksStep(st, index, e, blocks).value.status == LastStatus(blocks)
  {
    if blocks != [] {
      StatusIsLast(st, index, e, blocks[..|blocks| - 1]);
    }
  }

  predicate HeaderWellFormed(event: Json) {
    event.Obj? && Hashable(Get(event.fields, "type")) && !IsForbidden(Get(event.fields, "type"))
    && MetadataClean(event.fields)
  }

  lemma HeaderIsTokens(st: State, event: Json)
    ensures HeaderWellFormed(event) ==> HeaderStep(st, event) == Fold(st.(status := None), HeaderTokens(event.fields))
    ensures !HeaderWellFormed(event) ==> HeaderStep(st, event).None?
  {
    hide MetadataClean, IsForbidden, Fold, Hashable;
    if HeaderWellFormed(event) {
      var reset, e := st.(status := None), event.fields;
      FoldNone(reset);
      FoldOne(reset, Envelope);
      FoldOne(reset, Declare);
      FoldOne(reset, Misdeclare);
      assert Get(e, "type") == Str("result") ==> !IsInit(e);
    }
  }

  lemma FoldNone(st: State)
    ensures Fold(st, []) == Some(st)
  {
  }

  lemma EventIsTokens(st: State, event: Json, index: nat)
    ensures EventWellFormed(event) ==> EventStep(st, index, event)
                                         == Fold(st.(status := None), EventTokens(event, index))
    ensures !EventWellFormed(event) ==> EventStep(st, index, event).None?
  {
    hide HeaderStep, BlocksStep, BlockWellFormed, LastStatus, TailAllowed, MetadataClean, IsForbidden, Fold,
    HeaderTokens, BlocksTokens;
    HeaderIsTokens(st, event);
    var head := HeaderStep(st, event);
    if head.Some? {
      var e := event.fields;
      assert head.value.status.None? by { HeaderClearsStatus(st, event); }
      BlocksAreTokens(head.value, index, e, Blocks(e));
      if BlocksStep(head.value, index, e, Blocks(e)).Some? {
        StatusIsLast(head.value, index, e, Blocks(e));
      }
    }
    if EventWellFormed(event) {
      FoldAppend(st.(status := None), HeaderTokens(event.fields),
                 BlocksTokens(event.fields, index, Blocks(event.fields)));
      if head.Some? && BlocksStep(head.value, index, event.fields, Blocks(event.fields)).None? {
        assert EventStep(st, index, event).None?;
      }
    }
  }

  lemma HeaderClearsStatus(st: State, event: Json)
    requires HeaderStep(st, event).Some?
    ensures HeaderStep(st, event).value.status.None?
  {
  }

  lemma {:induction false} EventsAreTokens(events: seq<Json>)
    ensures AllWellFormed(events) ==> Forget(EventsStep(INITIAL, events)) == Forget(Fold(INITIAL, Tokens(events)))
    ensures !AllWellFormed(events) ==> EventsStep(INITIAL, events).None?
  {
    hide EventStep, EventTokens, EventWellFormed;
    if events != [] {
      var front, last, index := events[..|events| - 1], events[|events| - 1], |events| - 1;
      EventsAreTokens(front);
      var before := EventsStep(INITIAL, front);
      if before.Some? {
        EventIsTokens(before.value, last, index);
      }
      if AllWellFormed(events) {
        FoldAppend(INITIAL, Tokens(front), EventTokens(last, index));
        if before.Some? {
          FoldForgets(Fold(INITIAL, Tokens(front)).value, EventTokens(last, index));
          FoldForgets(before.value, EventTokens(last, index));
        }
      }
    }
  }

  // ---- the fold and the protocol ----

  function Waiting(pending: Option<Call>): seq<Token> {
    if pending.None? then [] else [Called(pending.value)]
  }

  function Ids(attempts: seq<Attempt>): set<string> {
    set k | 0 <= k < |attempts| :: attempts[k].call.id
  }

  predicate EnvelopesLast(toks: seq<Token>) {
    forall i, j :: 0 <= i < |toks| && 0 <= j < |toks| && toks[i].Envelope? ==>
      (toks[j].Envelope? ==> j == i) && (IsStep()(toks[j]) ==> j < i)
  }

  predicate NoCalls(toks: seq<Token>) {
    forall i :: 0 <= i < |toks| ==> !toks[i].Called?
  }

  /** The attempt bookkeeping is determined by the calls and results read so far. */
  ghost predicate Tracks(st: State, steps: seq<Token>) {
    && steps == Flat(st.attempts) + Waiting(st.pending)
    && st.resultIds == Ids(st.attempts)
    && st.callIds == Ids(st.attempts) + (if st.pending.Some? then {st.pending.value.id} else {})
    && |st.attempts| <= MAX_ATTEMPTS
    && (forall j, k :: 0 <= j < k < |st.attempts| ==> st.attempts[j].call.id != st.attempts[k].call.id)
    && (forall k :: 0 <= k < |st.attempts| - 1 ==> !st.attempts[k].success)
    && (st.successId.Some? <==> st.attempts != [] && st.attempts[|st.attempts| - 1].success)
    && (st.pending.Some? ==> st.successId.None? && |st.attempts| < MAX_ATTEMPTS
                             && st.pending.value.id !in Ids(st.attempts) && !st.resultSeen)
  }

  ghost predicate Flags(st: State, toks: seq<Token>) {
    (st.declared <==> Declare in toks) && (st.misdeclared <==> Misdeclare in toks)
    && (st.resultSeen <==> Envelope in toks)
  }

  ghost predicate Matches(st: State, toks: seq<Token>) {
    && Flags(st, toks) && Tracks(st, Steps(toks)) && EnvelopesLast(toks)
    && (NoCalls(toks) || DeclaredFirst(toks))
  }

  lemma StepsGrow(toks: seq<Token>, tok: Token)
    ensures Steps(toks + [tok]) == if IsStep()(tok) then Steps(toks) + [tok] else Steps(toks)
  {
    assert (toks + [tok])[..|toks|] == toks;
  }

  lemma FlatGrows(attempts: seq<Attempt>, a: Attempt)
    ensures Flat(attempts + [a]) == Flat(attempts) + [Called(a.call)]
            + [Answered(a.call.id, a.success, a.resultIndex, a.result, a.extra)]
    ensures Ids(attempts + [a]) == Ids(attempts) + {a.call.id}
  {
    var longer := attempts + [a];
    assert longer[..|attempts|] == attempts;
    forall id | id in Ids(attempts) + {a.call.id} ensures id in Ids(longer) {
      if id in Ids(attempts) {
        var k :| 0 <= k < |attempts| && attempts[k].call.id == id;
        assert longer[k].call.id == id;
      } else {
        assert longer[|attempts|].call.id == id;
      }
    }
  }

  lemma DeclaredGrows(toks: seq<Token>, tok: Token)
    requires NoCalls(toks) || DeclaredFirst(toks)
    requires tok.Called? ==> Declare in toks
    ensures NoCalls(toks + [tok]) || DeclaredFirst(toks + [tok])
  {
    var longer := toks + [tok];
    if NoCalls(toks) && Declare in toks {
      var i :| 0 <= i < |toks| && toks[i] == Declare;
      assert toks[i].Declare?;
    }
    if DeclaredFirst(toks) {
      var i :| 0 <= i < |toks| && toks[i].Declare? && forall j :: 0 <= j < |toks| && toks[j].Called? ==> i < j;
      assert longer[i].Declare?;
    }
  }

  lemma EnvelopeGrows(toks: seq<Token>, tok: Token)
    requires EnvelopesLast(toks)
    requires tok.Envelope? || IsStep()(tok) ==> Envelope !in toks
    ensures EnvelopesLast(toks + [tok])
  {
    var longer := toks + [tok];
    assert forall i :: 0 <= i < |toks| ==> longer[i] == toks[i];
    assert forall i :: 0 <= i < |toks| && toks[i].Envelope? ==> toks[i] == Envelope && Envelope in toks;
  }

  lemma TracksStep(st: State, steps: seq<Token>, tok: Token)
    requires Tracks(st, steps) && TokenStep(st, tok).Some?
    ensures Tracks(TokenStep(st, tok).value, if IsStep()(tok) then steps + [tok] else steps)
  {
    hide Flat;
    if tok.Called? {
      assert Flat(st.attempts) + [] + [tok] == Flat(st.attempts) + [tok];
    } else if tok.Answered? {
      AnswerTracks(st, steps, tok);
    }
  }

  lemma AnswerTracks(st: State, steps: seq<Token>, tok: Token)
    requires Tracks(st, steps) && tok.Answered? && TokenStep(st, tok).Some?
    ensures Tracks(TokenStep(st, tok).value, steps + [tok])
  {
    hide Flat;
    var a := Attempt(st.pending.value, tok.ok, tok.index, tok.block, tok.extra);
    var after := TokenStep(st, tok).value;
    FlatGrows(st.attempts, a);
    assert steps + [tok] == Flat(after.attempts) + Waiting(None) by {
      assert tok == Answered(a.call.id, a.success, a.resultIndex, a.result, a.extra);
    }
    NewIdDistinct(st.attempts, a);
    hide Ids;
  }

  lemma NewIdDistinct(attempts: seq<Attempt>, a: Attempt)
    requires a.call.id !in Ids(attempts)
    requires forall j, k :: 0 <= j < k < |attempts| ==> attempts[j].call.id != attempts[k].call.id
    ensures var longer := attempts + [a];
            forall j, k :: 0 <= j < k < |longer| ==> longer[j].call.id != longer[k].call.id
  {
    assert forall k :: 0 <= k < |attempts| ==> attempts[k].call.id in Ids(attempts);
  }

  lemma FlagsStep(st: State, toks: seq<Token>, tok: Token)
    requires Flags(st, toks) && TokenStep(st, tok).Some?
    ensures Flags(TokenStep(st, tok).value, toks + [tok])
  {
  }

  lemma MatchStep(st: State, toks: seq<Token>, tok: Token)
    requires Matches(st, toks) && TokenStep(st, tok).Some?
    ensures Matches(TokenStep(st, tok).value, toks + [tok])
  {
    StepsGrow(toks, tok);
    DeclaredGrows(toks, tok);
    EnvelopeGrows(toks, tok);
    TracksStep(st, Steps(toks), tok);
    FlagsStep(st, toks, tok);
  }

  lemma InitialMatches()
    ensures Matches(INITIAL, [])
  {
  }

  lemma {:induction false} FoldMatches(toks: seq<Token>)
    requires Fold(INITIAL, toks).Some?
    ensures Matches(Fold(INITIAL, toks).value, toks)
  {
    hide Matches, TokenStep;
    if toks == [] {
      InitialMatches();
    } else {
      FoldMatches(toks[..|toks| - 1]);
      MatchStep(Fold(INITIAL, toks[..|toks| - 1]).value, toks[..|toks| - 1], toks[|toks| - 1]);
      assert toks[..|toks| - 1] + [toks[|toks| - 1]] == toks;
    }
  }

  lemma {:induction false} FlatAt(attempts: seq<Attempt>, k: nat)
    requires k < |attempts|
    ensures |Flat(attempts)| == 2 * |attempts|
    ensures Flat(attempts)[..2 * k] == Flat(attempts[..k])
    ensures Flat(attempts)[2 * k] == Called(attempts[k].call)
    ensures var a := attempts[k];
            Flat(attempts)[2 * k + 1] == Answered(a.call.id, a.success, a.resultIndex, a.result, a.extra)
  {
    var front := attempts[..|attempts| - 1];
    FlatLength(front);
    if k < |front| {
      FlatAt(front, k);
      assert front[..k] == attempts[..k];
    }
  }

  lemma {:induction false} FlatLength(attempts: seq<Attempt>)
    ensures |Flat(attempts)| == 2 * |attempts|
  {
    if attempts != [] {
      FlatLength(attempts[..|attempts| - 1]);
    }
  }

  lemma {:induction false} FlatInjective(x: seq<Attempt>, y: seq<Attempt>)
    requires Flat(x) == Flat(y)
    ensures x == y
  {
    FlatLength(x);
    FlatLength(y);
    hide Flat;
    if x != [] {
      var k := |x| - 1;
      FlatAt(x, k);
      FlatAt(y, k);
      FlatInjective(x[..k], y[..k]);
      assert x == x[..k] + [x[k]] && y == y[..k] + [y[k]];
    }
  }

  /** Acceptance implies the protocol. */
  lemma Sound(toks: seq<Token>, st: State)
    requires Fold(INITIAL, toks) == Some(st)
    ensures Verdict(st).Accepted? && st.attempts != [] ==> Protocol(toks, st.attempts)
    ensures Verdict(st).Accepted? && st.attempts == [] ==> Silent(toks)
  {
    FoldMatches(toks);
    hide Fold;
    assert Flat([]) == [];
    if Verdict(st).Accepted? {
      assert Flat(st.attempts) + [] == Flat(st.attempts);
      if st.attempts != [] {
        FlatAt(st.attempts, 0);
        var i :| 0 <= i < |toks| && toks[i] == Envelope;
        assert OneEnvelopeAfterAll(toks);
        assert !NoCalls(toks) by {
          assert Called(st.attempts[0].call) in Steps(toks);
          assert Called(st.attempts[0].call) in toks;
        }
      }
    }
  }

  // ---- completeness ----

  lemma StepsAt(toks: seq<Token>, i: nat)
    requires i < |toks|
    ensures Steps(toks[..i]) <= Steps(toks)
    ensures IsStep()(toks[i]) ==> |Steps(toks[..i])| < |Steps(toks)| && Steps(toks)[|Steps(toks[..i])|] == toks[i]
  {
    assert toks == toks[..i] + [toks[i]] + toks[i + 1..];
    KeepAppend(toks[..i] + [toks[i]], toks[i + 1..], IsStep());
    StepsGrow(toks[..i], toks[i]);
  }

  lemma StepsDone(toks: seq<Token>, i: nat)
    requires i <= |toks| && forall j :: i <= j < |toks| ==> !IsStep()(toks[j])
    ensures Steps(toks[..i]) == Steps(toks)
  {
    assert toks == toks[..i] + toks[i..];
    KeepAppend(toks[..i], toks[i..], IsStep());
    KeepNone(toks[i..], IsStep());
  }

  /** Where a tracked prefix of the steps of `attempts` stands. */
  lemma TrackedPrefix(st: State, steps: seq<Token>, attempts: seq<Attempt>)
    requires Tracks(st, steps) && steps <= Flat(attempts)
    ensures |st.attempts| <= |attempts| && st.attempts == attempts[..|st.attempts|]
    ensures |steps| == 2 * |st.attempts| + (if st.pending.Some? then 1 else 0)
    ensures st.pending.Some? ==> |st.attempts| < |attempts| && st.pending.value == attempts[|st.attempts|].call
  {
    var k := |st.attempts|;
    FlatLength(st.attempts);
    FlatLength(attempts);
    hide Flat, Ids;
    if k < |attempts| {
      FlatAt(attempts, k);
      assert Flat(st.attempts) == steps[..2 * k] == Flat(attempts)[..2 * k];
      FlatInjective(st.attempts, attempts[..k]);
    } else {
      assert Flat(st.attempts) == steps[..2 * k] == Flat(attempts);
      FlatInjective(st.attempts, attempts);
      assert attempts[..k] == attempts;
    }
  }

  lemma StepAccepted(st: State, toks: seq<Token>, i: nat, attempts: seq<Attempt>)
    requires i < |toks| && Protocol(toks, attempts) && Matches(st, toks[..i]) && IsStep()(toks[i])
    ensures TokenStep(st, toks[i]).Some?
  {
    hide Flat, Steps, Ids, EnvelopesLast, NoCalls;
    var tok, k := toks[i], |st.attempts|;
    StepsAt(toks, i);
    var m := |Steps(toks[..i])|;
    TrackedPrefix(st, Steps(toks[..i]), attempts);
    FlatLength(attempts);
    assert k < |attempts|;
    FlatAt(attempts, k);
    assert m == 2 * k || m == 2 * k + 1;
    assert tok == Flat(attempts)[m];
    var e :| 0 <= e < |toks| && toks[e].Envelope? && forall j :: 0 <= j < |toks| ==>
      (toks[j].Envelope? ==> j == e) && (IsStep()(toks[j]) ==> j < e);
    assert Envelope !in toks[..i];
    assert st.successId.None?;
    assert attempts[k].call.id !in Ids(st.attempts) by { NotAmong(attempts, k); }
    if tok.Called? {
      var d :| 0 <= d < |toks| && toks[d].Declare? && forall j :: 0 <= j < |toks| && toks[j].Called? ==> d < j;
      assert toks[..i][d] == Declare;
    }
  }

  lemma NotAmong(attempts: seq<Attempt>, k: nat)
    requires k < |attempts| && Ordered(attempts)
    ensures attempts[k].call.id !in Ids(attempts[..k])
  {
  }

  lemma FoldNext(toks: seq<Token>, i: nat)
    requires i < |toks| && Fold(INITIAL, toks[..i]).Some?
    ensures Fold(INITIAL, toks[..i + 1]) == TokenStep(Fold(INITIAL, toks[..i]).value, toks[i])
  {
    assert toks[..i + 1][..i] == toks[..i] && toks[..i + 1][i] == toks[i];
  }

  lemma FoldNothing(toks: seq<Token>)
    ensures Fold(INITIAL, toks[..0]).Some?
  {
  }

  lemma NextAccepted(st: State, toks: seq<Token>, i: nat, attempts: seq<Attempt>)
    requires i < |toks| && Protocol(toks, attempts) && Matches(st, toks[..i])
    ensures TokenStep(st, toks[i]).Some?
  {
    if IsStep()(toks[i]) {
      StepAccepted(st, toks, i, attempts);
    } else if toks[i].Envelope? {
      EnvelopeAccepted(st, toks, i, attempts);
    }
    hide Protocol, Matches;
  }

  lemma {:induction false} PrefixAccepted(toks: seq<Token>, i: nat, attempts: seq<Attempt>)
    requires i <= |toks| && Protocol(toks, attempts)
    ensures Fold(INITIAL, toks[..i]).Some?
  {
    hide *;
    if i == 0 {
      FoldNothing(toks);
    } else {
      PrefixAccepted(toks, i - 1, attempts);
      FoldMatches(toks[..i - 1]);
      FoldNext(toks, i - 1);
      NextAccepted(Fold(INITIAL, toks[..i - 1]).value, toks, i - 1, attempts);
    }
  }

  lemma EnvelopeAccepted(st: State, toks: seq<Token>, i: nat, attempts: seq<Attempt>)
    requires i < |toks| && Protocol(toks, attempts) && Matches(st, toks[..i]) && toks[i].Envelope?
    ensures TokenStep(st, toks[i]).Some?
  {
    var e :| 0 <= e < |toks| && toks[e].Envelope? && forall j :: 0 <= j < |toks| ==>
      (toks[j].Envelope? ==> j == e) && (IsStep()(toks[j]) ==> j < e);
    StepsDone(toks, i);
    TrackedPrefix(st, Steps(toks[..i]), attempts);
    FlatLength(attempts);
    hide Flat, Steps, Ids;
    assert forall j :: 0 <= j < |toks[..i]| ==> toks[..i][j] == toks[j];
    assert Envelope !in toks[..i];
  }

  lemma Complete(toks: seq<Token>, attempts: seq<Attempt>)
    requires Protocol(toks, attempts)
    ensures Fold(INITIAL, toks).Some? && Verdict(Fold(INITIAL, toks).value) == Accepted(attempts)
  {
    PrefixAccepted(toks, |toks|, attempts);
    assert toks[..|toks|] == toks;
    FoldMatches(toks);
    var st := Fold(INITIAL, toks).value;
    TrackedPrefix(st, Steps(toks), attempts);
    FlatLength(attempts);
    hide Flat, Steps, Ids, Fold;
    assert attempts[..|attempts|] == attempts;
    assert Declare in toks && Envelope in toks by {
      var d :| 0 <= d < |toks| && toks[d].Declare? && forall j :: 0 <= j < |toks| && toks[j].Called? ==> d < j;
      assert toks[d] == Declare;
      var e :| 0 <= e < |toks| && toks[e].Envelope? && forall j :: 0 <= j < |toks| ==>
        (toks[j].Envelope? ==> j == e) && (IsStep()(toks[j]) ==> j < e);
      assert toks[e] == Envelope;
    }
  }

  lemma {:induction false} SilentAccepted(toks: seq<Token>)
    requires Silent(toks)
    ensures Fold(INITIAL, toks).Some? && Verdict(Fold(INITIAL, toks).value) == Accepted([])
    ensures var st := Fold(INITIAL, toks).value;
            st.attempts == [] && st.pending.None?
            && (st.resultSeen ==> Envelope in toks)
  {
    if toks != [] {
      var front, last := toks[..|toks| - 1], toks[|toks| - 1];
      StepsGrow(front, last);
      assert front + [last] == toks;
      assert last !in Steps(toks) && last in toks;
      SilentAccepted(front);
    }
  }

  /** An accepting verdict carries the attempts of its state. */
  lemma VerdictCarries(st: State)
    ensures Verdict(st).Accepted? ==> Verdict(st).attempts == st.attempts
  {
  }

  /** The loop accepts with attempts exactly the streams that meet the protocol, and returns those attempts. */
  lemma AcceptsExactlyTheProtocol(events: seq<Json>, attempts: seq<Attempt>)
    requires attempts != []
    ensures Recognise(events) == Accepted(attempts) <==> AllWellFormed(events) && Protocol(Tokens(events), attempts)
  {
    EventsAreTokens(events);
    if AllWellFormed(events) {
      var toks := Tokens(events);
      var end := Fold(INITIAL, toks);
      if end.Some? { Sound(toks, end.value); VerdictCarries(end.value); }
      if Protocol(toks, attempts) { Complete(toks, attempts); }
    }
    hide EventsStep, AllWellFormed, Protocol, Silent, Fold, Tokens, Verdict;
  }

  lemma AcceptsSilence(events: seq<Json>)
    ensures Recognise(events) == Accepted([]) <==> AllWellFormed(events) && Silent(Tokens(events))
  {
    EventsAreTokens(events);
    if AllWellFormed(events) {
      var toks := Tokens(events);
      var end := Fold(INITIAL, toks);
      if end.Some? { Sound(toks, end.value); VerdictCarries(end.value); }
      if Silent(toks) { SilentAccepted(toks); }
    }
    hide EventsStep, AllWellFormed, Protocol, Silent, Fold, Tokens, Verdict;
  }

  // ---- the envelope around the stream ----

  datatype Parsed = Output(value: Json, attempts: seq<Attempt>) | Refused

  predicate IsResultEvent(event: Json) {
    event.Obj? && Get(event.fields, "type") == Str("result")
  }

  /** The last result envelope of an event array, if there is one. */
  function LastEnvelope(events: seq<Json>): Option<Object> {
    if events == [] then None
    else if IsResultEvent(events[|events| - 1]) then Some(events[|events| - 1].fields)
    else LastEnvelope(events[..|events| - 1])
  }

  /** The checks from the recognised stream to the structured output. */
  function ParseEvents(events: seq<Json>, envelope: Option<Object>): Parsed {
    var seen := Recognise(events);
    if seen.Raised? || envelope.None? then Refused
    else
      var e := envelope.value;
      if Get(e, "is_error") == Bool(true) || Get(e, "isError") == Bool(true) then Refused
      else if !Hashable(Get(e, "subtype")) || Get(e, "subtype") in {Str("error"), Str("failure")} then Refused
      else if "structured_output" !in e then Refused
      else if seen.attempts != []
              && !(seen.attempts[|seen.attempts| - 1].success
                   && PyEqual(Get(seen.attempts[|seen.attempts| - 1].call.block, "input"), e["structured_output"]))
                      then Refused
      else Output(e["structured_output"], seen.attempts)
  }

  function ParseEnvelope(value: Json): Parsed {
    match value
    case Arr(events) =>
      if events == [] || exists i :: 0 <= i < |events| && !events[i].Obj? then Refused
      else ParseEvents(events, LastEnvelope(events))
    case Obj(fields) => ParseEvents([value], Some(fields))
    case _ => Refused
  }

  /** What acceptance of an event array guarantees: one envelope, no error report on it, and an output that
      is the input of the last attempt, the only one that succeeded. */
  lemma OutputIsTheFinalInput(events: seq<Json>)
    requires ParseEnvelope(Arr(events)).Output? && ParseEnvelope(Arr(events)).attempts != []
    ensures var p := ParseEnvelope(Arr(events));
            && AllWellFormed(events) && Protocol(Tokens(events), p.attempts)
            && (forall k :: 0 <= k < |p.attempts| ==> (p.attempts[k].success <==> k == |p.attempts| - 1))
            && PyEqual(Get(p.attempts[|p.attempts| - 1].call.block, "input"), p.value)
  {
    hide Tokens, AllWellFormed, LastEnvelope, PyEqual, Recognise, Steps, Flat, OneEnvelopeAfterAll, DeclaredFirst;
    var p := ParseEnvelope(Arr(events));
    assert Recognise(events) == Accepted(p.attempts);
    AcceptsExactlyTheProtocol(events, p.attempts);
  }

  /** `e` is the last event of type `result`. */
  ghost predicate EnvelopeAt(events: seq<Json>, e: Object, i: int) {
    && 0 <= i < |events| && events[i] == Obj(e) && "type" in e && e["type"] == Str("result")
    && forall j :: i < j < |events| ==> !(events[j].Obj? && Get(events[j].fields, "type") == Str("result"))
  }

  lemma {:induction false} LastEnvelopeExact(events: seq<Json>, e: Object)
    ensures LastEnvelope(events) == Some(e) <==> exists i :: EnvelopeAt(events, e, i)
  {
    if events != [] {
      var n := |events| - 1;
      var front := events[..n];
      if IsResultEvent(events[n]) {
        if events[n].fields == e { assert EnvelopeAt(events, e, n); }
      } else {
        LastEnvelopeExact(front, e);
        if exists i :: EnvelopeAt(front, e, i) {
          var i :| EnvelopeAt(front, e, i);
          assert EnvelopeAt(events, e, i);
        }
        if exists i :: EnvelopeAt(events, e, i) {
          var i :| EnvelopeAt(events, e, i);
          assert EnvelopeAt(front, e, i);
        }
      }
    }
  }

  /** The envelope reports neither an error nor a failure, and carries this output. */
  predicate Carries(e: Object, value: Json) {
    && !Raises(e, "is_error") && !Raises(e, "isError") && Hashable(Get(e, "subtype"))
    && Get(e, "subtype") != Str("error") && Get(e, "subtype") != Str("failure")
    && "structured_output" in e && e["structured_output"] == value
  }

  /** The stream is well formed and meets the protocol with these attempts, or has none. */
  ghost predicate Follows(events: seq<Json>, attempts: seq<Attempt>) {
    && AllWellFormed(events)
    && if attempts == [] then Silent(Tokens(events)) else Protocol(Tokens(events), attempts)
  }

  lemma FollowsExact(events: seq<Json>, attempts: seq<Attempt>)
    ensures Recognise(events) == Accepted(attempts) <==> Follows(events, attempts)
  {
    if attempts == [] { AcceptsSilence(events); } else { AcceptsExactlyTheProtocol(events, attempts); }
    hide Recognise, AllWellFormed, Silent, Protocol, Tokens;
  }

  /** The output is the input of the last attempt, if there is one. */
  predicate FinalInput(attempts: seq<Attempt>, value: Json) {
    attempts != [] ==> PyEqual(Get(attempts[|attempts| - 1].call.block, "input"), value)
  }

  lemma ParseEventsExact(events: seq<Json>, e: Object, value: Json, attempts: seq<Attempt>)
    requires Follows(events, attempts)
    ensures ParseEvents(events, Some(e)) == Output(value, attempts) <==>
              Carries(e, value) && FinalInput(attempts, value)
  {
    FollowsExact(events, attempts);
    FollowsObjects(events, attempts);
    hide Recognise, Follows, PyEqual, Hashable;
  }

  lemma OutputMeans(events: seq<Json>, value: Json, attempts: seq<Attempt>)
    requires ParseEnvelope(Arr(events)) == Output(value, attempts)
    ensures Follows(events, attempts) && FinalInput(attempts, value)
    ensures exists e, i :: EnvelopeAt(events, e, i) && Carries(e, value)
  {
    FollowsExact(events, attempts);
    var e := LastEnvelope(events).value;
    assert Recognise(events) == Accepted(attempts) && ParseEvents(events, Some(e)) == Output(value, attempts) by {
      hide Recognise, PyEqual, Hashable, LastEnvelope;
    }
    ParseEventsExact(events, e, value, attempts);
    LastEnvelopeExact(events, e);
    hide *;
  }

  /** An event array gives an output exactly when its stream follows the protocol, its last envelope carries that
      output without reporting an error, and the output is the input of the last attempt, if there is one. */
  lemma OutputExact(events: seq<Json>, value: Json, attempts: seq<Attempt>)
    ensures ParseEnvelope(Arr(events)) == Output(value, attempts) <==>
              && Follows(events, attempts) && (exists e, i :: EnvelopeAt(events, e, i) && Carries(e, value))
              && FinalInput(attempts, value)
  {
    if ParseEnvelope(Arr(events)) == Output(value, attempts) { OutputMeans(events, value, attempts); }
    if Follows(events, attempts) && FinalInput(attempts, value)
       && exists e, i :: EnvelopeAt(events, e, i) && Carries(e, value) {
      var e, i :| EnvelopeAt(events, e, i) && Carries(e, value);
      LastEnvelopeExact(events, e);
      ParseEventsExact(events, e, value, attempts);
      FollowsObjects(events, attempts);
      assert events != [] && LastEnvelope(events) == Some(e);
    }
    hide Follows, EnvelopeAt, LastEnvelope, ParseEvents, Carries, FinalInput;
  }

  lemma FollowsObjects(events: seq<Json>, attempts: seq<Attempt>)
    requires Follows(events, attempts)
    ensures forall i :: 0 <= i < |events| ==> events[i].Obj?
    ensures attempts != [] ==> attempts[|attempts| - 1].success
  {
    assert forall i :: 0 <= i < |events| ==> EventWellFormed(events[i]) && events[i].Obj?;
    hide Tokens, Silent;
  }
}
