/** The controller action journal: an action is admitted, interpreted and finished in separate steps, any of
    which a crash may cut off. Threads interleave freely here, with no lock between them. */
module ActionJournal {
  import opened Collections

  datatype Key = Key(controller: string, action: string)

  datatype Intent = Intent(triggerRef: string, fingerprint: Option<string>)

  datatype Request = Request(key: Key, hash: string, scope: string, open: Option<Intent>)

  /** A stored answer: what the interpreter produced, or the answer to a deduplicated open. */
  datatype Response = Interpreted(status: int, body: string) | OpenedBefore(action: string, session: string)

  datatype Phase = Processing | Completed(response: Response) | Indeterminate

  datatype Record = Record(hash: string, scope: string, open: Option<Intent>, phase: Phase, receivedAt: int)

  datatype Binding = Binding(controller: string, scope: string, intent: Intent, session: string, current: bool)

  /** The durable tables: actions, which scope owns a trigger, and the sessions opened for triggers. */
  datatype Store = Store(journal: map<Key, Record>, claims: map<(string, string), string>, bindings: seq<Binding>)

  const LEASE_MS := 5 * 60 * 1000

  /** Checks that read tables outside this model; `live` are the sessions not yet closed or aborted. */
  datatype Gate = Gate(admitted: bool, withinRate: bool, withinSessions: bool, live: set<string>)

  datatype Decision = NotAnOpen | Create | Supersede(session: string) | Deduplicate(session: string)

  datatype Start = Denied | Mismatch | Replay(response: Response) | Busy | Unknown | Started(decision: Decision)

  // ---- admission ----

  predicate CurrentFor(b: Binding, controller: string, triggerRef: string) {
    b.controller == controller && b.intent.triggerRef == triggerRef && b.current
  }

  function FindCurrent(bs: seq<Binding>, controller: string, triggerRef: string): (r: Option<Binding>)
    ensures r.Some? ==> r.value in bs && CurrentFor(r.value, controller, triggerRef)
    ensures r.None? ==> forall b :: b in bs ==> !CurrentFor(b, controller, triggerRef)
  {
    if bs == [] then None
    else if CurrentFor(bs[0], controller, triggerRef) then Some(bs[0])
    else FindCurrent(bs[1..], controller, triggerRef)
  }

  predicate SameFingerprint(a: Option<string>, b: Option<string>) {
    a.Some? && a == b
  }

  /** What an open action is admitted as, or none when its trigger belongs to another scope. */
  function DecideOpen(s: Store, controller: string, scope: string, intent: Intent,
                      live: set<string>): Option<Decision> {
    var trigger := (controller, intent.triggerRef);
    if trigger in s.claims && s.claims[trigger] != scope then None
    else
      var current := FindCurrent(s.bindings, controller, intent.triggerRef);
      if current.Some? && current.value.scope != scope then None
      else if current.Some? && current.value.session in live then
        if SameFingerprint(current.value.intent.fingerprint, intent.fingerprint)
           then Some(Deduplicate(current.value.session))
        else Some(Supersede(current.value.session))
      else Some(Create)
  }

  /** The admission transaction. */
  function Begin(s: Store, req: Request, now: int, gate: Gate): (Store, Start) {
    if !gate.admitted then (s, Denied)
    else if req.key in s.journal then
      var record := s.journal[req.key];
      if record.hash != req.hash then (s, Mismatch)
      else match record.phase
        case Completed(response) => (s, Replay(response))
        case Processing =>
          if now - record.receivedAt <= LEASE_MS then (s, Busy)
          else (s.(journal := s.journal[req.key := record.(phase := Indeterminate)]), Unknown)
        case Indeterminate => (s, Unknown)
    else if !gate.withinRate then (s, Denied)
    else
      var decision := if req.open.Some? then DecideOpen(s, req.key.controller, req.scope, req.open.value, gate.live)
                      else Some(NotAnOpen);
      if decision.None? || (decision.value.Create? && !gate.withinSessions) then (s, Denied)
      else
        var claims := if req.open.Some? then s.claims[(req.key.controller, req.open.value.triggerRef) := req.scope]
                      else s.claims;
        (Store(s.journal[req.key := Record(req.hash, req.scope, req.open, Processing, now)], claims, s.bindings),
         Started(decision.value))
  }

  // ---- completion ----

  function Retired(bs: seq<Binding>, controller: string, triggerRef: string): seq<Binding> {
    seq(|bs|, i requires 0 <= i < |bs| => if CurrentFor(bs[i], controller, triggerRef) then bs[i].(current := false)
        else bs[i])
  }

  predicate Binds(s: Store, key: Key, b: Binding) {
    && key in s.journal && s.journal[key].phase.Processing? && s.journal[key].open.Some?
    && b.controller == key.controller && b.scope == s.journal[key].scope && b.intent == s.journal[key].open.value
    && (key.controller, b.intent.triggerRef) in s.claims && s.claims[(key.controller, b.intent.triggerRef)] == b.scope
  }

  /** The completion transaction, or none when it refuses. */
  function Finish(s: Store, key: Key, response: Response, binding: Option<Binding>): Option<Store> {
    if binding.Some? && !Binds(s, key, binding.value) then None
    else if key !in s.journal || !s.journal[key].phase.Processing? then None
    else
      var bindings :=
        if binding.Some? then Retired(s.bindings, key.controller, binding.value.intent.triggerRef)
           + [binding.value.(current := true)]
        else s.bindings;
      Some(Store(s.journal[key := s.journal[key].(phase := Completed(response))], s.claims, bindings))
  }

  // ---- what a caller is told ----

  datatype Answer =
    | Reply(response: Response)
    | InProgress
    | OutcomeUnknown
    | DifferentRequest
    | Refused
    | Unavailable
    | PersistenceFailed

  datatype Status = NotFound | StillProcessing | UnknownOutcome | CompletedWith(response: Response)

  function StatusOf(s: Store, key: Key, scope: string, now: int): Status {
    if key !in s.journal || s.journal[key].scope != scope then NotFound
    else match s.journal[key].phase
      case Completed(response) => CompletedWith(response)
      case Indeterminate => UnknownOutcome
      case Processing => if now - s.journal[key].receivedAt > LEASE_MS then UnknownOutcome else StillProcessing
  }

  // ---- threads ----

  datatype Stage =
    | Arrived
    | Admitted(decision: Decision)
    | Accepted(decision: Decision)
    | Ran(response: Response, binding: Option<Binding>)
    | Over

  datatype Thread = Thread(req: Request, stage: Stage)

  datatype Event =
    | Began(thread: nat, key: Key, decision: Decision)
    | Executed(thread: nat, key: Key)
    | Answered(thread: nat, key: Key, answer: Answer)
    | Reported(key: Key, status: Status)

  datatype World = World(store: Store, threads: seq<Thread>, log: seq<Event>)

  const EMPTY := World(Store(map[], map[], []), [], [])

  /** `Die` is a crash as one thread sees it; a process crash is a `Die` of every thread. Flags that are false
      are store errors. */
  datatype Op =
    | Arrive(req: Request)
    | Admit(t: nat, now: int, gate: Gate, ok: bool)
    | Journal(t: nat, ok: bool)
    | Execute(t: nat, response: Response, session: Option<string>)
    | Complete(t: nat, ok: bool)
    | Die(t: nat)
    | Reconcile(key: Key, scope: string, now: int)

  function Moved(w: World, t: nat, stage: Stage, events: seq<Event>): World
    requires t < |w.threads|
  {
    w.(threads := w.threads[t := w.threads[t].(stage := stage)], log := w.log + events)
  }

  function Ended(w: World, t: nat, answer: Answer): World
    requires t < |w.threads|
  {
    Moved(w, t, Over, [Answered(t, w.threads[t].req.key, answer)])
  }

  function AdmitStep(w: World, t: nat, now: int, gate: Gate): World
    requires t < |w.threads|
  {
    var (store, start) := Begin(w.store, w.threads[t].req, now, gate);
    var w' := w.(store := store);
    match start
    case Denied => Ended(w', t, Refused)
    case Mismatch => Ended(w', t, DifferentRequest)
    case Replay(response) => Ended(w', t, Reply(response))
    case Busy => Ended(w', t, InProgress)
    case Unknown => Ended(w', t, OutcomeUnknown)
    case Started(decision) => Moved(w', t, Admitted(decision), [Began(t, w.threads[t].req.key, decision)])
  }

  /** A deduplicated open is answered without running anything. */
  function ExecuteStep(w: World, t: nat, response: Response, session: Option<string>): World
    requires t < |w.threads| && w.threads[t].stage.Accepted?
  {
    var req, decision := w.threads[t].req, w.threads[t].stage.decision;
    if decision.Deduplicate? then Moved(w, t, Ran(OpenedBefore(req.key.action, decision.session), None), [])
    else
      var binding := if req.open.Some? && session.Some?
                     then Some(Binding(req.key.controller, req.scope, req.open.value, session.value, true)) else None;
      Moved(w, t, Ran(response, binding), [Executed(t, req.key)])
  }

  function CompleteStep(w: World, t: nat, ok: bool): World
    requires t < |w.threads| && w.threads[t].stage.Ran?
  {
    var stage := w.threads[t].stage;
    var finished := Finish(w.store, w.threads[t].req.key, stage.response, stage.binding);
    if ok && finished.Some? then Ended(w.(store := finished.value), t, Reply(stage.response))
    else Ended(w, t, PersistenceFailed)
  }

  function Step(w: World, op: Op): World {
    match op
    case Arrive(req) => w.(threads := w.threads + [Thread(req, Arrived)])
    case Admit(t, now, gate, ok) =>
      if t < |w.threads| && w.threads[t].stage.Arrived? then
        if ok then AdmitStep(w, t, now, gate) else Ended(w, t, Unavailable)
      else w
    case Journal(t, ok) =>
      if t < |w.threads| && w.threads[t].stage.Admitted? then
        if ok then Moved(w, t, Accepted(w.threads[t].stage.decision), []) else Ended(w, t, Unavailable)
      else w
    case Execute(t, response, session) =>
      if t < |w.threads| && w.threads[t].stage.Accepted? then ExecuteStep(w, t, response, session) else w
    case Complete(t, ok) =>
      if t < |w.threads| && w.threads[t].stage.Ran? then CompleteStep(w, t, ok) else w
    case Die(t) => if t < |w.threads| then Moved(w, t, Over, []) else w
    case Reconcile(key, scope, now) => w.(log := w.log + [Reported(key, StatusOf(w.store, key, scope, now))])
  }

  function Run(w: World, ops: seq<Op>): World {
    if ops == [] then w else Step(Run(w, ops[..|ops| - 1]), ops[|ops| - 1])
  }
}
