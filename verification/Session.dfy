/** The quorum rule and the roster checks every council run starts from. */
module Session {
  import opened Collections

  datatype Bot = Bot(id: string)

  datatype Phase = Open | Deliberating | Quorum | Closed | Aborted

  function NotChair(chair: Option<Bot>): Bot -> bool {
    (b: Bot) => Some(b) != chair
  }

  function AmongThose(bots: seq<Bot>): Bot -> bool {
    (b: Bot) => b in bots
  }

  function Other(bot: Bot): Bot -> bool {
    (b: Bot) => b != bot
  }

  function Reviewers(roster: seq<Bot>, chair: Option<Bot>): seq<Bot> {
    Keep(roster, NotChair(chair))
  }

  predicate QuorumReached(roster: seq<Bot>, chair: Option<Bot>, done: seq<Bot>, quorumN: int) {
    |Keep(Reviewers(roster, chair), AmongThose(done))| >= quorumN
  }

  /** The members a quorum is about, as a set: rostered, not the chair, signalled done. */
  function CountedReviewers(roster: seq<Bot>, chair: Option<Bot>, done: seq<Bot>): set<Bot> {
    set b | b in roster && Some(b) != chair && b in done
  }

  lemma QuorumCountsDistinctReviewers(roster: seq<Bot>, chair: Option<Bot>, done: seq<Bot>, quorumN: int)
    requires Distinct(roster)
    ensures |Keep(Reviewers(roster, chair), AmongThose(done))| == |CountedReviewers(roster, chair, done)|
    ensures QuorumReached(roster, chair, done, quorumN) <==> |CountedReviewers(roster, chair, done)| >= quorumN
  {
    KeepDistinct(roster, NotChair(chair));
    KeepCount(Reviewers(roster, chair), AmongThose(done));
    assert Elements(Keep(Reviewers(roster, chair), AmongThose(done))) == CountedReviewers(roster, chair, done);
  }

  /** The evidence sent to the controller counts voters who are reviewers, not reviewers who are voters. */
  datatype ReviewerCompletion = ReviewerCompletion(required: int, valid: int)

  function Completion(roster: seq<Bot>, chair: Option<Bot>, counted: seq<Bot>, quorumN: int): ReviewerCompletion {
    var rostered := Reviewers(roster, chair);
    ReviewerCompletion(quorumN, |Keep(counted, AmongThose(rostered))|)
  }

  /** Counting over voters and counting over reviewers agree, so the evidence meets its own
      requirement exactly when the kernel saw a quorum. */
  lemma CompletionMatchesQuorum(roster: seq<Bot>, chair: Option<Bot>, counted: seq<Bot>, quorumN: int)
    requires Distinct(roster) && Distinct(counted)
    ensures Completion(roster, chair, counted, quorumN).valid == |CountedReviewers(roster, chair, counted)|
    ensures Completion(roster, chair, counted, quorumN).valid >= Completion(roster, chair, counted, quorumN).required
            <==> QuorumReached(roster, chair, counted, quorumN)
  {
    var rostered := Reviewers(roster, chair);
    KeepCount(counted, AmongThose(rostered));
    assert Elements(Keep(counted, AmongThose(rostered))) == CountedReviewers(roster, chair, counted);
    QuorumCountsDistinctReviewers(roster, chair, counted, quorumN);
  }

  /** Removing a reviewer that is not counted leaves the counted set as it was. */
  lemma TrimKeepsCount(roster: seq<Bot>, chair: Option<Bot>, counted: seq<Bot>, bot: Bot)
    requires Distinct(roster) && bot !in counted
    ensures CountedReviewers(Keep(roster, Other(bot)), chair, counted)
            == CountedReviewers(roster, chair, counted)
    ensures forall n :: QuorumReached(roster, chair, counted, n) ==>
              QuorumReached(Keep(roster, Other(bot)), chair, counted, n)
  {
    var trimmed := Keep(roster, Other(bot));
    KeepDistinct(roster, Other(bot));
    assert CountedReviewers(trimmed, chair, counted) == CountedReviewers(roster, chair, counted);
    forall n ensures QuorumReached(roster, chair, counted, n) ==> QuorumReached(trimmed, chair, counted, n) {
      QuorumCountsDistinctReviewers(roster, chair, counted, n);
      QuorumCountsDistinctReviewers(trimmed, chair, counted, n);
    }
  }

  datatype OpenError =
    | EmptyRoster | NegativeQuorum | UnknownMode | ChairNotInRoster | QuorumExceedsReviewers
    | DuplicateBot(bot: Bot) | UnknownBot(bot: Bot) | ForeignInput | EmptyInput | MissingFallback

  datatype OpenResult = Opened | Rejected(error: OpenError)

  /** The recipient inputs, with only what the checks look at: who, and whether the trimmed text is empty. */
  datatype OpenRequest = OpenRequest(
    roster: seq<Bot>, quorumN: int, mode: string, chair: Option<Bot>,
    inputs: seq<(Bot, bool)>, promptBlank: bool)

  const KNOWN_MODES: set<string> := {"council", "triage_council", "solo", "pipeline"}

  /** What an accepted request guarantees and nothing else: the checks as one conjunction. */
  ghost predicate Acceptable(r: OpenRequest, registered: set<Bot>) {
    && r.roster != [] && Distinct(r.roster) && (forall b :: b in r.roster ==> b in registered)
    && 0 <= r.quorumN <= |Reviewers(r.roster, r.chair)|
    && r.mode in KNOWN_MODES
    && (r.chair.Some? ==> r.chair.value in r.roster)
    && (forall i :: 0 <= i < |r.inputs| ==> r.inputs[i].0 in r.roster && !r.inputs[i].1)
    && (r.inputs != [] && r.promptBlank ==> forall b :: b in r.roster ==> HasInput(r.inputs, b))
  }

  predicate HasInput(inputs: seq<(Bot, bool)>, bot: Bot) {
    exists i :: 0 <= i < |inputs| && inputs[i].0 == bot
  }

  /** The checks in the order they are made: the request itself, its roster, its inputs. */
  predicate HeaderOk(r: OpenRequest) {
    && r.roster != [] && 0 <= r.quorumN <= |Reviewers(r.roster, r.chair)| && r.mode in KNOWN_MODES
    && (r.chair.Some? ==> r.chair.value in r.roster)
  }

  /** The first `n` members are registered and named once. */
  ghost predicate RosterOk(r: OpenRequest, registered: set<Bot>, n: int)
    requires 0 <= n <= |r.roster|
  {
    Distinct(r.roster[..n]) && forall i :: 0 <= i < n ==> r.roster[i] in registered
  }

  ghost predicate InputsOk(r: OpenRequest, n: int)
    requires 0 <= n <= |r.inputs|
  {
    forall i :: 0 <= i < n ==> r.inputs[i].0 in r.roster && !r.inputs[i].1
  }

  ghost predicate Uncovered(r: OpenRequest) {
    r.inputs != [] && r.promptBlank && exists b :: b in r.roster && !HasInput(r.inputs, b)
  }

  /** The first check that fails is the one the error names. */
  ghost predicate Because(r: OpenRequest, registered: set<Bot>, error: OpenError) {
    var seated := r.chair.Some? ==> r.chair.value in r.roster;
    match error
    case EmptyRoster => r.roster == []
    case NegativeQuorum => r.roster != [] && r.quorumN < 0
    case UnknownMode => r.roster != [] && r.quorumN >= 0 && r.mode !in KNOWN_MODES
    case ChairNotInRoster => r.roster != [] && r.quorumN >= 0 && r.mode in KNOWN_MODES && !seated
    case QuorumExceedsReviewers =>
      r.roster != [] && r.mode in KNOWN_MODES && seated && r.quorumN > |Reviewers(r.roster, r.chair)|
    case DuplicateBot(b) => HeaderOk(r) && exists j :: RepeatsAt(r, registered, b, j)
    case UnknownBot(b) => HeaderOk(r) && exists j :: StrangerAt(r, registered, b, j)
    case ForeignInput => HeaderOk(r) && RosterOk(r, registered, |r.roster|) && exists i :: ForeignAt(r, i)
    case EmptyInput => HeaderOk(r) && RosterOk(r, registered, |r.roster|) && exists i :: EmptyAt(r, i)
    case MissingFallback =>
      HeaderOk(r) && RosterOk(r, registered, |r.roster|) && InputsOk(r, |r.inputs|) && Uncovered(r)
  }

  ghost predicate RepeatsAt(r: OpenRequest, registered: set<Bot>, b: Bot, j: int) {
    0 <= j < |r.roster| && RosterOk(r, registered, j) && r.roster[j] == b && b in r.roster[..j]
  }

  ghost predicate StrangerAt(r: OpenRequest, registered: set<Bot>, b: Bot, j: int) {
    0 <= j < |r.roster| && RosterOk(r, registered, j) && r.roster[j] == b && b !in r.roster[..j] && b !in registered
  }

  ghost predicate ForeignAt(r: OpenRequest, i: int) {
    0 <= i < |r.inputs| && InputsOk(r, i) && r.inputs[i].0 !in r.roster
  }

  ghost predicate EmptyAt(r: OpenRequest, i: int) {
    0 <= i < |r.inputs| && InputsOk(r, i) && r.inputs[i].0 in r.roster && r.inputs[i].1
  }

  method CheckHeader(r: OpenRequest) returns (error: Option<OpenError>)
    ensures error.None? <==> HeaderOk(r)
    ensures error.Some? ==> forall registered :: Because(r, registered, error.value)
  {
    hide Reviewers;
    if r.roster == [] { return Some(EmptyRoster); }
    if r.quorumN < 0 { return Some(NegativeQuorum); }
    if r.mode !in KNOWN_MODES { return Some(UnknownMode); }
    if r.chair.Some? && r.chair.value !in r.roster { return Some(ChairNotInRoster); }
    if r.quorumN > |Reviewers(r.roster, r.chair)| { return Some(QuorumExceedsReviewers); }
    return None;
  }

  method CheckRoster(r: OpenRequest, registered: set<Bot>) returns (error: Option<OpenError>)
    requires HeaderOk(r)
    ensures error.None? <==> RosterOk(r, registered, |r.roster|)
    ensures error.Some? ==> Because(r, registered, error.value)
  {
    hide HeaderOk;
    var unique: set<Bot> := {};
    for i := 0 to |r.roster|
      invariant forall b :: b in unique <==> b in r.roster[..i]
      invariant RosterOk(r, registered, i)
    {
      var bot := r.roster[i];
      if bot in unique {
        assert RepeatsAt(r, registered, bot, i);
        return Some(DuplicateBot(bot));
      }
      unique := unique + {bot};
      if bot !in registered {
        assert StrangerAt(r, registered, bot, i);
        return Some(UnknownBot(bot));
      }
    }
    return None;
  }

  method CheckInputs(r: OpenRequest, ghost registered: set<Bot>) returns (error: Option<OpenError>)
    requires HeaderOk(r) && RosterOk(r, registered, |r.roster|)
    ensures error.None? <==> InputsOk(r, |r.inputs|) && !Uncovered(r)
    ensures error.Some? ==> Because(r, registered, error.value)
  {
    hide HeaderOk, RosterOk;
    for i := 0 to |r.inputs|
      invariant InputsOk(r, i)
    {
      if r.inputs[i].0 !in r.roster {
        assert ForeignAt(r, i);
        return Some(ForeignInput);
      }
      if r.inputs[i].1 {
        assert EmptyAt(r, i);
        return Some(EmptyInput);
      }
    }
    if r.inputs != [] && r.promptBlank && exists b :: b in r.roster && !HasInput(r.inputs, b) {
      return Some(MissingFallback);
    }
    return None;
  }

  /** Accepted exactly when every check passes; otherwise the error is that of the first one that does not. */
  method ValidateOpenSession(r: OpenRequest, registered: set<Bot>) returns (result: OpenResult)
    ensures result.Opened? <==> Acceptable(r, registered)
    ensures result.Rejected? ==> Because(r, registered, result.error)
  {
    AcceptableMeans(r, registered);
    hide HeaderOk, RosterOk, InputsOk, Uncovered, Because, Acceptable;
    var error := CheckHeader(r);
    if error.Some? { return Rejected(error.value); }
    error := CheckRoster(r, registered);
    if error.Some? { return Rejected(error.value); }
    error := CheckInputs(r, registered);
    if error.Some? { return Rejected(error.value); }
    return Opened;
  }

  lemma AcceptableMeans(r: OpenRequest, registered: set<Bot>)
    ensures Acceptable(r, registered) <==>
              HeaderOk(r) && RosterOk(r, registered, |r.roster|) && InputsOk(r, |r.inputs|) && !Uncovered(r)
  {
    assert r.roster[..|r.roster|] == r.roster;
    assert (forall b :: b in r.roster ==> b in registered) <==>
           (forall i :: 0 <= i < |r.roster| ==> r.roster[i] in registered);
  }

  /** Every accepted council can converge: once all its reviewers are counted, quorum holds. */
  lemma QuorumReachable(r: OpenRequest, registered: set<Bot>, done: seq<Bot>)
    requires Acceptable(r, registered)
    requires forall b :: b in Reviewers(r.roster, r.chair) ==> b in done
    ensures QuorumReached(r.roster, r.chair, done, r.quorumN)
  {
    KeepAll(Reviewers(r.roster, r.chair), AmongThose(done));
  }
}
