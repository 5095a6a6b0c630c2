/** The connection hub: one stack of live connections per bot, newest last. The generation of a connection is
    drawn before the hub lock is taken, so stacks are not sorted by generation. */
module Hub {
  import opened Collections
  import opened Session

  datatype Conn = Conn(gen: nat, tx: nat)

  datatype Hub = Hub(stacks: map<Bot, seq<Conn>>, connSeq: nat, drawn: set<nat>)

  const EMPTY := Hub(map[], 0, {})

  function Stack(h: Hub, b: Bot): seq<Conn> {
    if b in h.stacks then h.stacks[b] else []
  }

  predicate Connected(h: Hub, b: Bot) {
    b in h.stacks
  }

  function Not(gen: nat): Conn -> bool {
    (c: Conn) => c.gen != gen
  }

  predicate Holds(stack: seq<Conn>, gen: nat) {
    exists k :: 0 <= k < |stack| && stack[k].gen == gen
  }

  function Pushed(h: Hub, b: Bot, c: Conn): Hub {
    h.(stacks := h.stacks[b := Stack(h, b) + [c]])
  }

  /** Removing a connection, and whether the bot is now fully offline. */
  function Removed(h: Hub, b: Bot, gen: nat): (Hub, bool) {
    if b !in h.stacks || !Holds(h.stacks[b], gen) then (h, false)
    else
      var left := Keep(h.stacks[b], Not(gen));
      if left == [] then (h.(stacks := h.stacks - {b}), true) else (h.(stacks := h.stacks[b := left]), false)
  }

  // ---- runs ----

  /** `Draw` takes the next generation; `Push` is the locked half of a registration, possibly much later. */
  datatype Op = Draw | Push(bot: Bot, gen: nat, tx: nat) | Unregister(bot: Bot, gen: nat)

  function Step(h: Hub, op: Op): Hub {
    match op
    case Draw => Hub(h.stacks, h.connSeq + 1, h.drawn + {h.connSeq})
    case Push(b, gen, tx) => if gen in h.drawn then Pushed(h.(drawn := h.drawn - {gen}), b, Conn(gen, tx)) else h
    case Unregister(b, gen) => Removed(h, b, gen).0
  }

  function Run(ops: seq<Op>): Hub {
    if ops == [] then EMPTY else Step(Run(ops[..|ops| - 1]), ops[|ops| - 1])
  }

  /** Step `i` of the run put a connection on the stack of `b`. */
  predicate Registers(ops: seq<Op>, i: nat, b: Bot) {
    i < |ops| && ops[i].Push? && ops[i].bot == b && ops[i].gen in Run(ops[..i]).drawn
  }

  /** The connection registered at step `i` has not been unregistered since. */
  predicate LiveAt(ops: seq<Op>, i: nat, b: Bot) {
    Registers(ops, i, b) && forall j :: i < j < |ops| ==> ops[j] != Unregister(b, ops[i].gen)
  }

  ghost predicate Live(ops: seq<Op>, b: Bot, gen: nat) {
    exists i: nat :: LiveAt(ops, i, b) && ops[i].gen == gen
  }

  predicate Increasing(s: seq<nat>) {
    forall i, j :: 0 <= i < j < |s| ==> s[i] < s[j]
  }

  function ConnAt(ops: seq<Op>, i: nat): Conn {
    if i < |ops| && ops[i].Push? then Conn(ops[i].gen, ops[i].tx) else Conn(0, 0)
  }

  /** `steps` lists exactly the live registrations of `b`, oldest first, and `stack` is what they pushed. */
  ghost predicate Explains(steps: seq<nat>, stack: seq<Conn>, ops: seq<Op>, b: Bot) {
    && Increasing(steps) && (forall i: nat :: i in steps <==> LiveAt(ops, i, b))
    && Mapped(steps, stack, ops)
  }

  ghost predicate NoEmptyStack(h: Hub) {
    forall b :: b in h.stacks ==> h.stacks[b] != []
  }

  lemma StepKeepsStacks(h: Hub, op: Op)
    requires NoEmptyStack(h)
    ensures NoEmptyStack(Step(h, op))
  {
  }

  lemma {:induction false} RunKeepsStacks(ops: seq<Op>)
    ensures NoEmptyStack(Run(ops))
  {
    if ops != [] {
      RunKeepsStacks(ops[..|ops| - 1]);
      StepKeepsStacks(Run(ops[..|ops| - 1]), ops[|ops| - 1]);
    }
  }

  // ---- generations are drawn once ----

  lemma {:induction false} DrawnBelow(ops: seq<Op>)
    ensures forall g :: g in Run(ops).drawn ==> g < Run(ops).connSeq
  {
    if ops != [] {
      DrawnBelow(ops[..|ops| - 1]);
    }
  }

  /** Once pushed, a generation never comes back. */
  lemma {:induction false} SpentGeneration(ops: seq<Op>, i: nat, b: Bot)
    requires Registers(ops, i, b)
    ensures ops[i].gen !in Run(ops).drawn && ops[i].gen < Run(ops).connSeq
  {
    var n := |ops| - 1;
    var front := ops[..n];
    DrawnBelow(front);
    if i < n {
      assert front[..i] == ops[..i];
      SpentGeneration(front, i, b);
    }
  }

  lemma UniqueGenerations(ops: seq<Op>, i: nat, j: nat, b: Bot, c: Bot)
    requires i < j && Registers(ops, i, b) && Registers(ops, j, c)
    ensures ops[i].gen != ops[j].gen
  {
    assert ops[..j][..i] == ops[..i];
    SpentGeneration(ops[..j], i, b);
  }

  // ---- the stack explained by the run ----

  function NotAt(ops: seq<Op>, gen: nat): nat -> bool {
    (i: nat) => ConnAt(ops, i).gen != gen
  }

  lemma {:induction false} KeepIncreasing(s: seq<nat>, p: nat -> bool)
    requires Increasing(s)
    ensures Increasing(Keep(s, p))
  {
    if s != [] {
      var front := s[..|s| - 1];
      KeepIncreasing(front, p);
      var rest, all := Keep(front, p), Keep(s, p);
      forall i, j | 0 <= i < j < |all| ensures all[i] < all[j] {
        if j == |rest| { assert rest[i] in rest; assert rest[i] in front; }
      }
    }
  }

  predicate Mapped(steps: seq<nat>, stack: seq<Conn>, ops: seq<Op>) {
    |stack| == |steps| && forall k :: 0 <= k < |stack| ==> stack[k] == ConnAt(ops, steps[k])
  }

  lemma MappedAppend(steps: seq<nat>, stack: seq<Conn>, ops: seq<Op>, i: nat)
    requires Mapped(steps, stack, ops)
    ensures Mapped(steps + [i], stack + [ConnAt(ops, i)], ops)
  {
  }

  lemma {:induction false} KeepMapped(steps: seq<nat>, stack: seq<Conn>, ops: seq<Op>, gen: nat)
    requires Mapped(steps, stack, ops)
    ensures Mapped(Keep(steps, NotAt(ops, gen)), Keep(stack, Not(gen)), ops)
  {
    if steps != [] {
      var n := |steps| - 1;
      assert Mapped(steps[..n], stack[..n], ops) && stack[n] == ConnAt(ops, steps[n]);
      KeepMapped(steps[..n], stack[..n], ops, gen);
      MappedAppend(Keep(steps[..n], NotAt(ops, gen)), Keep(stack[..n], Not(gen)), ops, steps[n]);
      hide Mapped, ConnAt;
    }
  }

  /** How one more step changes which registrations are live. */
  lemma LiveStep(ops: seq<Op>, op: Op, i: nat, b: Bot)
    ensures i < |ops| ==> (LiveAt(ops + [op], i, b) <==> LiveAt(ops, i, b) && op != Unregister(b, ConnAt(ops, i).gen))
    ensures i == |ops| ==> (LiveAt(ops + [op], i, b) <==> op.Push? && op.bot == b && op.gen in Run(ops).drawn)
  {
    var all := ops + [op];
    if i < |ops| {
      assert all[..i] == ops[..i];
      assert all[|ops|] == op;
      assert forall j :: i < j < |ops| ==> all[j] == ops[j];
    } else if i == |ops| {
      assert all[..i] == ops;
    }
  }

  lemma NoChange(steps: seq<nat>, stack: seq<Conn>, ops: seq<Op>, op: Op, b: Bot)
    requires Explains(steps, stack, ops, b)
    requires !(op.Push? && op.bot == b && op.gen in Run(ops).drawn)
    requires op.Unregister? && op.bot == b ==> !Holds(stack, op.gen)
    ensures Explains(steps, stack, ops + [op], b)
  {
    hide LiveAt, Run;
    forall i: nat ensures i in steps <==> LiveAt(ops + [op], i, b) {
      LiveStep(ops, op, i, b);
      if i > |ops| { assert !LiveAt(ops + [op], i, b)
                     && !LiveAt(ops, i, b) by { BeyondTheRun(ops, i, b); BeyondTheRun(ops + [op], i, b); } }
      if i == |ops| { BeyondTheRun(ops, i, b); }
      if i in steps { var k :| 0 <= k < |steps| && steps[k] == i; assert stack[k] == ConnAt(ops, i); }
    }
    forall k | 0 <= k < |stack| ensures stack[k] == ConnAt(ops + [op], steps[k]) {
      assert steps[k] in steps;
      if steps[k] >= |ops| { BeyondTheRun(ops, steps[k], b); }
    }
  }

  lemma BeyondTheRun(ops: seq<Op>, i: nat, b: Bot)
    ensures i >= |ops| ==> !LiveAt(ops, i, b)
  {
  }

  lemma Entered(steps: seq<nat>, stack: seq<Conn>, ops: seq<Op>, op: Op, b: Bot)
    requires Explains(steps, stack, ops, b)
    requires op.Push? && op.bot == b && op.gen in Run(ops).drawn
    ensures Explains(steps + [|ops|], stack + [Conn(op.gen, op.tx)], ops + [op], b)
  {
    hide LiveAt, Run;
    var more := steps + [|ops|];
    forall i: nat ensures i in more <==> LiveAt(ops + [op], i, b) {
      LiveStep(ops, op, i, b);
      BeyondTheRun(ops, i, b);
      BeyondTheRun(ops + [op], i, b);
    }
    forall k | 0 <= k < |steps| ensures steps[k] < |ops| && ConnAt(ops + [op], steps[k]) == ConnAt(ops, steps[k]) {
      assert steps[k] in steps;
      BeyondTheRun(ops, steps[k], b);
    }
  }

  lemma Left(steps: seq<nat>, stack: seq<Conn>, ops: seq<Op>, gen: nat, b: Bot)
    requires Explains(steps, stack, ops, b)
    ensures Explains(Keep(steps, NotAt(ops, gen)), Keep(stack, Not(gen)), ops + [Unregister(b, gen)], b)
  {
    hide LiveAt, Run;
    var op := Unregister(b, gen);
    var s := Keep(steps, NotAt(ops, gen));
    KeepIncreasing(steps, NotAt(ops, gen));
    KeepMapped(steps, stack, ops, gen);
    forall i: nat ensures i in s <==> LiveAt(ops + [op], i, b) {
      LiveStep(ops, op, i, b);
      BeyondTheRun(ops, i, b);
      BeyondTheRun(ops + [op], i, b);
    }
    forall k | 0 <= k < |s| ensures ConnAt(ops + [op], s[k]) == ConnAt(ops, s[k]) {
      assert s[k] in s && s[k] in steps;
      BeyondTheRun(ops, s[k], b);
    }
  }

  /** Over every run, a bot's stack holds exactly its live registrations in the order they were pushed. */
  lemma {:induction false} StackExplained(ops: seq<Op>, b: Bot) returns (steps: seq<nat>)
    ensures Explains(steps, Stack(Run(ops), b), ops, b)
  {
    if ops == [] {
      return [];
    }
    var front, op := ops[..|ops| - 1], ops[|ops| - 1];
    assert front + [op] == ops;
    steps := StackExplained(front, b);
    var stack := Stack(Run(front), b);
    hide Explains;
    if op.Push? && op.bot == b && op.gen in Run(front).drawn {
      Entered(steps, stack, front, op, b);
      return steps + [|front|];
    } else if op.Unregister? && op.bot == b && Holds(stack, op.gen) {
      Left(steps, stack, front, op.gen, b);
      return Keep(steps, NotAt(front, op.gen));
    } else {
      NoChange(steps, stack, front, op, b);
    }
  }

  /** What a run leaves behind: a bot is connected exactly when some registration is live, no empty stack is
      stored, the connection sends go to is the most recently registered live one, and unregistering answers
      true exactly when it takes the bot from one live connection to none. */
  lemma HubSafety(ops: seq<Op>, b: Bot, gen: nat)
    ensures NoEmptyStack(Run(ops))
    ensures Connected(Run(ops), b) <==> exists g :: Live(ops, b, g)
    ensures Connected(Run(ops), b) ==>
              exists i: nat :: LiveAt(ops, i, b) && (forall j: nat :: LiveAt(ops, j, b) ==> j <= i)
                          && Stack(Run(ops), b)[|Stack(Run(ops), b)| - 1] == ConnAt(ops, i)
    ensures Removed(Run(ops), b, gen).1 <==> Live(ops, b, gen) && forall g :: Live(ops, b, g) ==> g == gen
    ensures Removed(Run(ops), b, gen).1 ==> |Stack(Run(ops), b)| == 1
  {
    hide Run, LiveAt, Live, Explains, Keep, Holds, ConnAt;
    var steps := StackExplained(ops, b);
    var stack := Stack(Run(ops), b);
    RunKeepsStacks(ops);
    LastIsLatest(ops, b, steps, stack);
    OfflineMeansLast(ops, b, steps, stack, gen);
    RemovedMeans(Run(ops), b, gen);
  }

  lemma RemovedMeans(h: Hub, b: Bot, gen: nat)
    ensures Removed(h, b, gen).1 <==> Holds(Stack(h, b), gen) && Keep(Stack(h, b), Not(gen)) == []
  {
  }

  /** The last of a non-empty stack is the latest live registration. */
  lemma LastIsLatest(ops: seq<Op>, b: Bot, steps: seq<nat>, stack: seq<Conn>)
    requires Explains(steps, stack, ops, b)
    ensures stack != [] <==> exists g :: Live(ops, b, g)
    ensures stack != [] ==>
              exists i: nat :: LiveAt(ops, i, b) && (forall j: nat :: LiveAt(ops, j, b) ==> j <= i)
                               && stack[|stack| - 1] == ConnAt(ops, i)
  {
    LiveIsHeld(ops, b, steps, stack);
    hide LiveAt, Live;
    if stack != [] {
      var i := steps[|steps| - 1];
      assert i in steps && LiveAt(ops, i, b);
      assert forall j: nat :: LiveAt(ops, j, b) ==> j in steps && j <= i;
      assert Holds(stack, stack[0].gen);
    }
  }

  lemma OfflineMeansLast(ops: seq<Op>, b: Bot, steps: seq<nat>, stack: seq<Conn>, gen: nat)
    requires Explains(steps, stack, ops, b)
    ensures Holds(stack, gen) && Keep(stack, Not(gen)) == [] <==> Live(ops, b, gen) && forall g :: Live(ops, b, g) ==>
              g == gen
    ensures Holds(stack, gen) && Keep(stack, Not(gen)) == [] ==> |stack| == 1
  {
    LiveIsHeld(ops, b, steps, stack);
    hide Live, Explains;
    if Holds(stack, gen) && Keep(stack, Not(gen)) == [] {
      OneLeft(ops, b, steps, stack, gen);
    }
    if Live(ops, b, gen) && forall g :: Live(ops, b, g) ==> g == gen {
      forall c | c in stack ensures !Not(gen)(c) {
        var k :| 0 <= k < |stack| && stack[k] == c;
        assert Holds(stack, c.gen);
      }
      KeepNone(stack, Not(gen));
    }
  }

  lemma LiveIsHeld(ops: seq<Op>, b: Bot, steps: seq<nat>, stack: seq<Conn>)
    requires Explains(steps, stack, ops, b)
    ensures forall g :: Live(ops, b, g) <==> Holds(stack, g)
  {
    forall g ensures Live(ops, b, g) <==> Holds(stack, g) {
      if Live(ops, b, g) {
        var i: nat :| LiveAt(ops, i, b) && ops[i].gen == g;
        var k :| 0 <= k < |steps| && steps[k] == i;
        assert stack[k].gen == g;
      }
      if Holds(stack, g) {
        var k :| 0 <= k < |stack| && stack[k].gen == g;
        assert LiveAt(ops, steps[k], b);
      }
    }
  }

  lemma OneLeft(ops: seq<Op>, b: Bot, steps: seq<nat>, stack: seq<Conn>, gen: nat)
    requires Explains(steps, stack, ops, b) && stack != [] && Keep(stack, Not(gen)) == []
    ensures |stack| == 1 && forall g :: Holds(stack, g) ==> g == gen
  {
    forall c | c in stack ensures c.gen == gen {
      assert c !in Keep(stack, Not(gen));
    }
    if |stack| > 1 {
      assert LiveAt(ops, steps[0], b) && LiveAt(ops, steps[1], b);
      assert stack[0] in stack && stack[1] in stack;
      UniqueGenerations(ops, steps[0], steps[1], b, b);
    }
  }

  /** Two registrations whose generations were drawn in one order and pushed in the other. */
  function Crossed(b: Bot): seq<Op> {
    [Draw] + [Draw] + [Push(b, 1, 10)] + [Push(b, 0, 20)]
  }

  lemma RunMore(ops: seq<Op>, op: Op)
    ensures Run(ops + [op]) == Step(Run(ops), op)
  {
    assert (ops + [op])[..|ops|] == ops;
  }

  /** Stacks are not sorted by generation: the connection on top, which sends go to, may be the older one. */
  lemma StacksAreNotSorted(b: Bot)
    ensures Stack(Run(Crossed(b)), b) == [Conn(1, 10), Conn(0, 20)]
  {
    assert [] + [Draw] == [Draw];
    RunMore([], Draw);
    RunMore([Draw], Draw);
    RunMore([Draw] + [Draw], Push(b, 1, 10));
    RunMore([Draw] + [Draw] + [Push(b, 1, 10)], Push(b, 0, 20));
    assert Run([]) == EMPTY;
    hide Run;
  }
}
