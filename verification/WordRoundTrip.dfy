/** A word stored in memory and returned comes back, through the whole compiler. */
module WordRoundTrip {
  import opened Primitives
  import opened Programs
  import opened Parsing
  import opened Memories
  import opened Results
  import opened Interpreter
  import opened Specification
  import opened Departures
  import Codegen
  import Compilation
  import Target

  /** PUSH32 v, PUSH32 o, MSTORE, PUSH1 32, PUSH32 o, and RETURN or REVERT. */
  function StoreAndLeave(v: U256, o: U256, leave: Byte): Bytecode {
    [0x7f] + ToBytes(v, 32) + [0x7f] + ToBytes(o, 32) + [0x52, 0x60, 0x20, 0x7f] + ToBytes(o, 32) + [leave]
  }

  /** Its layout. */
  ghost predicate IsStoreAndLeave(code: Bytecode, v: U256, o: U256, leave: Byte) {
    && |code| == 103 && code[0] == 0x7f && code[33] == 0x7f && code[66] == 0x52 && code[67] == 0x60
    && code[68] == 0x20 && code[69] == 0x7f && code[102] == leave
    && code[1..33] == ToBytes(v, 32) && code[34..66] == ToBytes(o, 32) && code[70..102] == ToBytes(o, 32)
  }

  lemma Layout(v: U256, o: U256, leave: Byte)
    ensures IsStoreAndLeave(StoreAndLeave(v, o, leave), v, o, leave)
  {
    var code := StoreAndLeave(v, o, leave);
    assert code[1..33] == ToBytes(v, 32);
    assert code[34..66] == ToBytes(o, 32);
    assert code[70..102] == ToBytes(o, 32);
  }

  lemma Push32At(code: Bytecode, pc: nat, v: U256)
    requires pc + 33 <= |code| && code[pc] == 0x7f && code[pc + 1..pc + 33] == ToBytes(v, 32)
    ensures OneOp(code, pc) == Parsed(Push(32, v), pc + 33) && NextPosition(pc, code[pc]) == pc + 33
  {
    Pow256Of32();
    BytesRoundTrip(v, 32);
  }

  lemma Parses(code: Bytecode, v: U256, o: U256, leave: Byte)
    requires IsStoreAndLeave(code, v, o, leave) && (leave == 0xf3 || leave == 0xfd)
    ensures OneOp(code, 0) == Parsed(Push(32, v), 33) && OneOp(code, 33) == Parsed(Push(32, o), 66)
    ensures OneOp(code, 66) == Parsed(Basic(MSTORE), 67) && OneOp(code, 67) == Parsed(Push(1, 32), 69)
    ensures OneOp(code, 69) == Parsed(Push(32, o), 102) && OneOp(code, 102) == Parsed(Basic(leave), 103)
    ensures Positions(code, 0) == {0, 33, 66, 67, 69, 102} && CoreCode(code)
  {
    Push32At(code, 0, v);
    Push32At(code, 33, o);
    Push32At(code, 69, o);
    assert code[68..69] == [0x20];
    OneByte(0x20);
    LayoutPositions(code, leave);
  }

  lemma LayoutPositions(code: Bytecode, leave: Byte)
    requires |code| == 103 && code[0] == 0x7f && code[33] == 0x7f && code[66] == 0x52 && code[67] == 0x60
    requires code[69] == 0x7f && code[102] == leave && (leave == 0xf3 || leave == 0xfd)
    ensures Positions(code, 0) == {0, 33, 66, 67, 69, 102}
  {
    assert Positions(code, 103) == {};
    assert Positions(code, 102) == {102} + Positions(code, 103);
    assert Positions(code, 69) == {69} + Positions(code, 102);
    assert Positions(code, 67) == {67} + Positions(code, 69);
    assert Positions(code, 66) == {66} + Positions(code, 67);
    assert Positions(code, 33) == {33} + Positions(code, 66);
    assert Positions(code, 0) == {0} + Positions(code, 33);
  }

  /** The gas the program uses: five instructions of 3, and memory of `w` words. */
  function Price(o: U256): nat {
    var w := (o + 63) / 32;
    15 + 3 * w + w * w / 512
  }

  // ----- The two instructions that use memory -----

  lemma WordOfMemory(o: nat, v: U256) returns (expanded: Memory, memory: Memory)
    requires o < TWO_31
    ensures expanded == Expanded([], o + 32) && o + 32 <= |expanded| && ExpansionGas([], o + 32) == Price(o) - 15
    ensures memory == Overwritten(expanded, o, ToBytes(v, 32))
    ensures Aligned(memory) && o + 32 <= |memory| && memory[o..o + 32] == ToBytes(v, 32)
  {
    expanded := Expanded([], o + 32);
    RoundUpIsExact(o + 32);
    ExpansionFacts([], o + 32);
    assert |expanded| / 32 == (o + 63) / 32;
    assert WordsCost(0) == 0;
    memory := Overwritten(expanded, o, ToBytes(v, 32));
    assert memory[o..o + 32] == ToBytes(v, 32);
  }

  lemma RangeOf(op: Operation, s: State, o: nat, n: nat)
    requires op.Basic? && TouchesMemory(op) && |s.stack| >= 2 && Top(s, 0) == o < TWO_31 && n <= 32
    requires Length(op, s) == n
    ensures Offset(s) == o && Required(op, s) == o + n
  {
  }

  lemma StoreStep(code: Bytecode, next: nat, v: U256, o: U256, gas: nat) returns (memory: Memory)
    requires o < TWO_31 && Price(o) - 12 <= gas <= I64_MAX
    ensures StepOp(code, Basic(MSTORE), next, State([v, o], gas, [])) ==
            Running(next, State([], gas - (Price(o) - 12), memory))
    ensures Right(Basic(MSTORE), State([v, o], gas, []))
    ensures Aligned(memory) && o + 32 <= |memory| && memory[o..o + 32] == ToBytes(v, 32)
  {
    var op, s := Basic(MSTORE), State([v, o], gas, []);
    var expanded;
    expanded, memory := WordOfMemory(o, v);
    RangeOf(op, s, o, 32);
    assert Paid(op, s) == State([v, o], gas - (Price(o) - 12), expanded);
    StoreAccess(next, v, o, gas - (Price(o) - 12), expanded, memory);
    assert StepOp(code, op, next, s) == AccessMemory(MSTORE, next, Paid(op, s));
  }

  lemma StoreAccess(next: nat, v: U256, o: U256, gas: nat, expanded: Memory, memory: Memory)
    requires o < TWO_31 && o + 32 <= |expanded| && memory == Overwritten(expanded, o, ToBytes(v, 32))
    ensures AccessMemory(MSTORE, next, State([v, o], gas, expanded)) == Running(next, State([], gas, memory))
  {
    var s := State([v, o], gas, expanded);
    RangeOf(Basic(MSTORE), s, o, 32);
    assert Drop(s.stack, 2) == [];
  }

  lemma LeaveStep(code: Bytecode, next: nat, o: U256, gas: nat, memory: Memory, leave: Byte)
    requires leave == 0xf3 || leave == 0xfd
    requires o < TWO_31 && gas <= I64_MAX && Aligned(memory) && o + 32 <= |memory|
    ensures Right(Basic(leave), State([32, o], gas, memory))
    ensures StepOp(code, Basic(leave), next, State([32, o], gas, memory)) ==
            Halted(Result(if leave == 0xf3 then ReturnStatus else RevertStatus, gas, memory[o..o + 32]))
  {
    var op, s := Basic(leave), State([32, o], gas, memory);
    RangeOf(op, s, o, 32);
    NoGrowth(memory, o + 32);
    assert Paid(op, s) == s;
    assert StepOp(code, op, next, s) == Execute(code, op, next, s);
  }

  lemma NoGrowth(memory: Memory, end: nat)
    requires Aligned(memory) && end <= |memory|
    ensures Expanded(memory, end) == memory && ExpansionGas(memory, end) == 0
  {
    RoundUpIsExact(end);
    CeilBound(end, |memory| / 32);
  }

  lemma CeilBound(end: nat, words: nat)
    requires end <= 32 * words
    ensures 32 * Ceil32(end) <= 32 * words
  {
  }

  // ----- The run -----

  /** One step with right operands. */
  ghost predicate GoesOn(code: Bytecode, o: Outcome, o': Outcome)
    requires CoreCode(code)
  {
    o.Running? && Reachable(code, o) && RightOperands(code, o) && Step(code, o.pc, o.s) == o'
  }

  ghost predicate AllGoOn(code: Bytecode, run: seq<Outcome>)
    requires CoreCode(code)
  {
    forall i | 0 <= i < |run| - 1 :: GoesOn(code, run[i], run[i + 1])
  }

  lemma {:induction false} RunEndsAt(code: Bytecode, run: seq<Outcome>, k: nat, n: nat)
    requires CoreCode(code) && AllGoOn(code, run) && k < |run| && run[|run| - 1].Halted? && n >= |run| - 1 - k
    ensures Reachable(code, run[k]) && RightStacks(code, n, run[k]) && Interpret(code, n, run[k]) == run[|run| - 1]
    decreases |run| - k
  {
    if k < |run| - 1 {
      assert GoesOn(code, run[k], run[k + 1]);
      RunEndsAt(code, run, k + 1, n - 1);
    }
  }

  /** The operation `op` stands at `pc` and the next one at `next`. */
  ghost predicate Holds(code: Bytecode, pc: nat, op: Operation, next: nat) {
    pc < |code| && pc in Positions(code, 0) && OneOp(code, pc) == Parsed(op, next)
  }

  lemma OpGoesOn(code: Bytecode, pc: nat, op: Operation, next: nat, s: State, o': Outcome)
    requires CoreCode(code) && Holds(code, pc, op, next)
    requires Core(op) && Valid(op) && WellFormed(s) && Right(op, s) && StepOp(code, op, next, s) == o'
    ensures GoesOn(code, Running(pc, s), o')
  {
  }

  lemma PushIsRight(size: nat, value: nat, s: State)
    requires 1 <= size <= 32 && value < Pow256(size)
    ensures Valid(Push(size, value)) && Core(Push(size, value)) && Right(Push(size, value), s)
    ensures value < TWO_256
  {
    PushFits(Push(size, value));
  }

  lemma PushGoesOn(code: Bytecode, pc: nat, size: nat, value: nat, next: nat, s: State, s': State)
    requires CoreCode(code) && Holds(code, pc, Push(size, value), next) && 1 <= size <= 32 && value < Pow256(size)
    requires WellFormed(s) && |s.stack| < STACK_LIMIT && s.gas >= 3
    requires s'.stack == s.stack + [value % TWO_256] && s'.gas == s.gas - 3 && s'.memory == s.memory
    ensures GoesOn(code, Running(pc, s), Running(next, s'))
  {
    PushIsRight(size, value, s);
    PushOp(code, Push(size, value), next, s);
    OpGoesOn(code, pc, Push(size, value), next, s, Running(next, s'));
  }

  function Left(v: U256, leave: Byte, gas: nat): Outcome {
    Halted(Result(if leave == 0xf3 then ReturnStatus else RevertStatus, gas, ToBytes(v, 32)))
  }

  lemma StoreGoesOn(code: Bytecode, v: U256, o: U256, gas: nat) returns (memory: Memory)
    requires CoreCode(code) && Holds(code, 66, Basic(MSTORE), 67) && o < TWO_31 && Price(o) - 12 <= gas <= I64_MAX
    ensures GoesOn(code, Running(66, State([v, o], gas, [])),
                   Running(67, State([], gas - (Price(o) - 12), memory)))
    ensures Aligned(memory) && o + 32 <= |memory| && memory[o..o + 32] == ToBytes(v, 32)
  {
    memory := StoreStep(code, 67, v, o, gas);
    OpGoesOn(code, 66, Basic(MSTORE), 67, State([v, o], gas, []),
             Running(67, State([], gas - (Price(o) - 12), memory)));
  }

  lemma LeaveGoesOn(code: Bytecode, v: U256, o: U256, gas: nat, memory: Memory, leave: Byte)
    requires CoreCode(code) && Holds(code, 102, Basic(leave), 103) && (leave == 0xf3 || leave == 0xfd)
    requires o < TWO_31 && gas <= I64_MAX && Aligned(memory) && o + 32 <= |memory|
    requires memory[o..o + 32] == ToBytes(v, 32)
    ensures GoesOn(code, Running(102, State([32, o], gas, memory)), Left(v, leave, gas))
  {
    LeaveStep(code, 103, o, gas, memory, leave);
    OpGoesOn(code, 102, Basic(leave), 103, State([32, o], gas, memory), Left(v, leave, gas));
  }

  /** Where operations stand. */
  type Places = (nat, Operation, nat) -> bool

  type Link = (Outcome, Outcome) -> bool

  /** What stands in the places stands in the code, and a link holds wherever one step leads. */
  ghost predicate Scene(code: Bytecode, places: Places, link: Link) {
    && CoreCode(code)
    && (forall pc, op, next {:trigger Holds(code, pc, op, next)} :: places(pc, op, next) ==> Holds(code, pc, op, next))
    && (forall o, o' {:trigger GoesOn(code, o, o')} :: GoesOn(code, o, o') ==> link(o, o'))
  }

  /** The program, parsed. */
  ghost predicate Ready(places: Places, v: U256, o: U256, leave: Byte) {
    && places(0, Push(32, v), 33) && places(33, Push(32, o), 66) && places(66, Basic(MSTORE), 67)
    && places(67, Push(1, 32), 69) && places(69, Push(32, o), 102) && places(102, Basic(leave), 103)
  }

  lemma PushLinks(
    code: Bytecode, places: Places, link: Link, pc: nat, size: nat, value: U256, next: nat,
    before: seq<U256>, after: seq<U256>, gas: nat, memory: Memory)
    requires Scene(code, places, link) && places(pc, Push(size, value), next)
    requires 1 <= size <= 32 && value < Pow256(size) && |before| < STACK_LIMIT && after == before + [value]
    requires 3 <= gas <= I64_MAX && Aligned(memory)
    ensures link(Running(pc, State(before, gas, memory)), Running(next, State(after, gas - 3, memory)))
  {
    assert Holds(code, pc, Push(size, value), next);
    WordStays(value);
    PushGoesOn(code, pc, size, value, next, State(before, gas, memory), State(after, gas - 3, memory));
  }

  lemma WordStays(value: U256)
    ensures value % TWO_256 == value
  {
  }

  lemma StoreLinks(code: Bytecode, places: Places, link: Link, v: U256, o: U256, gas: nat) returns (memory: Memory)
    requires Scene(code, places, link) && places(66, Basic(MSTORE), 67)
    requires o < TWO_31 && Price(o) - 12 <= gas <= I64_MAX
    ensures link(Running(66, State([v, o], gas, [])), Running(67, State([], gas - (Price(o) - 12), memory)))
    ensures Aligned(memory) && o + 32 <= |memory| && memory[o..o + 32] == ToBytes(v, 32)
  {
    assert Holds(code, 66, Basic(MSTORE), 67);
    memory := StoreGoesOn(code, v, o, gas);
  }

  lemma LeaveLinks(
    code: Bytecode, places: Places, link: Link, v: U256, o: U256, gas: nat, memory: Memory, leave: Byte)
    requires Scene(code, places, link) && places(102, Basic(leave), 103)
    requires (leave == 0xf3 || leave == 0xfd) && o < TWO_31 && gas <= I64_MAX
    requires Aligned(memory) && o + 32 <= |memory| && memory[o..o + 32] == ToBytes(v, 32)
    ensures link(Running(102, State([32, o], gas, memory)), Left(v, leave, gas))
  {
    assert Holds(code, 102, Basic(leave), 103);
    LeaveGoesOn(code, v, o, gas, memory, leave);
  }

  lemma CourseLinks(
    code: Bytecode, places: Places, link: Link, v: U256, o: U256, leave: Byte, gas: nat, rest: nat, memory: Memory)
    returns (run: seq<Outcome>)
    requires Scene(code, places, link) && Ready(places, v, o, leave) && (leave == 0xf3 || leave == 0xfd)
    requires o < TWO_31 && 6 <= gas <= I64_MAX && 6 <= rest <= I64_MAX
    requires Aligned(memory) && o + 32 <= |memory| && memory[o..o + 32] == ToBytes(v, 32)
    requires link(Running(66, State([v, o], gas - 6, [])), Running(67, State([], rest, memory)))
    ensures |run| == 7 && run[0] == Running(0, State([], gas, [])) && run[6] == Left(v, leave, rest - 6)
    ensures forall i | 0 <= i < 6 :: link(run[i], run[i + 1])
  {
    Pow256Of32();
    PushLinks(code, places, link, 0, 32, v, 33, [], [v], gas, []);
    PushLinks(code, places, link, 33, 32, o, 66, [v], [v, o], gas - 3, []);
    PushLinks(code, places, link, 67, 1, 32, 69, [], [32], rest, memory);
    PushLinks(code, places, link, 69, 32, o, 102, [32], [32, o], rest - 3, memory);
    LeaveLinks(code, places, link, v, o, rest - 6, memory, leave);
    run := SevenLinked(link, Running(0, State([], gas, [])), Running(33, State([v], gas - 3, [])),
                       Running(66, State([v, o], gas - 6, [])), Running(67, State([], rest, memory)),
                       Running(69, State([32], rest - 3, memory)), Running(102, State([32, o], rest - 6, memory)),
                       Left(v, leave, rest - 6));
  }

  lemma PricedCourse(code: Bytecode, places: Places, link: Link, v: U256, o: U256, leave: Byte, gas: nat)
    returns (run: seq<Outcome>)
    requires Scene(code, places, link) && Ready(places, v, o, leave) && (leave == 0xf3 || leave == 0xfd)
    requires o < TWO_31 && Price(o) <= gas <= I64_MAX
    ensures |run| == 7 && run[0] == Running(0, State([], gas, [])) && run[6] == Left(v, leave, gas - Price(o))
    ensures forall i | 0 <= i < 6 :: link(run[i], run[i + 1])
  {
    var memory := StoreLinks(code, places, link, v, o, gas - 6);
    run := CourseLinks(code, places, link, v, o, leave, gas, gas - Price(o) + 6, memory);
  }

  lemma SevenLinked(link: Link, a: Outcome, b: Outcome, c: Outcome, d: Outcome, e: Outcome, f: Outcome, g: Outcome)
    returns (run: seq<Outcome>)
    requires link(a, b) && link(b, c) && link(c, d) && link(d, e) && link(e, f) && link(f, g)
    ensures |run| == 7 && run[0] == a && run[6] == g && forall i | 0 <= i < 6 :: link(run[i], run[i + 1])
  {
    run := [a, b, c, d, e, f, g];
  }

  ghost function PlacesIn(code: Bytecode): Places {
    (pc: nat, op: Operation, next: nat) => Holds(code, pc, op, next)
  }

  lemma CourseRuns(code: Bytecode, v: U256, o: U256, leave: Byte, gas: nat, n: nat)
    requires CoreCode(code) && Ready(PlacesIn(code), v, o, leave) && (leave == 0xf3 || leave == 0xfd)
    requires o < TWO_31 && Price(o) <= gas <= I64_MAX && n >= 6
    ensures var start := Running(0, State([], gas, []));
            && Reachable(code, start) && RightStacks(code, n, start)
            && Interpret(code, n, start) == Left(v, leave, gas - Price(o))
  {
    var link := (o: Outcome, o': Outcome) => GoesOn(code, o, o');
    var run := PricedCourse(code, PlacesIn(code), link, v, o, leave, gas);
    LinkedRuns(code, link, run, n);
  }

  lemma LinkedRuns(code: Bytecode, link: Link, run: seq<Outcome>, n: nat)
    requires CoreCode(code) && link == ((o: Outcome, o': Outcome) => GoesOn(code, o, o'))
    requires |run| == 7 && run[6].Halted? && n >= 6 && forall i | 0 <= i < 6 :: link(run[i], run[i + 1])
    ensures Reachable(code, run[0]) && RightStacks(code, n, run[0]) && Interpret(code, n, run[0]) == run[6]
  {
    forall i | 0 <= i < |run| - 1
      ensures GoesOn(code, run[i], run[i + 1])
    {
      assert link(run[i], run[i + 1]);
    }
    RunEndsAt(code, run, 0, n);
  }

  lemma IsReady(v: U256, o: U256, leave: Byte)
    requires leave == 0xf3 || leave == 0xfd
    ensures var code := StoreAndLeave(v, o, leave); CoreCode(code) && Ready(PlacesIn(code), v, o, leave)
  {
    Layout(v, o, leave);
    Parses(StoreAndLeave(v, o, leave), v, o, leave);
  }

  lemma Specifies(code: Bytecode, v: U256, o: U256, leave: Byte, gas: nat)
    requires CoreCode(code) && Ready(PlacesIn(code), v, o, leave)
    requires (leave == 0xf3 || leave == 0xfd) && o < TWO_31 && Price(o) <= gas <= I64_MAX
    ensures Reachable(code, Compilation.Start(gas)) && RightStacks(code, gas + 1, Compilation.Start(gas))
    ensures SpecifiedRun(code, gas + 1, Compilation.Start(gas)) == Left(v, leave, gas - Price(o))
  {
    var n, start := gas + 1, Compilation.Start(gas);
    CourseRuns(code, v, o, leave, gas, n);
    EndsAsSpecified(code, n, start, Left(v, leave, gas - Price(o)));
  }

  lemma EndsAsSpecified(code: Bytecode, n: nat, start: Outcome, end: Outcome)
    requires CoreCode(code) && Reachable(code, start) && start.Running? && start.s.gas < n
    requires RightStacks(code, n, start) && Interpret(code, n, start) == end
    ensures SpecifiedRun(code, n, start) == end
  {
    EndsAlike(code, n, start);
  }

  /**
   For every word, every offset below 2^31 and every gas that pays for it: the Yellow Paper's machine and the
   compiled program halt, with RETURN or REVERT as the program says, the gas left, and the 32 bytes of the word.
   */
  lemma StoredWordIsReturned(v: U256, o: U256, leave: Byte, gas: nat, m: Target.Machine) returns (k: nat)
    requires leave == 0xf3 || leave == 0xfd
    requires o < TWO_31 && Price(o) <= gas <= I64_MAX && Compilation.Initial(m, gas)
    ensures var code := StoreAndLeave(v, o, leave);
            var result := Result(if leave == 0xf3 then ReturnStatus else RevertStatus, gas - Price(o), ToBytes(v, 32));
            && CoreCode(code) && Codegen.AllCore(ParseFrom(code, 0)) && Standing(code, Compilation.Start(gas))
            && SpecifiedRun(code, gas + 1, Compilation.Start(gas)) == Halted(result)
            && forall n | n >= k ::
                 Target.Run(Codegen.Compiled(ParseFrom(code, 0)), n, Target.At(Target.SETUP, m)) ==
                 Target.Exited(result)
  {
    var code := StoreAndLeave(v, o, leave);
    IsReady(v, o, leave);
    Specifies(code, v, o, leave, gas);
    k := Compilation.CompiledMeetsSpecification(code, gas, m);
  }
}
