/** Concrete programs on which the code departs from the Yellow Paper. */
module Departures {
  import opened Primitives
  import opened Programs
  import opened Parsing
  import opened Memories
  import opened Results
  import opened Interpreter
  import opened Specification
  import opened Compilation

  // ----- Running a few operations by hand -----

  /** What a push leaves on the stack. */
  function PushedBy(op: Operation): U256
    requires op.Push? || op == Basic(PUSH0)
  {
    if op.Push? then op.value % TWO_256 else 0
  }

  lemma PushOp(code: Bytecode, op: Operation, next: nat, s: State)
    requires Valid(op) && (op.Push? || op == Basic(PUSH0)) && WellFormed(s)
    requires |s.stack| < STACK_LIMIT && s.gas >= Fee(op)
    ensures StepOp(code, op, next, s) ==
            Running(next, s.(stack := s.stack + [PushedBy(op)], gas := s.gas - Fee(op)))
  {
    assert RoundUp32(0) == 0;
    assert Drop(s.stack, 0) == s.stack;
  }

  lemma PushStep(code: Bytecode, pc: nat, op: Operation, next: nat, s: State)
    requires CoreCode(code) && pc < |code| && pc in Positions(code, 0) && OneOp(code, pc) == Parsed(op, next)
    requires (op.Push? || op == Basic(PUSH0)) && WellFormed(s) && |s.stack| < STACK_LIMIT && s.gas >= Fee(op)
    ensures Step(code, pc, s) == Running(next, s.(stack := s.stack + [PushedBy(op)], gas := s.gas - Fee(op)))
  {
    OneOpFacts(code, pc);
    PushOp(code, op, next, s);
  }

  /** Each of `n` outcomes leads to the next. */
  ghost predicate Trace(code: Bytecode, outcomes: nat -> Outcome, n: nat)
    requires CoreCode(code)
  {
    forall k: nat | k < n ::
      && outcomes(k).Running? && Reachable(code, outcomes(k))
      && Step(code, outcomes(k).pc, outcomes(k).s) == outcomes(k + 1)
  }

  lemma {:induction false} TraceRuns(code: Bytecode, outcomes: nat -> Outcome, n: nat, i: nat)
    requires CoreCode(code) && Trace(code, outcomes, n) && i <= n && Reachable(code, outcomes(i))
    ensures Interpret(code, n - i, outcomes(i)) == outcomes(n)
    decreases n - i
  {
    if i < n {
      StepKeeps(code, outcomes(i).pc, outcomes(i).s);
      TraceRuns(code, outcomes, n, i + 1);
    }
  }

  // ----- DUP on a full stack -----

  /** 1024 times PUSH0, then DUP1. */
  predicate IsTower(code: Bytecode) {
    |code| == 1025 && (forall i | 0 <= i < 1024 :: code[i] == PUSH0) && code[1024] == DUP1
  }

  function Tower(): (code: Bytecode)
    ensures IsTower(code)
  {
    seq(1024, _ => PUSH0) + [DUP1]
  }

  lemma {:induction false} TowerPositions(code: Bytecode, pc: nat, p: nat)
    requires IsTower(code) && pc <= p < 1025
    ensures p in Positions(code, pc)
    decreases p - pc
  {
    if pc < p {
      TowerPositions(code, pc + 1, p);
    }
  }

  lemma TowerOp(code: Bytecode, p: nat)
    requires IsTower(code) && p < 1025
    ensures OneOp(code, p) == Parsed(if p < 1024 then Basic(PUSH0) else Dup(1), p + 1)
  {
  }

  lemma TowerIsCore(code: Bytecode)
    requires IsTower(code)
    ensures CoreCode(code)
  {
    forall p | p in Positions(code, 0)
      ensures p < |code| && Core(OneOp(code, p).op)
    {
      PositionsBound(code, 0);
      TowerOp(code, p);
    }
  }

  function Zeros256(n: nat): seq<U256> {
    seq(n, _ => 0)
  }

  /** One storey of the tower. */
  lemma TowerStep(code: Bytecode, i: nat, gas: nat)
    requires IsTower(code) && CoreCode(code) && i < 1024 && 2 <= gas <= I64_MAX
    ensures i in Positions(code, 0)
    ensures Step(code, i, State(Zeros256(i), gas, [])) == Running(i + 1, State(Zeros256(i + 1), gas - 2, []))
  {
    TowerPositions(code, 0, i);
    TowerOp(code, i);
    PushStep(code, i, Basic(PUSH0), i + 1, State(Zeros256(i), gas, []));
    assert Zeros256(i) + [0] == Zeros256(i + 1);
  }

  function Storey(i: nat, gas: nat): Outcome {
    Running(i, State(Zeros256(i), gas, []))
  }

  lemma StoreyReachable(code: Bytecode, i: nat, gas: nat)
    requires IsTower(code) && i <= 1024 && gas <= I64_MAX
    ensures Reachable(code, Storey(i, gas))
  {
    TowerPositions(code, 0, i);
  }

  lemma TowerRuns(code: Bytecode, gas: nat)
    requires IsTower(code) && CoreCode(code) && 2051 <= gas <= I64_MAX && Reachable(code, Storey(0, gas))
    ensures Interpret(code, 1024, Storey(0, gas)) == Storey(1024, gas - 2048)
  {
    var outcomes := (k: nat) => Storey(k, if 2 * k <= gas then gas - 2 * k else 0);
    forall k: nat | k < 1024
      ensures outcomes(k).Running? && Reachable(code, outcomes(k))
      ensures Step(code, outcomes(k).pc, outcomes(k).s) == outcomes(k + 1)
    {
      StoreyReachable(code, k, gas - 2 * k);
      TowerStep(code, k, gas - 2 * k);
    }
    TraceRuns(code, outcomes, 1024, 0);
  }

  lemma FullDup(code: Bytecode, next: nat, s: State)
    requires WellFormed(s) && |s.stack| == STACK_LIMIT && s.gas >= 3
    ensures StepOp(code, Dup(1), next, s).Undefined? && SpecifiedStep(code, Dup(1), next, s) == Failure()
  {
    assert RoundUp32(0) == 0;
  }

  /** From the start, the last operation of the tower writes past the stack; the Yellow Paper has it fail. */
  lemma DupLeavesStack(gas: nat)
    requires 2051 <= gas <= I64_MAX
    ensures CoreCode(Tower()) && Reachable(Tower(), Start(gas))
    ensures var o := Interpret(Tower(), 1024, Start(gas));
            && o == Running(1024, State(Zeros256(1024), gas - 2048, []))
            && Reachable(Tower(), o)
            && Step(Tower(), 1024, o.s).Undefined?
            && Specified(Tower(), 1024, o.s) == Failure()
  {
    var code := Tower();
    TowerIsCore(code);
    assert Zeros256(0) == [];
    StoreyReachable(code, 0, gas);
    StoreyReachable(code, 1024, gas - 2048);
    TowerRuns(code, gas);
    TowerOp(code, 1024);
    FullDup(code, 1025, State(Zeros256(1024), gas - 2048, []));
  }

  // ----- Offsets the code cuts or reads as negative -----

  /** A program of one PUSH and one operation after it. */
  predicate PushThen(code: Bytecode, push: Operation, op: Operation) {
    && push.Push? && |code| == push.size + 2
    && OneOp(code, 0) == Parsed(push, push.size + 1)
    && OneOp(code, push.size + 1) == Parsed(op, push.size + 2)
    && NextPosition(0, code[0]) == push.size + 1 && NextPosition(push.size + 1, code[push.size + 1]) == push.size + 2
  }

  lemma PushThenRuns(code: Bytecode, push: Operation, op: Operation, gas: nat)
    requires PushThen(code, push, op) && Core(op) && 3 <= gas <= I64_MAX
    ensures CoreCode(code) && Reachable(code, Start(gas))
    ensures var s := State([push.value % TWO_256], gas - 3, []);
            && Interpret(code, 1, Start(gas)) == Running(push.size + 1, s)
            && Reachable(code, Running(push.size + 1, s))
  {
    var p := push.size + 1;
    assert Positions(code, p + 1) == {};
    assert Positions(code, p) == {p} + {};
    assert Positions(code, 0) == {0} + Positions(code, p);
    PushStep(code, 0, push, p, State([], gas, []));
    assert [] + [push.value % TWO_256] == [push.value % TWO_256];
    var o := Running(p, State([push.value % TWO_256], gas - 3, []));
    assert Interpret(code, 1, Start(gas)) == Interpret(code, 0, o) == o;
  }

  /** PUSH4 0x80000000, MLOAD. */
  function NegativeIndex(): Bytecode {
    [0x63, 0x80, 0x00, 0x00, 0x00, 0x51]
  }

  lemma FourBytes(a: Byte, b: Byte, c: Byte, d: Byte)
    ensures FromBytes([a, b, c, d]) == ((256 * a + b) * 256 + c) * 256 + d
  {
    assert [a][..0] == [];
    assert FromBytes([a]) == a;
    assert [a, b][..1] == [a];
    assert FromBytes([a, b]) == 256 * a + b;
    assert [a, b, c][..2] == [a, b];
    assert FromBytes([a, b, c]) == (256 * a + b) * 256 + c;
    assert [a, b, c, d][..3] == [a, b, c];
  }

  lemma NegativeIndexParses()
    ensures PushThen(NegativeIndex(), Push(4, 0x8000_0000), Basic(MLOAD))
  {
    var code := NegativeIndex();
    assert code[1..5] == [0x80, 0x00, 0x00, 0x00];
    FourBytes(0x80, 0, 0, 0);
  }

  /** What a word at 2^31 costs on an empty memory. */
  lemma FarWordCost(s: State)
    requires s.stack == [0x8000_0000] && s.memory == []
    ensures GasCost(Basic(MLOAD), s) == 8_796_294_610_950
  {
    var size := 0x8000_0020;
    assert Required(Basic(MLOAD), s) == size;
    RoundUpIsExact(size);
    assert RoundUp32(size) == size;
    CostIsExact(size);
    CostIsExact(0);
    assert Square(67_108_865) == 4_503_599_761_588_225;
  }

  /** With enough gas to pay for it, this program reads 2^31 bytes before its memory. */
  lemma NegativeIndexLeavesMemory(gas: nat)
    requires 8_796_294_610_953 <= gas <= I64_MAX
    ensures CoreCode(NegativeIndex()) && Reachable(NegativeIndex(), Start(gas))
    ensures var o := Interpret(NegativeIndex(), 1, Start(gas));
            && o.Running? && Reachable(NegativeIndex(), o)
            && Step(NegativeIndex(), o.pc, o.s).Undefined?
  {
    NegativeIndexParses();
    PushThenRuns(NegativeIndex(), Push(4, 0x8000_0000), Basic(MLOAD), gas);
    var s := State([0x8000_0000], gas - 3, []);
    FarWordCost(s);
    UndefinedExactly(NegativeIndex(), Basic(MLOAD), 6, s);
  }

  /** PUSH5 0x0100000000, MLOAD. */
  function CutOffset(): Bytecode {
    [0x64, 0x01, 0x00, 0x00, 0x00, 0x00, 0x51]
  }

  lemma CutOffsetParses()
    ensures PushThen(CutOffset(), Push(5, TWO_32), Basic(MLOAD))
  {
    var code := CutOffset();
    var data := [0x01, 0x00, 0x00, 0x00, 0x00];
    assert code[1..6] == data;
    assert data[..4] == [0x01, 0x00, 0x00, 0x00];
    FourBytes(1, 0, 0, 0);
  }

  /** The first word of memory costs three. */
  lemma FirstWord(required: nat)
    requires 0 < required <= 32
    ensures Expanded([], required) == Zeros(32) && ExpansionGas([], required) == 3
  {
    RoundUpIsExact(required);
    assert RoundUp32(required) == 32;
    assert Expanded([], required) == Zeros(32);
    ExpansionFacts([], required);
    SmallCosts();
  }

  lemma SmallCosts()
    ensures WordsCost(0) == 0 && WordsCost(1) == 3
  {
    assert Square(0) == 0 && Square(1) == 1;
  }

  lemma CutCost(s: State)
    requires s.stack == [TWO_32] && s.memory == []
    ensures Offset(s) == 0 && Required(Basic(MLOAD), s) == 32 && GasCost(Basic(MLOAD), s) == 6
  {
    FirstWord(32);
  }

  lemma WholeCutCost(s: State)
    requires s.stack == [TWO_32] && s.memory == []
    ensures WholeCost(Basic(MLOAD), s) > 0x1000_0000_0000
  {
    assert WordsAfter(Basic(MLOAD), s) == 0x800_0001;
    assert Square(0x800_0001) == 0x40_0000_1000_0001;
    assert Square(0) == 0;
  }

  /** A word at 2^32: the code charges for the one at 0, the Yellow Paper for a memory reaching there. */
  lemma CutWord(code: Bytecode, s: State)
    requires s.stack == [TWO_32] && s.memory == [] && 6 <= s.gas <= 0x1000_0000_0000
    ensures StepOp(code, Basic(MLOAD), 7, s) == Running(7, State([0], s.gas - 6, Zeros(32)))
    ensures SpecifiedStep(code, Basic(MLOAD), 7, s) == Failure()
  {
    CutCost(s);
    WholeCutCost(s);
    FirstWord(32);
    var paid := State([TWO_32], s.gas - 6, Zeros(32));
    assert Paid(Basic(MLOAD), s) == paid;
    ReadZero(paid);
    assert StepOp(code, Basic(MLOAD), 7, s) == AccessMemory(MLOAD, 7, paid);
  }

  lemma ReadZero(s: State)
    requires s.stack == [TWO_32] && s.memory == Zeros(32)
    ensures AccessMemory(MLOAD, 7, s) == Running(7, s.(stack := [0]))
  {
    assert Offset(s) == 0;
    assert s.memory[0..32] == Zeros(32);
    ZeroWord();
    assert Drop(s.stack, 1) + [0] == [0];
  }

  lemma ZeroWord()
    ensures FromBytes(Zeros(32)) == 0
  {
    ZeroBytes(32);
  }

  lemma {:induction false} ZeroBytes(n: nat)
    ensures FromBytes(Zeros(n)) == 0
  {
    if n > 0 {
      assert Zeros(n)[..n - 1] == Zeros(n - 1);
      ZeroBytes(n - 1);
    }
  }

  /** From the start: the program reads the word at 0, where the Yellow Paper has it run out of gas. */
  lemma CutOffsetReadsElsewhere(gas: nat)
    requires 9 <= gas <= 0x1000_0000_0000
    ensures CoreCode(CutOffset()) && Reachable(CutOffset(), Start(gas))
    ensures var o := Interpret(CutOffset(), 1, Start(gas));
            && o.Running? && Reachable(CutOffset(), o)
            && Step(CutOffset(), o.pc, o.s) == Running(7, State([0], gas - 9, Zeros(32)))
            && Specified(CutOffset(), o.pc, o.s) == Failure()
  {
    CutOffsetParses();
    PushThenRuns(CutOffset(), Push(5, TWO_32), Basic(MLOAD), gas);
    CutWord(CutOffset(), State([TWO_32], gas - 3, []));
  }

  // ----- Ranges that wrap, or are empty -----

  /** A program of two PUSHes and one operation after them. */
  predicate TwoPushesThen(code: Bytecode, first: Operation, second: Operation, op: Operation) {
    && first.Push? && second.Push? && |code| == first.size + second.size + 3
    && var p, q := first.size + 1, first.size + second.size + 2;
    && OneOp(code, 0) == Parsed(first, p) && OneOp(code, p) == Parsed(second, q) && OneOp(code, q) == Parsed(op, q + 1)
    && NextPosition(0, code[0]) == p && NextPosition(p, code[p]) == q && NextPosition(q, code[q]) == q + 1
  }

  lemma TwoPushesArePositions(code: Bytecode, first: Operation, second: Operation, op: Operation)
    requires TwoPushesThen(code, first, second, op) && Core(op)
    ensures Positions(code, 0) == {0, first.size + 1, first.size + second.size + 2} && CoreCode(code)
  {
    var p, q := first.size + 1, first.size + second.size + 2;
    assert Positions(code, q + 1) == {};
    assert Positions(code, q) == {q} + {};
    assert Positions(code, p) == {p} + Positions(code, q);
    assert Positions(code, 0) == {0} + Positions(code, p);
  }

  lemma TwoPushesRun(code: Bytecode, first: Operation, second: Operation, op: Operation, gas: nat)
    requires TwoPushesThen(code, first, second, op) && Core(op) && 6 <= gas <= I64_MAX
    ensures CoreCode(code) && Reachable(code, Start(gas))
    ensures var o := Running(first.size + second.size + 2,
                             State([first.value % TWO_256, second.value % TWO_256], gas - 6, []));
            Interpret(code, 2, Start(gas)) == o && Reachable(code, o)
  {
    TwoPushesArePositions(code, first, second, op);
    var p, q := first.size + 1, first.size + second.size + 2;
    var s1 := State([first.value % TWO_256], gas - 3, []);
    var s2 := State([first.value % TWO_256, second.value % TWO_256], gas - 6, []);
    PushStep(code, 0, first, p, State([], gas, []));
    assert [] + [first.value % TWO_256] == s1.stack;
    PushStep(code, p, second, q, s1);
    assert s1.stack + [second.value % TWO_256] == s2.stack;
    assert Interpret(code, 1, Running(p, s1)) == Interpret(code, 0, Running(q, s2)) == Running(q, s2);
    assert Interpret(code, 2, Start(gas)) == Interpret(code, 1, Running(p, s1));
  }

  /** PUSH1 32, PUSH4 0xfffffff0, RETURN. */
  function WrappedRange(): Bytecode {
    [0x60, 0x20, 0x63, 0xff, 0xff, 0xff, 0xf0, 0xf3]
  }

  lemma OneByte(a: Byte)
    ensures FromBytes([a]) == a
  {
    assert [a][..0] == [];
  }

  lemma WrappedRangeParses()
    ensures TwoPushesThen(WrappedRange(), Push(1, 32), Push(4, 0xffff_fff0), Basic(RETURN))
  {
    var code := WrappedRange();
    assert code[1..2] == [0x20];
    OneByte(0x20);
    assert code[3..7] == [0xff, 0xff, 0xff, 0xf0];
    FourBytes(0xff, 0xff, 0xff, 0xf0);
  }

  lemma WrappedReturn(code: Bytecode, s: State)
    requires s.stack == [32, 0xffff_fff0] && s.memory == [] && 3 <= s.gas <= 0x1000_0000_0000
    ensures StepOp(code, Basic(RETURN), 8, s) == Halted(Result(ReturnStatus, s.gas - 3, []))
    ensures SpecifiedStep(code, Basic(RETURN), 8, s) == Failure()
  {
    var op := Basic(RETURN);
    assert Required(op, s) == 16;
    FirstWord(16);
    assert GasCost(op, s) == 3;
    assert WordsAfter(op, s) == 0x800_0001;
    assert Square(0x800_0001) == 0x40_0000_1000_0001;
    SmallCosts();
  }

  /** From the start: a range that wraps is returned, as empty, for the price of one word. */
  lemma WrappedRangeReturns(gas: nat)
    requires 9 <= gas <= 0x1000_0000_0000
    ensures CoreCode(WrappedRange()) && Reachable(WrappedRange(), Start(gas))
    ensures var o := Interpret(WrappedRange(), 2, Start(gas));
            && o.Running? && Reachable(WrappedRange(), o)
            && Step(WrappedRange(), o.pc, o.s) == Halted(Result(ReturnStatus, gas - 9, []))
            && Specified(WrappedRange(), o.pc, o.s) == Failure()
  {
    WrappedRangeParses();
    TwoPushesRun(WrappedRange(), Push(1, 32), Push(4, 0xffff_fff0), Basic(RETURN), gas);
    WrappedReturn(WrappedRange(), State([32, 0xffff_fff0], gas - 6, []));
  }

  /** PUSH1 0, PUSH1 32, RETURN. */
  function EmptyReturn(): Bytecode {
    [0x60, 0x00, 0x60, 0x20, 0xf3]
  }

  lemma EmptyReturnParses()
    ensures TwoPushesThen(EmptyReturn(), Push(1, 0), Push(1, 32), Basic(RETURN))
  {
    var code := EmptyReturn();
    assert code[1..2] == [0x00] && code[3..4] == [0x20];
    OneByte(0x00);
    OneByte(0x20);
  }

  lemma EmptyRangePays(code: Bytecode, s: State)
    requires s.stack == [0, 32] && s.memory == [] && 3 <= s.gas <= I64_MAX
    ensures StepOp(code, Basic(RETURN), 5, s) == Halted(Result(ReturnStatus, s.gas - 3, []))
    ensures SpecifiedStep(code, Basic(RETURN), 5, s) == Halted(Result(ReturnStatus, s.gas, []))
  {
    assert Required(Basic(RETURN), s) == 32;
    FirstWord(32);
    assert GasCost(Basic(RETURN), s) == 3;
    assert Zeros(32)[32..32] == [];
  }

  /** From the start: returning nothing from beyond memory costs three gas it should not. */
  lemma EmptyReturnCharges(gas: nat)
    requires 9 <= gas <= I64_MAX
    ensures CoreCode(EmptyReturn()) && Reachable(EmptyReturn(), Start(gas))
    ensures var o := Interpret(EmptyReturn(), 2, Start(gas));
            && o.Running? && Reachable(EmptyReturn(), o)
            && Step(EmptyReturn(), o.pc, o.s) == Halted(Result(ReturnStatus, gas - 9, []))
            && Specified(EmptyReturn(), o.pc, o.s) == Halted(Result(ReturnStatus, gas - 6, []))
  {
    EmptyReturnParses();
    TwoPushesRun(EmptyReturn(), Push(1, 0), Push(1, 32), Basic(RETURN), gas);
    EmptyRangePays(EmptyReturn(), State([0, 32], gas - 6, []));
  }

  // ----- A PUSH that is cut off -----

  /** PUSH2 with one byte of data. */
  function ShortPush(): Bytecode {
    [0x61, 0xab]
  }

  lemma ShortPushParses()
    ensures OneOp(ShortPush(), 0) == Parsed(Push(2, 0xab), 3) && WholeOp(ShortPush(), 0) == Push(2, 0xab00)
    ensures Positions(ShortPush(), 0) == {0} && CoreCode(ShortPush())
  {
    var code := ShortPush();
    assert code[1..2] == [0xab];
    OneByte(0xab);
    WholeOpFacts(code, 0);
    assert Pow256(1) == 256;
    assert Positions(code, 3) == {};
  }

  /** From the start: the code pushes the byte there is, where the Yellow Paper reads a zero after it. */
  lemma ShortPushPushesLess(gas: nat)
    requires 3 <= gas <= I64_MAX
    ensures CoreCode(ShortPush()) && Reachable(ShortPush(), Start(gas))
    ensures Step(ShortPush(), 0, Start(gas).s) == Running(3, State([0xab], gas - 3, []))
    ensures Specified(ShortPush(), 0, Start(gas).s) == Running(3, State([0xab00], gas - 3, []))
  {
    ShortPushParses();
    PushRuns(ShortPush(), Push(2, 0xab), 3, Start(gas).s);
    PushRuns(ShortPush(), Push(2, 0xab00), 3, Start(gas).s);
  }

  // ----- The byte 0xfe -----

  /** 0xfe is printed for INVALID, but the checked parser turns it away. */
  lemma InvalidIsTurnedAway()
    ensures ParseFrom([INVALID], 0) == [Invalid] && InvalidBytes([INVALID], [Invalid], 0) == [INVALID]
    ensures AllValid([Invalid]) && PrintAll([Invalid]) == [INVALID]
  {
    assert ParseFrom([INVALID], 1) == [];
    assert ParseFrom([INVALID], 0) == [Invalid] + [];
    assert InvalidBytes([INVALID], [Invalid], 0) == [INVALID] + InvalidBytes([INVALID], [], 1);
    assert PrintAll([Invalid]) == [INVALID] + [];
  }
}
