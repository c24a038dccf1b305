/**
 An interpreter of bytecode for the core subset. It treats operands as the generated code does, with memory
 offsets and lengths cut to 32 bits; `Specification` is the machine of the Yellow Paper.
 */
module Interpreter {
  import opened Primitives
  import opened Programs
  import opened Parsing
  import opened Words
  import opened Memories
  import opened Results

  const STACK_LIMIT := 1024

  // ----- The core subset -----

  predicate IsBinary(b: Byte) {
    b == ADD || b == MUL || b == SUB || LT <= b <= EQ || AND <= b <= XOR
  }

  predicate IsDividing(b: Byte) {
    b == DIV || b == MOD || b == ADDMOD || b == MULMOD
  }

  predicate IsAccess(b: Byte) {
    b == MLOAD || b == MSTORE || b == MSTORE8
  }

  predicate IsLeaving(b: Byte) {
    b == RETURN || b == REVERT
  }

  /** Operations that only compute on the stack and go on to the next one. */
  predicate IsStraight(op: Operation) {
    match op
    case Basic(b) =>
      || IsBinary(b) || b == ISZERO || b == NOT || b == SAR || b == SIGNEXTEND
      || b == POP || b == GAS || b == MSIZE || b == PUSH0
    case Log(_) => false
    case Invalid => false
    case _ => true
  }

  predicate Core(op: Operation) {
    || IsStraight(op)
    || op.Invalid?
    || (op.Basic? && (IsDividing(op.opcode) || IsAccess(op.opcode) || IsLeaving(op.opcode)))
    || op == Basic(JUMP) || op == Basic(JUMPI) || op == Basic(STOP)
  }

  // ----- What an operation removes, adds and costs -----

  function Removed(op: Operation): nat {
    match op
    case Basic(b) =>
      if b == STOP || b == GAS || b == MSIZE || b == PUSH0 then 0
      else if b == ISZERO || b == NOT || b == POP || b == MLOAD || b == JUMP then 1
      else if b == ADDMOD || b == MULMOD then 3
      else 2
    case Dup(n) => n
    case Swap(n) => n + 1
    case _ => 0
  }

  function Added(op: Operation): nat {
    match op
    case Basic(b) =>
      if b == STOP || b == POP || b == MSTORE || b == MSTORE8 || b == JUMP || b == JUMPI || IsLeaving(b) then 0
      else 1
    case Dup(n) => n + 1
    case Swap(n) => n + 1
    case Jumpdest(_) => 0
    case _ => 1
  }

  /** The fee schedule of appendix G. */
  function Fee(op: Operation): nat {
    match op
    case Basic(b) =>
      if b == STOP || IsLeaving(b) then 0
      else if b == GAS || b == MSIZE || b == POP || b == PUSH0 then 2
      else if b == MUL || b == DIV || b == MOD || b == SIGNEXTEND then 5
      else if b == ADDMOD || b == MULMOD || b == JUMP then 8
      else if b == JUMPI then 10
      else 3
    case PC(_) => 2
    case Jumpdest(_) => 1
    case _ => 3
  }

  // ----- States -----

  /** The top of the stack is last. */
  datatype State = State(stack: seq<U256>, gas: nat, memory: Memory)

  /** Undefined: the generated code checks nothing that would keep it within its stack or its memory. */
  datatype Outcome = Running(pc: nat, s: State) | Halted(result: Result) | Undefined

  function Failure(): Outcome {
    Halted(Result(ErrorStatus, 0, []))
  }

  /** The value `k` below the top. */
  function Top(s: State, k: nat): U256
    requires k < |s.stack|
  {
    s.stack[|s.stack| - 1 - k]
  }

  function Drop(stack: seq<U256>, k: nat): seq<U256>
    requires k <= |stack|
  {
    stack[..|stack| - k]
  }

  // ----- Memory -----

  function Offset(s: State): nat
    requires |s.stack| > 0
  {
    Top(s, 0) % TWO_32
  }

  function Length(op: Operation, s: State): nat
    requires |s.stack| >= Removed(op)
  {
    match op
    case Basic(b) =>
      if b == MSTORE8 then 1 else if IsLeaving(b) then Top(s, 1) % TWO_32 else 32
    case _ => 0
  }

  predicate TouchesMemory(op: Operation) {
    op.Basic? && (IsAccess(op.opcode) || IsLeaving(op.opcode))
  }

  /** The end of the range of memory `op` uses, in 32 bits like its offset and length. */
  function Required(op: Operation, s: State): nat
    requires |s.stack| >= Removed(op)
  {
    if TouchesMemory(op) then (Offset(s) + Length(op, s)) % TWO_32 else 0
  }

  // ----- Values -----

  function AsWord(b: bool): U256 {
    if b then 1 else 0
  }

  function BinaryValue(b: Byte, x: U256, y: U256): U256 {
    if b == ADD then (x + y) % TWO_256
    else if b == SUB then (x - y) % TWO_256
    else if b == MUL then (x * y) % TWO_256
    else if b == LT then AsWord(x < y)
    else if b == GT then AsWord(x > y)
    else if b == SLT then AsWord(Signed(x) < Signed(y))
    else if b == SGT then AsWord(Signed(x) > Signed(y))
    else if b == EQ then AsWord(x == y)
    else if b == AND then EvmBitwise(AndGate, x, y)
    else if b == OR then EvmBitwise(OrGate, x, y)
    else EvmBitwise(XorGate, x, y)
  }

  function DividingValue(b: Byte, s: State): U256
    requires |s.stack| >= Removed(Basic(b)) && IsDividing(b)
  {
    if b == DIV then EvmDiv(Top(s, 0), Top(s, 1))
    else if b == MOD then EvmMod(Top(s, 0), Top(s, 1))
    else if b == ADDMOD then EvmAddMod(Top(s, 0), Top(s, 1), Top(s, 2))
    else EvmMulMod(Top(s, 0), Top(s, 1), Top(s, 2))
  }

  function BasicValue(b: Byte, s: State): U256
    requires |s.stack| >= Removed(Basic(b))
  {
    if IsBinary(b) then BinaryValue(b, Top(s, 0), Top(s, 1))
    else if IsDividing(b) then DividingValue(b, s)
    else if b == ISZERO then AsWord(Top(s, 0) == 0)
    else if b == NOT then EvmNot(Top(s, 0))
    else if b == SAR then EvmSar(Top(s, 0), Top(s, 1))
    else if b == SIGNEXTEND then EvmSignExtend(Top(s, 0), Top(s, 1))
    else if b == GAS then s.gas % TWO_256
    else if b == MSIZE then |s.memory| % TWO_256
    else 0
  }

  /** The stack after an operation that ends by going on to the next one and leaves memory alone. */
  function NewStack(op: Operation, s: State): seq<U256>
    requires |s.stack| >= Removed(op) && Valid(op)
  {
    match op
    case Basic(b) =>
      if b == POP then Drop(s.stack, 1) else Drop(s.stack, Removed(op)) + [BasicValue(b, s)]
    case PC(pc) => s.stack + [pc % TWO_256]
    case Push(_, value) => s.stack + [value % TWO_256]
    case Dup(n) => s.stack + [Top(s, n - 1)]
    case Swap(n) => s.stack[|s.stack| - 1 := Top(s, n)][|s.stack| - 1 - n := Top(s, 0)]
    case _ => s.stack
  }

  // ----- One step -----

  ghost function JumpTo(code: Bytecode, dest: nat, s: State): Outcome {
    if dest in JumpDestinations(code) then Running(dest, s) else Failure()
  }

  /** The code reads a 32-bit offset as a signed index, so from 2^31 on it points before memory. */
  predicate Accessible(memory: Memory, offset: nat, length: nat) {
    offset < TWO_31 && offset + length <= |memory|
  }

  function Stored(b: Byte, value: U256): Memory {
    if b == MSTORE then ToBytes(value, 32) else [value % 256]
  }

  /** MLOAD, MSTORE and MSTORE8 on memory already expanded. */
  function AccessMemory(b: Byte, next: nat, s: State): Outcome
    requires IsAccess(b) && |s.stack| >= Removed(Basic(b))
  {
    if !Accessible(s.memory, Offset(s), Length(Basic(b), s)) then Undefined
    else if b == MLOAD then
      var bytes := s.memory[Offset(s)..Offset(s) + 32];
      Running(next, s.(stack := Drop(s.stack, 1) + [FromBytes(bytes) % TWO_256]))
    else
      Running(next, s.(stack := Drop(s.stack, 2), memory := Overwritten(s.memory, Offset(s), Stored(b, Top(s, 1)))))
  }

  ghost function Execute(code: Bytecode, op: Operation, next: nat, s: State): Outcome
    requires Core(op) && Valid(op) && !op.Invalid? && |s.stack| >= Removed(op)
  {
    if op == Basic(STOP) then Halted(Result(StopStatus, s.gas, []))
    else if op == Basic(JUMP) then JumpTo(code, Top(s, 0), s.(stack := Drop(s.stack, 1)))
    else if op == Basic(JUMPI) then
      var after := s.(stack := Drop(s.stack, 2));
      if Top(s, 1) != 0 then JumpTo(code, Top(s, 0), after) else Running(next, after)
    else if op.Basic? && IsLeaving(op.opcode) then
      Halted(Result(if op.opcode == RETURN then ReturnStatus else RevertStatus, s.gas,
                    Reported(s.memory, Offset(s), Length(op, s))))
    else if op.Basic? && IsAccess(op.opcode) then AccessMemory(op.opcode, next, s)
    else Running(next, s.(stack := NewStack(op, s)))
  }

  function GasCost(op: Operation, s: State): int
    requires |s.stack| >= Removed(op)
  {
    Fee(op) + ExpansionGas(s.memory, Required(op, s))
  }

  /** The state an operation starts from: its gas paid and its memory in place. */
  function Paid(op: Operation, s: State): State
    requires |s.stack| >= Removed(op) && 0 <= GasCost(op, s) <= s.gas
  {
    s.(gas := s.gas - GasCost(op, s), memory := Expanded(s.memory, Required(op, s)))
  }

  predicate WellFormed(s: State) {
    |s.stack| <= STACK_LIMIT && s.gas <= I64_MAX && Aligned(s.memory)
  }

  /** One operation: exceptional halting first, as in section 9.4.2, then its effect. */
  ghost function StepOp(code: Bytecode, op: Operation, next: nat, s: State): Outcome
    requires Core(op) && Valid(op) && WellFormed(s)
  {
    if op.Invalid? || |s.stack| < Removed(op) then Failure()
    else
      ExpansionFacts(s.memory, Required(op, s));
      if s.gas < GasCost(op, s) then Failure()
      else if |s.stack| - Removed(op) + Added(op) > STACK_LIMIT then
        // DUP is generated without a check for room.
        if op.Dup? then Undefined else Failure()
      else Execute(code, op, next, Paid(op, s))
  }

  /** Every operation of `code` from `pc` on belongs to the core subset. */
  ghost predicate CoreCode(code: Bytecode) {
    forall p | p in Positions(code, 0) :: p < |code| && Core(OneOp(code, p).op)
  }

  /** Running off the end is a STOP. */
  ghost function Step(code: Bytecode, pc: nat, s: State): Outcome
    requires CoreCode(code) && (pc < |code| ==> pc in Positions(code, 0)) && WellFormed(s)
  {
    if pc >= |code| then Halted(Result(StopStatus, s.gas, []))
    else
      OneOpFacts(code, pc);
      StepOp(code, OneOp(code, pc).op, OneOp(code, pc).next, s)
  }

  // ----- What every step keeps -----

  /** A state a run can be in: at an instruction or at the end. */
  ghost predicate Reachable(code: Bytecode, o: Outcome) {
    o.Running? ==> WellFormed(o.s) && (o.pc < |code| ==> o.pc in Positions(code, 0))
  }

  lemma {:induction false} NextIsPosition(code: Bytecode, from: nat, pc: nat)
    requires pc in Positions(code, from)
    ensures pc < |code|
    ensures NextPosition(pc, code[pc]) < |code| ==> NextPosition(pc, code[pc]) in Positions(code, from)
    decreases |code| - from
  {
    if from < |code| && pc != from {
      NextIsPosition(code, NextPosition(from, code[from]), pc);
    }
  }

  /** Every operation but the ones that halt leaves less gas. */
  lemma StepOpKeeps(code: Bytecode, op: Operation, next: nat, s: State)
    requires Core(op) && Valid(op) && WellFormed(s)
    ensures var o := StepOp(code, op, next, s);
            o.Running? ==>
              && WellFormed(o.s) && o.s.gas < s.gas
              && (o.pc == next || o.pc in JumpDestinations(code))
  {
    if |s.stack| >= Removed(op) {
      ExpansionFacts(s.memory, Required(op, s));
    }
  }

  lemma StepKeeps(code: Bytecode, pc: nat, s: State)
    requires CoreCode(code) && Reachable(code, Running(pc, s))
    ensures var o := Step(code, pc, s);
            Reachable(code, o) && (o.Running? ==> o.s.gas < s.gas)
  {
    if pc < |code| {
      OneOpFacts(code, pc);
      StepOpKeeps(code, OneOp(code, pc).op, OneOp(code, pc).next, s);
      NextIsPosition(code, 0, pc);
    }
  }

  ghost function Interpret(code: Bytecode, n: nat, o: Outcome): Outcome
    requires CoreCode(code) && Reachable(code, o)
  {
    if n == 0 || !o.Running? then o
    else
      StepKeeps(code, o.pc, o.s);
      Interpret(code, n - 1, Step(code, o.pc, o.s))
  }

  /** A run ends before it has made more steps than it had gas. */
  lemma {:induction false} RunEnds(code: Bytecode, n: nat, o: Outcome)
    requires CoreCode(code) && Reachable(code, o)
    requires o.Running? ==> o.s.gas < n
    ensures !Interpret(code, n, o).Running?
  {
    if o.Running? {
      StepKeeps(code, o.pc, o.s);
      RunEnds(code, n - 1, Step(code, o.pc, o.s));
    }
  }

  lemma StepOpPaysForStack(code: Bytecode, op: Operation, next: nat, s: State)
    requires Core(op) && Valid(op) && WellFormed(s)
    ensures var o := StepOp(code, op, next, s);
            o.Running? ==> o.s.gas + 2 * |o.s.stack| <= s.gas + 2 * |s.stack|
  {
    if |s.stack| >= Removed(op) {
      ExpansionFacts(s.memory, Required(op, s));
      assert Fee(op) >= 2 * (Added(op) - Removed(op));
    }
  }

  /** Every value on the stack has been paid for with two gas or more, in every state of every run. */
  lemma {:induction false} StackIsPaidFor(code: Bytecode, n: nat, o: Outcome)
    requires CoreCode(code) && Reachable(code, o) && o.Running?
    ensures var o' := Interpret(code, n, o);
            o'.Running? ==> o'.s.gas + 2 * |o'.s.stack| <= o.s.gas + 2 * |o.s.stack|
  {
    if n > 0 {
      StepKeeps(code, o.pc, o.s);
      var o1 := Step(code, o.pc, o.s);
      if o1.Running? {
        OneOpFacts(code, o.pc);
        StepOpPaysForStack(code, OneOp(code, o.pc).op, OneOp(code, o.pc).next, o.s);
        StackIsPaidFor(code, n - 1, o1);
      }
    }
  }

  // ----- Where the generated code is not safe -----

  /** Below 2^31 the range an access needs is there once memory has been expanded for it. */
  lemma AccessInBounds(op: Operation, s: State)
    requires op.Basic? && IsAccess(op.opcode) && |s.stack| >= Removed(op) && Aligned(s.memory)
    ensures Accessible(Expanded(s.memory, Required(op, s)), Offset(s), Length(op, s)) <==> Offset(s) < TWO_31
  {
    ExpansionCovers(s.memory, Offset(s) + Length(op, s));
  }

  /**
   An operation that passes its checks is undefined exactly when it is a DUP on a full stack, or an access
   whose offset, cut to 32 bits, is 2^31 or more.
   */
  lemma UndefinedExactly(code: Bytecode, op: Operation, next: nat, s: State)
    requires Core(op) && Valid(op) && WellFormed(s) && !op.Invalid?
    requires |s.stack| >= Removed(op) && s.gas >= GasCost(op, s)
    ensures StepOp(code, op, next, s).Undefined? <==>
            || (op.Dup? && |s.stack| == STACK_LIMIT)
            || (op.Basic? && IsAccess(op.opcode) && Offset(s) >= TWO_31)
  {
    ExpansionFacts(s.memory, Required(op, s));
    if op.Basic? && IsAccess(op.opcode) {
      AccessInBounds(op, s);
    }
  }
}
