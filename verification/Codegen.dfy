/** The blocks generated for each operation of the core subset, and how a program's blocks are linked. */
module Codegen {
  import opened Primitives
  import opened Programs
  import opened Target
  import opened DestinationTables
  import opened Interpreter
  import opened Results

  // ----- Gas -----

  function BasicGas(b: Byte): nat {
    if b == POP || b == GAS || b == MSIZE || b == PUSH0 then 2
    else if b == MUL || b == DIV || b == MOD || b == SIGNEXTEND then 5
    else if b == ADDMOD || b == MULMOD || b == JUMP then 8
    else if b == JUMPI then 10
    else 3
  }

  function FixedGas(op: Operation): nat {
    match op
    case Basic(b) => BasicGas(b)
    case PC(_) => 2
    case Jumpdest(_) => 1
    case _ => 3
  }

  // ----- Straight code -----

  function BinaryFn(b: Byte): Fn {
    if b == ADD then Add(TWO_256)
    else if b == SUB then Sub(TWO_256)
    else if b == MUL then Mul(TWO_256)
    else if b == LT then LessU
    else if b == GT then GreaterU
    else if b == SLT then LessS
    else if b == SGT then GreaterS
    else if b == EQ then Equal
    else if b == AND then AndI
    else if b == OR then OrI
    else XorI
  }

  function Check(op: Operation): Instr {
    match op
    case Basic(b) =>
      if b == GAS || b == MSIZE || b == PUSH0 then HasSpaceFor(0, 1)
      else if b == ISZERO || b == NOT || b == POP || b == JUMP then HasAtLeast(0, 1)
      else if b == ADDMOD || b == MULMOD then HasAtLeast(0, 3)
      else HasAtLeast(0, 2)
    case Dup(n) => HasAtLeast(0, n)
    case Swap(n) => HasAtLeast(0, n + 1)
    case _ => HasSpaceFor(0, 1)
  }

  /** The stack check and the charge, then to `ok` if both held. */
  function Guard(op: Operation, ok: nat): Code {
    Then(Check(op),
      Then(ConsumeGas(1, Imm(FixedGas(op))),
        Then(Compute(2, Both, Reg(1), Reg(0)),
          End(CondBr(Reg(2), ok, REVERT_BLOCK)))))
  }

  /** A jump destination only charges gas. */
  function Landed(ok: nat): Code {
    Then(ConsumeGas(1, Imm(1)), End(CondBr(Reg(1), ok, REVERT_BLOCK)))
  }

  function BinaryBody(fn: Fn, last: Terminator): Code {
    Then(StackPop(0), Then(StackPop(1), Then(Compute(2, fn, Reg(0), Reg(1)), Then(StackPush(Reg(2)), End(last)))))
  }

  function UnaryBody(fn: Fn, constant: nat, last: Terminator): Code {
    Then(StackPop(0), Then(Compute(1, fn, Reg(0), Imm(constant)), Then(StackPush(Reg(1)), End(last))))
  }

  function SarBody(last: Terminator): Code {
    Then(StackPop(0), Then(StackPop(1),
      Then(Compute(2, MinU, Reg(0), Imm(255)),
        Then(Compute(3, ShiftRS, Reg(1), Reg(2)), Then(StackPush(Reg(3)), End(last))))))
  }

  function SignExtendBody(last: Terminator): Code {
    Then(StackPop(0), Then(StackPop(1),
      Then(Compute(2, MinU, Reg(0), Imm(31)),
        Then(Compute(3, Mul(TWO_256), Reg(2), Imm(8)),
          Then(Compute(4, Add(TWO_256), Reg(3), Imm(7)),
            Then(Compute(5, Sub(TWO_256), Imm(255), Reg(4)),
              Then(Compute(6, ShiftL, Reg(1), Reg(5)),
                Then(Compute(7, ShiftRS, Reg(6), Reg(5)), Then(StackPush(Reg(7)), End(last))))))))))
  }

  function BasicBody(b: Byte, last: Terminator): Code {
    if IsBinary(b) then BinaryBody(BinaryFn(b), last)
    else if b == ISZERO then UnaryBody(Equal, 0, last)
    else if b == NOT then UnaryBody(XorI, TWO_256 - 1, last)
    else if b == SAR then SarBody(last)
    else if b == SIGNEXTEND then SignExtendBody(last)
    else if b == POP then Then(StackPop(0), End(last))
    else if b == GAS then Then(RemainingGas(3), Then(StackPush(Reg(3)), End(last)))
    else if b == MSIZE then Then(MemorySize(3), Then(StackPush(Reg(3)), End(last)))
    else Then(StackPush(Imm(0)), End(last))
  }

  function Body(op: Operation, last: Terminator): Code {
    match op
    case Basic(b) => BasicBody(b, last)
    case PC(pc) => Then(StackPush(Imm(pc % TWO_256)), End(last))
    case Push(_, value) => Then(StackPush(Imm(value % TWO_256)), End(last))
    case Dup(n) => Then(GetNth(3, n), Then(StackPush(Reg(3)), End(last)))
    case Swap(n) => Then(SwapElements(1, n + 1), End(last))
    case _ => End(last)
  }

  // ----- Division -----

  function DividingOk(b: Byte, zero: nat, notZero: nat): Code {
    if b == DIV || b == MOD then
      Then(StackPop(0), Then(StackPop(1),
        Then(Compute(3, Equal, Imm(0), Reg(1)), End(CondBr(Reg(3), zero, notZero)))))
    else
      Then(StackPop(0), Then(StackPop(1), Then(StackPop(2),
        Then(Compute(3, Equal, Imm(0), Reg(2)), End(CondBr(Reg(3), zero, notZero))))))
  }

  function DividingBy(b: Byte, done: nat): Code {
    if b == DIV then Then(Compute(4, DivU, Reg(0), Reg(1)), Then(StackPush(Reg(4)), End(Br(done))))
    else if b == MOD then Then(Compute(4, RemU, Reg(0), Reg(1)), Then(StackPush(Reg(4)), End(Br(done))))
    else
      Then(Compute(4, if b == ADDMOD then Add(2 * TWO_256) else Mul(TWO_256 * TWO_256), Reg(0), Reg(1)),
        Then(Compute(5, RemU, Reg(4), Reg(2)),
          Then(Truncate(6, TWO_256, Reg(5)), Then(StackPush(Reg(6)), End(Br(done))))))
  }

  // ----- Memory -----

  /** Register 1 holds the offset and register 2 the size required; goes on to one of the two blocks below. */
  function ExtendStart(ext: nat, noExt: nat): Code {
    Then(MemorySize(3), Then(RoundUp(4, Reg(2)),
      Then(Compute(5, LessU, Reg(3), Reg(4)), End(CondBr(Reg(5), ext, noExt)))))
  }

  function Extension(fixed: nat, done: nat): Code {
    Then(Cost(6, Reg(3)), Then(Cost(7, Reg(4)),
      Then(Compute(8, Sub(TWO_64), Reg(7), Reg(6)),
        Then(Compute(9, Add(TWO_64), Reg(8), Imm(fixed)),
          Then(ConsumeGas(10, Reg(9)), Then(ExtendMemory(Reg(4)),
            End(CondBr(Reg(10), done, REVERT_BLOCK))))))))
  }

  function NoExtension(fixed: nat, done: nat): Code {
    Then(ConsumeGas(10, Imm(fixed)), End(CondBr(Reg(10), done, REVERT_BLOCK)))
  }

  function AccessOk(b: Byte, ext: nat, noExt: nat): Code {
    if b == MLOAD then
      Then(StackPop(0), Then(Truncate(1, TWO_32, Reg(0)),
        Then(Compute(2, Add(TWO_32), Reg(1), Imm(32)), ExtendStart(ext, noExt))))
    else if b == MSTORE then
      Then(StackPop(0), Then(StackPop(11), Then(Truncate(1, TWO_32, Reg(0)),
        Then(Compute(2, Add(TWO_32), Reg(1), Imm(32)), ExtendStart(ext, noExt)))))
    else
      Then(StackPop(0), Then(StackPop(11), Then(Truncate(12, 256, Reg(11)), Then(Truncate(1, TWO_32, Reg(0)),
        Then(Compute(2, Add(TWO_32), Reg(1), Imm(1)), ExtendStart(ext, noExt))))))
  }

  function Access(b: Byte, last: Terminator): Code {
    if b == MLOAD then Then(LoadWord(13, Reg(1)), Then(StackPush(Reg(13)), End(last)))
    else if b == MSTORE then Then(StoreWord(Reg(1), Reg(11)), End(last))
    else Then(StoreByte(Reg(1), Reg(12)), End(last))
  }

  function LeavingOk(ext: nat, noExt: nat): Code {
    Then(StackPop(0), Then(StackPop(11), Then(Truncate(1, TWO_32, Reg(0)), Then(Truncate(12, TWO_32, Reg(11)),
      Then(Compute(2, Add(TWO_32), Reg(1), Reg(12)), ExtendStart(ext, noExt))))))
  }

  function ExitWith(status: Status, offset: Operand, size: Operand): Code {
    Then(RemainingGas(14), End(Exit(status, Reg(14), offset, size)))
  }

  function StackOnly(count: nat, ok: nat): Code {
    Then(HasAtLeast(0, count), End(CondBr(Reg(0), ok, REVERT_BLOCK)))
  }

  // ----- One operation -----

  /** The blocks of `op`, numbered from `base`; the last one in the order of execution ends with `last`. */
  function Fragment(op: Operation, base: nat, last: Terminator): seq<Code>
    requires Core(op)
  {
    if op.Jumpdest? then [Landed(base + 1), End(last)]
    else if IsStraight(op) then [Guard(op, base + 1), Body(op, last)]
    else if op.Invalid? then [End(Br(REVERT_BLOCK)), End(last)]
    else BasicFragment(op.opcode, base, last)
  }

  function BasicFragment(b: Byte, base: nat, last: Terminator): seq<Code> {
    if IsDividing(b) then
      [Guard(Basic(b), base + 1), DividingOk(b, base + 2, base + 3),
       Then(StackPush(Imm(0)), End(Br(base + 4))), DividingBy(b, base + 4), End(last)]
    else if IsAccess(b) then
      [StackOnly(if b == MLOAD then 1 else 2, base + 1), AccessOk(b, base + 3, base + 4), Access(b, last),
       Extension(3, base + 2), NoExtension(3, base + 2)]
    else if IsLeaving(b) then
      [StackOnly(2, base + 1), LeavingOk(base + 3, base + 4),
       ExitWith(if b == RETURN then ReturnStatus else RevertStatus, Reg(1), Reg(12)),
       Extension(0, base + 2), NoExtension(0, base + 2), End(last)]
    else if b == JUMP then
      [Guard(Basic(b), base + 1), Then(StackPop(0), End(BrTable(Reg(0)))), End(last)]
    else if b == JUMPI then
      [Guard(Basic(b), base + 1),
       Then(StackPop(0), Then(StackPop(1), Then(Compute(3, NotEqual, Reg(1), Imm(0)),
         End(CondBrTable(Reg(3), Reg(0), base + 2))))),
       End(last)]
    else
      [ExitWith(StopStatus, Imm(0), Imm(0)), End(last)]
  }

  /** Which of its blocks an operation leaves open for the next one. */
  function OpenBlock(op: Operation): nat
    requires Core(op)
  {
    if op.Basic? && IsDividing(op.opcode) then 4
    else if op.Basic? && IsLeaving(op.opcode) then 5
    else if op.Basic? && (IsAccess(op.opcode) || op.opcode == JUMP || op.opcode == JUMPI) then 2
    else 1
  }

  // ----- A whole program -----

  predicate AllCore(ops: seq<Operation>) {
    forall i | 0 <= i < |ops| :: Core(ops[i])
  }

  function BlockCount(op: Operation): nat {
    if !op.Basic? then 2
    else if IsDividing(op.opcode) || IsAccess(op.opcode) then 5
    else if IsLeaving(op.opcode) then 6
    else if op.opcode == JUMP || op.opcode == JUMPI then 3
    else 2
  }

  lemma FragmentLength(op: Operation, base: nat, last: Terminator)
    requires Core(op)
    ensures |Fragment(op, base, last)| == BlockCount(op) > OpenBlock(op)
  {
  }

  /** The operations' blocks from `base` on, each operation linked to the block after its own. */
  function Linked(ops: seq<Operation>, base: nat): seq<Code>
    requires AllCore(ops)
  {
    if ops == [] then []
    else Fragment(ops[0], base, Br(base + BlockCount(ops[0]))) + Linked(ops[1..], base + BlockCount(ops[0]))
  }

  function RevertCode(): Code {
    Then(RemainingGas(0), Then(ConsumeGas(1, Reg(0)), End(Exit(ErrorStatus, Imm(0), Imm(0), Imm(0)))))
  }

  function SetupCode(last: Terminator): Code {
    Then(Setup, End(last))
  }

  const FIRST_OP: nat := 3

  function Table(ops: seq<Operation>): Code {
    End(Switch(JumpdestPcs(ops), Destinations(ops, FIRST_OP, BlockCount), REVERT_BLOCK))
  }

  function Compiled(ops: seq<Operation>): seq<Code>
    requires AllCore(ops)
  {
    [SetupCode(Br(FIRST_OP)), RevertCode(), Table(ops)]
    + Linked(ops, FIRST_OP)
    + [ExitWith(StopStatus, Imm(0), Imm(0))]
  }
}
