/** The generated blocks do what the interpreter does, operation by operation. */
module Simulation {
  import opened Primitives
  import opened Programs
  import opened Parsing
  import opened Memories
  import opened Stacks
  import opened Results
  import opened Interpreter
  import opened Target
  import opened Codegen
  import opened BlockRuns
  import opened JumpTables

  // ----- Where the blocks are -----

  predicate IsBlock(blocks: seq<Code>, b: nat, body: Code) {
    b < |blocks| && blocks[b] == body
  }

  ghost predicate Holds(blocks: seq<Code>, base: nat, fragment: seq<Code>) {
    forall i: nat | i < |fragment| :: IsBlock(blocks, base + i, fragment[i])
  }

  /** From block `base` on stands the code generated for the operations from `pc` on. */
  ghost predicate Laid(blocks: seq<Code>, code: Bytecode, pc: nat, base: nat)
    decreases |code| - pc
  {
    if pc >= |code| then base < |blocks| && blocks[base] == ExitWith(StopStatus, Imm(0), Imm(0))
    else
      var parsed := OneOp(code, pc);
      && Core(parsed.op)
      && Holds(blocks, base, Fragment(parsed.op, base, Br(base + BlockCount(parsed.op))))
      && Laid(blocks, code, parsed.next, base + BlockCount(parsed.op))
  }

  /** The revert block and the jump table are in place. */
  predicate HasTable(blocks: seq<Code>) {
    && |blocks| > TABLE
    && blocks[REVERT_BLOCK] == RevertCode()
    && blocks[TABLE].End? && blocks[TABLE].terminator.Switch?
    && |blocks[TABLE].terminator.cases| == |blocks[TABLE].terminator.destinations|
  }

  /** The block the table sends `dest` to. */
  function SentTo(blocks: seq<Code>, dest: nat): nat
    requires HasTable(blocks)
  {
    var t := blocks[TABLE].terminator;
    SwitchTarget(t.cases, t.destinations, t.default, dest)
  }

  /** The table turns away everything that is not a valid jump destination. */
  ghost predicate Guarded(blocks: seq<Code>, code: Bytecode) {
    HasTable(blocks) && forall dest: nat | dest !in JumpDestinations(code) :: SentTo(blocks, dest) == REVERT_BLOCK
  }

  /** And it sends every valid destination to the code generated for it. */
  ghost predicate Ready(blocks: seq<Code>, code: Bytecode) {
    && Guarded(blocks, code)
    && forall dest: nat | dest in JumpDestinations(code) :: Laid(blocks, code, dest, SentTo(blocks, dest))
  }

  ghost predicate Simulates(blocks: seq<Code>, code: Bytecode, c: Config, o: Outcome) {
    match o
    case Running(pc, s) => c.At? && Laid(blocks, code, pc, c.block) && Rel(c.m, s)
    case Halted(result) => c == Exited(result)
    case Undefined => c.Stuck?
  }

  /**
   The same for one operation, before it is known what stands in the blocks it leads to: control goes to
   block `after` for position `next`, or where the table sends a jump.
   */
  ghost predicate Follows(blocks: seq<Code>, code: Bytecode, c: Config, o: Outcome, next: nat, after: nat)
    requires HasTable(blocks)
  {
    match o
    case Running(pc, s) =>
      && c.At? && Rel(c.m, s)
      && ((pc == next && c.block == after) || (pc in JumpDestinations(code) && c.block == SentTo(blocks, pc)))
    case Halted(result) => c == Exited(result)
    case Undefined => c.Stuck?
  }

  // ----- The interpreter's side -----

  lemma QuietPays(op: Operation, s: State)
    requires !TouchesMemory(op) && |s.stack| >= Removed(op)
    ensures GasCost(op, s) == Fee(op)
    ensures Fee(op) <= s.gas ==> Paid(op, s) == s.(gas := s.gas - Fee(op))
  {
    assert RoundUp32(0) == 0;
  }

  /** The guard generated for an operation checks exactly what makes it halt, except for room on a DUP. */
  lemma StepGuarded(code: Bytecode, op: Operation, next: nat, s: State)
    requires Core(op) && Valid(op) && WellFormed(s) && !TouchesMemory(op)
    requires !op.Invalid? && !op.Jumpdest? && op != Basic(STOP)
    ensures StepOp(code, op, next, s) ==
            if !(CheckHolds(op, s) && s.gas >= FixedGas(op)) then Failure()
            else if op.Dup? && |s.stack| == STACK_LIMIT then Undefined
            else Execute(code, op, next, s.(gas := s.gas - FixedGas(op)))
    ensures CheckHolds(op, s) ==>
              |s.stack| >= Removed(op) && (op.Dup? || |s.stack| - Removed(op) + Added(op) <= STACK_LIMIT)
  {
    assert Fee(op) == FixedGas(op);
    if |s.stack| >= Removed(op) {
      QuietPays(op, s);
    }
  }

  // ----- The machine's side -----

  lemma RunTwo(blocks: seq<Code>, c: Config)
    ensures Run(blocks, 2, c) == Next(blocks, Next(blocks, c))
  {
    RunOne(blocks, Next(blocks, c));
  }

  lemma RunThree(blocks: seq<Code>, c: Config)
    ensures Run(blocks, 3, c) == Next(blocks, Next(blocks, Next(blocks, c)))
  {
    RunTwo(blocks, Next(blocks, c));
  }

  lemma RunFour(blocks: seq<Code>, c: Config)
    ensures Run(blocks, 4, c) == Next(blocks, Next(blocks, Next(blocks, Next(blocks, c))))
  {
    RunThree(blocks, Next(blocks, c));
  }

  /** From the revert block a run fails at once and for good. */
  lemma FromRevert(blocks: seq<Code>, code: Bytecode, c: Config)
    requires Guarded(blocks, code) && c.At? && c.block == REVERT_BLOCK
    ensures Next(blocks, c) == Exited(Failure().result)
  {
    RevertRuns(c.m);
  }

  /** A jump: the table sends control to the landing, or to the revert block. */
  lemma FromTable(blocks: seq<Code>, code: Bytecode, c: Config, dest: nat, s: State)
    requires Guarded(blocks, code) && Lands(c, TABLE, s) && c.m.arg == dest
    ensures var c' := Next(blocks, c);
            c'.At? && c'.m == c.m && c'.block == SentTo(blocks, dest)
  {
  }

  /** The guard block: on failure the run ends, otherwise the operation's fee has been paid. */
  lemma GuardSim(blocks: seq<Code>, code: Bytecode, op: Operation, base: nat, m: Machine, s: State) returns (c: Config)
    requires Guarded(blocks, code) && s.gas <= I64_MAX && Rel(m, s)
    requires IsBlock(blocks, base, Guard(op, base + 1))
    ensures c == Next(blocks, At(base, m))
    ensures if CheckHolds(op, s) && s.gas >= FixedGas(op)
            then Lands(c, base + 1, s.(gas := s.gas - FixedGas(op)))
            else Run(blocks, 2, At(base, m)) == Exited(Failure().result)
  {
    GuardRuns(op, base + 1, m, s);
    c := Next(blocks, At(base, m));
    if !(CheckHolds(op, s) && s.gas >= FixedGas(op)) {
      FromRevert(blocks, code, c);
      RunTwo(blocks, At(base, m));
    }
  }

  // ----- Straight operations -----

  lemma ExecuteStraight(code: Bytecode, op: Operation, next: nat, s: State)
    requires IsStraight(op) && Valid(op) && |s.stack| >= Removed(op)
    ensures Execute(code, op, next, s) == Running(next, s.(stack := NewStack(op, s)))
  {
  }

  lemma StraightSim(blocks: seq<Code>, code: Bytecode, op: Operation, next: nat, base: nat, m: Machine, s: State)
    requires Guarded(blocks, code) && Valid(op) && WellFormed(s) && Rel(m, s)
    requires IsStraight(op) && !op.Jumpdest?
    requires IsBlock(blocks, base, Guard(op, base + 1))
    requires IsBlock(blocks, base + 1, Body(op, Br(base + 2)))
    ensures Follows(blocks, code, Run(blocks, 2, At(base, m)), StepOp(code, op, next, s), next, base + 2)
  {
    StepGuarded(code, op, next, s);
    var c := GuardSim(blocks, code, op, base, m, s);
    if CheckHolds(op, s) && s.gas >= FixedGas(op) {
      RunTwo(blocks, At(base, m));
      StraightBody(blocks, code, op, next, base, c, s.(gas := s.gas - FixedGas(op)));
    }
  }

  /** A straight operation past its guard. */
  lemma StraightBody(blocks: seq<Code>, code: Bytecode, op: Operation, next: nat, base: nat, c: Config, s: State)
    requires HasTable(blocks) && Valid(op) && WellFormed(s) && Lands(c, base + 1, s) && IsStraight(op) && !op.Jumpdest?
    requires |s.stack| >= Removed(op) && (op.Dup? || |s.stack| - Removed(op) + Added(op) <= STACK_LIMIT)
    requires IsBlock(blocks, base + 1, Body(op, Br(base + 2)))
    ensures Follows(blocks, code, Next(blocks, c),
                    if op.Dup? && |s.stack| == STACK_LIMIT then Undefined else Execute(code, op, next, s),
                    next, base + 2)
  {
    ExecuteStraight(code, op, next, s);
    if op.Dup? {
      DupRuns(op.n, base + 2, c.m, s);
    } else {
      BodyRuns(op, base + 2, c.m, s);
    }
  }

  lemma StepLanding(code: Bytecode, op: Operation, next: nat, s: State)
    requires op.Jumpdest? && WellFormed(s)
    ensures StepOp(code, op, next, s) == if s.gas < 1 then Failure() else Running(next, s.(gas := s.gas - 1))
  {
    QuietPays(op, s);
  }

  lemma JumpdestSim(blocks: seq<Code>, code: Bytecode, op: Operation, next: nat, base: nat, m: Machine, s: State)
    requires Guarded(blocks, code) && WellFormed(s) && Rel(m, s) && op.Jumpdest?
    requires IsBlock(blocks, base, Landed(base + 1))
    requires IsBlock(blocks, base + 1, End(Br(base + 2)))
    ensures Follows(blocks, code, Run(blocks, 2, At(base, m)), StepOp(code, op, next, s), next, base + 2)
  {
    StepLanding(code, op, next, s);
    LandedRuns(base + 1, m, s);
    RunTwo(blocks, At(base, m));
    var c := Next(blocks, At(base, m));
    if s.gas < 1 {
      FromRevert(blocks, code, c);
    }
  }

  lemma InvalidSim(blocks: seq<Code>, code: Bytecode, next: nat, base: nat, m: Machine, s: State)
    requires Guarded(blocks, code) && WellFormed(s) && IsBlock(blocks, base, End(Br(REVERT_BLOCK)))
    ensures Follows(blocks, code, Run(blocks, 2, At(base, m)), StepOp(code, Invalid, next, s), next, base + 2)
  {
    RunTwo(blocks, At(base, m));
    FromRevert(blocks, code, Next(blocks, At(base, m)));
  }

  lemma StopSim(blocks: seq<Code>, base: nat, m: Machine, s: State)
    requires WellFormed(s) && Rel(m, s)
    requires IsBlock(blocks, base, ExitWith(StopStatus, Imm(0), Imm(0)))
    ensures Run(blocks, 1, At(base, m)) == Exited(Result(StopStatus, s.gas, []))
  {
    RunOne(blocks, At(base, m));
    ExitRuns(StopStatus, Imm(0), Imm(0), m, s);
    assert s.memory[0..0] == [];
  }

  // ----- Division -----

  predicate DivisionBlocks(blocks: seq<Code>, b: Byte, base: nat) {
    && IsBlock(blocks, base + 1, DividingOk(b, base + 2, base + 3))
    && IsBlock(blocks, base + 2, Then(StackPush(Imm(0)), End(Br(base + 4))))
    && IsBlock(blocks, base + 3, DividingBy(b, base + 4))
    && IsBlock(blocks, base + 4, End(Br(base + 5)))
  }

  lemma ExecuteDividing(code: Bytecode, b: Byte, next: nat, s: State)
    requires IsDividing(b) && |s.stack| >= Removed(Basic(b))
    ensures Execute(code, Basic(b), next, s) == Running(next, s.(stack := NewStack(Basic(b), s)))
  {
  }

  lemma DividingSim(
    blocks: seq<Code>, code: Bytecode, b: Byte, next: nat, base: nat, m: Machine, s: State)
    returns (k: nat)
    requires Guarded(blocks, code) && IsBasic(b) && IsDividing(b) && WellFormed(s) && Rel(m, s)
    requires IsBlock(blocks, base, Guard(Basic(b), base + 1))
    requires DivisionBlocks(blocks, b, base)
    ensures k > 0 && Follows(blocks, code, Run(blocks, k, At(base, m)), StepOp(code, Basic(b), next, s), next, base + 5)
  {
    var op := Basic(b);
    StepGuarded(code, op, next, s);
    var c := GuardSim(blocks, code, op, base, m, s);
    if !(CheckHolds(op, s) && s.gas >= FixedGas(op)) {
      k := 2;
    } else {
      ExecuteDividing(code, b, next, s.(gas := s.gas - FixedGas(op)));
      DivisionSim(blocks, b, base, c.m, s.(gas := s.gas - FixedGas(op)));
      RunFour(blocks, At(base, m));
      k := 4;
    }
  }

  lemma DivisionSim(blocks: seq<Code>, b: Byte, base: nat, m: Machine, s: State)
    requires IsBasic(b) && IsDividing(b) && Removed(Basic(b)) <= |s.stack| <= STACK_LIMIT && Rel(m, s)
    requires DivisionBlocks(blocks, b, base)
    ensures Lands(Next(blocks, Next(blocks, Next(blocks, At(base + 1, m)))), base + 5,
                  s.(stack := NewStack(Basic(b), s)))
  {
    DividingOkRuns(b, base + 2, base + 3, m, s);
    var c1 := Next(blocks, At(base + 1, m));
    assert c1 == Exec(DividingOk(b, base + 2, base + 3), m);
    QuotientSim(blocks, b, base, c1, s);
    var c2 := Next(blocks, c1);
    assert Next(blocks, c2) == Exec(End(Br(base + 5)), c2.m);
  }

  /** From the test of the divisor to the result on the stack. */
  lemma QuotientSim(blocks: seq<Code>, b: Byte, base: nat, c: Config, s: State)
    requires IsBasic(b) && IsDividing(b) && Removed(Basic(b)) <= |s.stack| <= STACK_LIMIT
    requires DivisionBlocks(blocks, b, base)
    requires Lands(c, if Divisor(b, s) == 0 then base + 2 else base + 3, s.(stack := Drop(s.stack, Removed(Basic(b)))))
    requires Loaded(b, c.m, s)
    ensures Lands(Next(blocks, c), base + 4, s.(stack := NewStack(Basic(b), s)))
  {
    if Divisor(b, s) == 0 {
      assert DividingValue(b, s) == 0;
      PushAndGo(c.m, Imm(0), base + 4, s.(stack := Drop(s.stack, Removed(Basic(b)))));
    } else if b == DIV || b == MOD {
      DivideRuns(b, base + 4, c.m, s);
    } else {
      ModularRuns(b, base + 4, c.m, s);
    }
  }

  // ----- Jumps -----

  lemma JumpSim(blocks: seq<Code>, code: Bytecode, next: nat, base: nat, m: Machine, s: State) returns (k: nat)
    requires Guarded(blocks, code) && WellFormed(s) && Rel(m, s)
    requires IsBlock(blocks, base, Guard(Basic(JUMP), base + 1))
    requires IsBlock(blocks, base + 1, Then(StackPop(0), End(BrTable(Reg(0)))))
    ensures k > 0 && Follows(blocks, code, Run(blocks, k, At(base, m)),
                             StepOp(code, Basic(JUMP), next, s), next, base + 3)
  {
    var op := Basic(JUMP);
    StepGuarded(code, op, next, s);
    var c := GuardSim(blocks, code, op, base, m, s);
    if !(CheckHolds(op, s) && s.gas >= FixedGas(op)) {
      k := 2;
    } else {
      var paid := s.(gas := s.gas - FixedGas(op));
      JumpRuns(c.m, paid);
      var c1 := Next(blocks, c);
      assert c1 == Exec(Then(StackPop(0), End(BrTable(Reg(0)))), c.m);
      k := TableSim(blocks, code, c1, Top(s, 0), paid.(stack := Drop(s.stack, 1)), next, base + 3);
      RunTwo(blocks, At(base, m));
      RunSum(blocks, 2, k, At(base, m));
      k := 2 + k;
    }
  }

  lemma TableSim(
    blocks: seq<Code>, code: Bytecode, c: Config, dest: nat, s: State, next: nat, after: nat) returns (k: nat)
    requires Guarded(blocks, code) && Lands(c, TABLE, s) && c.m.arg == dest
    ensures k > 0 && Follows(blocks, code, Run(blocks, k, c), JumpTo(code, dest, s), next, after)
  {
    FromTable(blocks, code, c, dest, s);
    if dest in JumpDestinations(code) {
      RunOne(blocks, c);
      k := 1;
    } else {
      FromRevert(blocks, code, Next(blocks, c));
      RunTwo(blocks, c);
      k := 2;
    }
  }

  lemma JumpiSim(blocks: seq<Code>, code: Bytecode, next: nat, base: nat, m: Machine, s: State) returns (k: nat)
    requires Guarded(blocks, code) && WellFormed(s) && Rel(m, s)
    requires IsBlock(blocks, base, Guard(Basic(JUMPI), base + 1))
    requires IsBlock(blocks, base + 1, Then(StackPop(0), Then(StackPop(1), Then(Compute(3, NotEqual, Reg(1), Imm(0)),
                                         End(CondBrTable(Reg(3), Reg(0), base + 2))))))
    requires IsBlock(blocks, base + 2, End(Br(base + 3)))
    ensures k > 0 && Follows(blocks, code, Run(blocks, k, At(base, m)),
                             StepOp(code, Basic(JUMPI), next, s), next, base + 3)
  {
    var op := Basic(JUMPI);
    StepGuarded(code, op, next, s);
    var c := GuardSim(blocks, code, op, base, m, s);
    if !(CheckHolds(op, s) && s.gas >= FixedGas(op)) {
      k := 2;
    } else {
      var paid := s.(gas := s.gas - FixedGas(op));
      assert StepOp(code, op, next, s) == Execute(code, op, next, paid);
      var j := BranchSim(blocks, code, next, base, c.m, paid);
      k := 1 + j;
      RunOne(blocks, At(base, m));
      RunSum(blocks, 1, j, At(base, m));
      assert c == At(base + 1, c.m);
    }
  }

  /** JUMPI past its guard. */
  lemma BranchSim(blocks: seq<Code>, code: Bytecode, next: nat, base: nat, m: Machine, s: State) returns (k: nat)
    requires Guarded(blocks, code) && Rel(m, s) && |s.stack| >= 2
    requires IsBlock(blocks, base + 1, Then(StackPop(0), Then(StackPop(1), Then(Compute(3, NotEqual, Reg(1), Imm(0)),
                                         End(CondBrTable(Reg(3), Reg(0), base + 2))))))
    requires IsBlock(blocks, base + 2, End(Br(base + 3)))
    ensures Follows(blocks, code, Run(blocks, k, At(base + 1, m)), Execute(code, Basic(JUMPI), next, s), next, base + 3)
  {
    JumpiRuns(base + 2, m, s);
    var c := Next(blocks, At(base + 1, m));
    if Top(s, 1) != 0 {
      k := TableSim(blocks, code, c, Top(s, 0), s.(stack := Drop(s.stack, 2)), next, base + 3);
      RunOne(blocks, At(base + 1, m));
      RunSum(blocks, 1, k, At(base + 1, m));
      k := 1 + k;
    } else {
      RunTwo(blocks, At(base + 1, m));
      k := 2;
    }
  }

  // ----- Memory -----

  /** A state with an operation's operands taken off. */
  function Taken(op: Operation, s: State): State
    requires |s.stack| >= Removed(op)
  {
    s.(stack := Drop(s.stack, Removed(op)))
  }

  predicate ExpansionBlocks(blocks: seq<Code>, op: Operation, base: nat) {
    && IsBlock(blocks, base + 3, Extension(Fee(op), base + 2))
    && IsBlock(blocks, base + 4, NoExtension(Fee(op), base + 2))
  }

  /** From the range to memory in place and paid for, or to the revert block. */
  lemma ExpansionSim(blocks: seq<Code>, op: Operation, base: nat, c: Config, s: State)
    requires TouchesMemory(op) && |s.stack| >= Removed(op) && WellFormed(s)
    requires ExpansionBlocks(blocks, op, base) && Ranged(op, c, base + 3, base + 4, s)
    ensures var c' := Next(blocks, c);
            && c'.At? && Prepared(op, c'.m, s)
            && (if s.gas >= GasCost(op, s)
                then 0 <= GasCost(op, s) && Lands(c', base + 2, Taken(op, Paid(op, s)))
                else c'.block == REVERT_BLOCK)
  {
    ExpansionFacts(s.memory, Required(op, s));
    if |s.memory| < RoundUp32(Required(op, s)) {
      ExtensionRuns(Fee(op), base + 2, c.m, Taken(op, s), Required(op, s));
    } else {
      NoExtensionRuns(Fee(op), base + 2, c.m, Taken(op, s));
    }
  }

  /** A memory operation halts exceptionally for want of operands or of gas, never for want of room. */
  lemma StepTouching(code: Bytecode, op: Operation, next: nat, s: State)
    requires Core(op) && Valid(op) && TouchesMemory(op) && WellFormed(s)
    ensures |s.stack| >= Removed(op) ==> 0 <= GasCost(op, s)
    ensures StepOp(code, op, next, s) ==
            if |s.stack| < Removed(op) || s.gas < GasCost(op, s) then Failure()
            else Execute(code, op, next, Paid(op, s))
  {
    if |s.stack| >= Removed(op) {
      ExpansionFacts(s.memory, Required(op, s));
    }
  }

  /** The first three blocks of a memory operation. */
  lemma TouchSim(blocks: seq<Code>, code: Bytecode, op: Operation, base: nat, m: Machine, s: State) returns (c: Config)
    requires Guarded(blocks, code) && TouchesMemory(op) && WellFormed(s) && Rel(m, s)
    requires IsBlock(blocks, base, StackOnly(Removed(op), base + 1))
    requires IsBlock(blocks, base + 1, RangeCode(op, base)) && ExpansionBlocks(blocks, op, base)
    ensures if |s.stack| < Removed(op) then Run(blocks, 2, At(base, m)) == Exited(Failure().result)
            else
              && c == Run(blocks, 3, At(base, m))
              && c.At? && Prepared(op, c.m, s)
              && (if s.gas >= GasCost(op, s)
                  then 0 <= GasCost(op, s) && Lands(c, base + 2, Taken(op, Paid(op, s)))
                  else c.block == REVERT_BLOCK)
  {
    StackOnlyRuns(Removed(op), base + 1, m, s);
    var c1 := Next(blocks, At(base, m));
    if |s.stack| < Removed(op) {
      FromRevert(blocks, code, c1);
      RunTwo(blocks, At(base, m));
      c := c1;
    } else {
      var c2 := Next(blocks, c1);
      RangeSim(op, base, c1.m, s);
      ExpansionSim(blocks, op, base, c2, s);
      RunThree(blocks, At(base, m));
      c := Next(blocks, c2);
    }
  }

  function RangeCode(op: Operation, base: nat): Code
    requires TouchesMemory(op)
  {
    if IsLeaving(op.opcode) then LeavingOk(base + 3, base + 4) else AccessOk(op.opcode, base + 3, base + 4)
  }

  lemma RangeSim(op: Operation, base: nat, m: Machine, s: State)
    requires TouchesMemory(op) && |s.stack| >= Removed(op) && Rel(m, s)
    ensures Ranged(op, Exec(RangeCode(op, base), m), base + 3, base + 4, s)
  {
    if IsLeaving(op.opcode) {
      LeavingOkRuns(op, base + 3, base + 4, m, s);
    } else if op.opcode == MLOAD {
      MloadOkRuns(base + 3, base + 4, m, s);
    } else if op.opcode == MSTORE {
      MstoreOkRuns(base + 3, base + 4, m, s);
    } else {
      Mstore8OkRuns(base + 3, base + 4, m, s);
    }
  }

  lemma ExecuteAccess(code: Bytecode, b: Byte, next: nat, s: State)
    requires IsAccess(b) && |s.stack| >= Removed(Basic(b))
    ensures Execute(code, Basic(b), next, s) == AccessMemory(b, next, s)
    ensures var o := AccessMemory(b, next, s); o.Undefined? || (o.Running? && o.pc == next)
  {
  }

  lemma AccessSim(
    blocks: seq<Code>, code: Bytecode, b: Byte, next: nat, base: nat, m: Machine, s: State)
    returns (k: nat)
    requires Guarded(blocks, code) && IsAccess(b) && WellFormed(s) && Rel(m, s)
    requires IsBlock(blocks, base, StackOnly(Removed(Basic(b)), base + 1))
    requires IsBlock(blocks, base + 1, RangeCode(Basic(b), base)) && ExpansionBlocks(blocks, Basic(b), base)
    requires IsBlock(blocks, base + 2, Access(b, Br(base + 5)))
    ensures k > 0 && Follows(blocks, code, Run(blocks, k, At(base, m)), StepOp(code, Basic(b), next, s), next, base + 5)
  {
    var op := Basic(b);
    StepTouching(code, op, next, s);
    var c := TouchSim(blocks, code, op, base, m, s);
    if |s.stack| < Removed(op) {
      k := 2;
    } else {
      k := 4;
      RunSum(blocks, 3, 1, At(base, m));
      RunOne(blocks, c);
      if s.gas < GasCost(op, s) {
        FromRevert(blocks, code, c);
      } else {
        ExecuteAccess(code, b, next, Paid(op, s));
        AccessRuns(b, base + 5, c.m, Paid(op, s));
      }
    }
  }

  lemma ExecuteLeaving(code: Bytecode, b: Byte, next: nat, s: State)
    requires IsLeaving(b) && |s.stack| >= 2
    ensures Execute(code, Basic(b), next, s) ==
            Halted(Result(if b == RETURN then ReturnStatus else RevertStatus, s.gas,
                          Reported(s.memory, Offset(s), Length(Basic(b), s))))
  {
  }

  lemma LeavingSim(
    blocks: seq<Code>, code: Bytecode, b: Byte, next: nat, base: nat, m: Machine, s: State)
    returns (k: nat)
    requires Guarded(blocks, code) && IsLeaving(b) && WellFormed(s) && Rel(m, s)
    requires IsBlock(blocks, base, StackOnly(Removed(Basic(b)), base + 1))
    requires IsBlock(blocks, base + 1, RangeCode(Basic(b), base)) && ExpansionBlocks(blocks, Basic(b), base)
    requires IsBlock(blocks, base + 2, ExitWith(if b == RETURN then ReturnStatus else RevertStatus, Reg(1), Reg(12)))
    ensures k > 0 && Follows(blocks, code, Run(blocks, k, At(base, m)), StepOp(code, Basic(b), next, s), next, base + 6)
  {
    var op := Basic(b);
    StepTouching(code, op, next, s);
    var c := TouchSim(blocks, code, op, base, m, s);
    if |s.stack| < Removed(op) {
      k := 2;
    } else {
      k := 4;
      RunSum(blocks, 3, 1, At(base, m));
      RunOne(blocks, c);
      if s.gas < GasCost(op, s) {
        FromRevert(blocks, code, c);
      } else {
        ExecuteLeaving(code, b, next, Paid(op, s));
        ExitRuns(if b == RETURN then ReturnStatus else RevertStatus, Reg(1), Reg(12), c.m, Taken(op, Paid(op, s)));
      }
    }
  }

  // ----- Any operation -----

  lemma FragmentOfBasic(b: Byte, base: nat, last: Terminator)
    requires Core(Basic(b)) && !IsStraight(Basic(b))
    ensures Fragment(Basic(b), base, last) == BasicFragment(b, base, last)
  {
  }

  /** One operation: some number of blocks does exactly what the interpreter does in one step. */
  lemma OpSim(
    blocks: seq<Code>, code: Bytecode, op: Operation, next: nat, base: nat, m: Machine, s: State)
    returns (k: nat)
    requires Guarded(blocks, code) && Core(op) && Valid(op) && WellFormed(s) && Rel(m, s)
    requires Holds(blocks, base, Fragment(op, base, Br(base + BlockCount(op))))
    ensures k > 0 && Follows(blocks, code, Run(blocks, k, At(base, m)),
                             StepOp(code, op, next, s), next, base + BlockCount(op))
  {
    if op.Basic? && !IsStraight(op) {
      k := BasicSim(blocks, code, op.opcode, next, base, m, s);
    } else {
      ShortSim(blocks, code, op, next, base, m, s);
      k := 2;
    }
  }

  /** The operations made of two blocks. */
  lemma ShortSim(blocks: seq<Code>, code: Bytecode, op: Operation, next: nat, base: nat, m: Machine, s: State)
    requires Guarded(blocks, code) && Core(op) && Valid(op) && WellFormed(s) && Rel(m, s)
    requires IsStraight(op) || op.Invalid?
    requires Holds(blocks, base, Fragment(op, base, Br(base + BlockCount(op))))
    ensures Follows(blocks, code, Run(blocks, 2, At(base, m)), StepOp(code, op, next, s), next, base + BlockCount(op))
  {
    assert BlockCount(op) == 2;
    var f := Fragment(op, base, Br(base + 2));
    assert IsBlock(blocks, base + 0, f[0]);
    assert IsBlock(blocks, base + 1, f[1]);
    if op.Jumpdest? {
      JumpdestSim(blocks, code, op, next, base, m, s);
    } else if op.Invalid? {
      InvalidSim(blocks, code, next, base, m, s);
    } else {
      StraightSim(blocks, code, op, next, base, m, s);
    }
  }

  lemma BasicSim(
    blocks: seq<Code>, code: Bytecode, b: Byte, next: nat, base: nat, m: Machine, s: State)
    returns (k: nat)
    requires Guarded(blocks, code) && WellFormed(s) && Rel(m, s)
    requires Core(Basic(b)) && !IsStraight(Basic(b)) && IsBasic(b)
    requires Holds(blocks, base, Fragment(Basic(b), base, Br(base + BlockCount(Basic(b)))))
    ensures k > 0 && Follows(blocks, code, Run(blocks, k, At(base, m)),
                             StepOp(code, Basic(b), next, s), next, base + BlockCount(Basic(b)))
  {
    var f := BasicFragment(b, base, Br(base + BlockCount(Basic(b))));
    FragmentOfBasic(b, base, Br(base + BlockCount(Basic(b))));
    if b == STOP {
      assert IsBlock(blocks, base + 0, f[0]);
      StopSim(blocks, base, m, s);
      StepStop(code, next, s);
      k := 1;
    } else if b == JUMP || b == JUMPI {
      k := JumpKindSim(blocks, code, b, next, base, m, s);
    } else if IsDividing(b) {
      k := DividingFrom(blocks, code, b, next, base, m, s);
    } else if IsAccess(b) {
      k := AccessFrom(blocks, code, b, next, base, m, s);
    } else {
      k := LeavingFrom(blocks, code, b, next, base, m, s);
    }
  }

  lemma JumpKindSim(
    blocks: seq<Code>, code: Bytecode, b: Byte, next: nat, base: nat, m: Machine, s: State)
    returns (k: nat)
    requires Guarded(blocks, code) && (b == JUMP || b == JUMPI) && WellFormed(s) && Rel(m, s)
    requires Holds(blocks, base, BasicFragment(b, base, Br(base + 3)))
    ensures k > 0 && Follows(blocks, code, Run(blocks, k, At(base, m)), StepOp(code, Basic(b), next, s), next, base + 3)
  {
    var f := BasicFragment(b, base, Br(base + 3));
    assert IsBlock(blocks, base + 0, f[0]);
    assert IsBlock(blocks, base + 1, f[1]);
    assert IsBlock(blocks, base + 2, f[2]);
    if b == JUMP {
      k := JumpSim(blocks, code, next, base, m, s);
    } else {
      k := JumpiSim(blocks, code, next, base, m, s);
    }
  }

  lemma FiveBlocks(blocks: seq<Code>, base: nat, f: seq<Code>)
    requires Holds(blocks, base, f) && |f| >= 5
    ensures IsBlock(blocks, base, f[0]) && IsBlock(blocks, base + 1, f[1]) && IsBlock(blocks, base + 2, f[2])
    ensures IsBlock(blocks, base + 3, f[3]) && IsBlock(blocks, base + 4, f[4])
  {
    assert IsBlock(blocks, base + 0, f[0]);
  }

  lemma DividingFrom(
    blocks: seq<Code>, code: Bytecode, b: Byte, next: nat, base: nat, m: Machine, s: State)
    returns (k: nat)
    requires Guarded(blocks, code) && IsDividing(b) && WellFormed(s) && Rel(m, s)
    requires Holds(blocks, base, BasicFragment(b, base, Br(base + 5)))
    ensures k > 0 && Follows(blocks, code, Run(blocks, k, At(base, m)), StepOp(code, Basic(b), next, s), next, base + 5)
  {
    FiveBlocks(blocks, base, BasicFragment(b, base, Br(base + 5)));
    k := DividingSim(blocks, code, b, next, base, m, s);
  }

  lemma AccessFrom(
    blocks: seq<Code>, code: Bytecode, b: Byte, next: nat, base: nat, m: Machine, s: State)
    returns (k: nat)
    requires Guarded(blocks, code) && IsAccess(b) && WellFormed(s) && Rel(m, s)
    requires Holds(blocks, base, BasicFragment(b, base, Br(base + 5)))
    ensures k > 0 && Follows(blocks, code, Run(blocks, k, At(base, m)), StepOp(code, Basic(b), next, s), next, base + 5)
  {
    FiveBlocks(blocks, base, BasicFragment(b, base, Br(base + 5)));
    k := AccessSim(blocks, code, b, next, base, m, s);
  }

  lemma LeavingFrom(
    blocks: seq<Code>, code: Bytecode, b: Byte, next: nat, base: nat, m: Machine, s: State)
    returns (k: nat)
    requires Guarded(blocks, code) && IsLeaving(b) && WellFormed(s) && Rel(m, s)
    requires Holds(blocks, base, BasicFragment(b, base, Br(base + 6)))
    ensures k > 0 && Follows(blocks, code, Run(blocks, k, At(base, m)), StepOp(code, Basic(b), next, s), next, base + 6)
  {
    FiveBlocks(blocks, base, BasicFragment(b, base, Br(base + 6)));
    k := LeavingSim(blocks, code, b, next, base, m, s);
  }

  lemma StepStop(code: Bytecode, next: nat, s: State)
    requires WellFormed(s)
    ensures StepOp(code, Basic(STOP), next, s) == Halted(Result(StopStatus, s.gas, []))
  {
    QuietPays(Basic(STOP), s);
  }

  // ----- Whole runs -----

  lemma FollowsSimulates(blocks: seq<Code>, code: Bytecode, c: Config, o: Outcome, next: nat, after: nat)
    requires Ready(blocks, code) && Laid(blocks, code, next, after)
    requires Follows(blocks, code, c, o, next, after)
    ensures Simulates(blocks, code, c, o)
  {
  }

  lemma StepSim(blocks: seq<Code>, code: Bytecode, pc: nat, base: nat, m: Machine, s: State) returns (k: nat)
    requires Ready(blocks, code) && CoreCode(code) && Reachable(code, Running(pc, s))
    requires Laid(blocks, code, pc, base) && Rel(m, s)
    ensures k > 0 && Simulates(blocks, code, Run(blocks, k, At(base, m)), Step(code, pc, s))
  {
    if pc >= |code| {
      StopSim(blocks, base, m, s);
      k := 1;
    } else {
      OneOpFacts(code, pc);
      var op, next := OneOp(code, pc).op, OneOp(code, pc).next;
      k := OpSim(blocks, code, op, next, base, m, s);
      FollowsSimulates(blocks, code, Run(blocks, k, At(base, m)), StepOp(code, op, next, s),
                       next, base + BlockCount(op));
    }
  }

  /** After any number of interpreter steps there is a point in the machine's run that stands for the same state. */
  lemma {:induction false} RunSim(blocks: seq<Code>, code: Bytecode, n: nat, c: Config, o: Outcome) returns (k: nat)
    requires Ready(blocks, code) && CoreCode(code) && Reachable(code, o)
    requires Simulates(blocks, code, c, o)
    ensures Simulates(blocks, code, Run(blocks, k, c), Interpret(code, n, o))
    ensures Interpret(code, n, o).Running? ==> k >= n
    decreases n
  {
    if n == 0 || !o.Running? {
      k := 0;
    } else {
      var j := StepSim(blocks, code, o.pc, c.block, c.m, o.s);
      StepKeeps(code, o.pc, o.s);
      var i := RunSim(blocks, code, n - 1, Run(blocks, j, c), Step(code, o.pc, o.s));
      RunSum(blocks, j, i, c);
      k := j + i;
    }
  }
}
