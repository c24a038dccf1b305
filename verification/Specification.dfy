/** The core subset as the Yellow Paper has it, with offsets and lengths of any size, and where the code meets it. */
module Specification {
  import opened Arithmetic
  import opened Primitives
  import opened Programs
  import opened Parsing
  import opened Memories
  import opened Results
  import opened Interpreter

  // ----- Memory, uncut -----

  function WholeLength(op: Operation, s: State): nat
    requires |s.stack| >= Removed(op)
  {
    match op
    case Basic(b) => if b == MSTORE8 then 1 else if IsLeaving(b) then Top(s, 1) else 32
    case _ => 0
  }

  /** The words in use after an operation: M of appendix H. */
  function WordsAfter(op: Operation, s: State): nat
    requires |s.stack| >= Removed(op)
  {
    if TouchesMemory(op) then ActiveWords(|s.memory| / 32, Top(s, 0), WholeLength(op, s)) else |s.memory| / 32
  }

  function WholeCost(op: Operation, s: State): int
    requires |s.stack| >= Removed(op)
  {
    Fee(op) + WordsCost(WordsAfter(op, s)) - WordsCost(|s.memory| / 32)
  }

  lemma WordsGrow(op: Operation, s: State)
    requires |s.stack| >= Removed(op)
    ensures WordsAfter(op, s) >= |s.memory| / 32 && WholeCost(op, s) >= Fee(op)
    ensures TouchesMemory(op) && WholeLength(op, s) > 0 ==>
              Top(s, 0) + WholeLength(op, s) <= 32 * WordsAfter(op, s)
  {
    CostMonotone(|s.memory| / 32, WordsAfter(op, s));
  }

  predicate Sound(s: State) {
    |s.stack| <= STACK_LIMIT && |s.memory| % 32 == 0
  }

  function Covered(op: Operation, s: State): State
    requires |s.stack| >= Removed(op) && WholeCost(op, s) <= s.gas && Sound(s)
  {
    WordsGrow(op, s);
    s.(gas := s.gas - WholeCost(op, s), memory := Resized(s.memory, 32 * WordsAfter(op, s)))
  }

  // ----- One operation -----

  function WholeAccess(b: Byte, next: nat, s: State): Outcome
    requires IsAccess(b) && |s.stack| >= Removed(Basic(b))
    requires Top(s, 0) + WholeLength(Basic(b), s) <= |s.memory|
  {
    if b == MLOAD then
      var bytes := s.memory[Top(s, 0)..Top(s, 0) + 32];
      Running(next, s.(stack := Drop(s.stack, 1) + [FromBytes(bytes) % TWO_256]))
    else
      Running(next, s.(stack := Drop(s.stack, 2), memory := Overwritten(s.memory, Top(s, 0), Stored(b, Top(s, 1)))))
  }

  /** An empty range returns nothing, wherever it lies. */
  function WholeResult(b: Byte, s: State): Result
    requires IsLeaving(b) && |s.stack| >= 2
  {
    Result(if b == RETURN then ReturnStatus else RevertStatus, s.gas,
           if Top(s, 1) == 0 then [] else Reported(s.memory, Top(s, 0), Top(s, 1)))
  }

  ghost function Perform(code: Bytecode, op: Operation, next: nat, s: State): Outcome
    requires Core(op) && Valid(op) && !op.Invalid? && |s.stack| >= Removed(op)
    requires op.Basic? && IsAccess(op.opcode) ==> Top(s, 0) + WholeLength(op, s) <= |s.memory|
  {
    if op.Basic? && IsLeaving(op.opcode) then Halted(WholeResult(op.opcode, s))
    else if op.Basic? && IsAccess(op.opcode) then WholeAccess(op.opcode, next, s)
    else Execute(code, op, next, s)
  }

  /** One operation, as sections 9.4 and appendix H define it. Too little room is always exceptional. */
  ghost function SpecifiedStep(code: Bytecode, op: Operation, next: nat, s: State): Outcome
    requires Core(op) && Valid(op) && Sound(s)
  {
    if op.Invalid? || |s.stack| < Removed(op) then Failure()
    else if s.gas < WholeCost(op, s) then Failure()
    else if |s.stack| - Removed(op) + Added(op) > STACK_LIMIT then Failure()
    else
      WordsGrow(op, s);
      Perform(code, op, next, Covered(op, s))
  }

  // ----- Where the code meets it -----

  predicate EmptyRange(op: Operation, s: State)
    requires |s.stack| >= Removed(op)
  {
    op.Basic? && IsLeaving(op.opcode) && Top(s, 1) == 0
  }

  /** The operands stay where the generated code treats them as the Yellow Paper does. */
  predicate InReach(op: Operation, s: State)
    requires |s.stack| >= Removed(op)
  {
    && (op.Dup? ==> |s.stack| < STACK_LIMIT)
    && (op.Basic? && IsAccess(op.opcode) ==> Top(s, 0) < TWO_31)
    && (op.Basic? && IsLeaving(op.opcode) ==> Fits(Top(s, 0) + Top(s, 1)))
  }

  /**
   The condition, on the operands and the size of memory: an empty range must not make memory grow; anything
   else must be in reach, or fail for want of gas already at the code's price.
   */
  predicate Right(op: Operation, s: State) {
    || op.Invalid? || |s.stack| < Removed(op)
    || (if EmptyRange(op, s) then Offset(s) <= |s.memory| || !Fits(Offset(s))
        else s.gas < GasCost(op, s) || InReach(op, s))
  }

  lemma CostGrows(words: nat, more: nat)
    requires words < more
    ensures WordsCost(words) < WordsCost(more)
  {
    CostMonotone(words, more);
    SquareBound(words, more);
  }

  // An operation that leaves memory alone.

  lemma QuietAgrees(code: Bytecode, op: Operation, next: nat, s: State)
    requires Core(op) && Valid(op) && WellFormed(s) && !TouchesMemory(op)
    ensures StepOp(code, op, next, s) == SpecifiedStep(code, op, next, s) <==> Right(op, s)
  {
    if !op.Invalid? && |s.stack| >= Removed(op) {
      assert RoundUp32(0) == 0;
      assert GasCost(op, s) == WholeCost(op, s) == Fee(op);
      if s.gas >= Fee(op) {
        assert Resized(s.memory, 32 * (|s.memory| / 32)) == s.memory;
        assert Covered(op, s) == Paid(op, s);
      }
    }
  }

  // An operation that uses memory within reach.

  /** Uncut operands whose range fits in 32 bits are cut to themselves, and cost the same. */
  lemma FittingCost(op: Operation, s: State)
    requires TouchesMemory(op) && |s.stack| >= Removed(op) && Aligned(s.memory)
    requires WholeLength(op, s) > 0 && Fits(Top(s, 0) + WholeLength(op, s))
    ensures Offset(s) == Top(s, 0) && Length(op, s) == WholeLength(op, s)
    ensures |Expanded(s.memory, Required(op, s))| == 32 * WordsAfter(op, s)
    ensures GasCost(op, s) == WholeCost(op, s)
  {
    var end := Top(s, 0) + WholeLength(op, s);
    SmallMod(Top(s, 0));
    SmallMod(WholeLength(op, s));
    SmallMod(end);
    ExpandsAsSpecified(s.memory, Top(s, 0), WholeLength(op, s));
    ExpansionFacts(s.memory, end);
  }

  lemma SameMemory(op: Operation, s: State)
    requires |s.stack| >= Removed(op) && Aligned(s.memory)
    requires |Expanded(s.memory, Required(op, s))| == 32 * WordsAfter(op, s)
    ensures 32 * WordsAfter(op, s) >= |s.memory|
    ensures Expanded(s.memory, Required(op, s)) == Resized(s.memory, 32 * WordsAfter(op, s))
  {
    WordsGrow(op, s);
  }

  lemma InReachAgrees(code: Bytecode, op: Operation, next: nat, s: State)
    requires Valid(op) && WellFormed(s) && TouchesMemory(op) && |s.stack| >= Removed(op)
    requires !EmptyRange(op, s) && InReach(op, s)
    ensures StepOp(code, op, next, s) == SpecifiedStep(code, op, next, s)
  {
    FittingCost(op, s);
    SameMemory(op, s);
    WordsGrow(op, s);
    ExpansionFacts(s.memory, Required(op, s));
    if s.gas >= GasCost(op, s) {
      assert Paid(op, s) == Covered(op, s);
      PerformAgrees(code, op, next, Covered(op, s));
    }
  }

  lemma PerformAgrees(code: Bytecode, op: Operation, next: nat, s: State)
    requires Valid(op) && TouchesMemory(op) && |s.stack| >= Removed(op)
    requires Offset(s) == Top(s, 0) && Length(op, s) == WholeLength(op, s) > 0
    requires Top(s, 0) + WholeLength(op, s) <= |s.memory|
    requires IsAccess(op.opcode) ==> Top(s, 0) < TWO_31
    ensures Execute(code, op, next, s) == Perform(code, op, next, s)
  {
  }

  // Out of reach.

  /** Beyond 32 bits the Yellow Paper's memory is larger than any the code makes. */
  lemma BeyondGrows(op: Operation, s: State)
    requires TouchesMemory(op) && |s.stack| >= Removed(op) && Aligned(s.memory)
    requires WholeLength(op, s) > 0 && !Fits(Top(s, 0) + WholeLength(op, s))
    ensures |Expanded(s.memory, Required(op, s))| / 32 < WordsAfter(op, s)
    ensures GasCost(op, s) < WholeCost(op, s) && 32 * WordsAfter(op, s) > TWO_32 - 32
  {
    ExpansionFacts(s.memory, Required(op, s));
    WordsGrow(op, s);
    CostGrows(|Expanded(s.memory, Required(op, s))| / 32, WordsAfter(op, s));
  }

  /** At no price less than the code's does the Yellow Paper's operation go ahead. */
  lemma NeverCheaper(op: Operation, s: State)
    requires TouchesMemory(op) && |s.stack| >= Removed(op) && Aligned(s.memory) && WholeLength(op, s) > 0
    ensures GasCost(op, s) <= WholeCost(op, s)
  {
    if Fits(Top(s, 0) + WholeLength(op, s)) {
      FittingCost(op, s);
    } else {
      BeyondGrows(op, s);
    }
  }

  /** An access the code can pay for goes on exactly when its cut offset is below 2^31. */
  lemma AccessGoesOn(code: Bytecode, op: Operation, next: nat, s: State)
    requires Valid(op) && WellFormed(s) && op.Basic? && IsAccess(op.opcode) && |s.stack| >= Removed(op)
    requires s.gas >= GasCost(op, s)
    ensures var o := StepOp(code, op, next, s);
            if Offset(s) < TWO_31 then o.Running? else o.Undefined?
  {
    UndefinedExactly(code, op, next, s);
  }

  lemma SpecifiedIsDefined(code: Bytecode, op: Operation, next: nat, s: State)
    requires Valid(op) && WellFormed(s) && op.Basic? && IsAccess(op.opcode)
    ensures !SpecifiedStep(code, op, next, s).Undefined?
  {
  }

  lemma AccessDiffers(code: Bytecode, op: Operation, next: nat, s: State)
    requires Valid(op) && WellFormed(s) && op.Basic? && IsAccess(op.opcode) && |s.stack| >= Removed(op)
    requires Top(s, 0) >= TWO_31 && s.gas >= GasCost(op, s)
    ensures StepOp(code, op, next, s) != SpecifiedStep(code, op, next, s)
  {
    AccessGoesOn(code, op, next, s);
    if Offset(s) >= TWO_31 {
      SpecifiedIsDefined(code, op, next, s);
    } else {
      CutGrows(op, s);
      StepSize(code, op, next, s);
    }
  }

  /** An offset that the cut brings below 2^31 was beyond 32 bits. */
  lemma CutGrows(op: Operation, s: State)
    requires op.Basic? && IsAccess(op.opcode) && |s.stack| >= Removed(op) && Aligned(s.memory)
    requires Top(s, 0) >= TWO_31 && Offset(s) < TWO_31
    ensures 32 * WordsAfter(op, s) > TWO_32 - 32
  {
    BeyondGrows(op, s);
  }

  /** An access leaves memory as long as it was made for it. */
  lemma StepSize(code: Bytecode, op: Operation, next: nat, s: State)
    requires Valid(op) && WellFormed(s) && op.Basic? && IsAccess(op.opcode) && |s.stack| >= Removed(op)
    ensures var o := StepOp(code, op, next, s); o.Running? ==> |o.s.memory| <= TWO_32 - 32
    ensures var o := SpecifiedStep(code, op, next, s); o.Running? ==> |o.s.memory| == 32 * WordsAfter(op, s)
  {
    ExpansionFacts(s.memory, Required(op, s));
    WordsGrow(op, s);
  }

  lemma LeavingDiffers(code: Bytecode, op: Operation, next: nat, s: State)
    requires Valid(op) && WellFormed(s) && op.Basic? && IsLeaving(op.opcode) && |s.stack| >= 2
    requires Top(s, 1) > 0 && !Fits(Top(s, 0) + Top(s, 1)) && s.gas >= GasCost(op, s)
    ensures StepOp(code, op, next, s) != SpecifiedStep(code, op, next, s)
  {
    BeyondGrows(op, s);
    WordsGrow(op, s);
  }

  // The empty range.

  lemma EmptyRangeAgrees(code: Bytecode, op: Operation, next: nat, s: State)
    requires Valid(op) && WellFormed(s) && |s.stack| >= Removed(op) && EmptyRange(op, s)
    ensures StepOp(code, op, next, s) == SpecifiedStep(code, op, next, s) <==>
            Offset(s) <= |s.memory| || !Fits(Offset(s))
  {
    assert Required(op, s) == Offset(s) by {
      assert Offset(s) % TWO_32 == Offset(s);
    }
    ExpansionFacts(s.memory, Offset(s));
    assert WholeCost(op, s) == 0;
    EmptyRangeCost(s.memory, Offset(s));
    assert Reported(Expanded(s.memory, Offset(s)), Offset(s), 0) == [];
  }

  /** Whether an empty range at `offset` makes the code charge for memory. */
  lemma EmptyRangeCost(memory: Memory, offset: nat)
    requires Aligned(memory) && offset < TWO_32
    ensures ExpansionGas(memory, offset) == 0 <==> offset <= |memory| || !Fits(offset)
  {
    if Fits(offset) {
      RoundUpIsExact(offset);
      if |memory| < RoundUp32(offset) {
        AlignedCost(|memory|);
        AlignedCost(RoundUp32(offset));
        CostGrows(|memory| / 32, RoundUp32(offset) / 32);
      }
    } else {
      RoundUpWraps(offset);
    }
  }

  // ----- The theorem -----

  /**
   For every operation of the core subset and every state: the generated code does what the Yellow Paper
   says if and only if the operands are right.
   */
  lemma MeetsSpecificationExactly(code: Bytecode, op: Operation, next: nat, s: State)
    requires Core(op) && Valid(op) && WellFormed(s)
    ensures StepOp(code, op, next, s) == SpecifiedStep(code, op, next, s) <==> Right(op, s)
  {
    if !TouchesMemory(op) {
      QuietAgrees(code, op, next, s);
    } else if |s.stack| >= Removed(op) {
      if EmptyRange(op, s) {
        EmptyRangeAgrees(code, op, next, s);
      } else if s.gas < GasCost(op, s) {
        NeverCheaper(op, s);
      } else if InReach(op, s) {
        InReachAgrees(code, op, next, s);
      } else if IsAccess(op.opcode) {
        AccessDiffers(code, op, next, s);
      } else {
        LeavingDiffers(code, op, next, s);
      }
    }
  }

  // ----- Operands in the code -----

  /** A byte of the code, zero beyond its end. */
  function CodeByte(code: Bytecode, p: nat): Byte {
    if p < |code| then code[p] else 0
  }

  function PushData(code: Bytecode, pc: nat, size: nat): (data: Bytecode)
    ensures |data| == size && forall k: nat | k < size :: data[k] == CodeByte(code, pc + 1 + k)
  {
    if size == 0 then [] else PushData(code, pc, size - 1) + [CodeByte(code, pc + size)]
  }

  /** The operation at `pc`. A PUSH has all its bytes, zeros where the code has ended. */
  function WholeOp(code: Bytecode, pc: nat): Operation
    requires pc < |code|
  {
    if IsPush(code[pc]) then Push(code[pc] - PUSH0, FromBytes(PushData(code, pc, code[pc] - PUSH0)))
    else OneOp(code, pc).op
  }

  function Missing(code: Bytecode, pc: nat): nat
    requires pc < |code|
  {
    var next := OneOp(code, pc).next;
    if next > |code| then next - |code| else 0
  }

  lemma {:induction false} ShiftedBytes(data: Bytecode, n: nat)
    ensures FromBytes(data + Zeros(n)) == FromBytes(data) * Pow256(n)
  {
    if n == 0 {
      assert data + Zeros(0) == data;
    } else {
      var bytes := data + Zeros(n);
      assert bytes[..|bytes| - 1] == data + Zeros(n - 1);
      ShiftedBytes(data, n - 1);
      assert FromBytes(data) * (256 * Pow256(n - 1)) == 256 * (FromBytes(data) * Pow256(n - 1));
    }
  }

  lemma PaddedData(code: Bytecode, pc: nat, size: nat, end: nat, missing: nat)
    requires pc < end <= |code| && end + missing == pc + 1 + size && (missing > 0 ==> end == |code|)
    ensures PushData(code, pc, size) == code[pc + 1..end] + Zeros(missing)
    ensures FromBytes(PushData(code, pc, size)) == FromBytes(code[pc + 1..end]) * Pow256(missing)
  {
    assert PushData(code, pc, size) == code[pc + 1..end] + Zeros(missing);
    ShiftedBytes(code[pc + 1..end], missing);
  }

  /** The value the parser reads lacks a factor of 256 for every byte that is missing. */
  lemma WholePush(code: Bytecode, pc: nat)
    requires pc < |code| && IsPush(code[pc])
    ensures var op, whole := OneOp(code, pc).op, WholeOp(code, pc);
            op.Push? && Valid(whole) && whole == Push(op.size, op.value * Pow256(Missing(code, pc)))
  {
    var size := code[pc] - PUSH0;
    PaddedData(code, pc, size, Min(|code|, pc + 1 + size), Missing(code, pc));
    FromBytesBound(PushData(code, pc, size));
  }

  lemma WholeOpFacts(code: Bytecode, pc: nat)
    requires pc < |code|
    ensures var op := OneOp(code, pc).op;
            && Valid(WholeOp(code, pc)) && (Core(op) ==> Core(WholeOp(code, pc)))
            && WholeOp(code, pc) == if op.Push? then Push(op.size, op.value * Pow256(Missing(code, pc))) else op
  {
    OneOpFacts(code, pc);
    if IsPush(code[pc]) {
      WholePush(code, pc);
    }
  }

  /** A PUSH cut off by the end of the code goes unnoticed if the bytes there are zero, or if it fails anyway. */
  predicate PushIsWhole(code: Bytecode, pc: nat, s: State)
    requires pc < |code|
  {
    var op := OneOp(code, pc).op;
    op.Push? && Missing(code, pc) > 0 ==> op.value == 0 || |s.stack| == STACK_LIMIT || s.gas < Fee(op)
  }

  lemma PushRuns(code: Bytecode, op: Operation, next: nat, s: State)
    requires Valid(op) && op.Push? && WellFormed(s)
    ensures StepOp(code, op, next, s) ==
            if s.gas < Fee(op) || |s.stack| == STACK_LIMIT then Failure()
            else Running(next, s.(stack := s.stack + [op.value % TWO_256], gas := s.gas - Fee(op)))
    ensures StepOp(code, op, next, s) == SpecifiedStep(code, op, next, s)
  {
    QuietAgrees(code, op, next, s);
    assert RoundUp32(0) == 0;
    if s.gas >= Fee(op) {
      assert Paid(op, s) == s.(gas := s.gas - Fee(op));
      assert Drop(s.stack, 0) == s.stack;
    }
  }

  lemma PushFits(op: Operation)
    requires Valid(op) && op.Push?
    ensures op.value % TWO_256 == op.value
  {
    Pow256Monotone(op.size, 32);
    Pow256Of32();
  }

  lemma ScaledDiffers(value: nat, n: nat)
    ensures value * Pow256(n) == value <==> value == 0 || n == 0
  {
    if value > 0 && n > 0 {
      Pow256Monotone(1, n);
      MulMonotone(256, Pow256(n), value);
    }
  }

  lemma DistinctPushes(code: Bytecode, size: nat, value: nat, other: nat, next: nat, s: State)
    requires Valid(Push(size, value)) && Valid(Push(size, other)) && WellFormed(s)
    ensures StepOp(code, Push(size, value), next, s) == StepOp(code, Push(size, other), next, s) <==>
            value == other || |s.stack| == STACK_LIMIT || s.gas < Fee(Push(size, value))
  {
    PushRuns(code, Push(size, value), next, s);
    PushRuns(code, Push(size, other), next, s);
    PushFits(Push(size, value));
    PushFits(Push(size, other));
    if value != other && |s.stack| < STACK_LIMIT {
      assert (s.stack + [value])[|s.stack|] != (s.stack + [other])[|s.stack|];
    }
  }

  lemma PushMeetsExactly(code: Bytecode, pc: nat, s: State)
    requires pc < |code| && OneOp(code, pc).op.Push? && WellFormed(s)
    ensures Valid(OneOp(code, pc).op) && Valid(WholeOp(code, pc)) && WholeOp(code, pc).Push?
    ensures PushIsWhole(code, pc, s) <==>
            StepOp(code, OneOp(code, pc).op, OneOp(code, pc).next, s) ==
            SpecifiedStep(code, WholeOp(code, pc), OneOp(code, pc).next, s)
  {
    OneOpFacts(code, pc);
    WholeOpFacts(code, pc);
    var op := OneOp(code, pc).op;
    var whole := WholeOp(code, pc);
    ScaledDiffers(op.value, Missing(code, pc));
    DistinctPushes(code, op.size, op.value, whole.value, OneOp(code, pc).next, s);
    PushRuns(code, whole, OneOp(code, pc).next, s);
  }

  // ----- Whole runs -----

  ghost predicate Standing(code: Bytecode, o: Outcome) {
    o.Running? ==> Sound(o.s) && (o.pc < |code| ==> o.pc in Positions(code, 0))
  }

  ghost function Specified(code: Bytecode, pc: nat, s: State): Outcome
    requires CoreCode(code) && Standing(code, Running(pc, s))
  {
    if pc >= |code| then Halted(Result(StopStatus, s.gas, []))
    else
      WholeOpFacts(code, pc);
      SpecifiedStep(code, WholeOp(code, pc), OneOp(code, pc).next, s)
  }

  lemma PerformKeeps(code: Bytecode, op: Operation, next: nat, s: State)
    requires Core(op) && Valid(op) && !op.Invalid? && |s.stack| >= Removed(op) && |s.memory| % 32 == 0
    requires op.Basic? && IsAccess(op.opcode) ==> Top(s, 0) + WholeLength(op, s) <= |s.memory|
    requires |s.stack| - Removed(op) + Added(op) <= STACK_LIMIT
    ensures var o := Perform(code, op, next, s);
            o.Running? ==> Sound(o.s) && (o.pc == next || o.pc in JumpDestinations(code))
  {
  }

  lemma SpecifiedStepKeeps(code: Bytecode, op: Operation, next: nat, s: State)
    requires Core(op) && Valid(op) && Sound(s)
    ensures var o := SpecifiedStep(code, op, next, s);
            o.Running? ==> Sound(o.s) && (o.pc == next || o.pc in JumpDestinations(code))
  {
    if |s.stack| >= Removed(op) && !op.Invalid? && WholeCost(op, s) <= s.gas {
      if |s.stack| - Removed(op) + Added(op) <= STACK_LIMIT {
        var covered := CoveredFacts(op, s);
        PerformKeeps(code, op, next, covered);
      }
    }
  }

  lemma CoveredFacts(op: Operation, s: State) returns (covered: State)
    requires |s.stack| >= Removed(op) && WholeCost(op, s) <= s.gas && Sound(s)
    ensures covered == Covered(op, s) && covered.stack == s.stack && |covered.memory| % 32 == 0
    ensures op.Basic? && IsAccess(op.opcode) ==> Top(covered, 0) + WholeLength(op, covered) <= |covered.memory|
  {
    WordsGrow(op, s);
    covered := Covered(op, s);
  }

  lemma NextStands(code: Bytecode, pc: nat, o: Outcome)
    requires pc in Positions(code, 0) && pc < |code|
    requires o.Running? ==> Sound(o.s) && (o.pc == OneOp(code, pc).next || o.pc in JumpDestinations(code))
    ensures Standing(code, o)
  {
    OneOpFacts(code, pc);
    NextIsPosition(code, 0, pc);
  }

  lemma SpecifiedKeeps(code: Bytecode, pc: nat, s: State)
    requires CoreCode(code) && Standing(code, Running(pc, s))
    ensures Standing(code, Specified(code, pc, s))
  {
    if pc < |code| {
      WholeOpFacts(code, pc);
      SpecifiedStepKeeps(code, WholeOp(code, pc), OneOp(code, pc).next, s);
      NextStands(code, pc, Specified(code, pc, s));
    }
  }

  ghost function SpecifiedRun(code: Bytecode, n: nat, o: Outcome): Outcome
    requires CoreCode(code) && Standing(code, o)
  {
    if n == 0 || !o.Running? then o
    else
      SpecifiedKeeps(code, o.pc, o.s);
      SpecifiedRun(code, n - 1, Specified(code, o.pc, o.s))
  }

  /** The next operation of a running state has the right operands on the stack. */
  ghost predicate RightOperands(code: Bytecode, o: Outcome)
    requires CoreCode(code) && Reachable(code, o)
  {
    o.Running? && o.pc < |code| ==> Right(OneOp(code, o.pc).op, o.s)
  }

  /** And in the code. */
  ghost predicate RightNow(code: Bytecode, o: Outcome)
    requires CoreCode(code) && Reachable(code, o)
  {
    RightOperands(code, o) && (o.Running? && o.pc < |code| ==> PushIsWhole(code, o.pc, o.s))
  }

  /** So has each of the first `n` operations of a run. */
  ghost predicate RightRun(code: Bytecode, n: nat, o: Outcome)
    requires CoreCode(code) && Reachable(code, o)
  {
    n == 0 || !o.Running? ||
    (RightNow(code, o) && (StepKeeps(code, o.pc, o.s); RightRun(code, n - 1, Step(code, o.pc, o.s))))
  }

  lemma StepMeetsExactly(code: Bytecode, o: Outcome)
    requires CoreCode(code) && Reachable(code, o) && o.Running?
    ensures Step(code, o.pc, o.s) == Specified(code, o.pc, o.s) <==> RightNow(code, o)
  {
    if o.pc < |code| {
      var op := OneOp(code, o.pc).op;
      OneOpFacts(code, o.pc);
      WholeOpFacts(code, o.pc);
      MeetsSpecificationExactly(code, op, OneOp(code, o.pc).next, o.s);
      if op.Push? {
        PushMeetsExactly(code, o.pc, o.s);
      }
    }
  }

  ghost predicate SameAfter(code: Bytecode, k: nat, o: Outcome)
    requires CoreCode(code) && Reachable(code, o)
  {
    Interpret(code, k, o) == SpecifiedRun(code, k, o)
  }

  /** The two runs are the same at every moment. */
  ghost predicate Together(code: Bytecode, n: nat, o: Outcome)
    requires CoreCode(code) && Reachable(code, o)
  {
    forall k: nat | k <= n :: SameAfter(code, k, o)
  }

  lemma {:induction false} RunMeets(code: Bytecode, n: nat, o: Outcome) returns (right: bool)
    requires CoreCode(code) && Reachable(code, o)
    ensures Together(code, n, o) == right
    ensures RightRun(code, n, o) == right
    decreases n
  {
    if n == 0 || !o.Running? {
      StillTogether(code, n, o);
      right := true;
    } else {
      var now, o' := FirstStep(code, n, o);
      var after := RunMeets(code, n - 1, o');
      right := now && after;
    }
  }

  /** A run meets the specification for as long as its operands are right, and no longer. */
  lemma RunMeetsExactly(code: Bytecode, n: nat, o: Outcome)
    requires CoreCode(code) && Reachable(code, o)
    ensures Together(code, n, o) <==> RightRun(code, n, o)
  {
    var right := RunMeets(code, n, o);
  }

  lemma FirstStep(code: Bytecode, n: nat, o: Outcome) returns (now: bool, o': Outcome)
    requires CoreCode(code) && Reachable(code, o) && o.Running? && n > 0
    ensures Reachable(code, o')
    ensures RightRun(code, n, o) <==> now && RightRun(code, n - 1, o')
    ensures Together(code, n, o) <==> now && Together(code, n - 1, o')
  {
    now := RightNow(code, o);
    StepMeetsExactly(code, o);
    StepKeeps(code, o.pc, o.s);
    o' := Step(code, o.pc, o.s);
    if RightNow(code, o) {
      TogetherStep(code, n, o);
    } else {
      ApartStep(code, n, o);
    }
  }

  lemma StillTogether(code: Bytecode, n: nat, o: Outcome)
    requires CoreCode(code) && Reachable(code, o) && (n == 0 || !o.Running?)
    ensures Together(code, n, o) && RightRun(code, n, o)
  {
  }

  lemma ApartStep(code: Bytecode, n: nat, o: Outcome)
    requires CoreCode(code) && Reachable(code, o) && o.Running? && n > 0
    requires Step(code, o.pc, o.s) != Specified(code, o.pc, o.s)
    ensures !Together(code, n, o)
  {
    StepKeeps(code, o.pc, o.s);
    SpecifiedKeeps(code, o.pc, o.s);
    assert Interpret(code, 1, o) == Interpret(code, 0, Step(code, o.pc, o.s));
    assert SpecifiedRun(code, 1, o) == SpecifiedRun(code, 0, Specified(code, o.pc, o.s));
    assert !SameAfter(code, 1, o);
  }

  lemma SameStep(code: Bytecode, k: nat, o: Outcome)
    requires CoreCode(code) && Reachable(code, o) && o.Running? && k > 0
    requires Step(code, o.pc, o.s) == Specified(code, o.pc, o.s)
    ensures Reachable(code, Step(code, o.pc, o.s))
    ensures SameAfter(code, k, o) <==> SameAfter(code, k - 1, Step(code, o.pc, o.s))
  {
    StepKeeps(code, o.pc, o.s);
  }

  lemma TogetherStep(code: Bytecode, n: nat, o: Outcome)
    requires CoreCode(code) && Reachable(code, o) && o.Running? && n > 0
    requires Step(code, o.pc, o.s) == Specified(code, o.pc, o.s)
    ensures Reachable(code, Step(code, o.pc, o.s))
    ensures Together(code, n, o) <==> Together(code, n - 1, Step(code, o.pc, o.s))
  {
    StepKeeps(code, o.pc, o.s);
    var o' := Step(code, o.pc, o.s);
    StillTogether(code, 0, o);
    if Together(code, n - 1, o') {
      forall k: nat | 0 < k <= n
        ensures SameAfter(code, k, o)
      {
        SameStep(code, k, o);
      }
      assert SameAfter(code, 0, o);
    }
    if Together(code, n, o) {
      forall k: nat | k <= n - 1
        ensures SameAfter(code, k, o')
      {
        SameStep(code, k + 1, o);
      }
    }
  }

  // ----- The end of a run -----

  /** Each of the first `n` operations of a run has the right operands on the stack. */
  ghost predicate RightStacks(code: Bytecode, n: nat, o: Outcome)
    requires CoreCode(code) && Reachable(code, o)
  {
    n == 0 || !o.Running? ||
    (RightOperands(code, o) && (StepKeeps(code, o.pc, o.s); RightStacks(code, n - 1, Step(code, o.pc, o.s))))
  }

  /** After a PUSH that is cut off the code is at its end, with the same gas whatever was pushed. */
  lemma CutPush(code: Bytecode, o: Outcome)
    requires CoreCode(code) && Reachable(code, o) && o.Running? && RightOperands(code, o) && !RightNow(code, o)
    ensures var one, other := Step(code, o.pc, o.s), Specified(code, o.pc, o.s);
            && one.Running? && other.Running? && one.s.gas == other.s.gas < o.s.gas
            && one.pc >= |code| && other.pc >= |code|
  {
    OneOpFacts(code, o.pc);
    WholeOpFacts(code, o.pc);
    PushRuns(code, OneOp(code, o.pc).op, OneOp(code, o.pc).next, o.s);
    PushRuns(code, WholeOp(code, o.pc), OneOp(code, o.pc).next, o.s);
  }

  lemma StopsAtEnd(code: Bytecode, n: nat, o: Outcome)
    requires CoreCode(code) && o.Running? && o.pc >= |code| && n > 0
    ensures Reachable(code, o) ==> Interpret(code, n, o) == Halted(Result(StopStatus, o.s.gas, []))
    ensures Standing(code, o) ==> SpecifiedRun(code, n, o) == Halted(Result(StopStatus, o.s.gas, []))
  {
  }

  lemma FirstStackStep(code: Bytecode, n: nat, o: Outcome) returns (o': Outcome)
    requires CoreCode(code) && Reachable(code, o) && o.Running? && n > o.s.gas && RightStacks(code, n, o)
    ensures Reachable(code, o') && RightStacks(code, n - 1, o') && (o'.Running? ==> o'.s.gas < n - 1)
    ensures Interpret(code, n, o) == Interpret(code, n - 1, o')
    ensures RightNow(code, o) ==> SpecifiedRun(code, n, o) == SpecifiedRun(code, n - 1, o')
    ensures !RightNow(code, o) ==> SpecifiedRun(code, n, o) == Interpret(code, n, o)
  {
    StepMeetsExactly(code, o);
    StepKeeps(code, o.pc, o.s);
    SpecifiedKeeps(code, o.pc, o.s);
    o' := Step(code, o.pc, o.s);
    if !RightNow(code, o) {
      CutPush(code, o);
      StopsAtEnd(code, n - 1, o');
      StopsAtEnd(code, n - 1, Specified(code, o.pc, o.s));
    }
  }

  /** A run with the right operands on the stack ends as the specification's, even after a PUSH that is cut off. */
  lemma {:induction false} EndsAlike(code: Bytecode, n: nat, o: Outcome)
    requires CoreCode(code) && Reachable(code, o) && RightStacks(code, n, o)
    requires o.Running? ==> o.s.gas < n
    ensures Interpret(code, n, o) == SpecifiedRun(code, n, o)
  {
    if o.Running? {
      var o' := FirstStackStep(code, n, o);
      EndsAlike(code, n - 1, o');
    }
  }
}
