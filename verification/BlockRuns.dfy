/** What each generated block does to a machine that stands for an interpreter state. */
module BlockRuns {
  import opened Primitives
  import opened Arithmetic
  import opened Programs
  import opened Words
  import opened Memories
  import opened Stacks
  import opened Results
  import opened Interpreter
  import opened Target
  import opened Codegen

  /** The machine stands for the interpreter's state. */
  predicate Rel(m: Machine, s: State) {
    && InRegion(m.stack)
    && Contents(m.stack) == s.stack
    && m.gas == s.gas
    && m.memory == s.memory
    && m.memorySize == |s.memory|
  }

  lemma AsI64Same(x: int)
    requires -0x8000_0000_0000_0000 <= x <= I64_MAX
    ensures AsI64(x) == x
  {
    if x < 0 {
      ModUnique(x, TWO_64, -1, x + TWO_64);
    }
  }

  // ----- Instructions -----

  lemma PopRuns(m: Machine, dest: nat, s: State)
    requires Rel(m, s) && |s.stack| > 0
    ensures var r := Do(StackPop(dest), m);
            && r.Some?
            && r.value.regs == m.regs[dest := Top(s, 0)]
            && Rel(r.value, s.(stack := Drop(s.stack, 1)))
  {
    PoppedContents(m.stack);
    NthContents(m.stack, 1);
  }

  lemma PushRuns(m: Machine, value: Operand, s: State)
    requires Rel(m, s)
    ensures var r := Do(StackPush(value), m);
            if |s.stack| < STACK_LIMIT && Eval(m, value) < TWO_256
            then r.Some? && Rel(r.value, s.(stack := s.stack + [Eval(m, value)]))
            else r.None?
  {
    if |s.stack| < STACK_LIMIT && Eval(m, value) < TWO_256 {
      PushedContents(m.stack, Eval(m, value));
    }
  }

  lemma ComputeRuns(m: Machine, dest: nat, fn: Fn, a: Operand, b: Operand, value: nat)
    requires Target.Apply(fn, Eval(m, a), Eval(m, b)) == Some(value)
    ensures Do(Compute(dest, fn, a, b), m) == Some(Set(m, dest, value))
  {
  }

  lemma TruncateRuns(m: Machine, dest: nat, modulus: nat, a: Operand, value: nat)
    requires modulus > 0 && Eval(m, a) % modulus == value
    ensures Do(Truncate(dest, modulus, a), m) == Some(Set(m, dest, value))
  {
  }

  lemma BranchRuns(m: Machine, dest: nat, b: bool, yes: nat, no: nat)
    ensures Exec(End(CondBr(Reg(dest), yes, no)), Set(m, dest, Flag(b))) ==
            At(if b then yes else no, Set(m, dest, Flag(b)))
  {
  }

  lemma ConsumeRuns(m: Machine, dest: nat, amount: Operand, s: State)
    requires Rel(m, s) && s.gas <= I64_MAX && Eval(m, amount) <= I64_MAX
    ensures var r := Do(ConsumeGas(dest, amount), m);
            var cost := Eval(m, amount);
            && r.Some?
            && r.value == m.(regs := m.regs[dest := Flag(s.gas >= cost)], gas := s.gas - cost)
            && (s.gas >= cost ==> Rel(r.value, s.(gas := s.gas - cost)))
  {
    AsI64Same(Eval(m, amount));
    AsI64Same(m.gas - Eval(m, amount));
  }

  // ----- Guards and the revert block -----

  /** The revert block always reports an error with no gas left. */
  lemma RevertRuns(m: Machine)
    ensures Exec(RevertCode(), m) == Exited(Result(ErrorStatus, 0, []))
  {
    var m1 := Do(RemainingGas(0), m).value;
    var m2 := Do(ConsumeGas(1, Reg(0)), m1).value;
    ExecTwo(RemainingGas(0), ConsumeGas(1, Reg(0)), End(Exit(ErrorStatus, Imm(0), Imm(0), Imm(0))), m, m1, m2);
    assert Exec(RevertCode(), m) == Leave(Exit(ErrorStatus, Imm(0), Imm(0), Imm(0)), m2);
    assert m2.memory[0..0] == [];
  }

  predicate CheckHolds(op: Operation, s: State) {
    match Check(op)
    case HasAtLeast(_, n) => |s.stack| >= n
    case HasSpaceFor(_, n) => |s.stack| + n <= STACK_LIMIT
    case _ => false
  }

  lemma CheckRuns(op: Operation, m: Machine, s: State)
    requires Rel(m, s)
    ensures Do(Check(op), m) == Some(Set(m, 0, Flag(CheckHolds(op, s))))
  {
  }

  /** The guard lets pass exactly when its stack check holds and the gas suffices, and then has charged it. */
  lemma GuardRuns(op: Operation, ok: nat, m: Machine, s: State)
    requires Rel(m, s) && s.gas <= I64_MAX
    ensures var c := Exec(Guard(op, ok), m);
            && c.At?
            && (if CheckHolds(op, s) && s.gas >= FixedGas(op)
                then c.block == ok && Rel(c.m, s.(gas := s.gas - FixedGas(op)))
                else c.block == REVERT_BLOCK)
  {
    CheckRuns(op, m, s);
    var m1 := Set(m, 0, Flag(CheckHolds(op, s)));
    ConsumeRuns(m1, 1, Imm(FixedGas(op)), s);
    var m2 := Do(ConsumeGas(1, Imm(FixedGas(op))), m1).value;
    var flag := Flag(CheckHolds(op, s) && s.gas >= FixedGas(op));
    var m3 := Set(m2, 2, flag);
    ComputeRuns(m2, 2, Both, Reg(1), Reg(0), flag);
    BranchRuns(m2, 2, CheckHolds(op, s) && s.gas >= FixedGas(op), ok, REVERT_BLOCK);
    ExecThree(Check(op), ConsumeGas(1, Imm(FixedGas(op))), Compute(2, Both, Reg(1), Reg(0)),
              End(CondBr(Reg(2), ok, REVERT_BLOCK)), m, m1, m2, m3);
  }

  lemma LandedRuns(ok: nat, m: Machine, s: State)
    requires Rel(m, s) && s.gas <= I64_MAX
    ensures var c := Exec(Landed(ok), m);
            && c.At?
            && (if s.gas >= 1 then c.block == ok && Rel(c.m, s.(gas := s.gas - 1)) else c.block == REVERT_BLOCK)
  {
    ConsumeRuns(m, 1, Imm(1), s);
  }

  lemma StackOnlyRuns(count: nat, ok: nat, m: Machine, s: State)
    requires Rel(m, s)
    ensures var c := Exec(StackOnly(count, ok), m);
            && c.At?
            && (if |s.stack| >= count then c.block == ok && Rel(c.m, s) else c.block == REVERT_BLOCK)
  {
    assert Exec(StackOnly(count, ok), m) ==
           Leave(CondBr(Reg(0), ok, REVERT_BLOCK), Set(m, 0, Flag(m.stack.depth >= count)));
  }

  // ----- Straight bodies -----

  /** Control is at block `next`, with the machine standing for `s`. */
  predicate Lands(c: Config, next: nat, s: State) {
    c.At? && c.block == next && Rel(c.m, s)
  }

  /** The code that ends most bodies. */
  lemma PushAndGo(m: Machine, value: Operand, next: nat, s: State)
    requires Rel(m, s) && |s.stack| < STACK_LIMIT && Eval(m, value) < TWO_256
    ensures Lands(Exec(Then(StackPush(value), End(Br(next))), m), next, s.(stack := s.stack + [Eval(m, value)]))
  {
    PushRuns(m, value, s);
  }

  lemma TwoPops(m: Machine, i: nat, j: nat, s: State) returns (m1: Machine, m2: Machine)
    requires Rel(m, s) && |s.stack| >= 2 && i != j
    ensures Do(StackPop(i), m) == Some(m1) && Do(StackPop(j), m1) == Some(m2)
    ensures m2.regs == m.regs[i := Top(s, 0)][j := Top(s, 1)]
    ensures Rel(m2, s.(stack := Drop(s.stack, 2)))
  {
    PopRuns(m, i, s);
    m1 := Do(StackPop(i), m).value;
    var s1 := s.(stack := Drop(s.stack, 1));
    PopRuns(m1, j, s1);
    m2 := Do(StackPop(j), m1).value;
    assert Top(s1, 0) == Top(s, 1);
    assert Drop(s1.stack, 1) == Drop(s.stack, 2);
  }

  lemma BinaryAgrees(b: Byte, x: U256, y: U256)
    requires IsBinary(b)
    ensures Target.Apply(BinaryFn(b), x, y) == Some(BinaryValue(b, x, y))
  {
  }

  lemma BinaryRuns(fn: Fn, value: U256, next: nat, m: Machine, s: State)
    requires Rel(m, s) && 2 <= |s.stack| <= STACK_LIMIT
    requires Target.Apply(fn, Top(s, 0), Top(s, 1)) == Some(value)
    ensures Lands(Exec(BinaryBody(fn, Br(next)), m), next, s.(stack := Drop(s.stack, 2) + [value]))
  {
    var m1, m2 := TwoPops(m, 0, 1, s);
    var m3 := Set(m2, 2, value);
    ComputeRuns(m2, 2, fn, Reg(0), Reg(1), value);
    var rest := Then(StackPush(Reg(2)), End(Br(next)));
    ExecThree(StackPop(0), StackPop(1), Compute(2, fn, Reg(0), Reg(1)), rest, m, m1, m2, m3);
    PushAndGo(m3, Reg(2), next, s.(stack := Drop(s.stack, 2)));
  }

  lemma UnaryRuns(fn: Fn, constant: nat, value: U256, next: nat, m: Machine, s: State)
    requires Rel(m, s) && 1 <= |s.stack| <= STACK_LIMIT
    requires Target.Apply(fn, Top(s, 0), constant) == Some(value)
    ensures Lands(Exec(UnaryBody(fn, constant, Br(next)), m), next, s.(stack := Drop(s.stack, 1) + [value]))
  {
    PopRuns(m, 0, s);
    var m1 := Do(StackPop(0), m).value;
    var m2 := Set(m1, 1, value);
    ComputeRuns(m1, 1, fn, Reg(0), Imm(constant), value);
    ExecTwo(StackPop(0), Compute(1, fn, Reg(0), Imm(constant)), Then(StackPush(Reg(1)), End(Br(next))), m, m1, m2);
    PushAndGo(m2, Reg(1), next, s.(stack := Drop(s.stack, 1)));
  }

  lemma SarRuns(next: nat, m: Machine, s: State)
    requires Rel(m, s) && 2 <= |s.stack| <= STACK_LIMIT
    ensures Lands(Exec(SarBody(Br(next)), m), next,
                  s.(stack := Drop(s.stack, 2) + [EvmSar(Top(s, 0), Top(s, 1))]))
  {
    var shift, x := Top(s, 0), Top(s, 1);
    var m1, m2 := TwoPops(m, 0, 1, s);
    var rest := Then(StackPush(Reg(3)), End(Br(next)));
    ExecTwo(StackPop(0), StackPop(1),
            Then(Compute(2, MinU, Reg(0), Imm(255)), Then(Compute(3, ShiftRS, Reg(1), Reg(2)), rest)), m, m1, m2);
    ClampedShiftRuns(m2, shift, x, rest);
    var m4 := Set(Set(m2, 2, Min(shift, 255)), 3, EvmSar(shift, x));
    PushAndGo(m4, Reg(3), next, s.(stack := Drop(s.stack, 2)));
  }

  lemma ClampedShiftRuns(m: Machine, shift: U256, x: U256, rest: Code)
    requires Eval(m, Reg(0)) == shift && Eval(m, Reg(1)) == x
    ensures Exec(Then(Compute(2, MinU, Reg(0), Imm(255)), Then(Compute(3, ShiftRS, Reg(1), Reg(2)), rest)), m) ==
            Exec(rest, Set(Set(m, 2, Min(shift, 255)), 3, EvmSar(shift, x)))
  {
    SarByClamping(shift, x);
    var m1 := Set(m, 2, Min(shift, 255));
    var m2 := Set(m1, 3, ShiftRightSigned(x, Min(shift, 255)));
    ComputeRuns(m, 2, MinU, Reg(0), Imm(255), Min(shift, 255));
    ComputeRuns(m1, 3, ShiftRS, Reg(1), Reg(2), ShiftRightSigned(x, Min(shift, 255)));
    ExecTwo(Compute(2, MinU, Reg(0), Imm(255)), Compute(3, ShiftRS, Reg(1), Reg(2)), rest, m, m1, m2);
  }

  /** The shift distance, computed without wrapping. */
  lemma ShiftDistance(m: Machine, size: U256)
    requires Eval(m, Reg(0)) == size
    ensures var bytes := Min(size, 31);
            var m1 := Set(m, 2, bytes);
            var m2 := Set(m1, 3, bytes * 8);
            var m3 := Set(m2, 4, bytes * 8 + 7);
            var m4 := Set(m3, 5, 255 - (bytes * 8 + 7));
            && Do(Compute(2, MinU, Reg(0), Imm(31)), m) == Some(m1)
            && Do(Compute(3, Mul(TWO_256), Reg(2), Imm(8)), m1) == Some(m2)
            && Do(Compute(4, Add(TWO_256), Reg(3), Imm(7)), m2) == Some(m3)
            && Do(Compute(5, Sub(TWO_256), Imm(255), Reg(4)), m3) == Some(m4)
  {
    var bytes := Min(size, 31);
    var m1 := Set(m, 2, bytes);
    var m2 := Set(m1, 3, bytes * 8);
    var m3 := Set(m2, 4, bytes * 8 + 7);
    NoWrap256(bytes * 8);
    NoWrap256(bytes * 8 + 7);
    NoWrap256(255 - (bytes * 8 + 7));
    ComputeRuns(m, 2, MinU, Reg(0), Imm(31), bytes);
    TimesEight(m1, bytes);
    ComputeRuns(m2, 4, Add(TWO_256), Reg(3), Imm(7), bytes * 8 + 7);
    ComputeRuns(m3, 5, Sub(TWO_256), Imm(255), Reg(4), 255 - (bytes * 8 + 7));
  }

  lemma NoWrap256(x: nat)
    requires x < TWO_256
    ensures Wrap(x, TWO_256) == Some(x)
  {
  }

  lemma TimesEight(m: Machine, bytes: nat)
    requires Eval(m, Reg(2)) == bytes <= 31
    ensures Do(Compute(3, Mul(TWO_256), Reg(2), Imm(8)), m) == Some(Set(m, 3, bytes * 8))
  {
    NoWrap256(bytes * 8);
    assert Target.Apply(Mul(TWO_256), bytes, 8) == Product(bytes, 8, TWO_256) == Some(bytes * 8);
    ComputeRuns(m, 3, Mul(TWO_256), Reg(2), Imm(8), bytes * 8);
  }

  lemma DistanceRuns(m: Machine, size: U256, tail: Code) returns (m': Machine)
    requires Eval(m, Reg(0)) == size
    ensures Exec(Then(Compute(2, MinU, Reg(0), Imm(31)), Then(Compute(3, Mul(TWO_256), Reg(2), Imm(8)),
                   Then(Compute(4, Add(TWO_256), Reg(3), Imm(7)),
                     Then(Compute(5, Sub(TWO_256), Imm(255), Reg(4)), tail)))), m) == Exec(tail, m')
    ensures m'.(regs := m.regs) == m && Eval(m', Reg(1)) == Eval(m, Reg(1))
    ensures Eval(m', Reg(5)) == 255 - (Min(size, 31) * 8 + 7)
  {
    var bytes := Min(size, 31);
    ShiftDistance(m, size);
    var m1 := Set(m, 2, bytes);
    var m2 := Set(m1, 3, bytes * 8);
    var m3 := Set(m2, 4, bytes * 8 + 7);
    m' := Set(m3, 5, 255 - (bytes * 8 + 7));
    ExecTwo(Compute(4, Add(TWO_256), Reg(3), Imm(7)), Compute(5, Sub(TWO_256), Imm(255), Reg(4)), tail, m2, m3, m');
    ExecTwo(Compute(2, MinU, Reg(0), Imm(31)), Compute(3, Mul(TWO_256), Reg(2), Imm(8)),
            Then(Compute(4, Add(TWO_256), Reg(3), Imm(7)), Then(Compute(5, Sub(TWO_256), Imm(255), Reg(4)), tail)),
            m, m1, m2);
  }

  lemma SignExtendRuns(next: nat, m: Machine, s: State)
    requires Rel(m, s) && 2 <= |s.stack| <= STACK_LIMIT
    ensures Lands(Exec(SignExtendBody(Br(next)), m), next,
                  s.(stack := Drop(s.stack, 2) + [EvmSignExtend(Top(s, 0), Top(s, 1))]))
  {
    var size, x := Top(s, 0), Top(s, 1);
    var shift := 255 - (Min(size, 31) * 8 + 7);
    var m1, m2 := TwoPops(m, 0, 1, s);
    var rest := Then(StackPush(Reg(7)), End(Br(next)));
    var tail := Then(Compute(6, ShiftL, Reg(1), Reg(5)), Then(Compute(7, ShiftRS, Reg(6), Reg(5)), rest));
    var m3 := DistanceRuns(m2, size, tail);
    ExecTwo(StackPop(0), StackPop(1),
            Then(Compute(2, MinU, Reg(0), Imm(31)), Then(Compute(3, Mul(TWO_256), Reg(2), Imm(8)),
              Then(Compute(4, Add(TWO_256), Reg(3), Imm(7)),
                Then(Compute(5, Sub(TWO_256), Imm(255), Reg(4)), tail)))), m, m1, m2);
    ShiftsRun(m3, x, shift, rest);
    SignExtendByShifts(size, x);
    var m4 := Set(Set(m3, 6, ShiftLeft(x, shift)), 7, EvmSignExtend(size, x));
    PushAndGo(m4, Reg(7), next, s.(stack := Drop(s.stack, 2)));
  }

  lemma ShiftsRun(m: Machine, x: U256, shift: nat, rest: Code)
    requires Eval(m, Reg(1)) == x && Eval(m, Reg(5)) == shift < 256
    ensures Exec(Then(Compute(6, ShiftL, Reg(1), Reg(5)), Then(Compute(7, ShiftRS, Reg(6), Reg(5)), rest)), m) ==
            Exec(rest, Set(Set(m, 6, ShiftLeft(x, shift)), 7, ShiftRightSigned(ShiftLeft(x, shift), shift)))
  {
    var m1 := Set(m, 6, ShiftLeft(x, shift));
    var m2 := Set(m1, 7, ShiftRightSigned(ShiftLeft(x, shift), shift));
    ComputeRuns(m, 6, ShiftL, Reg(1), Reg(5), ShiftLeft(x, shift));
    ComputeRuns(m1, 7, ShiftRS, Reg(6), Reg(5), ShiftRightSigned(ShiftLeft(x, shift), shift));
    ExecTwo(Compute(6, ShiftL, Reg(1), Reg(5)), Compute(7, ShiftRS, Reg(6), Reg(5)), rest, m, m1, m2);
  }

  lemma GasRuns(next: nat, m: Machine, s: State)
    requires Rel(m, s) && WellFormed(s) && |s.stack| < STACK_LIMIT
    ensures Lands(Exec(BasicBody(GAS, Br(next)), m), next, s.(stack := s.stack + [s.gas % TWO_256]))
  {
    PushAndGo(Set(m, 3, s.gas), Reg(3), next, s);
  }

  lemma MemorySizeRuns(next: nat, m: Machine, s: State)
    requires Rel(m, s) && WellFormed(s) && |s.stack| < STACK_LIMIT
    ensures Lands(Exec(BasicBody(MSIZE, Br(next)), m), next, s.(stack := s.stack + [|s.memory| % TWO_256]))
  {
    PushAndGo(Set(m, 3, |s.memory|), Reg(3), next, s);
  }

  lemma BinaryOpRuns(b: Byte, next: nat, m: Machine, s: State)
    requires Rel(m, s) && IsBasic(b) && IsBinary(b) && 2 <= |s.stack| <= STACK_LIMIT
    ensures Lands(Exec(BasicBody(b, Br(next)), m), next, s.(stack := NewStack(Basic(b), s)))
  {
    BinaryAgrees(b, Top(s, 0), Top(s, 1));
    BinaryRuns(BinaryFn(b), BinaryValue(b, Top(s, 0), Top(s, 1)), next, m, s);
  }

  lemma UnaryOpRuns(b: Byte, next: nat, m: Machine, s: State)
    requires Rel(m, s) && (b == ISZERO || b == NOT || b == POP) && 1 <= |s.stack| <= STACK_LIMIT
    ensures Lands(Exec(BasicBody(b, Br(next)), m), next, s.(stack := NewStack(Basic(b), s)))
  {
    if b == ISZERO {
      UnaryRuns(Equal, 0, AsWord(Top(s, 0) == 0), next, m, s);
    } else if b == NOT {
      NotByXor(Top(s, 0));
      UnaryRuns(XorI, TWO_256 - 1, EvmNot(Top(s, 0)), next, m, s);
    } else {
      PopRuns(m, 0, s);
    }
  }

  lemma ReadingOpRuns(b: Byte, next: nat, m: Machine, s: State)
    requires Rel(m, s) && WellFormed(s) && (b == GAS || b == MSIZE || b == PUSH0) && |s.stack| < STACK_LIMIT
    ensures Lands(Exec(BasicBody(b, Br(next)), m), next, s.(stack := NewStack(Basic(b), s)))
  {
    assert Drop(s.stack, 0) == s.stack;
    if b == GAS {
      GasRuns(next, m, s);
    } else if b == MSIZE {
      MemorySizeRuns(next, m, s);
    } else {
      PushAndGo(m, Imm(0), next, s);
    }
  }

  /** Every opcode whose body is straight code. */
  lemma BasicRuns(b: Byte, next: nat, m: Machine, s: State)
    requires Rel(m, s) && WellFormed(s) && IsBasic(b) && IsStraight(Basic(b))
    requires |s.stack| >= Removed(Basic(b)) && |s.stack| - Removed(Basic(b)) + Added(Basic(b)) <= STACK_LIMIT
    ensures Lands(Exec(BasicBody(b, Br(next)), m), next, s.(stack := NewStack(Basic(b), s)))
  {
    if IsBinary(b) {
      BinaryOpRuns(b, next, m, s);
    } else if b == SAR {
      SarRuns(next, m, s);
    } else if b == SIGNEXTEND {
      SignExtendRuns(next, m, s);
    } else if b == ISZERO || b == NOT || b == POP {
      UnaryOpRuns(b, next, m, s);
    } else {
      ReadingOpRuns(b, next, m, s);
    }
  }

  lemma SwapRuns(n: nat, next: nat, m: Machine, s: State)
    requires Rel(m, s) && 1 <= n && |s.stack| > n
    ensures Lands(Exec(Body(Swap(n), Br(next)), m), next,
                  s.(stack := s.stack[|s.stack| - 1 := Top(s, n)][|s.stack| - 1 - n := Top(s, 0)]))
  {
    SwappedContents(m.stack, 1, n + 1);
  }

  lemma DupRuns(n: nat, next: nat, m: Machine, s: State)
    requires Rel(m, s) && 1 <= n <= |s.stack|
    ensures var c := Exec(Body(Dup(n), Br(next)), m);
            if |s.stack| < STACK_LIMIT then Lands(c, next, s.(stack := s.stack + [Top(s, n - 1)])) else c.Stuck?
  {
    NthContents(m.stack, n);
    var m1 := Set(m, 3, Top(s, n - 1));
    assert Do(GetNth(3, n), m) == Some(m1);
    assert Exec(Body(Dup(n), Br(next)), m) == Exec(Then(StackPush(Reg(3)), End(Br(next))), m1);
    PushRuns(m1, Reg(3), s);
    if |s.stack| < STACK_LIMIT {
      PushAndGo(m1, Reg(3), next, s);
    }
  }

  lemma BodyRuns(op: Operation, next: nat, m: Machine, s: State)
    requires Rel(m, s) && WellFormed(s) && Valid(op) && IsStraight(op) && !op.Jumpdest?
    requires |s.stack| >= Removed(op) && |s.stack| - Removed(op) + Added(op) <= STACK_LIMIT
    ensures Lands(Exec(Body(op, Br(next)), m), next, s.(stack := NewStack(op, s)))
  {
    match op
    case Basic(b) => BasicRuns(b, next, m, s);
    case PC(pc) => PushAndGo(m, Imm(pc % TWO_256), next, s);
    case Push(_, value) => PushAndGo(m, Imm(value % TWO_256), next, s);
    case Dup(n) => DupRuns(n, next, m, s);
    case Swap(n) => SwapRuns(n, next, m, s);
  }

  // ----- Division -----

  /** The divisor of a division or remainder. */
  function Divisor(b: Byte, s: State): U256
    requires |s.stack| >= Removed(Basic(b)) && IsDividing(b)
  {
    Top(s, Removed(Basic(b)) - 1)
  }

  /** Operands and divisor are in their registers. */
  predicate Loaded(b: Byte, m: Machine, s: State)
    requires |s.stack| >= Removed(Basic(b)) && IsDividing(b)
  {
    && Eval(m, Reg(0)) == Top(s, 0)
    && Eval(m, Reg(1)) == Top(s, 1)
    && (b == ADDMOD || b == MULMOD ==> Eval(m, Reg(2)) == Top(s, 2))
  }

  lemma ZeroTestRuns(m: Machine, a: Operand, x: U256, zero: nat, notZero: nat)
    requires Eval(m, a) == x
    ensures Exec(Then(Compute(3, Equal, Imm(0), a), End(CondBr(Reg(3), zero, notZero))), m) ==
            At(if x == 0 then zero else notZero, Set(m, 3, Flag(0 == x)))
  {
    ComputeRuns(m, 3, Equal, Imm(0), a, Flag(0 == x));
    BranchRuns(m, 3, 0 == x, zero, notZero);
  }

  lemma TwoOperands(b: Byte, zero: nat, notZero: nat, m: Machine, s: State)
    requires Rel(m, s) && (b == DIV || b == MOD) && |s.stack| >= 2
    ensures var c := Exec(DividingOk(b, zero, notZero), m);
            && Lands(c, if Divisor(b, s) == 0 then zero else notZero, s.(stack := Drop(s.stack, 2)))
            && Loaded(b, c.m, s)
  {
    var m1, m2 := TwoPops(m, 0, 1, s);
    var rest := Then(Compute(3, Equal, Imm(0), Reg(1)), End(CondBr(Reg(3), zero, notZero)));
    ExecTwo(StackPop(0), StackPop(1), rest, m, m1, m2);
    ZeroTestRuns(m2, Reg(1), Top(s, 1), zero, notZero);
  }

  lemma ThreePops(m: Machine, s: State) returns (m1: Machine, m2: Machine, m3: Machine)
    requires Rel(m, s) && |s.stack| >= 3
    ensures Do(StackPop(0), m) == Some(m1) && Do(StackPop(1), m1) == Some(m2) && Do(StackPop(2), m2) == Some(m3)
    ensures m3.regs == m.regs[0 := Top(s, 0)][1 := Top(s, 1)][2 := Top(s, 2)]
    ensures Rel(m3, s.(stack := Drop(s.stack, 3)))
  {
    m1, m2 := TwoPops(m, 0, 1, s);
    var s2 := s.(stack := Drop(s.stack, 2));
    PopRuns(m2, 2, s2);
    m3 := Do(StackPop(2), m2).value;
    assert Top(s2, 0) == Top(s, 2);
    assert Drop(s2.stack, 1) == Drop(s.stack, 3);
  }

  lemma ThreeOperands(b: Byte, zero: nat, notZero: nat, m: Machine, s: State)
    requires Rel(m, s) && (b == ADDMOD || b == MULMOD) && |s.stack| >= 3
    ensures var c := Exec(DividingOk(b, zero, notZero), m);
            && Lands(c, if Divisor(b, s) == 0 then zero else notZero, s.(stack := Drop(s.stack, 3)))
            && Loaded(b, c.m, s)
  {
    var m1, m2, m3 := ThreePops(m, s);
    var rest := Then(Compute(3, Equal, Imm(0), Reg(2)), End(CondBr(Reg(3), zero, notZero)));
    ExecThree(StackPop(0), StackPop(1), StackPop(2), rest, m, m1, m2, m3);
    ZeroTestRuns(m3, Reg(2), Top(s, 2), zero, notZero);
  }

  lemma DividingOkRuns(b: Byte, zero: nat, notZero: nat, m: Machine, s: State)
    requires Rel(m, s) && IsDividing(b) && |s.stack| >= Removed(Basic(b))
    ensures var c := Exec(DividingOk(b, zero, notZero), m);
            && Lands(c, if Divisor(b, s) == 0 then zero else notZero,
                     s.(stack := Drop(s.stack, Removed(Basic(b)))))
            && Loaded(b, c.m, s)
  {
    if b == DIV || b == MOD {
      TwoOperands(b, zero, notZero, m, s);
    } else {
      ThreeOperands(b, zero, notZero, m, s);
    }
  }

  /** The 257-bit sum and the 512-bit product do not wrap. */
  lemma WideEnough(x: U256, y: U256)
    ensures (x + y) % (2 * TWO_256) == x + y
    ensures 0 <= x * y < TWO_256 * TWO_256 && (x * y) % (TWO_256 * TWO_256) == x * y
  {
    MulSign(x, y);
    MulMonotone(x, TWO_256 - 1, y);
    MulMonotone(y, TWO_256 - 1, TWO_256 - 1);
    ModUnique(x * y, TWO_256 * TWO_256, 0, x * y);
  }

  lemma DivideRuns(b: Byte, done: nat, m: Machine, s: State)
    requires (b == DIV || b == MOD) && 2 <= |s.stack| <= STACK_LIMIT && Divisor(b, s) != 0
    requires Rel(m, s.(stack := Drop(s.stack, 2))) && Loaded(b, m, s)
    ensures Lands(Exec(DividingBy(b, done), m), done, s.(stack := Drop(s.stack, 2) + [DividingValue(b, s)]))
  {
    var m1 := Set(m, 4, DividingValue(b, s));
    var fn := if b == DIV then DivU else RemU;
    ComputeRuns(m, 4, fn, Reg(0), Reg(1), DividingValue(b, s));
    assert Exec(DividingBy(b, done), m) == Exec(Then(StackPush(Reg(4)), End(Br(done))), m1);
    PushAndGo(m1, Reg(4), done, s.(stack := Drop(s.stack, 2)));
  }

  lemma WideFn(b: Byte, x: U256, y: U256) returns (fn: Fn, wide: nat)
    requires b == ADDMOD || b == MULMOD
    ensures fn == if b == ADDMOD then Add(2 * TWO_256) else Mul(TWO_256 * TWO_256)
    ensures wide == (if b == ADDMOD then x + y else x * y) && Target.Apply(fn, x, y) == Some(wide)
  {
    WideEnough(x, y);
    fn := if b == ADDMOD then Add(2 * TWO_256) else Mul(TWO_256 * TWO_256);
    wide := if b == ADDMOD then x + y else x * y;
  }

  lemma ModularRuns(b: Byte, done: nat, m: Machine, s: State)
    requires (b == ADDMOD || b == MULMOD) && 3 <= |s.stack| <= STACK_LIMIT && Divisor(b, s) != 0
    requires Rel(m, s.(stack := Drop(s.stack, 3))) && Loaded(b, m, s)
    ensures Lands(Exec(DividingBy(b, done), m), done, s.(stack := Drop(s.stack, 3) + [DividingValue(b, s)]))
  {
    var fn, wide := WideFn(b, Top(s, 0), Top(s, 1));
    var value := DividingValue(b, s);
    assert value == wide % Top(s, 2);
    var m1 := Set(m, 4, wide);
    var m2 := Set(m1, 5, value);
    var m3 := Set(m2, 6, value);
    ComputeRuns(m, 4, fn, Reg(0), Reg(1), wide);
    ComputeRuns(m1, 5, RemU, Reg(4), Reg(2), value);
    TruncateRuns(m2, 6, TWO_256, Reg(5), value);
    ExecThree(Compute(4, fn, Reg(0), Reg(1)), Compute(5, RemU, Reg(4), Reg(2)), Truncate(6, TWO_256, Reg(5)),
              Then(StackPush(Reg(6)), End(Br(done))), m, m1, m2, m3);
    PushAndGo(m3, Reg(6), done, s.(stack := Drop(s.stack, 3)));
  }

  // ----- Jumps -----

  lemma JumpRuns(m: Machine, s: State)
    requires Rel(m, s) && |s.stack| >= 1
    ensures var c := Exec(Then(StackPop(0), End(BrTable(Reg(0)))), m);
            Lands(c, TABLE, s.(stack := Drop(s.stack, 1))) && c.m.arg == Top(s, 0)
  {
    PopRuns(m, 0, s);
  }

  lemma JumpiRuns(no: nat, m: Machine, s: State)
    requires Rel(m, s) && |s.stack| >= 2
    ensures var c := Exec(Then(StackPop(0), Then(StackPop(1), Then(Compute(3, NotEqual, Reg(1), Imm(0)),
                            End(CondBrTable(Reg(3), Reg(0), no))))), m);
            && Lands(c, if Top(s, 1) != 0 then TABLE else no, s.(stack := Drop(s.stack, 2)))
            && (Top(s, 1) != 0 ==> c.m.arg == Top(s, 0))
  {
    var m1, m2 := TwoPops(m, 0, 1, s);
    var m3 := Set(m2, 3, Flag(Top(s, 1) != 0));
    ComputeRuns(m2, 3, NotEqual, Reg(1), Imm(0), Flag(Top(s, 1) != 0));
    ExecThree(StackPop(0), StackPop(1), Compute(3, NotEqual, Reg(1), Imm(0)),
              End(CondBrTable(Reg(3), Reg(0), no)), m, m1, m2, m3);
  }

  // ----- Leaving -----

  lemma ExitRuns(status: Status, offset: Operand, size: Operand, m: Machine, s: State)
    requires Rel(m, s) && s.gas <= I64_MAX && offset != Reg(14) && size != Reg(14)
    ensures Exec(ExitWith(status, offset, size), m) ==
            Exited(Result(status, s.gas, Reported(s.memory, Eval(m, offset), Eval(m, size))))
  {
    var m1 := Set(m, 14, s.gas);
    assert Do(RemainingGas(14), m) == Some(m1);
    assert Eval(m1, offset) == Eval(m, offset) && Eval(m1, size) == Eval(m, size);
  }

  // ----- Memory -----

  /** The registers a memory operation needs after memory has been expanded. */
  predicate Keeps(m: Machine, m': Machine) {
    && Eval(m', Reg(1)) == Eval(m, Reg(1))
    && Eval(m', Reg(11)) == Eval(m, Reg(11))
    && Eval(m', Reg(12)) == Eval(m, Reg(12))
  }

  /** The sizes between which memory grows are in their registers. */
  predicate Sized(m: Machine, s: State, required: nat) {
    Eval(m, Reg(3)) == |s.memory| && Eval(m, Reg(4)) == RoundUp32(required)
  }

  lemma RoundUpRuns(m: Machine, rounded: nat)
    requires RoundUp32(Eval(m, Reg(2))) == rounded
    ensures Do(RoundUp(4, Reg(2)), m) == Some(Set(m, 4, rounded))
  {
  }

  lemma LoadSize(m: Machine, size: nat)
    requires m.memorySize == size
    ensures Do(MemorySize(3), m) == Some(Set(m, 3, size))
    ensures Eval(Set(m, 3, size), Reg(2)) == Eval(m, Reg(2))
  {
  }

  lemma CompareSizes(ext: nat, noExt: nat, m: Machine, size: nat, rounded: nat)
    requires m.memorySize == size && RoundUp32(Eval(m, Reg(2))) == rounded
    ensures Exec(ExtendStart(ext, noExt), m) ==
            Exec(End(CondBr(Reg(5), ext, noExt)), Set(Set(Set(m, 3, size), 4, rounded), 5, Flag(size < rounded)))
  {
    var m1 := Set(m, 3, size);
    var m2 := Set(m1, 4, rounded);
    LoadSize(m, size);
    RoundUpRuns(m1, rounded);
    CompareRuns(m2, size, rounded);
    ExecThree(MemorySize(3), RoundUp(4, Reg(2)), Compute(5, LessU, Reg(3), Reg(4)),
              End(CondBr(Reg(5), ext, noExt)), m, m1, m2, Set(m2, 5, Flag(size < rounded)));
  }

  lemma CompareRuns(m: Machine, size: nat, rounded: nat)
    requires Eval(m, Reg(3)) == size && Eval(m, Reg(4)) == rounded
    ensures Do(Compute(5, LessU, Reg(3), Reg(4)), m) == Some(Set(m, 5, Flag(size < rounded)))
  {
  }

  lemma ExtendStartRuns(ext: nat, noExt: nat, m: Machine, s: State, required: nat)
    requires Rel(m, s) && Eval(m, Reg(2)) == required
    ensures var c := Exec(ExtendStart(ext, noExt), m);
            && Lands(c, if |s.memory| < RoundUp32(required) then ext else noExt, s)
            && Keeps(m, c.m) && Sized(c.m, s, required)
  {
    var size, rounded := |s.memory|, RoundUp32(required);
    CompareSizes(ext, noExt, m, size, rounded);
    BranchRuns(Set(Set(m, 3, size), 4, rounded), 5, size < rounded, ext, noExt);
  }

  lemma NoWrap64(before: nat, after: nat, fixed: nat)
    requires before <= after < before + 0x1_0000_0000_0000 && fixed <= 3
    ensures Target.Apply(Sub(TWO_64), after, before) == Some(after - before)
    ensures Target.Apply(Add(TWO_64), after - before, fixed) == Some(fixed + (after - before))
  {
  }

  /** The difference of the costs, in 64-bit arithmetic. */
  lemma ChargeRuns(m: Machine, before: nat, after: nat, fixed: nat, rest: Code)
    requires Eval(m, Reg(6)) == before && Eval(m, Reg(7)) == after
    requires before <= after < before + 0x1_0000_0000_0000 && fixed <= 3
    ensures Exec(Then(Compute(8, Sub(TWO_64), Reg(7), Reg(6)),
                   Then(Compute(9, Add(TWO_64), Reg(8), Imm(fixed)), rest)), m) ==
            Exec(rest, Set(Set(m, 8, after - before), 9, fixed + (after - before)))
  {
    NoWrap64(before, after, fixed);
    var m1 := Set(m, 8, after - before);
    var m2 := Set(m1, 9, fixed + (after - before));
    ExecTwo(Compute(8, Sub(TWO_64), Reg(7), Reg(6)), Compute(9, Add(TWO_64), Reg(8), Imm(fixed)), rest, m, m1, m2);
  }

  lemma CostsRun(m: Machine, before: nat, after: nat, rest: Code)
    requires MemoryCost(Eval(m, Reg(3))) == before && MemoryCost(Eval(m, Reg(4))) == after
    ensures Exec(Then(Cost(6, Reg(3)), Then(Cost(7, Reg(4)), rest)), m) ==
            Exec(rest, Set(Set(m, 6, before), 7, after))
  {
    ExecTwo(Cost(6, Reg(3)), Cost(7, Reg(4)), rest, m, Set(m, 6, before), Set(Set(m, 6, before), 7, after));
  }

  /** Paying the charge and growing memory. */
  lemma PayAndGrow(m: Machine, done: nat, s: State, cost: nat, size: nat)
    requires Rel(m, s) && s.gas <= I64_MAX && |s.memory| < size
    requires Eval(m, Reg(9)) == cost <= I64_MAX && Eval(m, Reg(4)) == size
    ensures var c := Exec(Then(ConsumeGas(10, Reg(9)), Then(ExtendMemory(Reg(4)),
                            End(CondBr(Reg(10), done, REVERT_BLOCK)))), m);
            && c.At? && Keeps(m, c.m)
            && (if s.gas >= cost
                then Lands(c, done, s.(gas := s.gas - cost, memory := Resized(s.memory, size)))
                else c.block == REVERT_BLOCK)
  {
    ConsumeRuns(m, 10, Reg(9), s);
    var m1 := Do(ConsumeGas(10, Reg(9)), m).value;
    var m2 := Do(ExtendMemory(Reg(4)), m1).value;
    ExecTwo(ConsumeGas(10, Reg(9)), ExtendMemory(Reg(4)), End(CondBr(Reg(10), done, REVERT_BLOCK)), m, m1, m2);
  }

  lemma ExtensionRuns(fixed: nat, done: nat, m: Machine, s: State, required: nat)
    requires Rel(m, s) && Sized(m, s, required) && WellFormed(s) && fixed <= 3
    requires |s.memory| < RoundUp32(required)
    ensures var c := Exec(Extension(fixed, done), m);
            var cost := fixed + ExpansionGas(s.memory, required);
            && c.At? && Keeps(m, c.m)
            && (if s.gas >= cost
                then cost >= 0 && Lands(c, done, s.(gas := s.gas - cost, memory := Expanded(s.memory, required)))
                else c.block == REVERT_BLOCK)
  {
    ExpansionFacts(s.memory, required);
    var before, after := MemoryCost(|s.memory|), MemoryCost(RoundUp32(required));
    var pay := Then(ConsumeGas(10, Reg(9)), Then(ExtendMemory(Reg(4)), End(CondBr(Reg(10), done, REVERT_BLOCK))));
    CostsRun(m, before, after, Then(Compute(8, Sub(TWO_64), Reg(7), Reg(6)),
                                 Then(Compute(9, Add(TWO_64), Reg(8), Imm(fixed)), pay)));
    var m2 := Set(Set(m, 6, before), 7, after);
    ChargeRuns(m2, before, after, fixed, pay);
    var m4 := Set(Set(m2, 8, after - before), 9, fixed + (after - before));
    PayAndGrow(m4, done, s, fixed + (after - before), RoundUp32(required));
  }

  lemma NoExtensionRuns(fixed: nat, done: nat, m: Machine, s: State)
    requires Rel(m, s) && s.gas <= I64_MAX && fixed <= 3
    ensures var c := Exec(NoExtension(fixed, done), m);
            && c.At? && Keeps(m, c.m)
            && (if s.gas >= fixed then Lands(c, done, s.(gas := s.gas - fixed)) else c.block == REVERT_BLOCK)
  {
    ConsumeRuns(m, 10, Imm(fixed), s);
  }

  /** Offset, length and value are in the registers the access uses. */
  predicate Prepared(op: Operation, m: Machine, s: State)
    requires TouchesMemory(op) && |s.stack| >= Removed(op)
  {
    && Eval(m, Reg(1)) == Offset(s)
    && (op == Basic(MSTORE) ==> Eval(m, Reg(11)) == Top(s, 1))
    && (op == Basic(MSTORE8) ==> Eval(m, Reg(12)) == Top(s, 1) % 256)
    && (IsLeaving(op.opcode) ==> Eval(m, Reg(12)) == Length(op, s))
  }

  /** What the block that computes the range leaves behind. */
  predicate Ranged(op: Operation, c: Config, ext: nat, noExt: nat, s: State)
    requires TouchesMemory(op) && |s.stack| >= Removed(op)
  {
    var after := s.(stack := Drop(s.stack, Removed(op)));
    && Lands(c, if |s.memory| < RoundUp32(Required(op, s)) then ext else noExt, after)
    && Prepared(op, c.m, s) && Sized(c.m, after, Required(op, s))
  }

  /** Offset and end of a range in registers 1 and 2. */
  function Placed(m: Machine, offset: nat, required: nat): Machine {
    Set(Set(m, 1, offset), 2, required)
  }

  lemma PlacedFacts(m: Machine, offset: nat, required: nat)
    ensures var m' := Placed(m, offset, required);
            && Eval(m', Reg(1)) == offset && Eval(m', Reg(2)) == required
            && Eval(m', Reg(11)) == Eval(m, Reg(11)) && Eval(m', Reg(12)) == Eval(m, Reg(12))
            && m'.(regs := m.regs) == m
  {
  }

  /** The end of the range, once the offset is in register 1. */
  lemma RangeRuns(m: Machine, offset: nat, length: Operand, rest: Code)
    requires Eval(m, Reg(0)) % TWO_32 == offset && length != Reg(1)
    ensures Exec(Then(Truncate(1, TWO_32, Reg(0)), Then(Compute(2, Add(TWO_32), Reg(1), length), rest)), m) ==
            Exec(rest, Placed(m, offset, (offset + Eval(m, length)) % TWO_32))
  {
    var m1 := Set(m, 1, offset);
    var m2 := Set(m1, 2, (offset + Eval(m, length)) % TWO_32);
    TruncateRuns(m, 1, TWO_32, Reg(0), offset);
    ComputeRuns(m1, 2, Add(TWO_32), Reg(1), length, (offset + Eval(m, length)) % TWO_32);
    ExecTwo(Truncate(1, TWO_32, Reg(0)), Compute(2, Add(TWO_32), Reg(1), length), rest, m, m1, m2);
  }

  lemma RangedFrom(op: Operation, ext: nat, noExt: nat, m: Machine, s: State)
    requires TouchesMemory(op) && |s.stack| >= Removed(op)
    requires Rel(m, s.(stack := Drop(s.stack, Removed(op)))) && Prepared(op, m, s)
    requires Eval(m, Reg(2)) == Required(op, s)
    ensures Ranged(op, Exec(ExtendStart(ext, noExt), m), ext, noExt, s)
  {
    ExtendStartRuns(ext, noExt, m, s.(stack := Drop(s.stack, Removed(op))), Required(op, s));
  }

  /** The code an access ends its second block with: offset, end of the range, and on to the expansion. */
  function RangeTail(length: nat, ext: nat, noExt: nat): Code {
    Then(Truncate(1, TWO_32, Reg(0)), Then(Compute(2, Add(TWO_32), Reg(1), Imm(length)), ExtendStart(ext, noExt)))
  }

  lemma RangeTailRuns(b: Byte, length: nat, ext: nat, noExt: nat, m: Machine, s: State)
    requires IsAccess(b) && |s.stack| >= Removed(Basic(b)) && length == Length(Basic(b), s)
    requires Rel(m, s.(stack := Drop(s.stack, Removed(Basic(b))))) && Eval(m, Reg(0)) == Top(s, 0)
    requires b == MSTORE ==> Eval(m, Reg(11)) == Top(s, 1)
    requires b == MSTORE8 ==> Eval(m, Reg(12)) == Top(s, 1) % 256
    ensures Ranged(Basic(b), Exec(RangeTail(length, ext, noExt), m), ext, noExt, s)
  {
    var required := Required(Basic(b), s);
    RangeRuns(m, Offset(s), Imm(length), ExtendStart(ext, noExt));
    PlacedFacts(m, Offset(s), required);
    RangedFrom(Basic(b), ext, noExt, Placed(m, Offset(s), required), s);
  }

  lemma MloadOkRuns(ext: nat, noExt: nat, m: Machine, s: State)
    requires Rel(m, s) && |s.stack| >= 1
    ensures Ranged(Basic(MLOAD), Exec(AccessOk(MLOAD, ext, noExt), m), ext, noExt, s)
  {
    PopRuns(m, 0, s);
    var m1 := Do(StackPop(0), m).value;
    assert Exec(AccessOk(MLOAD, ext, noExt), m) == Exec(RangeTail(32, ext, noExt), m1);
    RangeTailRuns(MLOAD, 32, ext, noExt, m1, s);
  }

  lemma MstoreOkRuns(ext: nat, noExt: nat, m: Machine, s: State)
    requires Rel(m, s) && |s.stack| >= 2
    ensures Ranged(Basic(MSTORE), Exec(AccessOk(MSTORE, ext, noExt), m), ext, noExt, s)
  {
    var m1, m2 := TwoPops(m, 0, 11, s);
    ExecTwo(StackPop(0), StackPop(11), RangeTail(32, ext, noExt), m, m1, m2);
    RangeTailRuns(MSTORE, 32, ext, noExt, m2, s);
  }

  lemma ByteTaken(m: Machine, s: State, rest: Code) returns (m': Machine)
    requires Rel(m, s) && |s.stack| >= 2
    ensures Exec(Then(StackPop(0), Then(StackPop(11), Then(Truncate(12, 256, Reg(11)), rest))), m) == Exec(rest, m')
    ensures Rel(m', s.(stack := Drop(s.stack, 2)))
    ensures Eval(m', Reg(0)) == Top(s, 0) && Eval(m', Reg(12)) == Top(s, 1) % 256
  {
    var m1, m2 := TwoPops(m, 0, 11, s);
    m' := Set(m2, 12, Top(s, 1) % 256);
    TruncateRuns(m2, 12, 256, Reg(11), Top(s, 1) % 256);
    ExecThree(StackPop(0), StackPop(11), Truncate(12, 256, Reg(11)), rest, m, m1, m2, m');
  }

  lemma Mstore8OkRuns(ext: nat, noExt: nat, m: Machine, s: State)
    requires Rel(m, s) && |s.stack| >= 2
    ensures Ranged(Basic(MSTORE8), Exec(AccessOk(MSTORE8, ext, noExt), m), ext, noExt, s)
  {
    var m3 := ByteTaken(m, s, RangeTail(1, ext, noExt));
    RangeTailRuns(MSTORE8, 1, ext, noExt, m3, s);
  }

  lemma LeavingOkRuns(op: Operation, ext: nat, noExt: nat, m: Machine, s: State)
    requires Rel(m, s) && |s.stack| >= 2 && op.Basic? && IsLeaving(op.opcode)
    ensures Ranged(op, Exec(LeavingOk(ext, noExt), m), ext, noExt, s)
  {
    var m1, m2 := TwoPops(m, 0, 11, s);
    var length, required := Length(op, s), Required(op, s);
    var m3 := Set(m2, 1, Offset(s));
    var m4 := Set(m3, 12, length);
    var m5 := Set(m4, 2, required);
    TruncateRuns(m2, 1, TWO_32, Reg(0), Offset(s));
    TruncateRuns(m3, 12, TWO_32, Reg(11), length);
    ComputeRuns(m4, 2, Add(TWO_32), Reg(1), Reg(12), required);
    ExecThree(Truncate(1, TWO_32, Reg(0)), Truncate(12, TWO_32, Reg(11)), Compute(2, Add(TWO_32), Reg(1), Reg(12)),
              ExtendStart(ext, noExt), m2, m3, m4, m5);
    ExecTwo(StackPop(0), StackPop(11),
            Then(Truncate(1, TWO_32, Reg(0)), Then(Truncate(12, TWO_32, Reg(11)),
              Then(Compute(2, Add(TWO_32), Reg(1), Reg(12)), ExtendStart(ext, noExt)))), m, m1, m2);
    RangedFrom(op, ext, noExt, m5, s);
  }

  lemma IndexOf(offset: nat)
    requires offset < TWO_32
    ensures if offset < TWO_31 then AsI32(offset) == offset else AsI32(offset) < 0
  {
  }

  lemma LoadWordRuns(m: Machine, offset: nat)
    requires Eval(m, Reg(1)) == offset < TWO_32
    ensures Do(LoadWord(13, Reg(1)), m) ==
            if Accessible(m.memory, offset, 32)
            then Some(Set(m, 13, FromBytes(m.memory[offset..offset + 32])))
            else None
  {
    IndexOf(offset);
  }

  lemma StoreRuns(m: Machine, offset: nat, bytes: Memory)
    requires offset < TWO_32
    ensures DoStore(offset, bytes, m) ==
            if Accessible(m.memory, offset, |bytes|)
            then Some(m.(memory := Overwritten(m.memory, offset, bytes)))
            else None
  {
    IndexOf(offset);
  }

  lemma WordFromBytes(bytes: Bytecode)
    requires |bytes| == 32
    ensures FromBytes(bytes) < TWO_256
  {
    FromBytesBound(bytes);
    Pow256Of32();
  }

  /** What an access has to come to. */
  predicate Accessed(b: Byte, c: Config, next: nat, s: State)
    requires IsAccess(b) && |s.stack| >= Removed(Basic(b))
  {
    match AccessMemory(b, next, s)
    case Running(_, s') => Lands(c, next, s')
    case _ => c.Stuck?
  }

  lemma LoadRuns(next: nat, m: Machine, s: State)
    requires 1 <= |s.stack| <= STACK_LIMIT
    requires Rel(m, s.(stack := Drop(s.stack, 1))) && Eval(m, Reg(1)) == Offset(s)
    ensures Accessed(MLOAD, Exec(Access(MLOAD, Br(next)), m), next, s)
  {
    LoadWordRuns(m, Offset(s));
    if Accessible(s.memory, Offset(s), 32) {
      var bytes := s.memory[Offset(s)..Offset(s) + 32];
      WordFromBytes(bytes);
      var m1 := Set(m, 13, FromBytes(bytes));
      assert Exec(Access(MLOAD, Br(next)), m) == Exec(Then(StackPush(Reg(13)), End(Br(next))), m1);
      PushAndGo(m1, Reg(13), next, s.(stack := Drop(s.stack, 1)));
    }
  }

  lemma StoreWordRuns(next: nat, m: Machine, s: State)
    requires 2 <= |s.stack| <= STACK_LIMIT
    requires Rel(m, s.(stack := Drop(s.stack, 2))) && Eval(m, Reg(1)) == Offset(s) && Eval(m, Reg(11)) == Top(s, 1)
    ensures Accessed(MSTORE, Exec(Access(MSTORE, Br(next)), m), next, s)
  {
    var bytes := Interpreter.Stored(MSTORE, Top(s, 1));
    StoreRuns(m, Offset(s), bytes);
    assert Do(StoreWord(Reg(1), Reg(11)), m) == DoStore(Offset(s), bytes, m);
  }

  lemma StoreByteRuns(next: nat, m: Machine, s: State)
    requires 2 <= |s.stack| <= STACK_LIMIT
    requires Rel(m, s.(stack := Drop(s.stack, 2)))
    requires Eval(m, Reg(1)) == Offset(s) && Eval(m, Reg(12)) == Top(s, 1) % 256
    ensures Accessed(MSTORE8, Exec(Access(MSTORE8, Br(next)), m), next, s)
  {
    var bytes := Interpreter.Stored(MSTORE8, Top(s, 1));
    StoreRuns(m, Offset(s), bytes);
    assert Do(StoreByte(Reg(1), Reg(12)), m) == DoStore(Offset(s), bytes, m);
  }

  /** The access itself, on memory already expanded: it leaves memory's bounds exactly when the interpreter would. */
  lemma AccessRuns(b: Byte, next: nat, m: Machine, s: State)
    requires IsAccess(b) && Removed(Basic(b)) <= |s.stack| <= STACK_LIMIT
    requires Rel(m, s.(stack := Drop(s.stack, Removed(Basic(b))))) && Prepared(Basic(b), m, s)
    ensures Accessed(b, Exec(Access(b, Br(next)), m), next, s)
  {
    if b == MLOAD {
      LoadRuns(next, m, s);
    } else if b == MSTORE {
      StoreWordRuns(next, m, s);
    } else {
      StoreByteRuns(next, m, s);
    }
  }
}
