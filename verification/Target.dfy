/** The machine the generated blocks run on. */
module Target {
  import opened Primitives
  import opened Stacks
  import opened Memories
  import opened Arithmetic
  import opened Words
  import opened Programs
  import opened JumpTables
  import opened Results

  // ----- Blocks -----

  /** A value: the result of an earlier instruction, or a constant. */
  datatype Operand = Reg(id: nat) | Imm(value: nat)

  /** Arithmetic on unsigned words; the first three name the width they wrap at. */
  datatype Fn =
    | Add(modulus: nat) | Sub(modulus: nat) | Mul(modulus: nat)
    | DivU | RemU | MinU
    | AndI | OrI | XorI
    | ShiftL | ShiftRS
    | LessU | GreaterU | LessS | GreaterS | Equal | NotEqual
    | Both

  datatype Instr =
    | HasAtLeast(dest: nat, count: nat)
    | HasSpaceFor(dest: nat, count: nat)
    | ConsumeGas(dest: nat, amount: Operand)
    | RemainingGas(dest: nat)
    | StackPop(dest: nat)
    | StackPush(value: Operand)
    | GetNth(dest: nat, n: nat)
    | SwapElements(m: nat, n: nat)
    | Compute(dest: nat, fn: Fn, a: Operand, b: Operand)
    | Truncate(dest: nat, modulus: nat, a: Operand)
    | MemorySize(dest: nat)
    | RoundUp(dest: nat, a: Operand)
    | Cost(dest: nat, a: Operand)
    | ExtendMemory(size: Operand)
    | LoadWord(dest: nat, offset: Operand)
    | StoreWord(offset: Operand, value: Operand)
    | StoreByte(offset: Operand, value: Operand)
    | Setup

  datatype Terminator =
    | Open
    | Br(block: nat)
    | CondBr(flag: Operand, yes: nat, no: nat)
    | BrTable(pc: Operand)
    | CondBrTable(flag: Operand, pc: Operand, no: nat)
    | Switch(cases: seq<nat>, destinations: seq<nat>, default: nat)
    | Exit(status: Status, gas: Operand, offset: Operand, size: Operand)

  datatype Code = Then(instr: Instr, rest: Code) | End(terminator: Terminator)

  const SETUP: nat := 0
  const REVERT_BLOCK: nat := 1
  const TABLE: nat := 2

  // ----- Machine states -----

  /** The code reads the global `memorySize`; `memory` is the vector the syscalls extend; `arg` is a block argument. */
  datatype Machine = Machine(
    stack: Region, gas: int, memory: Memory, memorySize: nat, regs: map<nat, nat>, arg: nat)

  datatype Config = At(block: nat, m: Machine) | Exited(result: Result) | Stuck

  function Eval(m: Machine, a: Operand): nat {
    match a
    case Imm(v) => v
    case Reg(id) => if id in m.regs then m.regs[id] else 0
  }

  function Set(m: Machine, dest: nat, value: nat): Machine {
    m.(regs := m.regs[dest := value])
  }

  function Flag(b: bool): nat {
    if b then 1 else 0
  }

  /** A 64-bit word read as a signed number. */
  function AsI64(x: int): int {
    var r := x % TWO_64;
    if r > I64_MAX then r - TWO_64 else r
  }

  function Wrap(x: int, modulus: nat): Option<nat> {
    if modulus == 0 then None else Some(x % modulus)
  }

  function Product(a: nat, b: nat, modulus: nat): Option<nat> {
    Wrap(a * b, modulus)
  }

  function Quotient(a: nat, b: nat): Option<nat> {
    if b == 0 then None else DivBound(a, b); Some(a / b)
  }

  /** None for a division by zero, an oversized shift or a signed comparison of something wider than a word. */
  function Apply(fn: Fn, a: nat, b: nat): Option<nat> {
    match fn
    case Add(modulus) => Wrap(a + b, modulus)
    case Sub(modulus) => Wrap(a - b, modulus)
    case Mul(modulus) => Product(a, b, modulus)
    case DivU => Quotient(a, b)
    case RemU => Wrap(a, b)
    case MinU => Some(Min(a, b))
    case AndI => Some(Bitwise(AndGate, 256, a, b))
    case OrI => Some(Bitwise(OrGate, 256, a, b))
    case XorI => Some(Bitwise(XorGate, 256, a, b))
    case ShiftL => if a >= TWO_256 || b >= 256 then None else Some(ShiftLeft(a, b))
    case ShiftRS => if a >= TWO_256 || b >= 256 then None else Some(ShiftRightSigned(a, b))
    case LessU => Some(Flag(a < b))
    case GreaterU => Some(Flag(a > b))
    case LessS => if a >= TWO_256 || b >= TWO_256 then None else Some(Flag(Signed(a) < Signed(b)))
    case GreaterS => if a >= TWO_256 || b >= TWO_256 then None else Some(Flag(Signed(a) > Signed(b)))
    case Equal => Some(Flag(a == b))
    case NotEqual => Some(Flag(a != b))
    case Both => Some(Flag(a == 1 && b == 1))
  }

  function DoConsume(dest: nat, amount: nat, m: Machine): Machine {
    var cost := AsI64(amount);
    Set(m, dest, Flag(m.gas >= cost)).(gas := AsI64(m.gas - cost))
  }

  function DoPop(dest: nat, m: Machine): Option<Machine> {
    if 0 < m.stack.depth <= |m.stack.slots|
    then Some(Set(m, dest, Nth(m.stack, 1)).(stack := Popped(m.stack)))
    else None
  }

  function DoPush(v: nat, m: Machine): Option<Machine> {
    if m.stack.depth < |m.stack.slots| && v < TWO_256 then Some(m.(stack := Pushed(m.stack, v))) else None
  }

  function DoGetNth(dest: nat, n: nat, m: Machine): Option<Machine> {
    if 0 < n <= m.stack.depth <= |m.stack.slots| then Some(Set(m, dest, Nth(m.stack, n))) else None
  }

  function DoSwap(p: nat, n: nat, m: Machine): Option<Machine> {
    if 0 < p <= m.stack.depth <= |m.stack.slots| && 0 < n <= m.stack.depth
    then Some(m.(stack := Swapped(m.stack, p, n)))
    else None
  }

  function SetIf(m: Machine, dest: nat, v: Option<nat>): Option<Machine> {
    match v
    case None => None
    case Some(x) => Some(Set(m, dest, x))
  }

  function DoExtend(size: nat, m: Machine): Machine {
    m.(memory := if size <= |m.memory| then m.memory else Resized(m.memory, size), memorySize := size)
  }

  /** A 32-bit word read as a signed number: memory is addressed with signed indices. */
  function AsI32(x: nat): int {
    var r := x % TWO_32;
    if r >= TWO_31 then r - TWO_32 else r
  }

  function DoLoad(dest: nat, offset: nat, m: Machine): Option<Machine> {
    var index := AsI32(offset);
    if 0 <= index && index + 32 <= |m.memory|
    then Some(Set(m, dest, FromBytes(m.memory[index..index + 32])))
    else None
  }

  function DoStore(offset: nat, bytes: Memory, m: Machine): Option<Machine> {
    var index := AsI32(offset);
    if 0 <= index && index + |bytes| <= |m.memory|
    then Some(m.(memory := Overwritten(m.memory, index, bytes)))
    else None
  }

  /** None when the instruction has no defined effect, such as an access outside the stack or memory. */
  function Do(i: Instr, m: Machine): Option<Machine> {
    match i
    case HasAtLeast(dest, n) => Some(Set(m, dest, Flag(m.stack.depth >= n)))
    case HasSpaceFor(dest, n) => Some(Set(m, dest, Flag(m.stack.depth + n <= MAX_STACK_SIZE)))
    case ConsumeGas(dest, amount) => Some(DoConsume(dest, Eval(m, amount), m))
    case RemainingGas(dest) => Some(Set(m, dest, m.gas % TWO_64))
    case StackPop(dest) => DoPop(dest, m)
    case StackPush(value) => DoPush(Eval(m, value), m)
    case GetNth(dest, n) => DoGetNth(dest, n, m)
    case SwapElements(p, n) => DoSwap(p, n, m)
    case Compute(dest, fn, a, b) => SetIf(m, dest, Apply(fn, Eval(m, a), Eval(m, b)))
    case Truncate(dest, modulus, a) => SetIf(m, dest, Wrap(Eval(m, a), modulus))
    case MemorySize(dest) => Some(Set(m, dest, m.memorySize))
    case RoundUp(dest, a) => Some(Set(m, dest, RoundUp32(Eval(m, a))))
    case Cost(dest, a) => Some(Set(m, dest, MemoryCost(Eval(m, a))))
    case ExtendMemory(a) => Some(DoExtend(Eval(m, a), m))
    case LoadWord(dest, a) => DoLoad(dest, Eval(m, a), m)
    case StoreWord(a, value) => DoStore(Eval(m, a), ToBytes(Eval(m, value), 32), m)
    case StoreByte(a, value) => DoStore(Eval(m, a), [Eval(m, value) % 256], m)
    case Setup => Some(m.(stack := m.stack.(depth := 0), memorySize := 0, gas := AsI64(m.arg)))
  }

  function Leave(t: Terminator, m: Machine): Config {
    match t
    case Open => Stuck
    case Br(block) => At(block, m)
    case CondBr(flag, yes, no) => At(if Eval(m, flag) == 1 then yes else no, m)
    case BrTable(pc) => At(TABLE, m.(arg := Eval(m, pc)))
    case CondBrTable(flag, pc, no) =>
      if Eval(m, flag) == 1 then At(TABLE, m.(arg := Eval(m, pc))) else At(no, m)
    case Switch(cases, destinations, default) =>
      if |cases| == |destinations| then At(SwitchTarget(cases, destinations, default, m.arg), m) else Stuck
    case Exit(status, gas, offset, size) =>
      Exited(Result(status, Eval(m, gas), Reported(m.memory, Eval(m, offset), Eval(m, size))))
  }

  function Exec(code: Code, m: Machine): Config {
    match code
    case End(t) => Leave(t, m)
    case Then(i, rest) =>
      match Do(i, m)
      case None => Stuck
      case Some(m') => Exec(rest, m')
  }

  lemma ExecTwo(i: Instr, j: Instr, rest: Code, m: Machine, m1: Machine, m2: Machine)
    requires Do(i, m) == Some(m1) && Do(j, m1) == Some(m2)
    ensures Exec(Then(i, Then(j, rest)), m) == Exec(rest, m2)
  {
    assert Exec(Then(j, rest), m1) == Exec(rest, m2);
  }

  lemma ExecThree(i: Instr, j: Instr, k: Instr, rest: Code, m: Machine, m1: Machine, m2: Machine, m3: Machine)
    requires Do(i, m) == Some(m1) && Do(j, m1) == Some(m2) && Do(k, m2) == Some(m3)
    ensures Exec(Then(i, Then(j, Then(k, rest))), m) == Exec(rest, m3)
  {
    ExecTwo(j, k, rest, m1, m2, m3);
  }

  /** One block. */
  function Next(blocks: seq<Code>, c: Config): Config {
    if c.At? then (if c.block < |blocks| then Exec(blocks[c.block], c.m) else Stuck) else c
  }

  function Run(blocks: seq<Code>, n: nat, c: Config): Config {
    if n == 0 then c else Run(blocks, n - 1, Next(blocks, c))
  }

  lemma {:induction false} RunSum(blocks: seq<Code>, m: nat, n: nat, c: Config)
    ensures Run(blocks, m + n, c) == Run(blocks, n, Run(blocks, m, c))
    decreases m
  {
    if m > 0 {
      RunSum(blocks, m - 1, n, Next(blocks, c));
    }
  }

  lemma {:induction false} RunStays(blocks: seq<Code>, n: nat, c: Config)
    requires !c.At?
    ensures Run(blocks, n, c) == c
  {
    if n > 0 {
      RunStays(blocks, n - 1, c);
    }
  }

  lemma RunOne(blocks: seq<Code>, c: Config)
    ensures Run(blocks, 1, c) == Next(blocks, c)
  {
    assert Run(blocks, 0, Next(blocks, c)) == Next(blocks, c);
  }
}
