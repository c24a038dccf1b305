/**
 The core instructions written down byte by byte, after section 9.4 and appendices G and H of the Yellow Paper.
 Only the form of states and results is shared with the rest: no definition here uses the parser, the code
 generator, the interpreter, or their notions of bytes, bits, memory and cost.
 */
module YellowPaper {
  import opened Primitives
  import opened Results
  import opened Interpreter

  // ----- The instructions -----

  /** Every byte that is an instruction, other than 0xfe. */
  predicate Assigned(w: Byte) {
    || w <= 0x0b || 0x10 <= w <= 0x1d || w == 0x20 || 0x30 <= w <= 0x4a
    || 0x50 <= w <= 0xa4 || 0xf0 <= w <= 0xf5 || w == 0xfa || w == 0xfd || w == 0xff
  }

  /** Words taken from the stack, words put there, and the fee of appendix G. */
  datatype Row = Row(delta: nat, alpha: nat, fee: nat)

  /** The instructions of the core subset. */
  function Schedule(w: Byte): Option<Row> {
    match w
    case 0x00 => Some(Row(0, 0, 0))
    case 0x01 => Some(Row(2, 1, 3))
    case 0x02 => Some(Row(2, 1, 5))
    case 0x03 => Some(Row(2, 1, 3))
    case 0x04 => Some(Row(2, 1, 5))
    case 0x06 => Some(Row(2, 1, 5))
    case 0x08 => Some(Row(3, 1, 8))
    case 0x09 => Some(Row(3, 1, 8))
    case 0x0b => Some(Row(2, 1, 5))
    case 0x10 => Some(Row(2, 1, 3))
    case 0x11 => Some(Row(2, 1, 3))
    case 0x12 => Some(Row(2, 1, 3))
    case 0x13 => Some(Row(2, 1, 3))
    case 0x14 => Some(Row(2, 1, 3))
    case 0x15 => Some(Row(1, 1, 3))
    case 0x16 => Some(Row(2, 1, 3))
    case 0x17 => Some(Row(2, 1, 3))
    case 0x18 => Some(Row(2, 1, 3))
    case 0x19 => Some(Row(1, 1, 3))
    case 0x1d => Some(Row(2, 1, 3))
    case 0x50 => Some(Row(1, 0, 2))
    case 0x51 => Some(Row(1, 1, 3))
    case 0x52 => Some(Row(2, 0, 3))
    case 0x53 => Some(Row(2, 0, 3))
    case 0x56 => Some(Row(1, 0, 8))
    case 0x57 => Some(Row(2, 0, 10))
    case 0x58 => Some(Row(0, 1, 2))
    case 0x59 => Some(Row(0, 1, 2))
    case 0x5a => Some(Row(0, 1, 2))
    case 0x5b => Some(Row(0, 0, 1))
    case 0x5f => Some(Row(0, 1, 2))
    case 0xf3 => Some(Row(2, 0, 0))
    case 0xfd => Some(Row(2, 0, 0))
    case _ =>
      if 0x60 <= w <= 0x7f then Some(Row(0, 1, 3))
      else if 0x80 <= w <= 0x8f then Some(Row(w - 0x7f, w - 0x7f + 1, 3))
      else if 0x90 <= w <= 0x9f then Some(Row(w - 0x8e, w - 0x8e, 3))
      else None
  }

  // ----- Positions in the code, section 9.4.3 -----

  /** The position of the instruction after the one at `i`. */
  function N(i: nat, w: Byte): nat {
    if 0x60 <= w <= 0x7f then i + w - 0x60 + 2 else i + 1
  }

  /** The valid jump destinations from `i` on. */
  ghost function D(code: Bytecode, i: nat): set<nat>
    decreases |code| - i
  {
    if i >= |code| then {}
    else if code[i] == 0x5b then {i} + D(code, N(i, code[i]))
    else D(code, N(i, code[i]))
  }

  /** The `n` bytes of code at `p` as a number, zeros beyond the end. */
  function Data(code: Bytecode, p: nat, n: nat): nat {
    if n == 0 then 0
    else 256 * Data(code, p, n - 1) + if p + n - 1 < |code| then code[p + n - 1] else 0
  }

  // ----- Words -----

  /** The k-th word from the top of the stack. */
  function Mu(s: State, k: nat): U256 {
    if k < |s.stack| then s.stack[|s.stack| - 1 - k] else 0
  }

  function Two(n: nat): nat {
    if n == 0 then 1 else Two(n - 1) + Two(n - 1)
  }

  /** A word in two's complement. */
  function Int(x: U256): int {
    if x >= 0x8000_0000_0000_0000_0000_0000_0000_0000_0000_0000_0000_0000_0000_0000_0000_0000 then x - TWO_256 else x
  }

  function Truth(b: bool): U256 {
    if b then 1 else 0
  }

  /** AND, OR and XOR of two bits. */
  function Gate(w: Byte, p: nat, q: nat): int {
    if w == 0x16 then p * q else if w == 0x17 then p + q - p * q else p + q - 2 * p * q
  }

  /** And of the low `n` bits of two numbers. */
  function Gates(w: Byte, n: nat, x: nat, y: nat): int {
    if n == 0 then 0 else Gate(w, x % 2, y % 2) + 2 * Gates(w, n - 1, x / 2, y / 2)
  }

  function SignExtend(k: U256, x: U256): int {
    if k > 30 then x
    else
      var width := if Two(8 * k + 8) == 0 then 1 else Two(8 * k + 8);
      var low := x % width;
      if 2 * low >= width then low - width + TWO_256 else low
  }

  function Sar(shift: U256, x: U256): int {
    if shift > 255 then (if Int(x) < 0 then TWO_256 - 1 else 0)
    else
      var scale := if Two(shift) == 0 then 1 else Two(shift);
      (Int(x) / scale) % TWO_256
  }

  /** What an instruction that only computes puts on the stack. */
  function Word(w: Byte, code: Bytecode, pc: nat, s: State): int {
    var x, y, z := Mu(s, 0), Mu(s, 1), Mu(s, 2);
    match w
    case 0x01 => (x + y) % TWO_256
    case 0x02 => (x * y) % TWO_256
    case 0x03 => (x - y) % TWO_256
    case 0x04 => if y == 0 then 0 else x / y
    case 0x06 => if y == 0 then 0 else x % y
    case 0x08 => if z == 0 then 0 else (x + y) % z
    case 0x09 => if z == 0 then 0 else (x * y) % z
    case 0x0b => SignExtend(x, y)
    case 0x10 => Truth(x < y)
    case 0x11 => Truth(x > y)
    case 0x12 => Truth(Int(x) < Int(y))
    case 0x13 => Truth(Int(x) > Int(y))
    case 0x14 => Truth(x == y)
    case 0x15 => Truth(x == 0)
    case 0x19 => TWO_256 - 1 - x
    case 0x1d => Sar(x, y)
    case 0x58 => pc % TWO_256
    case 0x59 => |s.memory| % TWO_256
    case 0x5a => s.gas % TWO_256
    case 0x5f => 0
    case _ =>
      if 0x60 <= w <= 0x7f then Data(code, pc + 1, w - 0x5f)
      else if 0x80 <= w <= 0x8f then Mu(s, w - 0x80)
      else Gates(w, 256, x, y)
  }

  // ----- Memory -----

  /** A byte of memory, zero where nothing has been touched. */
  function At(s: State, i: nat): Byte {
    if i < |s.memory| then s.memory[i] else 0
  }

  /** How many bytes at the first operand an instruction uses. */
  function Used(w: Byte, s: State): nat {
    if w == 0x51 || w == 0x52 then 32
    else if w == 0x53 then 1
    else if w == 0xf3 || w == 0xfd then Mu(s, 1)
    else 0
  }

  /** M: the words of memory in use afterwards. */
  function Active(w: Byte, s: State): nat {
    var needed := (Mu(s, 0) + Used(w, s) + 31) / 32;
    if Used(w, s) == 0 || needed <= |s.memory| / 32 then |s.memory| / 32 else needed
  }

  /** C_mem. */
  function Cmem(a: nat): int {
    3 * a + a * a / 512
  }

  function Loaded(s: State, o: nat, n: nat): nat {
    if n == 0 then 0 else 256 * Loaded(s, o, n - 1) + At(s, o + n - 1)
  }

  /** The byte of `value` with `k` more significant ones among its low 32. */
  function BigEndian(value: nat, k: nat): Byte
    decreases 31 - k
  {
    if k >= 31 then value % 256 else BigEndian(value / 256, k + 1)
  }

  function Stored(w: Byte, s: State, i: nat): Byte {
    var o, value := Mu(s, 0), Mu(s, 1);
    if w == 0x52 && o <= i < o + 32 then BigEndian(value, i - o)
    else if w == 0x53 && i == o then value % 256
    else At(s, i)
  }

  // ----- One step -----

  function Fails(): Outcome {
    Halted(Result(ErrorStatus, 0, []))
  }

  ghost function GoTo(code: Bytecode, p: nat, s: State): Outcome {
    if p in D(code, 0) then Running(p, s) else Fails()
  }

  /** The stack and memory of the next state; `s` has its gas already taken. */
  ghost predicate Effect(code: Bytecode, pc: nat, s: State, words: nat, o: Outcome)
    requires pc < |code|
  {
    var w := code[pc];
    var n := |s.stack|;
    if w == 0x00 then o == Halted(Result(StopStatus, s.gas, []))
    else if w == 0xf3 || w == 0xfd then
      && o.Halted? && o.result.status == (if w == 0xf3 then ReturnStatus else RevertStatus)
      && o.result.gas == s.gas && |o.result.output| == Mu(s, 1)
      && forall i: nat | i < Mu(s, 1) :: o.result.output[i] == At(s, Mu(s, 0) + i)
    else if w == 0x56 && n >= 1 then o == GoTo(code, Mu(s, 0), s.(stack := s.stack[..n - 1]))
    else if w == 0x57 && n >= 2 && Mu(s, 1) != 0 then o == GoTo(code, Mu(s, 0), s.(stack := s.stack[..n - 2]))
    else
      && o.Running? && o.pc == N(pc, w) && o.s.gas == s.gas
      && |o.s.memory| == 32 * words && (forall i: nat | i < 32 * words :: o.s.memory[i] == Stored(w, s, i))
      && Pushes(code, pc, s, words, o.s.stack)
  }

  /** What lies on the stack afterwards. */
  ghost predicate Pushes(code: Bytecode, pc: nat, s: State, words: nat, stack: seq<U256>)
    requires pc < |code|
  {
    var w := code[pc];
    var n := |s.stack|;
    match Schedule(w)
    case None => false
    case Some(row) =>
      && row.delta <= n && |stack| == n - row.delta + row.alpha
      && if 0x80 <= w <= 0x8f then stack == s.stack + [Mu(s, w - 0x80)]
         else if 0x90 <= w <= 0x9f then
           && stack[n - 1] == Mu(s, w - 0x8f) && stack[n - 1 - (w - 0x8f)] == Mu(s, 0)
           && forall i | 0 <= i < n - 1 && i != n - 1 - (w - 0x8f) :: stack[i] == s.stack[i]
         else
           && stack[..n - row.delta] == s.stack[..n - row.delta]
           && (row.alpha == 1 ==>
                 stack[n - row.delta] == if w == 0x51 then Loaded(s, Mu(s, 0), 32) else Word(w, code, pc, s))
  }

  /** The step the Yellow Paper prescribes at `pc`. */
  ghost predicate Prescribes(code: Bytecode, pc: nat, s: State, o: Outcome) {
    if pc >= |code| then o == Halted(Result(StopStatus, s.gas, []))
    else
      match Schedule(code[pc])
      case None => !Assigned(code[pc]) && o == Fails()
      case Some(row) =>
        var words := Active(code[pc], s);
        var cost := row.fee + Cmem(words) - Cmem(|s.memory| / 32);
        if |s.stack| < row.delta || s.gas < cost || |s.stack| - row.delta + row.alpha > 1024 then o == Fails()
        else cost >= 0 && Effect(code, pc, s.(gas := s.gas - cost), words, o)
  }

  ghost predicate Leads(code: Bytecode, o: Outcome, o': Outcome) {
    o.Running? && Prescribes(code, o.pc, o.s, o')
  }

  /** A run: each outcome leads to the next by a prescribed step. */
  ghost predicate Follows(code: Bytecode, outcomes: seq<Outcome>) {
    forall i | 0 <= i < |outcomes| - 1 :: Leads(code, outcomes[i], outcomes[i + 1])
  }
}
