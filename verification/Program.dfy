/** Bytecode programs: parsing, printing and their relation. */
module Programs {
  import opened Primitives

  const STOP: Byte := 0x00
  const ADD: Byte := 0x01
  const MUL: Byte := 0x02
  const SUB: Byte := 0x03
  const DIV: Byte := 0x04
  const MOD: Byte := 0x06
  const ADDMOD: Byte := 0x08
  const MULMOD: Byte := 0x09
  const SIGNEXTEND: Byte := 0x0b
  const LT: Byte := 0x10
  const GT: Byte := 0x11
  const SLT: Byte := 0x12
  const SGT: Byte := 0x13
  const EQ: Byte := 0x14
  const ISZERO: Byte := 0x15
  const AND: Byte := 0x16
  const OR: Byte := 0x17
  const XOR: Byte := 0x18
  const NOT: Byte := 0x19
  const SAR: Byte := 0x1d
  const POP: Byte := 0x50
  const MLOAD: Byte := 0x51
  const MSTORE: Byte := 0x52
  const MSTORE8: Byte := 0x53
  const JUMP: Byte := 0x56
  const JUMPI: Byte := 0x57
  const MSIZE: Byte := 0x59
  const GAS: Byte := 0x5a
  const PUSH0: Byte := 0x5f
  const RETURN: Byte := 0xf3
  const REVERT: Byte := 0xfd
  const PC_OPCODE: Byte := 0x58
  const JUMPDEST: Byte := 0x5b
  const PUSH1: Byte := 0x60
  const PUSH32: Byte := 0x7f
  const DUP1: Byte := 0x80
  const SWAP1: Byte := 0x90
  const LOG0: Byte := 0xa0
  const INVALID: Byte := 0xfe

  /** Operations without an operand are told apart by their opcode. */
  datatype Operation =
    | Basic(opcode: Byte)
    | PC(pc: nat)
    | Jumpdest(pc: nat)
    | Push(size: nat, value: nat)
    | Dup(n: nat)
    | Swap(n: nat)
    | Log(n: nat)
    | Invalid

  // ----- Big-endian numbers -----

  function Pow256(n: nat): nat {
    if n == 0 then 1 else 256 * Pow256(n - 1)
  }

  function FromBytes(bytes: Bytecode): nat {
    if bytes == [] then 0 else 256 * FromBytes(bytes[..|bytes| - 1]) + bytes[|bytes| - 1]
  }

  /** The last `n` bytes of a number. */
  function ToBytes(value: nat, n: nat): (bytes: Bytecode)
    ensures |bytes| == n
  {
    if n == 0 then [] else ToBytes(value / 256, n - 1) + [value % 256]
  }

  lemma {:induction false} FromBytesBound(bytes: Bytecode)
    ensures FromBytes(bytes) < Pow256(|bytes|)
  {
    if bytes != [] {
      FromBytesBound(bytes[..|bytes| - 1]);
    }
  }

  lemma {:induction false} Pow256Monotone(m: nat, n: nat)
    requires m <= n
    ensures Pow256(m) <= Pow256(n)
    decreases n
  {
    if m < n {
      Pow256Monotone(m, n - 1);
    }
  }

  lemma {:induction false} Pow256Sum(m: nat, n: nat)
    ensures Pow256(m + n) == Pow256(m) * Pow256(n)
    decreases n
  {
    if n > 0 {
      Pow256Sum(m, n - 1);
    }
  }

  lemma Pow256Of8()
    ensures Pow256(8) == TWO_64
  {
    assert Pow256(2) == 0x1_0000;
    assert Pow256(4) == 0x1_0000_0000;
    assert Pow256(6) == 0x1_0000_0000_0000;
  }

  lemma Pow256Of32()
    ensures Pow256(32) == TWO_256
  {
    Pow256Of8();
    Pow256Sum(8, 8);
    Pow256Sum(16, 16);
  }

  lemma {:induction false} BytesRoundTrip(value: nat, n: nat)
    requires value < Pow256(n)
    ensures FromBytes(ToBytes(value, n)) == value
  {
    if n > 0 {
      BytesRoundTrip(value / 256, n - 1);
      assert ToBytes(value, n)[..n - 1] == ToBytes(value / 256, n - 1);
    }
  }

  lemma {:induction false} NumberRoundTrip(bytes: Bytecode)
    ensures ToBytes(FromBytes(bytes), |bytes|) == bytes
  {
    if bytes != [] {
      NumberRoundTrip(bytes[..|bytes| - 1]);
    }
  }

  // ----- Opcodes -----

  /** The known opcodes that carry no operand. */
  predicate IsBasic(b: Byte) {
    || b <= 0x0b
    || 0x10 <= b <= 0x1d
    || b == 0x20
    || 0x30 <= b <= 0x4a
    || 0x50 <= b <= 0x57
    || 0x59 <= b <= 0x5a
    || 0x5c <= b <= 0x5f
    || 0xf0 <= b <= 0xf5
    || b == 0xfa
    || b == 0xfd
    || b == 0xff
  }

  predicate IsPush(b: Byte) {
    PUSH1 <= b <= PUSH32
  }

  /** The operation of a byte other than PUSH1 to PUSH32; 0xfe is not among the known opcodes. */
  function Decode(b: Byte, pc: nat): Option<Operation> {
    if IsBasic(b) then Some(Basic(b))
    else if b == PC_OPCODE then Some(PC(pc))
    else if b == JUMPDEST then Some(Jumpdest(pc))
    else if DUP1 <= b < DUP1 + 16 then Some(Dup(b - DUP1 + 1))
    else if SWAP1 <= b < SWAP1 + 16 then Some(Swap(b - SWAP1 + 1))
    else if LOG0 <= b <= LOG0 + 4 then Some(Log(b - LOG0))
    else None
  }

  predicate Defined(b: Byte) {
    IsPush(b) || Decode(b, 0).Some?
  }

  /** Operands in the range their opcodes allow. */
  predicate Valid(op: Operation) {
    match op
    case Basic(b) => IsBasic(b)
    case Push(size, value) => 1 <= size <= 32 && value < Pow256(size)
    case Dup(n) => 1 <= n <= 16
    case Swap(n) => 1 <= n <= 16
    case Log(n) => n <= 4
    case _ => true
  }

  /** The first byte of an operation. */
  function Lead(op: Operation): Byte
    requires Valid(op)
  {
    match op
    case Basic(b) => b
    case PC(_) => PC_OPCODE
    case Jumpdest(_) => JUMPDEST
    case Push(size, _) => PUSH0 + size
    case Dup(n) => DUP1 + n - 1
    case Swap(n) => SWAP1 + n - 1
    case Log(n) => LOG0 + n
    case Invalid => INVALID
  }

  function Print(op: Operation): Bytecode
    requires Valid(op)
  {
    if op.Push? then [Lead(op)] + ToBytes(op.value, op.size) else [Lead(op)]
  }

  function Size(op: Operation): nat {
    if op.Push? then op.size + 1 else 1
  }
}
