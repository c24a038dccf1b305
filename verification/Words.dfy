/** Fixed-width integer arithmetic, as the generated code computes it and as the EVM defines it. */
module Words {
  import opened Primitives
  import opened Arithmetic

  function Pow2(n: nat): (p: nat)
    ensures p > 0
  {
    if n == 0 then 1 else 2 * Pow2(n - 1)
  }

  lemma {:induction false} Pow2Sum(m: nat, n: nat)
    ensures Pow2(m + n) == Pow2(m) * Pow2(n)
    decreases n
  {
    if n > 0 {
      Pow2Sum(m, n - 1);
    }
  }

  lemma Pow2Of64()
    ensures Pow2(64) == TWO_64
  {
    assert Pow2(16) == 0x1_0000 by {
      assert Pow2(4) == 16;
      Pow2Sum(4, 4);
      Pow2Sum(8, 8);
    }
    Pow2Sum(16, 16);
    Pow2Sum(32, 32);
  }

  lemma Pow2Of256()
    ensures Pow2(255) == TWO_256 / 2 && Pow2(256) == TWO_256
  {
    Pow2Of64();
    assert Pow2(128) == TWO_64 * TWO_64 by {
      Pow2Sum(64, 64);
    }
    Pow2Sum(128, 128);
  }

  // ----- Bitwise operations -----

  datatype Gate = AndGate | OrGate | XorGate

  function Apply(gate: Gate, a: bool, b: bool): bool {
    match gate
    case AndGate => a && b
    case OrGate => a || b
    case XorGate => a != b
  }

  /** The lowest `n` bits of two numbers combined bit by bit. */
  function Bitwise(gate: Gate, n: nat, a: nat, b: nat): (r: nat)
    ensures r < Pow2(n)
  {
    if n == 0 then 0
    else (if Apply(gate, a % 2 == 1, b % 2 == 1) then 1 else 0) + 2 * Bitwise(gate, n - 1, a / 2, b / 2)
  }

  function Bit(a: nat, i: nat): bool {
    if i == 0 then a % 2 == 1 else Bit(a / 2, i - 1)
  }

  lemma {:induction false} BitwiseBits(gate: Gate, n: nat, a: nat, b: nat, i: nat)
    requires i < n
    ensures Bit(Bitwise(gate, n, a, b), i) == Apply(gate, Bit(a, i), Bit(b, i))
    decreases n
  {
    var rest := Bitwise(gate, n - 1, a / 2, b / 2);
    assert Bitwise(gate, n, a, b) / 2 == rest;
    if i > 0 {
      BitwiseBits(gate, n - 1, a / 2, b / 2, i - 1);
    }
  }

  /** AND, OR and XOR bit by bit. */
  lemma GateBits(n: nat, a: nat, b: nat, i: nat)
    requires i < n
    ensures Bit(Bitwise(AndGate, n, a, b), i) <==> Bit(a, i) && Bit(b, i)
    ensures Bit(Bitwise(OrGate, n, a, b), i) <==> Bit(a, i) || Bit(b, i)
    ensures Bit(Bitwise(XorGate, n, a, b), i) <==> (Bit(a, i) && !Bit(b, i)) || (!Bit(a, i) && Bit(b, i))
  {
    BitwiseBits(AndGate, n, a, b, i);
    BitwiseBits(OrGate, n, a, b, i);
    BitwiseBits(XorGate, n, a, b, i);
  }

  /** Flipping every bit subtracts from all ones. */
  lemma {:induction false} XorWithOnes(n: nat, a: nat)
    requires a < Pow2(n)
    ensures Bitwise(XorGate, n, a, Pow2(n) - 1) == Pow2(n) - 1 - a
  {
    if n > 0 {
      XorWithOnes(n - 1, a / 2);
      assert (Pow2(n) - 1) / 2 == Pow2(n - 1) - 1;
      assert (Pow2(n) - 1) % 2 == 1;
    }
  }

  // ----- Signed words -----

  function Signed(a: U256): int {
    if a < TWO_256 / 2 then a else a - TWO_256
  }

  function Unsigned(a: int): U256
    requires -TWO_256 <= a < TWO_256
  {
    if a < 0 then a + TWO_256 else a
  }

  /** Arithmetic shift right. */
  function ShiftRightSigned(a: U256, shift: nat): U256 {
    DivBound(Signed(a), Pow2(shift));
    Unsigned(Signed(a) / Pow2(shift))
  }

  function ShiftLeft(a: U256, shift: nat): U256 {
    (a * Pow2(shift)) % TWO_256
  }

  // ----- The EVM's definitions -----

  /** AND, OR and XOR: the word whose bits are those of the operands combined. */
  function EvmBitwise(gate: Gate, a: U256, b: U256): U256 {
    Pow2Of256();
    Bitwise(gate, 256, a, b)
  }

  function EvmDiv(a: U256, b: U256): U256 {
    if b == 0 then 0 else DivBound(a, b); a / b
  }

  function EvmMod(a: U256, b: U256): U256 {
    if b == 0 then 0 else a % b
  }

  /** The sum and the product are taken without any wrap-around. */
  function EvmAddMod(a: U256, b: U256, n: U256): U256 {
    if n == 0 then 0 else (a + b) % n
  }

  function EvmMulMod(a: U256, b: U256, n: U256): U256 {
    if n == 0 then 0 else (a * b) % n
  }

  /** Shifts past the width leave only the sign. */
  function EvmSar(shift: U256, a: U256): U256 {
    if shift >= 256 then (if Signed(a) < 0 then TWO_256 - 1 else 0) else ShiftRightSigned(a, shift)
  }

  /** The value whose low `size` + 1 bytes are those of `a` and whose other bits repeat their sign. */
  function EvmSignExtend(size: U256, a: U256): U256 {
    if size >= 31 then a
    else
      var width := Pow2(8 * size + 8);
      WidthBound(size);
      var low := a % width;
      if low < width / 2 then low else low + TWO_256 - width
  }

  lemma WidthBound(size: nat)
    requires size < 31
    ensures Pow2(8 * size + 8) <= TWO_256
  {
    Pow2Of256();
    Pow2Sum(8 * size + 8, 256 - (8 * size + 8));
    var rest := Pow2(256 - (8 * size + 8));
    assert Pow2(8 * size + 8) * rest >= Pow2(8 * size + 8);
  }

  function EvmNot(a: U256): U256 {
    TWO_256 - 1 - a
  }

  // ----- What the generated code computes is what the EVM defines -----

  lemma NotByXor(a: U256)
    ensures Bitwise(XorGate, 256, a, TWO_256 - 1) == EvmNot(a)
  {
    Pow2Of256();
    XorWithOnes(256, a);
  }

  /** Clamping the shift to 255 is enough. */
  lemma SarByClamping(shift: U256, a: U256)
    ensures ShiftRightSigned(a, Min(shift, 255)) == EvmSar(shift, a)
  {
    if shift >= 256 {
      Pow2Of256();
      if Signed(a) < 0 {
        assert Signed(a) / Pow2(255) == -1;
      } else {
        assert Signed(a) / Pow2(255) == 0;
      }
    }
  }

  /** The low part of a word, shifted to the top and back down with its sign. */
  lemma ShiftUpAndDown(low: nat, half: nat, scale: nat)
    requires scale > 0 && half * scale == TWO_256 / 2 && low < 2 * half
    ensures low * scale < TWO_256
    ensures Signed(low * scale) / scale == if low < half then low else low - 2 * half
  {
    MulMonotone(low + 1, 2 * half, scale);
    assert (low + 1) * scale == low * scale + scale;
    assert (2 * half) * scale == TWO_256;
    if low < half {
      MulMonotone(low + 1, half, scale);
      DivExact(low, scale);
    } else {
      MulMonotone(half, low, scale);
      assert (low - 2 * half) * scale == low * scale - TWO_256;
      DivExact(low - 2 * half, scale);
    }
  }

  /** Shifting left and arithmetically right again extends the sign. */
  lemma SignExtendByShifts(size: U256, a: U256)
    ensures var shift := 255 - (Min(size, 31) * 8 + 7);
            ShiftRightSigned(ShiftLeft(a, shift), shift) == EvmSignExtend(size, a)
  {
    var bytes := Min(size, 31);
    var shift := 255 - (bytes * 8 + 7);
    var width, half, scale := Pow2(8 * bytes + 8), Pow2(8 * bytes + 7), Pow2(shift);
    Pow2Of256();
    Pow2Sum(8 * bytes + 8, shift);
    Pow2Sum(8 * bytes + 7, shift);
    ModScale(a, width, scale);
    assert width == 2 * half;
    assert ShiftLeft(a, shift) == (a % width) * scale;
    ShiftUpAndDown(a % width, half, scale);
    if size >= 31 {
      assert width == TWO_256;
    }
  }
}
