/** BLAKE2 pinned down where a bijection would not notice: its constants, its rotations and its ends. */
module Blake2Constants {
  import opened Primitives
  import opened Arithmetic
  import opened Words
  import opened Blake2

  // ----- Constants -----

  const PRIMES: seq<nat> := [2, 3, 5, 7, 11, 13, 17, 19]

  /** The initialization vector is the fractional part of the square roots of the first eight primes, 64 bits of it. */
  lemma IvIsSquareRoots(i: nat)
    requires i < 8
    ensures |IV| == 8
    ensures exists whole: nat ::
              var root := whole * TWO_64 + IV[i];
              root * root <= PRIMES[i] * (TWO_64 * TWO_64) < (root + 1) * (root + 1)
  {
    var whole := if i == 0 || i == 1 then 1 else if i <= 3 then 2 else if i <= 5 then 3 else 4;
    var root := whole * TWO_64 + IV[i];
    assert root * root <= PRIMES[i] * (TWO_64 * TWO_64) < (root + 1) * (root + 1);
  }

  /** The rows of section 2.7 of RFC 7693, a hexadecimal digit for each word. */
  const ROWS: seq<nat> := [
    0x0123456789abcdef, 0xea489fd61c02b753, 0xb8c052fdae367194,
    0x7931dcbe265a40f8, 0x905724afe1bc683d, 0x2c6a0b834d75fe19,
    0xc51fed4a0763928b, 0xdb7ec13950f4862a, 0x6fe9b308c2d714a5,
    0xa2847615fb9e3cd0
  ]

  /** The first `n` words of a row written as hexadecimal digits. */
  function Packed(s: seq<nat>, n: nat): nat
    requires n <= |s|
  {
    if n == 0 then 0 else 16 * Packed(s, n - 1) + s[n - 1]
  }

  lemma PackedSixteen(s: seq<nat>)
    requires |s| == 16
    ensures Packed(s, 16) ==
            0x1_0000_0000_0000 * Four(s, 0) + 0x1_0000_0000 * Four(s, 4) + 0x1_0000 * Four(s, 8) + Four(s, 12)
  {
    assert Packed(s, 0) == 0;
    assert Packed(s, 1) == s[0];
    assert Packed(s, 2) == 16 * s[0] + s[1];
    assert Packed(s, 6) == 256 * Packed(s, 4) + 16 * s[4] + s[5];
    assert Packed(s, 8) == 256 * Packed(s, 6) + 16 * s[6] + s[7];
    assert Packed(s, 10) == 256 * Packed(s, 8) + 16 * s[8] + s[9];
    assert Packed(s, 12) == 256 * Packed(s, 10) + 16 * s[10] + s[11];
    assert Packed(s, 14) == 256 * Packed(s, 12) + 16 * s[12] + s[13];
  }

  function Four(s: seq<nat>, k: nat): nat
    requires k + 4 <= |s|
  {
    0x1000 * s[k] + 0x100 * s[k + 1] + 0x10 * s[k + 2] + s[k + 3]
  }

  lemma SigmaIsRows(r: nat)
    ensures Packed(Sigma(r), 16) == ROWS[r % 10]
  {
    PackedSixteen(Sigma(r));
  }

  /** The columns, then the diagonals of the vector as a square of four. */
  lemma LanesAreLines(k: nat)
    requires k < 4
    ensures Lanes(k) == (k, 4 + k, 8 + k, 12 + k)
    ensures Lanes(4 + k) == (k, 4 + (k + 1) % 4, 8 + (k + 2) % 4, 12 + (k + 3) % 4)
  {
  }

  // ----- Rotation -----

  lemma HalvedQuotient(x: nat, p: nat, hi: nat, lo: nat)
    requires p > 0 && x == p * hi + lo && lo < p
    ensures x / (2 * p) == hi / 2 && x % (2 * p) == lo + p * (hi % 2)
  {
    DivDef(hi, 2);
    assert p * hi == p * (2 * (hi / 2)) + p * (hi % 2);
    assert p * (2 * (hi / 2)) == (2 * p) * (hi / 2);
    ModUnique(x, 2 * p, hi / 2, lo + p * (hi % 2));
  }

  lemma OddAndEven(hi: nat, product: nat)
    ensures (hi + 2 * product) / 2 == hi / 2 + product && (hi + 2 * product) % 2 == hi % 2
  {
  }

  lemma RotatedOnce(x: nat, p: nat, q: nat)
    requires p > 0 && p * q == TWO_64 / 2
    ensures var y := x / p + (x % p) * (2 * q);
            y / 2 + (y % 2) * (TWO_64 / 2) == x / (2 * p) + (x % (2 * p)) * q
  {
    DivDef(x, p);
    DivBound(x, p);
    var hi, lo: nat := x / p, x % p;
    HalvedQuotient(x, p, hi, lo);
    MulSign(lo, q);
    OddAndEven(hi, lo * q);
    assert lo * (2 * q) == 2 * (lo * q);
    assert (lo + p * (hi % 2)) * q == lo * q + (hi % 2) * (p * q);
  }

  /** Rotating right by `n` moves the low `n` bits to the top. */
  lemma {:induction false} RotationIs(x: U64, n: nat)
    requires n <= 64
    ensures RotateRight(x, n) == x / Pow2(n) + (x % Pow2(n)) * Pow2(64 - n)
  {
    if n == 0 {
      assert x % 1 == 0;
    } else {
      RotationIs(x, n - 1);
      var p, q := Pow2(n - 1), Pow2(64 - n);
      PowersApart(n, p, q);
      RotatedOnce(x, p, q);
    }
  }

  lemma PowersApart(n: nat, p: nat, q: nat)
    requires 0 < n <= 64 && p == Pow2(n - 1) && q == Pow2(64 - n)
    ensures p * q == TWO_64 / 2 && Pow2(n) == 2 * p && Pow2(64 - (n - 1)) == 2 * q
  {
    Pow2Of64();
    Pow2Sum(n - 1, 64 - n);
    assert Pow2(63) == TWO_64 / 2;
  }

  // ----- Mixing, section 3.1 -----

  lemma Powers()
    ensures Pow2(1) == 2 && Pow2(8) == 0x100 && Pow2(16) == 0x1_0000 && Pow2(24) == 0x100_0000
    ensures Pow2(32) == 0x1_0000_0000 && Pow2(40) == 0x100_0000_0000 && Pow2(48) == 0x1_0000_0000_0000
    ensures Pow2(63) == 0x8000_0000_0000_0000
  {
    Pow2Of64();
    assert Pow2(4) == 16;
    Pow2Sum(4, 4);
    Pow2Sum(8, 8);
    Pow2Sum(16, 8);
    Pow2Sum(24, 8);
    Pow2Sum(32, 8);
    Pow2Sum(40, 8);
  }

  /** The low part of `z`, below `p`, moved to the top. */
  function Turn(z: U64, p: nat, up: nat): int
    requires p > 0
  {
    z / p + (z % p) * up
  }

  /** Half a mixing with its rotations written as quotients and remainders. */
  ghost predicate Mixed(q: Quad, x: U64, p: nat, up: nat, p': nat, up': nat, h: Quad)
    requires p > 0 && p' > 0
  {
    && h.a == (q.a + q.b + x) % TWO_64 && h.c == (q.c + h.d) % TWO_64
    && h.d == Turn(Xor(q.d, h.a), p, up) && h.b == Turn(Xor(q.b, h.c), p', up')
  }

  lemma HalfIsMixed(q: Quad, x: U64, r: nat, s: nat)
    requires r <= 64 && s <= 64
    ensures Mixed(q, x, Pow2(r), Pow2(64 - r), Pow2(s), Pow2(64 - s), Half(q, x, r, s))
  {
    UpperHalf(q, x, r, s, Pow2(r), Pow2(64 - r));
    LowerHalf(q, x, r, s, Pow2(s), Pow2(64 - s));
  }

  lemma UpperHalf(q: Quad, x: U64, r: nat, s: nat, p: nat, up: nat)
    requires r <= 64 && p == Pow2(r) && up == Pow2(64 - r)
    ensures var h := Half(q, x, r, s); h.a == (q.a + q.b + x) % TWO_64 && h.d == Turn(Xor(q.d, h.a), p, up)
  {
    PlusTwice(q.a, q.b, x);
    RotationTurns(Xor(q.d, Half(q, x, r, s).a), r, p, up);
  }

  lemma LowerHalf(q: Quad, x: U64, r: nat, s: nat, p: nat, up: nat)
    requires s <= 64 && p == Pow2(s) && up == Pow2(64 - s)
    ensures var h := Half(q, x, r, s); h.c == (q.c + h.d) % TWO_64 && h.b == Turn(Xor(q.b, h.c), p, up)
  {
    RotationTurns(Xor(q.b, Half(q, x, r, s).c), s, p, up);
  }

  lemma PlusTwice(a: U64, b: U64, x: U64)
    ensures Plus(Plus(a, b), x) == (a + b + x) % TWO_64
  {
  }

  lemma RotationTurns(z: U64, n: nat, p: nat, up: nat)
    requires n <= 64 && p == Pow2(n) && up == Pow2(64 - n)
    ensures RotateRight(z, n) == Turn(z, p, up)
  {
    RotationIs(z, n);
  }

  /** G of RFC 7693: rotations by 32, 24, 16 and 63, the first message word in the first half. */
  lemma MixIs(q: Quad, x: U64, y: U64) returns (h: Quad)
    ensures Mixed(q, x, 0x1_0000_0000, 0x1_0000_0000, 0x100_0000, 0x100_0000_0000, h)
    ensures Mixed(h, y, 0x1_0000, 0x1_0000_0000_0000, 0x8000_0000_0000_0000, 2, Mix(q, x, y))
  {
    Powers();
    h := Half(q, x, R1, R2);
    HalfIsMixed(q, x, R1, R2);
    HalfIsMixed(h, y, R3, R4);
  }

  // ----- No rounds -----

  lemma {:induction false} XorZero(n: nat, x: nat)
    requires x < Pow2(n)
    ensures Bitwise(XorGate, n, x, 0) == x && Bitwise(XorGate, n, 0, x) == x
  {
    if n > 0 {
      XorZero(n - 1, x / 2);
    }
  }

  lemma {:induction false} XorItself(n: nat, x: nat)
    ensures Bitwise(XorGate, n, x, x) == 0
  {
    if n > 0 {
      XorItself(n - 1, x / 2);
    }
  }

  lemma XorCancels(h: U64, v: U64)
    ensures Xor(Xor(h, h), v) == v
  {
    Pow2Of64();
    XorItself(64, h);
    XorZero(64, v);
  }

  /** Without rounds, whatever chain value and message: the vector with the counters and the last block's mark. */
  lemma ZeroRounds(h: Chain, m: Vector, t0: U64, t1: U64, final: bool)
    ensures F(0, h, m, t0, t1, final) ==
            [0x6a09e667f3bcc908, 0xbb67ae8584caa73b, 0x3c6ef372fe94f82b, 0xa54ff53a5f1d36f1,
             Xor(0x510e527fade682d1, t0), Xor(0x9b05688c2b3e6c1f, t1),
             if final then 0xe07c265404be4294 else 0x1f83d9abfb41bd6b, 0x5be0cd19137e2179]
  {
    var v := Initialised(h, t0, t1, final);
    assert Rounds(v, m, 0) == v;
    NotIsXor(0x1f83d9abfb41bd6b);
    forall i: nat | i < 8
      ensures F(0, h, m, t0, t1, final)[i] == v[i + 8]
    {
      XorCancels(h[i], v[i + 8]);
    }
  }
}
