/** The BLAKE2b compression function F of RFC 7693, in place and as a function. */
module Blake2 {
  import opened Primitives
  import opened Words

  type Index = x: nat | x < 16

  /** Message word selection, section 2.7. */
  function Sigma(r: nat): (s: seq<Index>)
    ensures |s| == 16
  {
    match r % 10
    case 0 => [0, 1, 2, 3, 4, 5, 6, 7, 8, 9, 10, 11, 12, 13, 14, 15]
    case 1 => [14, 10, 4, 8, 9, 15, 13, 6, 1, 12, 0, 2, 11, 7, 5, 3]
    case 2 => [11, 8, 12, 0, 5, 2, 15, 13, 10, 14, 3, 6, 7, 1, 9, 4]
    case 3 => [7, 9, 3, 1, 13, 12, 11, 14, 2, 6, 5, 10, 4, 0, 15, 8]
    case 4 => [9, 0, 5, 7, 2, 4, 10, 15, 14, 1, 11, 12, 6, 8, 3, 13]
    case 5 => [2, 12, 6, 10, 0, 11, 8, 3, 4, 13, 7, 5, 15, 14, 1, 9]
    case 6 => [12, 5, 1, 15, 14, 13, 4, 10, 0, 7, 6, 3, 9, 2, 8, 11]
    case 7 => [13, 11, 7, 14, 12, 1, 3, 9, 5, 0, 15, 4, 8, 6, 2, 10]
    case 8 => [6, 15, 14, 9, 11, 3, 0, 8, 12, 2, 13, 7, 1, 4, 10, 5]
    case _ => [10, 2, 8, 4, 7, 6, 1, 5, 15, 11, 9, 14, 3, 12, 13, 0]
  }

  /** Initialization vector, appendix C.2. */
  const IV: seq<U64> :=
    [0x6a09e667f3bcc908, 0xbb67ae8584caa73b, 0x3c6ef372fe94f82b, 0xa54ff53a5f1d36f1,
     0x510e527fade682d1, 0x9b05688c2b3e6c1f, 0x1f83d9abfb41bd6b, 0x5be0cd19137e2179]

  /** Rotation distances, section 2.1. */
  const R1: nat := 32
  const R2: nat := 24
  const R3: nat := 16
  const R4: nat := 63

  // ----- 64-bit words -----

  function Plus(x: U64, y: U64): U64 {
    (x + y) % TWO_64
  }

  function Minus(x: U64, y: U64): U64 {
    (x - y) % TWO_64
  }

  function Xor(x: U64, y: U64): U64 {
    Pow2Of64();
    Bitwise(XorGate, 64, x, y)
  }

  function RightOne(x: U64): U64 {
    x / 2 + (x % 2) * (TWO_64 / 2)
  }

  function LeftOne(x: U64): U64 {
    (2 * x) % TWO_64 + 2 * x / TWO_64
  }

  function RotateRight(x: U64, n: nat): U64 {
    if n == 0 then x else RightOne(RotateRight(x, n - 1))
  }

  function RotateLeft(x: U64, n: nat): U64
    decreases n
  {
    if n == 0 then x else RotateLeft(LeftOne(x), n - 1)
  }

  lemma OneInverts(x: U64)
    ensures LeftOne(RightOne(x)) == x && RightOne(LeftOne(x)) == x
  {
    var low := x % 2;
    assert x == 2 * (x / 2) + low;
    assert 2 * RightOne(x) == (x - low) + low * TWO_64;
  }

  lemma {:induction false} LeftUndoesRight(x: U64, n: nat)
    ensures RotateLeft(RotateRight(x, n), n) == x
  {
    if n > 0 {
      OneInverts(RotateRight(x, n - 1));
      LeftUndoesRight(x, n - 1);
    }
  }

  lemma {:induction false} RightUndoesLeft(x: U64, n: nat)
    ensures RotateRight(RotateLeft(x, n), n) == x
    decreases n
  {
    if n > 0 {
      RightUndoesLeft(LeftOne(x), n - 1);
      OneInverts(x);
    }
  }

  lemma {:induction false} XorTwice(n: nat, x: nat, y: nat)
    requires x < Pow2(n)
    ensures Bitwise(XorGate, n, Bitwise(XorGate, n, x, y), y) == x
  {
    if n > 0 {
      var rest := Bitwise(XorGate, n - 1, x / 2, y / 2);
      assert Bitwise(XorGate, n, x, y) / 2 == rest;
      XorTwice(n - 1, x / 2, y / 2);
    }
  }

  lemma XorInverts(x: U64, y: U64)
    ensures Xor(Xor(x, y), y) == x
  {
    Pow2Of64();
    XorTwice(64, x, y);
  }

  lemma PlusInverts(x: U64, y: U64)
    ensures Minus(Plus(x, y), y) == x && Plus(Minus(x, y), y) == x
  {
    assert Plus(x, y) == if x + y < TWO_64 then x + y else x + y - TWO_64;
    assert Minus(x, y) == if x >= y then x - y else x - y + TWO_64;
  }

  // ----- Mixing four words, section 3.1 -----

  datatype Quad = Quad(a: U64, b: U64, c: U64, d: U64)

  /** Half of G: adds the message word `x` and rotates by `r` and `s`. */
  function Half(q: Quad, x: U64, r: nat, s: nat): Quad {
    var a := Plus(Plus(q.a, q.b), x);
    var d := RotateRight(Xor(q.d, a), r);
    var c := Plus(q.c, d);
    Quad(a, RotateRight(Xor(q.b, c), s), c, d)
  }

  function Mix(q: Quad, x: U64, y: U64): Quad {
    Half(Half(q, x, R1, R2), y, R3, R4)
  }

  function UndoHalf(q: Quad, x: U64, r: nat, s: nat): Quad {
    var b := Xor(RotateLeft(q.b, s), q.c);
    Quad(Minus(Minus(q.a, x), b), b, Minus(q.c, q.d), Xor(RotateLeft(q.d, r), q.a))
  }

  function Unmix(q: Quad, x: U64, y: U64): Quad {
    UndoHalf(UndoHalf(q, y, R3, R4), x, R1, R2)
  }

  lemma UndoHalfInverts(q: Quad, x: U64, r: nat, s: nat)
    ensures UndoHalf(Half(q, x, r, s), x, r, s) == q
  {
    var h := Half(q, x, r, s);
    LeftUndoesRight(Xor(q.b, h.c), s);
    LeftUndoesRight(Xor(q.d, h.a), r);
    XorInverts(q.b, h.c);
    XorInverts(q.d, h.a);
    PlusInverts(q.c, h.d);
    PlusInverts(Plus(q.a, q.b), x);
    PlusInverts(q.a, q.b);
  }

  lemma HalfInverts(q: Quad, x: U64, r: nat, s: nat)
    ensures Half(UndoHalf(q, x, r, s), x, r, s) == q
  {
    var u := UndoHalf(q, x, r, s);
    RightUndoesLeft(q.b, s);
    RightUndoesLeft(q.d, r);
    XorInverts(RotateLeft(q.b, s), q.c);
    XorInverts(RotateLeft(q.d, r), q.a);
    PlusInverts(q.c, q.d);
    PlusInverts(Minus(q.a, x), u.b);
    PlusInverts(q.a, x);
  }

  /** Mixing is a bijection on four words, for every pair of message words. */
  lemma MixInverts(q: Quad, x: U64, y: U64)
    ensures Unmix(Mix(q, x, y), x, y) == q && Mix(Unmix(q, x, y), x, y) == q
  {
    UndoHalfInverts(q, x, R1, R2);
    UndoHalfInverts(Half(q, x, R1, R2), y, R3, R4);
    HalfInverts(q, y, R3, R4);
    HalfInverts(UndoHalf(q, y, R3, R4), x, R1, R2);
  }

  // ----- The work vector -----

  type Vector = v: seq<U64> | |v| == 16 witness seq(16, _ => 0)

  predicate Distinct(a: Index, b: Index, c: Index, d: Index) {
    a != b && a != c && a != d && b != c && b != d && c != d
  }

  function Select(v: Vector, a: Index, b: Index, c: Index, d: Index): Quad {
    Quad(v[a], v[b], v[c], v[d])
  }

  function Place(v: Vector, a: Index, b: Index, c: Index, d: Index, q: Quad): Vector {
    v[a := q.a][b := q.b][c := q.c][d := q.d]
  }

  function G(v: Vector, a: Index, b: Index, c: Index, d: Index, x: U64, y: U64): Vector {
    Place(v, a, b, c, d, Mix(Select(v, a, b, c, d), x, y))
  }

  function Ungee(v: Vector, a: Index, b: Index, c: Index, d: Index, x: U64, y: U64): Vector {
    Place(v, a, b, c, d, Unmix(Select(v, a, b, c, d), x, y))
  }

  lemma PlaceSelect(v: Vector, a: Index, b: Index, c: Index, d: Index, q: Quad)
    requires Distinct(a, b, c, d)
    ensures Select(Place(v, a, b, c, d, q), a, b, c, d) == q
    ensures forall q' :: Place(Place(v, a, b, c, d, q), a, b, c, d, q') == Place(v, a, b, c, d, q')
    ensures Place(v, a, b, c, d, Select(v, a, b, c, d)) == v
  {
    forall q': Quad
      ensures Place(Place(v, a, b, c, d, q), a, b, c, d, q') == Place(v, a, b, c, d, q')
    {
    }
  }

  lemma GInverts(v: Vector, a: Index, b: Index, c: Index, d: Index, x: U64, y: U64)
    requires Distinct(a, b, c, d)
    ensures Ungee(G(v, a, b, c, d, x, y), a, b, c, d, x, y) == v
    ensures G(Ungee(v, a, b, c, d, x, y), a, b, c, d, x, y) == v
  {
    var q := Select(v, a, b, c, d);
    MixInverts(q, x, y);
    PlaceSelect(v, a, b, c, d, Mix(q, x, y));
    PlaceSelect(v, a, b, c, d, Unmix(q, x, y));
  }

  // ----- Rounds, section 3.2 -----

  /** The four words each of the eight mixings of a round works on: the columns, then the diagonals. */
  function Lanes(k: nat): (Index, Index, Index, Index)
    requires k < 8
  {
    match k
    case 0 => (0, 4, 8, 12)
    case 1 => (1, 5, 9, 13)
    case 2 => (2, 6, 10, 14)
    case 3 => (3, 7, 11, 15)
    case 4 => (0, 5, 10, 15)
    case 5 => (1, 6, 11, 12)
    case 6 => (2, 7, 8, 13)
    case _ => (3, 4, 9, 14)
  }

  /** Mixing number `j`, counted over all rounds: eight to a round. */
  function Mixing(v: Vector, m: Vector, j: nat): Vector {
    var (a, b, c, d) := Lanes(j % 8);
    var s := Sigma(j / 8);
    G(v, a, b, c, d, m[s[2 * (j % 8)]], m[s[2 * (j % 8) + 1]])
  }

  function Unmixing(v: Vector, m: Vector, j: nat): Vector {
    var (a, b, c, d) := Lanes(j % 8);
    var s := Sigma(j / 8);
    Ungee(v, a, b, c, d, m[s[2 * (j % 8)]], m[s[2 * (j % 8) + 1]])
  }

  lemma LanesDistinct(k: nat)
    requires k < 8
    ensures var (a, b, c, d) := Lanes(k); Distinct(a, b, c, d)
  {
  }

  lemma MixingInverts(v: Vector, m: Vector, j: nat)
    ensures Unmixing(Mixing(v, m, j), m, j) == v && Mixing(Unmixing(v, m, j), m, j) == v
  {
    var (a, b, c, d) := Lanes(j % 8);
    var s := Sigma(j / 8);
    LanesDistinct(j % 8);
    GInverts(v, a, b, c, d, m[s[2 * (j % 8)]], m[s[2 * (j % 8) + 1]]);
  }

  type Stage = (Vector, nat) -> Vector

  /** The first `n` stages, one after the other. */
  function Iterate(stage: Stage, v: Vector, n: nat): Vector {
    if n == 0 then v else stage(Iterate(stage, v, n - 1), n - 1)
  }

  /** Stages in reverse order, the last one first. */
  function Rewind(stage: Stage, v: Vector, n: nat): Vector
    decreases n
  {
    if n == 0 then v else Rewind(stage, stage(v, n - 1), n - 1)
  }

  ghost predicate Undoes(undo: Stage, stage: Stage) {
    forall v: Vector, j: nat :: undo(stage(v, j), j) == v
  }

  lemma {:induction false} RewindUndoes(stage: Stage, undo: Stage, v: Vector, n: nat)
    requires Undoes(undo, stage)
    ensures Rewind(undo, Iterate(stage, v, n), n) == v
  {
    if n > 0 {
      assert undo(stage(Iterate(stage, v, n - 1), n - 1), n - 1) == Iterate(stage, v, n - 1);
      RewindUndoes(stage, undo, v, n - 1);
    }
  }

  lemma {:induction false} IterateUndoes(stage: Stage, undo: Stage, v: Vector, n: nat)
    requires Undoes(stage, undo)
    ensures Iterate(stage, Rewind(undo, v, n), n) == v
    decreases n
  {
    if n > 0 {
      IterateUndoes(stage, undo, undo(v, n - 1), n - 1);
      assert stage(undo(v, n - 1), n - 1) == v;
    }
  }

  function MixStage(m: Vector): Stage {
    (v: Vector, j: nat) => Mixing(v, m, j)
  }

  function UnmixStage(m: Vector): Stage {
    (v: Vector, j: nat) => Unmixing(v, m, j)
  }

  function Rounds(v: Vector, m: Vector, rounds: nat): Vector {
    Iterate(MixStage(m), v, 8 * rounds)
  }

  function Unrounds(v: Vector, m: Vector, rounds: nat): Vector {
    Rewind(UnmixStage(m), v, 8 * rounds)
  }

  lemma StagesUndo(m: Vector)
    ensures Undoes(UnmixStage(m), MixStage(m)) && Undoes(MixStage(m), UnmixStage(m))
  {
    forall v: Vector, j: nat
      ensures UnmixStage(m)(MixStage(m)(v, j), j) == v && MixStage(m)(UnmixStage(m)(v, j), j) == v
    {
      MixingInverts(v, m, j);
    }
  }

  /** For every message and number of rounds, the round loop is a bijection on the work vector. */
  lemma RoundsAreBijective(v: Vector, m: Vector, rounds: nat)
    ensures Unrounds(Rounds(v, m, rounds), m, rounds) == v
    ensures Rounds(Unrounds(v, m, rounds), m, rounds) == v
  {
    StagesUndo(m);
    RewindUndoes(MixStage(m), UnmixStage(m), v, 8 * rounds);
    IterateUndoes(MixStage(m), UnmixStage(m), v, 8 * rounds);
  }

  // ----- The compression function -----

  type Chain = h: seq<U64> | |h| == 8 witness seq(8, _ => 0)

  /** The work vector before the first round; the last block has all bits of one word inverted. */
  function Initialised(h: Chain, t0: U64, t1: U64, final: bool): Vector {
    var v := h + IV;
    var v := v[12 := Xor(v[12], t0)][13 := Xor(v[13], t1)];
    if final then v[14 := Xor(v[14], TWO_64 - 1)] else v
  }

  function Folded(h: Chain, v: Vector): Chain {
    seq(8, i requires 0 <= i < 8 => Xor(Xor(h[i], v[i]), v[i + 8]))
  }

  function F(rounds: nat, h: Chain, m: Vector, t0: U64, t1: U64, final: bool): Chain {
    Folded(h, Rounds(Initialised(h, t0, t1, final), m, rounds))
  }

  lemma NotIsXor(x: U64)
    ensures Xor(x, TWO_64 - 1) == TWO_64 - 1 - x
  {
    Pow2Of64();
    XorWithOnes(64, x);
  }

  // ----- In place -----

  method Gee(v: array<U64>, a: Index, b: Index, c: Index, d: Index, x: U64, y: U64)
    requires v.Length == 16 && Distinct(a, b, c, d)
    modifies v
    ensures v[..] == G(old(v[..]), a, b, c, d, x, y)
  {
    v[a] := Plus(Plus(v[a], v[b]), x);
    v[d] := RotateRight(Xor(v[d], v[a]), R1);
    v[c] := Plus(v[c], v[d]);
    v[b] := RotateRight(Xor(v[b], v[c]), R2);
    ghost var half := Half(Select(old(v[..]), a, b, c, d), x, R1, R2);
    assert Select(v[..], a, b, c, d) == half;
    v[a] := Plus(Plus(v[a], v[b]), y);
    v[d] := RotateRight(Xor(v[d], v[a]), R3);
    v[c] := Plus(v[c], v[d]);
    v[b] := RotateRight(Xor(v[b], v[c]), R4);
    assert v[..] == Place(old(v[..]), a, b, c, d, Half(half, y, R3, R4));
  }

  lemma MixingAt(w: Vector, m: Vector, i: nat, k: nat, j: nat, a: Index, b: Index, c: Index, d: Index)
    requires k < 8 && j == 8 * i + k && Lanes(k) == (a, b, c, d)
    ensures Mixing(w, m, j) == G(w, a, b, c, d, m[Sigma(i)[2 * k]], m[Sigma(i)[2 * k + 1]])
  {
    assert j / 8 == i && j % 8 == k;
  }

  lemma IterateNext(stage: Stage, v: Vector, n: nat)
    ensures Iterate(stage, v, n + 1) == stage(Iterate(stage, v, n), n)
  {
  }

  /** `stage` does the mixings of message `m`. */
  ghost predicate Performs(stage: Stage, m: Vector) {
    forall w: Vector, j: nat {:trigger Mixing(w, m, j)} :: stage(w, j) == Mixing(w, m, j)
  }

  lemma MixStagePerforms(m: Vector)
    ensures Performs(MixStage(m), m)
  {
  }

  /** Mixes one lane, as the next stage of a round. */
  method MixLane(v: array<U64>, m: Vector, i: nat, k: nat, ghost stage: Stage, ghost start: Vector)
    requires v.Length == 16 && k < 8 && Performs(stage, m) && v[..] == Iterate(stage, start, 8 * i + k)
    modifies v
    ensures v[..] == Iterate(stage, start, 8 * i + k + 1)
  {
    var (a, b, c, d) := Lanes(k);
    LanesDistinct(k);
    MixingAt(v[..], m, i, k, 8 * i + k, a, b, c, d);
    IterateNext(stage, start, 8 * i + k);
    Gee(v, a, b, c, d, m[Sigma(i)[2 * k]], m[Sigma(i)[2 * k + 1]]);
  }

  method MixFour(v: array<U64>, m: Vector, i: nat, k: nat, ghost stage: Stage, ghost start: Vector)
    requires v.Length == 16 && k <= 4 && Performs(stage, m) && v[..] == Iterate(stage, start, 8 * i + k)
    modifies v
    ensures v[..] == Iterate(stage, start, 8 * i + k + 4)
  {
    MixLane(v, m, i, k, stage, start);
    MixLane(v, m, i, k + 1, stage, start);
    MixLane(v, m, i, k + 2, stage, start);
    MixLane(v, m, i, k + 3, stage, start);
  }

  /** A round: the four columns, then the four diagonals. */
  method MixRound(v: array<U64>, m: Vector, i: nat, ghost stage: Stage, ghost start: Vector)
    requires v.Length == 16 && Performs(stage, m) && v[..] == Iterate(stage, start, 8 * i)
    modifies v
    ensures v[..] == Iterate(stage, start, 8 * (i + 1))
  {
    MixFour(v, m, i, 0, stage, start);
    MixFour(v, m, i, 4, stage, start);
  }

  method InitialiseVector(h: array<U64>, t0: U64, t1: U64, final: bool) returns (v: array<U64>)
    requires h.Length == 8
    ensures fresh(v) && v.Length == 16 && v[..] == Initialised(h[..], t0, t1, final)
  {
    v := new U64[16](_ => 0);
    forall i | 0 <= i < 8 {
      v[i] := h[i];
    }
    forall i | 0 <= i < 8 {
      v[i + 8] := IV[i];
    }
    assert v[..] == h[..] + IV;
    v[12] := Xor(v[12], t0);
    v[13] := Xor(v[13], t1);
    if final {
      NotIsXor(v[14]);
      v[14] := TWO_64 - 1 - v[14];
    }
  }

  /** Folds the work vector into the chain value. */
  method FoldHalves(h: array<U64>, v: array<U64>)
    requires h.Length == 8 && v.Length == 16 && h != v
    modifies h
    ensures h[..] == Folded(old(h[..]), v[..])
  {
    for i := 0 to 8
      invariant forall j | 0 <= j < i :: h[j] == Xor(Xor(old(h[j]), v[j]), v[j + 8])
      invariant forall j | i <= j < 8 :: h[j] == old(h[j])
    {
      h[i] := Xor(Xor(h[i], v[i]), v[i + 8]);
    }
  }

  method Compress(rounds: nat, h: array<U64>, m: Vector, t0: U64, t1: U64, final: bool)
    requires h.Length == 8
    modifies h
    ensures h[..] == F(rounds, old(h[..]), m, t0, t1, final)
  {
    var v := InitialiseVector(h, t0, t1, final);
    ghost var start: Vector := v[..];
    MixStagePerforms(m);
    for i := 0 to rounds
      invariant v[..] == Iterate(MixStage(m), start, 8 * i)
      invariant h[..] == old(h[..])
      modifies v
    {
      MixRound(v, m, i, MixStage(m), start);
    }
    FoldHalves(h, v);
  }
}
