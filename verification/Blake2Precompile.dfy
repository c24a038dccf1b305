/** The BLAKE2 F precompile: its input layout, its errors and its output. */
module Blake2Precompile {
  import opened Primitives
  import opened Programs
  import opened Blake2

  const CALLDATA_LEN := 213
  const BF2_ROUND_END := 4
  const BF2_STATEVEC_INIT := 4
  const BF2_MSGVEC_INIT := 68
  const BF2_OFFSET_COUNT_INIT := 196
  const BF2_BLOCK_FLAG := 212
  const BF2_VEC_ELEM_SIZE := 8

  datatype Outcome = Ok(output: Bytecode, consumed: nat) | InvalidCalldata | NotEnoughGas

  // ----- Little-endian words -----

  function FromLe(bytes: Bytecode): nat {
    if bytes == [] then 0 else bytes[0] + 256 * FromLe(bytes[1..])
  }

  function ToLe(x: nat, n: nat): (bytes: Bytecode)
    ensures |bytes| == n
  {
    if n == 0 then [] else [x % 256] + ToLe(x / 256, n - 1)
  }

  lemma {:induction false} FromLeBound(bytes: Bytecode)
    ensures FromLe(bytes) < Pow256(|bytes|)
  {
    if bytes != [] {
      FromLeBound(bytes[1..]);
    }
  }

  lemma {:induction false} LeRoundTrip(x: nat, n: nat)
    requires x < Pow256(n)
    ensures FromLe(ToLe(x, n)) == x
  {
    if n > 0 {
      LeRoundTrip(x / 256, n - 1);
      assert ToLe(x, n)[1..] == ToLe(x / 256, n - 1);
    }
  }

  function WordAt(data: Bytecode, start: nat): U64
    requires start + 8 <= |data|
  {
    FromLeBound(data[start..start + 8]);
    Pow256Of8();
    FromLe(data[start..start + 8])
  }

  function WordsAt(data: Bytecode, start: nat, n: nat): (words: seq<U64>)
    requires start + 8 * n <= |data|
    ensures |words| == n
  {
    seq(n, i requires 0 <= i < n => WordAt(data, start + 8 * i))
  }

  function Bytes(words: seq<U64>): (bytes: Bytecode)
    ensures |bytes| == 8 * |words|
  {
    if words == [] then [] else Bytes(words[..|words| - 1]) + ToLe(words[|words| - 1], 8)
  }

  // ----- The precompile -----

  function Blake2fOf(data: Bytecode, gasLimit: nat): Outcome {
    if |data| != CALLDATA_LEN then InvalidCalldata
    else if FromBytes(data[..4]) > gasLimit then NotEnoughGas
    else if data[212] > 1 then InvalidCalldata
    else
      var rounds := FromBytes(data[..4]);
      var h, m := WordsAt(data, 4, 8), WordsAt(data, 68, 16);
      Ok(Bytes(F(rounds, h, m, WordAt(data, 196), WordAt(data, 204), data[212] == 1)), rounds)
  }

  method ReadWords(data: Bytecode, start: nat, words: array<U64>)
    requires start + 8 * words.Length <= |data|
    modifies words
    ensures words[..] == WordsAt(data, start, words.Length)
  {
    for i := 0 to words.Length
      invariant forall j | 0 <= j < i :: words[j] == WordAt(data, start + 8 * j)
    {
      words[i] := WordAt(data, start + i * BF2_VEC_ELEM_SIZE);
    }
  }

  method WriteWords(words: array<U64>) returns (out: Bytecode)
    ensures out == Bytes(words[..])
  {
    out := [];
    for i := 0 to words.Length
      invariant out == Bytes(words[..i])
    {
      assert words[..i + 1][..i] == words[..i];
      out := out + ToLe(words[i], 8);
    }
    assert words[..words.Length] == words[..];
  }

  /** The gas is checked before the block flag, and charged only on success. */
  method Blake2f(data: Bytecode, gasLimit: nat) returns (r: Outcome)
    ensures r == Blake2fOf(data, gasLimit)
  {
    if |data| != CALLDATA_LEN {
      return InvalidCalldata;
    }
    var rounds := FromBytes(data[..BF2_ROUND_END]);
    if rounds > gasLimit {
      return NotEnoughGas;
    }
    var flag := data[BF2_BLOCK_FLAG];
    if flag > 1 {
      return InvalidCalldata;
    }
    var h := new U64[8](_ => 0);
    ReadWords(data, BF2_STATEVEC_INIT, h);
    var m := new U64[16](_ => 0);
    ReadWords(data, BF2_MSGVEC_INIT, m);
    var t0 := WordAt(data, BF2_OFFSET_COUNT_INIT);
    var t1 := WordAt(data, BF2_OFFSET_COUNT_INIT + BF2_VEC_ELEM_SIZE);
    Compress(rounds, h, m[..], t0, t1, flag == 1);
    var out := WriteWords(h);
    r := Ok(out, rounds);
  }

  // ----- The layout -----

  /** The arguments of F in the order EIP-152 lays them out. */
  function Layout(rounds: nat, h: Chain, m: Vector, t0: U64, t1: U64, final: bool): (data: Bytecode)
    ensures |data| == CALLDATA_LEN
  {
    ToBytes(rounds, 4) + Bytes(h) + Bytes(m) + ToLe(t0, 8) + ToLe(t1, 8) + [if final then 1 else 0]
  }

  lemma {:induction false} WordOfBytes(words: seq<U64>, i: nat)
    requires i < |words|
    ensures Bytes(words)[8 * i..8 * i + 8] == ToLe(words[i], 8)
  {
    var n := |words| - 1;
    if i < n {
      WordOfBytes(words[..n], i);
      assert Bytes(words)[8 * i..8 * i + 8] == Bytes(words[..n])[8 * i..8 * i + 8];
    }
  }

  lemma WordRoundTrip(data: Bytecode, start: nat, x: U64)
    requires start + 8 <= |data| && data[start..start + 8] == ToLe(x, 8)
    ensures WordAt(data, start) == x
  {
    Pow256Of8();
    LeRoundTrip(x, 8);
  }

  lemma SliceOfSlice(data: Bytecode, start: nat, slice: Bytecode, lo: nat, hi: nat)
    requires start + |slice| <= |data| && data[start..start + |slice|] == slice && lo <= hi <= |slice|
    ensures data[start + lo..start + hi] == slice[lo..hi]
  {
    forall k | 0 <= k < hi - lo
      ensures data[start + lo..start + hi][k] == slice[lo..hi][k]
    {
      assert slice[lo + k] == data[start..start + |slice|][lo + k] == data[start + (lo + k)];
    }
  }

  /** The bytes from `start` on are those of `words`, in order. */
  ghost predicate Spells(data: Bytecode, start: nat, words: seq<U64>) {
    && start + 8 * |words| <= |data|
    && forall i | 0 <= i < |words| :: data[start + 8 * i..start + 8 * i + 8] == ToLe(words[i], 8)
  }

  lemma BytesSpell(data: Bytecode, start: nat, words: seq<U64>, slice: Bytecode)
    requires slice == Bytes(words)
    requires start + |slice| <= |data| && data[start..start + |slice|] == slice
    ensures Spells(data, start, words)
  {
    forall i | 0 <= i < |words|
      ensures data[start + 8 * i..start + 8 * i + 8] == ToLe(words[i], 8)
    {
      WordOfBytes(words, i);
      SliceOfSlice(data, start, slice, 8 * i, 8 * i + 8);
    }
  }

  lemma WordsRoundTrip(data: Bytecode, start: nat, words: seq<U64>)
    requires Spells(data, start, words)
    ensures WordsAt(data, start, |words|) == words
  {
    forall i | 0 <= i < |words|
      ensures WordAt(data, start + 8 * i) == words[i]
    {
      WordRoundTrip(data, start + 8 * i, words[i]);
    }
  }

  /** Given the arguments of F in that layout and gas for its rounds, the precompile returns F of them. */
  lemma PrecompileComputesF(rounds: nat, h: Chain, m: Vector, t0: U64, t1: U64, final: bool, gasLimit: nat)
    requires rounds < TWO_32
    ensures Blake2fOf(Layout(rounds, h, m, t0, t1, final), gasLimit) ==
            if rounds <= gasLimit then Ok(Bytes(F(rounds, h, m, t0, t1, final)), rounds) else NotEnoughGas
  {
    var data := Layout(rounds, h, m, t0, t1, final);
    assert data[..4] == ToBytes(rounds, 4);
    assert Pow256(4) == TWO_32;
    BytesRoundTrip(rounds, 4);
    assert data[4..68] == Bytes(h);
    BytesSpell(data, 4, h, Bytes(h));
    WordsRoundTrip(data, 4, h);
    assert data[68..196] == Bytes(m);
    BytesSpell(data, 68, m, Bytes(m));
    WordsRoundTrip(data, 68, m);
    assert data[196..204] == ToLe(t0, 8);
    WordRoundTrip(data, 196, t0);
    assert data[204..212] == ToLe(t1, 8);
    WordRoundTrip(data, 204, t1);
  }
}
