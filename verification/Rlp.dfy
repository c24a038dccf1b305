/** The recursive length prefix encoding of 64-bit numbers. */
module Rlp {
  import opened Primitives
  import opened Programs

  const RLP_NULL: Byte := 0x80

  function Stripped(bytes: Bytecode): (r: Bytecode)
    ensures |r| <= |bytes| && (r != [] ==> r[0] != 0)
  {
    if bytes == [] || bytes[0] != 0 then bytes else Stripped(bytes[1..])
  }

  /** The big-endian bytes of a number, without leading zeros. */
  function Minimal(n: U64): (bytes: Bytecode)
    ensures |bytes| <= 8 && (bytes != [] ==> bytes[0] != 0)
  {
    Stripped(ToBytes(n, 8))
  }

  function Encode(n: U64): Bytecode {
    if n == 0 then [RLP_NULL]
    else if n <= 0x7f then [n]
    else [RLP_NULL + |Minimal(n)|] + Minimal(n)
  }

  /** Strings of at most 55 bytes, as appendix B of the Yellow Paper defines them, read as numbers. */
  function Decode(bytes: Bytecode): Option<nat> {
    if bytes == [] then None
    else if bytes[0] < RLP_NULL then (if |bytes| == 1 then Some(bytes[0]) else None)
    else if bytes[0] <= 0xb7 && |bytes| == 1 + bytes[0] - RLP_NULL then Some(FromBytes(bytes[1..]))
    else None
  }

  /** Finds the first byte that is not zero and copies from there. */
  method EncodeRlpU64(number: U64) returns (buf: Bytecode)
    ensures buf == Encode(number)
  {
    buf := [];
    if number == 0 {
      buf := buf + [RLP_NULL];
    } else if number <= 0x7f {
      buf := buf + [number];
    } else {
      var bytes := ToBytes(number, 8);
      StrippedIsMinimal(number);
      var start := 0;
      while bytes[start] == 0
        invariant start < |bytes|
        invariant Stripped(bytes[start..]) == Minimal(number)
        decreases |bytes| - start
      {
        assert bytes[start..][1..] == bytes[start + 1..];
        start := start + 1;
      }
      var length := |bytes| - start;
      buf := buf + [RLP_NULL + length];
      buf := buf + bytes[start..];
    }
  }

  // ----- Values of byte strings -----

  lemma {:induction false} LeadingZero(bytes: Bytecode)
    requires bytes != [] && bytes[0] == 0
    ensures FromBytes(bytes[1..]) == FromBytes(bytes)
  {
    var n := |bytes| - 1;
    if n > 0 {
      LeadingZero(bytes[..n]);
      assert bytes[..n][1..] == bytes[1..][..n - 1];
      assert bytes[1..][n - 1] == bytes[n];
    }
  }

  lemma {:induction false} StrippedValue(bytes: Bytecode)
    ensures FromBytes(Stripped(bytes)) == FromBytes(bytes)
  {
    if bytes != [] && bytes[0] == 0 {
      LeadingZero(bytes);
      StrippedValue(bytes[1..]);
    }
  }

  /** A byte string that starts with a byte other than zero is worth at least a one with as many zeros behind it. */
  lemma {:induction false} LeadingByte(bytes: Bytecode)
    requires bytes != [] && bytes[0] != 0
    ensures FromBytes(bytes) >= Pow256(|bytes| - 1)
  {
    var n := |bytes| - 1;
    if n > 0 {
      LeadingByte(bytes[..n]);
    } else {
      assert bytes[..0] == [];
    }
  }

  lemma StrippedIsMinimal(n: U64)
    ensures FromBytes(Minimal(n)) == n
    ensures Stripped(ToBytes(n, 8)[0..]) == Minimal(n) && (n > 0 ==> Minimal(n) != [])
  {
    Pow256Of8();
    BytesRoundTrip(n, 8);
    StrippedValue(ToBytes(n, 8));
    assert ToBytes(n, 8)[0..] == ToBytes(n, 8);
  }

  // ----- The encoding -----

  /** Decoding inverts encoding. */
  lemma DecodeEncode(n: U64)
    ensures Decode(Encode(n)) == Some(n)
  {
    StrippedIsMinimal(n);
    if n > 0x7f {
      assert Encode(n)[1..] == Minimal(n);
    } else if n == 0 {
      assert Encode(n)[1..] == [];
    }
  }

  /** Appendix B of the Yellow Paper for numbers, with its bytes written out. */
  lemma EncodingIs(n: U64)
    ensures n == 0 ==> Encode(n) == [0x80]
    ensures 0 < n < 0x80 ==> Encode(n) == [n]
    ensures n >= 0x80 ==>
              && 2 <= |Encode(n)| <= 9 && Encode(n)[0] == 0x80 + |Encode(n)| - 1
              && Encode(n)[1] != 0 && FromBytes(Encode(n)[1..]) == n
  {
    StrippedIsMinimal(n);
    if n >= 0x80 {
      assert Encode(n)[1..] == Minimal(n);
    }
  }

  /** No encoding has a leading zero byte, before or after its length. */
  lemma NoLeadingZero(n: U64)
    ensures Encode(n)[0] != 0 && (|Encode(n)| > 1 ==> Encode(n)[1] != 0)
  {
    StrippedIsMinimal(n);
  }

  /** Nothing shorter decodes to the same number. */
  lemma Shortest(n: U64, other: Bytecode)
    requires Decode(other) == Some(n)
    ensures |Encode(n)| <= |other|
  {
    if n > 0x7f {
      StrippedIsMinimal(n);
      LeadingByte(Minimal(n));
      FromBytesBound(other[1..]);
      if |Minimal(n)| > |other[1..]| {
        Pow256Monotone(|other[1..]|, |Minimal(n)| - 1);
        assert false;
      }
    }
  }

  lemma SameHead(m: U64, n: U64)
    requires Encode(m)[0] == Encode(n)[0]
    ensures |Encode(m)| == |Encode(n)|
  {
    StrippedIsMinimal(m);
    StrippedIsMinimal(n);
  }

  /** No encoding starts another one, so a concatenation of encodings can be read back. */
  lemma PrefixFree(m: U64, n: U64)
    requires Encode(m) <= Encode(n)
    ensures m == n
  {
    SameHead(m, n);
    assert Encode(m) == Encode(n);
    DecodeEncode(m);
    DecodeEncode(n);
  }
}
