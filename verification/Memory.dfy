/** Byte memory: rounding, expansion cost and how expansions add up. */
module Memories {
  import opened Primitives
  import opened Arithmetic

  type Memory = seq<Byte>

  // ----- Rounding and cost, in the widths the generated code uses -----

  /** The next multiple of 32, in 32-bit arithmetic. */
  function RoundUp32(size: nat): nat {
    (size + 31) % TWO_32 / 32 * 32 % TWO_32
  }

  /** The cost of a memory of `size` bytes, in 64-bit arithmetic. */
  function MemoryCost(size: nat): nat {
    WordsCost64((size + 31) % TWO_64 / 32)
  }

  function WordsCost64(words: nat): nat {
    (Square(words) % TWO_64 / 512 + words * 3 % TWO_64) % TWO_64
  }

  function Square(words: nat): nat {
    words * words
  }

  /** C_mem of appendix H of the Yellow Paper. */
  function WordsCost(words: nat): nat {
    Square(words) / 512 + 3 * words
  }

  function Ceil32(size: nat): nat {
    (size + 31) / 32
  }

  /** A size that can be rounded up without leaving 32 bits. */
  predicate Fits(size: nat) {
    size <= TWO_32 - 32
  }

  lemma RoundUpIsExact(size: nat)
    requires Fits(size)
    ensures RoundUp32(size) == 32 * Ceil32(size)
    ensures size <= RoundUp32(size) < size + 32 && RoundUp32(size) % 32 == 0
  {
  }

  /** Above that, rounding up gives a size too small for the request. */
  lemma RoundUpWraps(size: nat)
    requires size < TWO_32 && !Fits(size)
    ensures RoundUp32(size) == 0 < size
  {
    assert (size + 31) % TWO_32 == size + 31 - TWO_32;
  }

  lemma RoundedIsMultiple(size: nat)
    ensures RoundUp32(size) % 32 == 0 && RoundUp32(size) <= TWO_32 - 32
  {
    var words := (size + 31) % TWO_32 / 32;
    assert words * 32 < TWO_32;
  }

  lemma SquareBound(words: nat, bound: nat)
    requires words <= bound
    ensures Square(words) <= Square(bound)
  {
    MulMonotone(words, bound, words);
    MulMonotone(words, bound, bound);
  }

  lemma WordsCostIsExact(words: nat)
    requires words <= 0x800_0000
    ensures WordsCost64(words) == WordsCost(words) < 0x1_0000_0000_0000
  {
    SquareBound(words, 0x800_0000);
    NoWrap(Square(words));
  }

  lemma NoWrap(square: nat)
    requires square <= 0x40_0000_0000_0000
    ensures square % TWO_64 == square && square / 512 <= 0x2000_0000_0000
  {
  }

  /** No 64-bit operation overflows on a 32-bit size. */
  lemma CostIsExact(size: nat)
    requires size < TWO_32
    ensures MemoryCost(size) == WordsCost(Ceil32(size)) < 0x1_0000_0000_0000
  {
    SizeInWords(size);
    WordsCostIsExact(Ceil32(size));
  }

  lemma SizeInWords(size: nat)
    requires size < TWO_32
    ensures (size + 31) % TWO_64 / 32 == Ceil32(size) <= 0x800_0000
  {
    assert (size + 31) % TWO_64 == size + 31;
  }

  lemma CostMonotone(words: nat, more: nat)
    requires words <= more
    ensures WordsCost(words) <= WordsCost(more)
  {
    SquareBound(words, more);
    DivMonotone(Square(words), Square(more), 512);
  }

  // ----- Expansion -----

  function Zeros(n: nat): Memory {
    seq(n, _ => 0)
  }

  function Resized(memory: Memory, size: nat): Memory
    requires |memory| <= size
  {
    memory + Zeros(size - |memory|)
  }

  /** Memory after a request for the bytes below `required`. */
  function Expanded(memory: Memory, required: nat): Memory {
    var rounded := RoundUp32(required);
    if |memory| < rounded then Resized(memory, rounded) else memory
  }

  /** The gas the generated code charges for it. */
  function ExpansionGas(memory: Memory, required: nat): int {
    var rounded := RoundUp32(required);
    if |memory| < rounded then MemoryCost(rounded) - MemoryCost(|memory|) else 0
  }

  predicate Aligned(memory: Memory) {
    |memory| % 32 == 0 && |memory| <= TWO_32 - 32
  }

  /** Expansion keeps memory aligned and what it held, adds zeros, and charges the difference of the two costs. */
  lemma ExpansionFacts(memory: Memory, required: nat)
    requires Aligned(memory)
    ensures Aligned(Expanded(memory, required)) && memory <= Expanded(memory, required)
    ensures forall i | |memory| <= i < |Expanded(memory, required)| :: Expanded(memory, required)[i] == 0
    ensures ExpansionGas(memory, required) ==
            WordsCost(|Expanded(memory, required)| / 32) - WordsCost(|memory| / 32)
    ensures 0 <= ExpansionGas(memory, required) < 0x1_0000_0000_0000
  {
    ExpandedIsAligned(memory, required);
    AlignedCost(|memory|);
    AlignedCost(|Expanded(memory, required)|);
    CostMonotone(|memory| / 32, |Expanded(memory, required)| / 32);
  }

  lemma AlignedCost(size: nat)
    requires size % 32 == 0 && size < TWO_32
    ensures MemoryCost(size) == WordsCost(size / 32) < 0x1_0000_0000_0000
  {
    CostIsExact(size);
    assert Ceil32(size) == size / 32;
  }

  /** Expanding for the end of a range, taken in 32 bits, covers the range exactly when its end can be rounded up. */
  lemma ExpansionCovers(memory: Memory, end: nat)
    requires Aligned(memory)
    ensures end <= |Expanded(memory, end % TWO_32)| <==> Fits(end)
  {
    ExpandedIsAligned(memory, end % TWO_32);
    if Fits(end) {
      SmallMod(end);
      ExpandedCovers(memory, end);
    }
  }

  lemma SmallMod(end: nat)
    requires Fits(end)
    ensures end % TWO_32 == end
  {
  }

  lemma ExpandedIsAligned(memory: Memory, required: nat)
    requires Aligned(memory)
    ensures Aligned(Expanded(memory, required))
  {
    RoundedIsMultiple(required);
  }

  lemma ExpandedCovers(memory: Memory, required: nat)
    requires Fits(required)
    ensures required <= |Expanded(memory, required)|
  {
    RoundUpIsExact(required);
  }

  // ----- Sequences of requests -----

  /** Memory after a list of requests. */
  function AfterAll(memory: Memory, requests: seq<nat>): Memory
    decreases requests
  {
    if requests == [] then memory else AfterAll(Expanded(memory, requests[0]), requests[1..])
  }

  function TotalGas(memory: Memory, requests: seq<nat>): int
    decreases requests
  {
    if requests == [] then 0
    else ExpansionGas(memory, requests[0]) + TotalGas(Expanded(memory, requests[0]), requests[1..])
  }

  /** The largest of `size` and the rounded requests. */
  function Largest(size: nat, requests: seq<nat>): nat
    decreases requests
  {
    if requests == [] then size
    else
      var rounded := 32 * Ceil32(requests[0]);
      Largest(if size < rounded then rounded else size, requests[1..])
  }

  lemma {:induction false} LargestIsMaximum(size: nat, requests: seq<nat>)
    ensures Largest(size, requests) >= size
    ensures forall r | r in requests :: Largest(size, requests) >= 32 * Ceil32(r)
    ensures Largest(size, requests) == size || exists r | r in requests :: Largest(size, requests) == 32 * Ceil32(r)
    decreases requests
  {
    if requests != [] {
      var rounded := 32 * Ceil32(requests[0]);
      LargestIsMaximum(if size < rounded then rounded else size, requests[1..]);
      assert forall r | r in requests[1..] :: r in requests;
    }
  }

  /**
   Whatever the order of the requests, as long as each fits in 32 bits: memory is as long as the largest
   of them, rounded up, and the gas charged in all is the cost of that many words.
   */
  lemma {:induction false} ExpansionTelescopes(memory: Memory, requests: seq<nat>)
    requires Aligned(memory) && forall r | r in requests :: Fits(r)
    ensures Aligned(AfterAll(memory, requests))
    ensures |AfterAll(memory, requests)| == Largest(|memory|, requests)
    ensures TotalGas(memory, requests) ==
            WordsCost(|AfterAll(memory, requests)| / 32) - WordsCost(|memory| / 32)
    decreases requests
  {
    if requests != [] {
      ExpansionFacts(memory, requests[0]);
      RoundUpIsExact(requests[0]);
      ExpansionTelescopes(Expanded(memory, requests[0]), requests[1..]);
    }
  }

  /** From an empty memory, in the words of the Yellow Paper. */
  lemma FrameMemory(requests: seq<nat>)
    requires forall r | r in requests :: Fits(r)
    ensures var memory := AfterAll([], requests);
            && |memory| % 32 == 0
            && |memory| == Largest(0, requests)
            && TotalGas([], requests) == WordsCost(|memory| / 32)
  {
    ExpansionTelescopes([], requests);
  }

  // ----- The Yellow Paper's expansion function -----

  /** M of appendix H: the words in use after touching `length` bytes at `offset`. */
  function ActiveWords(words: nat, offset: nat, length: nat): nat {
    if length == 0 then words
    else
      var needed := Ceil32(offset + length);
      if words < needed then needed else words
  }

  /**
   The generated code expands memory as the Yellow Paper demands exactly when something is touched
   or the offset already lies inside: an empty range beyond the end still expands memory.
   */
  lemma ExpandsAsSpecified(memory: Memory, offset: nat, length: nat)
    requires Aligned(memory) && Fits(offset + length)
    ensures |Expanded(memory, offset + length)| == 32 * ActiveWords(|memory| / 32, offset, length) <==>
            length > 0 || offset <= |memory|
  {
    RoundUpIsExact(offset + length);
  }

  // ----- The syscall context's memory -----

  /** The bytes of `value` from `offset` on, `size` of them, zero past the end. */
  function Padded(value: Memory, offset: nat, size: nat): Memory {
    seq(size, i requires 0 <= i < size => if offset + i < |value| then value[offset + i] else 0)
  }

  function Overwritten(memory: Memory, offset: nat, bytes: Memory): Memory
    requires offset + |bytes| <= |memory|
  {
    memory[..offset] + bytes + memory[offset + |bytes|..]
  }

  class InnerContext {
    var memory: Memory

    constructor ()
      ensures memory == []
    {
      memory := [];
    }

    /** Memory never shrinks. */
    method ExtendMemory(newSize: nat)
      modifies this
      ensures memory == if newSize <= |old(memory)| then old(memory) else Resized(old(memory), newSize)
      ensures old(memory) <= memory && |memory| >= newSize
    {
      if newSize > |memory| {
        memory := memory + Zeros(newSize - |memory|);
      }
    }

    method ResizeMemoryIfNecessary(offset: nat, dataSize: nat)
      modifies this
      ensures old(memory) <= memory && offset + dataSize <= |memory|
      ensures |memory| == |old(memory)| || |memory| == offset + dataSize
      ensures forall i | |old(memory)| <= i < |memory| :: memory[i] == 0
    {
      if offset + dataSize > |memory| {
        memory := memory + Zeros(offset + dataSize - |memory|);
      }
    }

    /** Copies what there is of `value` and fills the rest of the range with zeros. */
    method SetValueToMemory(memoryOffset: nat, valueOffset: nat, size: nat, value: Memory)
      requires memoryOffset + size <= |memory|
      modifies this
      ensures memory == Overwritten(old(memory), memoryOffset, Padded(value, valueOffset, size))
    {
      if valueOffset >= |value| {
        memory := memory[..memoryOffset] + Zeros(size) + memory[memoryOffset + size..];
        assert Zeros(size) == Padded(value, valueOffset, size);
        return;
      }
      var valueEnd := Min(|value|, valueOffset + size);
      var valueSize := valueEnd - valueOffset;
      var slice := value[valueOffset..valueEnd];
      memory := memory[..memoryOffset] + slice + memory[memoryOffset + valueSize..];
      memory := memory[..memoryOffset + valueSize] + Zeros(size - valueSize) + memory[memoryOffset + size..];
      assert slice + Zeros(size - valueSize) == Padded(value, valueOffset, size);
    }
  }
}
