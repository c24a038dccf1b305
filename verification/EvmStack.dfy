/** The operand stack: 1024 slots, a base pointer and a pointer to the first free slot. */
module Stacks {
  import opened Primitives

  const MAX_STACK_SIZE := 1024

  /** The slots, and the distance of the stack pointer from the base. */
  datatype Region = Region(slots: seq<U256>, depth: nat)

  predicate InRegion(r: Region) {
    |r.slots| == MAX_STACK_SIZE && r.depth <= MAX_STACK_SIZE
  }

  /** The values on the stack, the top one last. */
  function Contents(r: Region): seq<U256>
    requires InRegion(r)
  {
    r.slots[..r.depth]
  }

  function Pushed(r: Region, value: U256): Region
    requires r.depth < |r.slots|
  {
    Region(r.slots[r.depth := value], r.depth + 1)
  }

  function Popped(r: Region): Region
    requires r.depth > 0
  {
    r.(depth := r.depth - 1)
  }

  /** The value `n` slots below the stack pointer; the top is number 1. */
  function Nth(r: Region, n: nat): U256
    requires 0 < n <= r.depth <= |r.slots|
  {
    r.slots[r.depth - n]
  }

  function Swapped(r: Region, m: nat, n: nat): Region
    requires 0 < m <= r.depth <= |r.slots| && 0 < n <= r.depth
  {
    r.(slots := r.slots[r.depth - n := Nth(r, m)][r.depth - m := Nth(r, n)])
  }

  // ----- The region behaves like a sequence -----

  lemma PushedContents(r: Region, value: U256)
    requires InRegion(r) && r.depth < MAX_STACK_SIZE
    ensures InRegion(Pushed(r, value)) && Contents(Pushed(r, value)) == Contents(r) + [value]
  {
  }

  lemma PoppedContents(r: Region)
    requires InRegion(r) && r.depth > 0
    ensures InRegion(Popped(r)) && Contents(r) == Contents(Popped(r)) + [Nth(r, 1)]
  {
  }

  lemma NthContents(r: Region, n: nat)
    requires InRegion(r) && 0 < n <= r.depth
    ensures Nth(r, n) == Contents(r)[|Contents(r)| - n]
  {
  }

  lemma SwappedContents(r: Region, m: nat, n: nat)
    requires InRegion(r) && 0 < m <= r.depth && 0 < n <= r.depth
    ensures var s := Contents(r);
            && InRegion(Swapped(r, m, n))
            && Contents(Swapped(r, m, n)) == s[|s| - n := s[|s| - m]][|s| - m := s[|s| - n]]
  {
  }

  // ----- The generated code -----

  /** Pointers are counted in slots. */
  class EvmStack {
    const slots: array<U256>
    const base: int
    var pointer: int

    ghost predicate Valid()
      reads this
    {
      slots.Length == MAX_STACK_SIZE && base <= pointer <= base + MAX_STACK_SIZE
    }

    ghost function View(): (r: Region)
      requires Valid()
      reads this, slots
      ensures InRegion(r)
    {
      Region(slots[..], pointer - base)
    }

    constructor (base: int)
      ensures Valid() && Contents(View()) == [] && fresh(slots)
    {
      slots := new U256[MAX_STACK_SIZE](_ => 0);
      this.base := base;
      pointer := base;
    }

    /**
     Writes the slot at the pointer and no other. Nothing checks that there is one: on a full stack the store
     would land outside the slots, which is reported as false and changes nothing here.
     */
    method Push(value: U256) returns (inside: bool)
      requires Valid()
      modifies this, slots
      ensures Valid() && (inside <==> |old(Contents(View()))| < MAX_STACK_SIZE)
      ensures inside ==> View() == Pushed(old(View()), value)
      ensures Contents(View()) == old(Contents(View())) + if inside then [value] else []
    {
      inside := pointer < base + MAX_STACK_SIZE;
      if inside {
        PushedContents(View(), value);
        slots[pointer - base] := value;
        pointer := pointer + 1;
      }
    }

    method Pop() returns (value: U256)
      requires Valid() && pointer > base
      modifies this
      ensures Valid() && View() == Popped(old(View()))
      ensures Contents(View()) + [value] == old(Contents(View()))
    {
      PoppedContents(View());
      value := slots[pointer - 1 - base];
      pointer := pointer - 1;
    }

    method GetNth(n: nat) returns (value: U256)
      requires Valid() && 0 < n <= pointer - base
      ensures value == Contents(View())[|Contents(View())| - n]
    {
      value := slots[pointer - n - base];
    }

    /** Two loads, then two stores. */
    method SwapElements(m: nat, n: nat)
      requires Valid() && 0 < m <= pointer - base && 0 < n <= pointer - base
      modifies slots
      ensures Valid() && View() == Swapped(old(View()), m, n)
      ensures var s := old(Contents(View()));
              Contents(View()) == s[|s| - n := s[|s| - m]][|s| - m := s[|s| - n]]
    {
      SwappedContents(View(), m, n);
      var first := slots[pointer - m - base];
      var nth := slots[pointer - n - base];
      slots[pointer - n - base] := first;
      slots[pointer - m - base] := nth;
    }

    /** Compares the pointer, moved back by the slots that must stay free, with the base. */
    method HasSpaceFor(n: nat) returns (flag: bool)
      requires Valid()
      ensures flag <==> |Contents(View())| + n <= MAX_STACK_SIZE
    {
      flag := pointer + n - MAX_STACK_SIZE <= base;
    }

    method HasAtLeast(n: nat) returns (flag: bool)
      requires Valid()
      ensures flag <==> |Contents(View())| >= n
    {
      flag := pointer - n >= base;
    }
  }
}
