/** The specification, and with it the compiled program, does what the Yellow Paper prescribes byte by byte. */
module Prescription {
  import opened Arithmetic
  import opened Primitives
  import opened Programs
  import opened Parsing
  import opened Words
  import opened Memories
  import opened Results
  import opened Interpreter
  import opened Specification
  import Codegen
  import Compilation
  import Target
  import Y = YellowPaper

  // ----- Bytes -----

  /** The parser knows exactly the assigned bytes, and goes on where the Yellow Paper does. */
  lemma KnownBytes(code: Bytecode, pc: nat)
    requires pc < |code|
    ensures OneOp(code, pc).op.Invalid? <==> !Y.Assigned(code[pc])
    ensures OneOp(code, pc).next == Y.N(pc, code[pc]) == NextPosition(pc, code[pc])
  {
  }

  /** The core subset, and what its instructions take, give and cost. */
  lemma ScheduleAgrees(code: Bytecode, pc: nat)
    requires pc < |code|
    ensures var op, row := WholeOp(code, pc), Y.Schedule(code[pc]);
            && (Core(OneOp(code, pc).op) <==> row.Some? || !Y.Assigned(code[pc]))
            && (row.Some? ==> row.value == Y.Row(Removed(op), Added(op), Fee(op)))
  {
  }

  lemma OperandsOf(code: Bytecode, pc: nat)
    requires pc < |code|
    ensures var op, w := WholeOp(code, pc), code[pc];
            && (TouchesMemory(op) <==> w == 0x51 || w == 0x52 || w == 0x53 || w == 0xf3 || w == 0xfd)
            && (op.Basic? ==> op.opcode == w)
  {
  }

  // ----- Jump destinations -----

  ghost function DestinationsFrom(code: Bytecode, pc: nat): set<nat> {
    set p | p in Positions(code, pc) && p < |code| && code[p] == JUMPDEST
  }

  lemma {:induction false} DestinationsAgree(code: Bytecode, pc: nat)
    ensures DestinationsFrom(code, pc) == Y.D(code, pc)
    decreases |code| - pc
  {
    if pc < |code| {
      var next := NextPosition(pc, code[pc]);
      DestinationsAgree(code, next);
      assert Positions(code, pc) == {pc} + Positions(code, next);
      assert DestinationsFrom(code, pc) == (if code[pc] == 0x5b then {pc} else {}) + DestinationsFrom(code, next);
    }
  }

  /** For every byte string: the destinations are those of section 9.4.3, with its bytes written out. */
  lemma JumpDestinationsAgree(code: Bytecode)
    ensures JumpDestinations(code) == Y.D(code, 0)
  {
    DestinationsAgree(code, 0);
  }

  /** A PUSH with all its data, whatever follows: it is parsed as such, and no byte of its data is a destination. */
  lemma PushIsParsed(n: nat, data: Bytecode, rest: Bytecode)
    requires 1 <= n <= 32 && |data| == n
    ensures var code := [0x5f + n] + data + rest;
            && ParseFrom(code, 0) == [Push(n, FromBytes(data))] + ParseFrom(code, n + 1)
            && forall p | 1 <= p <= n :: p !in JumpDestinations(code)
  {
    var code := [0x5f + n] + data + rest;
    assert code[1..n + 1] == data;
    assert Positions(code, 0) == {0} + Positions(code, n + 1);
    PositionsBound(code, n + 1);
  }

  /** The parser finds something invalid exactly when some position holds an unassigned byte. */
  lemma {:induction false} InvalidExactly(code: Bytecode, pc: nat)
    ensures Invalid in ParseFrom(code, pc) <==>
            exists p | p in Positions(code, pc) :: p < |code| && !Y.Assigned(code[p])
    decreases |code| - pc
  {
    if pc < |code| {
      var parsed := OneOp(code, pc);
      KnownBytes(code, pc);
      InvalidExactly(code, parsed.next);
      assert Positions(code, pc) == {pc} + Positions(code, parsed.next);
    }
  }

  // ----- Words -----

  lemma {:induction false} DataAgrees(code: Bytecode, pc: nat, n: nat)
    ensures FromBytes(PushData(code, pc, n)) == Y.Data(code, pc + 1, n)
  {
    if n > 0 {
      DataAgrees(code, pc, n - 1);
      assert PushData(code, pc, n)[..n - 1] == PushData(code, pc, n - 1);
    }
  }

  lemma {:induction false} TwoAgrees(n: nat)
    ensures Y.Two(n) == Pow2(n)
  {
    if n > 0 {
      TwoAgrees(n - 1);
    }
  }

  function GateOf(w: Byte): Gate {
    if w == 0x16 then AndGate else if w == 0x17 then OrGate else XorGate
  }

  lemma {:induction false} GatesAgree(w: Byte, n: nat, x: nat, y: nat)
    requires 0x16 <= w <= 0x18
    ensures Y.Gates(w, n, x, y) == Bitwise(GateOf(w), n, x, y)
  {
    if n > 0 {
      GatesAgree(w, n - 1, x / 2, y / 2);
    }
  }

  lemma IntAgrees(x: U256)
    ensures Y.Int(x) == Signed(x)
  {
  }

  lemma SignExtendAgrees(k: U256, x: U256)
    ensures Y.SignExtend(k, x) == EvmSignExtend(k, x)
  {
    if k <= 30 {
      TwoAgrees(8 * k + 8);
    }
  }

  lemma Residue(q: int)
    requires -TWO_256 <= q < TWO_256
    ensures q % TWO_256 == Unsigned(q)
  {
  }

  lemma SarAgrees(shift: U256, x: U256)
    ensures Y.Sar(shift, x) == EvmSar(shift, x)
  {
    if shift <= 255 {
      TwoAgrees(shift);
      IntAgrees(x);
      DivBound(Signed(x), Pow2(shift));
      Residue(Signed(x) / Pow2(shift));
    }
  }

  /** The word an instruction without memory operands computes. */
  lemma WordsAgree(code: Bytecode, pc: nat, s: State)
    requires pc < |code| && |s.stack| >= Removed(WholeOp(code, pc))
    requires var op := WholeOp(code, pc); op.Basic? && Core(op) && Added(op) == 1 && op.opcode != MLOAD
    ensures BasicValue(code[pc], s) == Y.Word(code[pc], code, pc, s)
  {
    var w := code[pc];
    if 0x16 <= w <= 0x18 {
      GatesAgree(w, 256, Top(s, 0), Top(s, 1));
    } else if w == 0x0b {
      SignExtendAgrees(Top(s, 0), Top(s, 1));
    } else if w == 0x1d {
      SarAgrees(Top(s, 0), Top(s, 1));
    } else if w == 0x12 || w == 0x13 {
      IntAgrees(Top(s, 0));
      IntAgrees(Top(s, 1));
    }
  }

  // ----- Memory -----

  lemma CostAgrees(code: Bytecode, pc: nat, s: State)
    requires pc < |code| && Y.Schedule(code[pc]).Some? && |s.stack| >= Removed(WholeOp(code, pc))
    ensures var op, w := WholeOp(code, pc), code[pc];
            && WordsAfter(op, s) == Y.Active(w, s)
            && WholeCost(op, s) == Y.Schedule(w).value.fee + Y.Cmem(Y.Active(w, s)) - Y.Cmem(|s.memory| / 32)
            && (TouchesMemory(op) ==> WholeLength(op, s) == Y.Used(w, s))
  {
    ScheduleAgrees(code, pc);
    OperandsOf(code, pc);
  }

  /** `memory` is the memory of `s`, followed by zeros. */
  ghost predicate Extends(memory: Memory, s: State) {
    |s.memory| <= |memory| && forall i: nat | i < |memory| :: memory[i] == Y.At(s, i)
  }

  lemma CoveredExtends(op: Operation, s: State)
    requires |s.stack| >= Removed(op) && WholeCost(op, s) <= s.gas && Sound(s)
    ensures Extends(Covered(op, s).memory, s) && |Covered(op, s).memory| == 32 * WordsAfter(op, s)
    ensures TouchesMemory(op) && WholeLength(op, s) > 0 ==>
              Top(s, 0) + WholeLength(op, s) <= |Covered(op, s).memory|
  {
    WordsGrow(op, s);
  }

  lemma {:induction false} LoadAgrees(memory: Memory, s: State, o: nat, n: nat)
    requires Extends(memory, s) && o + n <= |memory|
    ensures FromBytes(memory[o..o + n]) == Y.Loaded(s, o, n)
  {
    if n > 0 {
      LoadAgrees(memory, s, o, n - 1);
      var bytes := memory[o..o + n];
      assert bytes[..n - 1] == memory[o..o + n - 1] && bytes[n - 1] == memory[o + n - 1] == Y.At(s, o + n - 1);
    }
  }

  lemma {:induction false} StoreAgrees(value: nat, n: nat, k: nat)
    requires k < n <= 32
    ensures ToBytes(value, n)[k] == Y.BigEndian(value, k + 32 - n)
    decreases n
  {
    if k < n - 1 {
      StoreAgrees(value / 256, n - 1, k);
    }
  }

  // ----- One step -----

  /** `c` is `s` with its memory in place. */
  ghost predicate InPlace(c: State, s: State, words: nat) {
    c.stack == s.stack && c.gas == s.gas && |c.memory| == 32 * words && Extends(c.memory, s)
  }

  lemma LeavingMeets(code: Bytecode, pc: nat, c: State, s: State, words: nat)
    requires pc < |code| && (code[pc] == 0xf3 || code[pc] == 0xfd) && |s.stack| >= 2 && InPlace(c, s, words)
    requires Mu2(s) == 0 || Mu1(s) + Mu2(s) <= |c.memory|
    ensures Y.Effect(code, pc, s, words, Halted(WholeResult(code[pc], c)))
  {
    var o, n := Mu1(s), Mu2(s);
    var output := WholeResult(code[pc], c).output;
    assert output == if n == 0 then [] else c.memory[o..o + n];
    forall i: nat | i < n
      ensures output[i] == Y.At(s, o + i)
    {
      assert output[i] == c.memory[o + i];
    }
  }

  function Mu1(s: State): U256
    requires |s.stack| >= 2
  {
    Top(s, 0)
  }

  function Mu2(s: State): U256
    requires |s.stack| >= 2
  {
    Top(s, 1)
  }

  lemma JumpMeets(code: Bytecode, pc: nat, next: nat, c: State, s: State, words: nat)
    requires pc < |code| && next == Y.N(pc, code[pc]) && InPlace(c, s, words) && words == |s.memory| / 32
    requires |s.memory| % 32 == 0
    requires (code[pc] == 0x56 && |s.stack| >= 1) || (code[pc] == 0x57 && |s.stack| >= 2)
    ensures Y.Effect(code, pc, s, words, Execute(code, Basic(code[pc]), next, c))
  {
    JumpDestinationsAgree(code);
    assert c.memory == s.memory;
    assert c == s;
  }

  lemma LoadMeets(code: Bytecode, pc: nat, next: nat, c: State, s: State, words: nat)
    requires pc < |code| && next == Y.N(pc, code[pc]) && InPlace(c, s, words)
    requires code[pc] == 0x51 && |s.stack| >= 1 && Top(s, 0) + 32 <= |c.memory|
    ensures Y.Effect(code, pc, s, words, WholeAccess(MLOAD, next, c))
  {
    var o := Top(s, 0);
    LoadAgrees(c.memory, s, o, 32);
    FromBytesBound(c.memory[o..o + 32]);
    Pow256Of32();
  }

  lemma StoreMeets(code: Bytecode, pc: nat, next: nat, c: State, s: State, words: nat)
    requires pc < |code| && next == Y.N(pc, code[pc]) && InPlace(c, s, words)
    requires (code[pc] == 0x52 || code[pc] == 0x53) && |s.stack| >= 2
    requires Top(s, 0) + (if code[pc] == 0x52 then 32 else 1) <= |c.memory|
    ensures Y.Effect(code, pc, s, words, WholeAccess(code[pc], next, c))
  {
    var w, o, value := code[pc], Top(s, 0), Top(s, 1);
    var bytes := Interpreter.Stored(w, value);
    var memory := Overwritten(c.memory, o, bytes);
    forall i: nat | i < 32 * words
      ensures memory[i] == Y.Stored(w, s, i)
    {
      if w == 0x52 && o <= i < o + 32 {
        StoreAgrees(value, 32, i - o);
      }
    }
  }

  lemma StraightMeets(code: Bytecode, pc: nat, c: State, s: State, words: nat)
    requires pc < |code| && InPlace(c, s, words) && words == |s.memory| / 32 && |s.memory| % 32 == 0
    requires Y.Schedule(code[pc]).Some? && |s.stack| >= Removed(WholeOp(code, pc))
    requires var op := WholeOp(code, pc);
             Valid(op) && (IsStraight(op) || (op.Basic? && IsDividing(op.opcode)))
    ensures Y.Effect(code, pc, s, words, Running(Y.N(pc, code[pc]), c.(stack := NewStack(WholeOp(code, pc), c))))
  {
    assert c.memory == s.memory;
    assert c == s;
    StackMeets(code, pc, s, words);
    forall i: nat | i < 32 * words
      ensures s.memory[i] == Y.Stored(code[pc], s, i)
    {
    }
  }

  lemma StackMeets(code: Bytecode, pc: nat, s: State, words: nat)
    requires pc < |code| && Y.Schedule(code[pc]).Some? && |s.stack| >= Removed(WholeOp(code, pc))
    requires var op := WholeOp(code, pc);
             Valid(op) && (IsStraight(op) || (op.Basic? && IsDividing(op.opcode)))
    ensures Y.Pushes(code, pc, s, words, NewStack(WholeOp(code, pc), s))
  {
    var op := WholeOp(code, pc);
    ScheduleAgrees(code, pc);
    OperandsOf(code, pc);
    if op.Basic? {
      BasicMeets(code, pc, s, words);
    } else if op.Push? {
      DataAgrees(code, pc, op.size);
      PushFits(op);
    } else if op.Swap? {
      SwapMeets(code, pc, s, words);
    }
  }

  lemma BasicMeets(code: Bytecode, pc: nat, s: State, words: nat)
    requires pc < |code| && Y.Schedule(code[pc]).Some? && |s.stack| >= Removed(WholeOp(code, pc))
    requires var op := WholeOp(code, pc); op.Basic? && Valid(op) && (IsStraight(op) || IsDividing(op.opcode))
    ensures Y.Pushes(code, pc, s, words, NewStack(WholeOp(code, pc), s))
  {
    ScheduleAgrees(code, pc);
    OperandsOf(code, pc);
    if code[pc] != 0x50 {
      WordsAgree(code, pc, s);
    }
  }

  lemma SwapMeets(code: Bytecode, pc: nat, s: State, words: nat)
    requires pc < |code| && |s.stack| >= Removed(WholeOp(code, pc)) && WholeOp(code, pc).Swap?
    ensures Valid(WholeOp(code, pc)) && Y.Pushes(code, pc, s, words, NewStack(WholeOp(code, pc), s))
  {
  }

  lemma PerformMeets(code: Bytecode, pc: nat, c: State, s: State, words: nat)
    requires pc < |code| && Y.Schedule(code[pc]).Some? && |s.memory| % 32 == 0 && InPlace(c, s, words)
    requires var op := WholeOp(code, pc);
             && Core(op) && Valid(op) && !op.Invalid? && |s.stack| >= Removed(op)
             && (!TouchesMemory(op) ==> words == |s.memory| / 32)
             && (TouchesMemory(op) && WholeLength(op, s) > 0 ==> Top(s, 0) + WholeLength(op, s) <= |c.memory|)
    ensures Y.Effect(code, pc, s, words, Perform(code, WholeOp(code, pc), Y.N(pc, code[pc]), c))
  {
    var op, w, next := WholeOp(code, pc), code[pc], Y.N(pc, code[pc]);
    OperandsOf(code, pc);
    if op.Basic? && IsLeaving(w) {
      LeavingMeets(code, pc, c, s, words);
    } else if w == 0x51 {
      LoadMeets(code, pc, next, c, s, words);
    } else if op.Basic? && IsAccess(w) {
      StoreMeets(code, pc, next, c, s, words);
    } else if w == 0x56 || w == 0x57 {
      JumpMeets(code, pc, next, c, s, words);
    } else if w != 0x00 {
      StraightMeets(code, pc, c, s, words);
    }
  }

  lemma OperationMeets(code: Bytecode, pc: nat, s: State)
    requires pc < |code| && Sound(s) && Valid(WholeOp(code, pc)) && Core(WholeOp(code, pc))
    ensures Y.Prescribes(code, pc, s, SpecifiedStep(code, WholeOp(code, pc), Y.N(pc, code[pc]), s))
  {
    var op, w := WholeOp(code, pc), code[pc];
    ScheduleAgrees(code, pc);
    KnownBytes(code, pc);
    if !op.Invalid? && |s.stack| >= Removed(op) {
      CostAgrees(code, pc, s);
      WordsGrow(op, s);
      if s.gas >= WholeCost(op, s) && |s.stack| - Removed(op) + Added(op) <= STACK_LIMIT {
        CoveredMeets(code, pc, op, s);
      }
    }
  }

  lemma CoveredMeets(code: Bytecode, pc: nat, op: Operation, s: State)
    requires pc < |code| && Y.Schedule(code[pc]).Some? && Sound(s) && op == WholeOp(code, pc)
    requires Valid(op) && Core(op) && !op.Invalid? && |s.stack| >= Removed(op) && WholeCost(op, s) <= s.gas
    ensures op.Basic? && IsAccess(op.opcode) ==> Top(s, 0) + WholeLength(op, s) <= |Covered(op, s).memory|
    ensures Y.Effect(code, pc, s.(gas := s.gas - WholeCost(op, s)), WordsAfter(op, s),
                     Perform(code, op, Y.N(pc, code[pc]), Covered(op, s)))
  {
    var c, paid, words := CoveredInPlace(op, s);
    PerformMeets(code, pc, c, paid, words);
  }

  lemma CoveredInPlace(op: Operation, s: State) returns (c: State, paid: State, words: nat)
    requires |s.stack| >= Removed(op) && WholeCost(op, s) <= s.gas && Sound(s)
    ensures c == Covered(op, s) && paid == s.(gas := s.gas - WholeCost(op, s)) && words == WordsAfter(op, s)
    ensures InPlace(c, paid, words) && (!TouchesMemory(op) ==> words == |s.memory| / 32)
    ensures TouchesMemory(op) && WholeLength(op, paid) > 0 ==> Top(paid, 0) + WholeLength(op, paid) <= |c.memory|
    ensures op.Basic? && IsAccess(op.opcode) ==> WholeLength(op, s) > 0
  {
    CoveredExtends(op, s);
    c, paid, words := Covered(op, s), s.(gas := s.gas - WholeCost(op, s)), WordsAfter(op, s);
  }

  /** At every position of every core bytecode, in every state: the specified step is the one prescribed. */
  lemma StepIsPrescribed(code: Bytecode, pc: nat, s: State)
    requires CoreCode(code) && Standing(code, Running(pc, s))
    ensures Y.Prescribes(code, pc, s, Specified(code, pc, s))
  {
    if pc < |code| {
      WholeOpFacts(code, pc);
      KnownBytes(code, pc);
      OperationMeets(code, pc, s);
    }
  }

  lemma SameStacks(code: Bytecode, pc: nat, s: State, words: nat, one: seq<U256>, other: seq<U256>)
    requires pc < |code| && Y.Pushes(code, pc, s, words, one) && Y.Pushes(code, pc, s, words, other)
    ensures one == other
  {
    var w, n := code[pc], |s.stack|;
    var row := Y.Schedule(w).value;
    if 0x90 <= w <= 0x9f {
      assert forall i | 0 <= i < |one| :: one[i] == other[i];
    } else if !(0x80 <= w <= 0x8f) {
      SameEnds(one, other, n - row.delta);
    }
  }

  lemma SameEnds(one: seq<U256>, other: seq<U256>, k: nat)
    requires k <= |one| == |other| <= k + 1 && one[..k] == other[..k] && (|one| == k + 1 ==> one[k] == other[k])
    ensures one == other
  {
    assert one == one[..k] + one[k..] && other == other[..k] + other[k..];
  }

  lemma SameEffects(code: Bytecode, pc: nat, s: State, words: nat, one: Outcome, other: Outcome)
    requires pc < |code| && Y.Effect(code, pc, s, words, one) && Y.Effect(code, pc, s, words, other)
    ensures one == other
  {
    var w := code[pc];
    if w == 0xf3 || w == 0xfd {
      assert one.result.output == other.result.output;
    } else if w == 0x00 || (w == 0x56 && |s.stack| >= 1) || (w == 0x57 && |s.stack| >= 2 && Y.Mu(s, 1) != 0) {
    } else {
      SameStacks(code, pc, s, words, one.s.stack, other.s.stack);
      assert one.s.memory == other.s.memory;
    }
  }

  /** What is prescribed leaves no choice. */
  lemma PrescriptionIsUnique(code: Bytecode, pc: nat, s: State, one: Outcome, other: Outcome)
    requires Y.Prescribes(code, pc, s, one) && Y.Prescribes(code, pc, s, other)
    ensures one == other
  {
    if pc < |code| && Y.Schedule(code[pc]).Some? {
      var w, row := code[pc], Y.Schedule(code[pc]).value;
      var words := Y.Active(w, s);
      var cost := row.fee + Y.Cmem(words) - Y.Cmem(|s.memory| / 32);
      if |s.stack| >= row.delta && s.gas >= cost && |s.stack| - row.delta + row.alpha <= 1024 {
        SameEffects(code, pc, s.(gas := s.gas - cost), words, one, other);
      }
    }
  }

  // ----- Whole runs -----

  type Link = (Outcome, Outcome) -> bool

  ghost predicate Linked(link: Link, outcomes: seq<Outcome>) {
    forall i | 0 <= i < |outcomes| - 1 :: link(outcomes[i], outcomes[i + 1])
  }

  lemma LinkedCons(link: Link, o: Outcome, rest: seq<Outcome>)
    requires rest != [] && link(o, rest[0]) && Linked(link, rest)
    ensures Linked(link, [o] + rest)
  {
    forall i | 0 <= i < |rest|
      ensures link(([o] + rest)[i], ([o] + rest)[i + 1])
    {
      if i > 0 {
        assert link(rest[i - 1], rest[i]);
      }
    }
  }

  /** Links and final outcomes as the specification has them. */
  ghost predicate Leading(code: Bytecode, link: Link, final: (nat, Outcome) -> Outcome, standing: Outcome -> bool) {
    && (forall n: nat, o | standing(o) && (n == 0 || !o.Running?) :: final(n, o) == o)
    && (forall n: nat, o | standing(o) && n > 0 && o.Running? :: Leads(link, final, standing, n, o))
  }

  ghost predicate Leads(
    link: Link, final: (nat, Outcome) -> Outcome, standing: Outcome -> bool, n: nat, o: Outcome)
    requires n > 0
  {
    exists o' :: standing(o') && link(o, o') && final(n, o) == final(n - 1, o')
  }

  lemma {:induction false} Traced(
    code: Bytecode, link: Link, final: (nat, Outcome) -> Outcome, standing: Outcome -> bool, n: nat, o: Outcome)
    returns (outcomes: seq<Outcome>)
    requires Leading(code, link, final, standing) && standing(o)
    ensures outcomes != [] && outcomes[0] == o && Linked(link, outcomes) && outcomes[|outcomes| - 1] == final(n, o)
  {
    if n == 0 || !o.Running? {
      outcomes := [o];
    } else {
      assert Leads(link, final, standing, n, o);
      var o' :| standing(o') && link(o, o') && final(n, o) == final(n - 1, o');
      var rest := Traced(code, link, final, standing, n - 1, o');
      LinkedCons(link, o, rest);
      outcomes := [o] + rest;
    }
  }

  /** The link holds wherever a prescribed step leads. */
  ghost predicate Above(code: Bytecode, link: Link) {
    forall o, o' {:trigger Y.Leads(code, o, o')} :: Y.Leads(code, o, o') ==> link(o, o')
  }

  lemma FirstIsPrescribed(code: Bytecode, link: Link, n: nat, o: Outcome) returns (o': Outcome)
    requires CoreCode(code) && Standing(code, o) && o.Running? && n > 0 && Above(code, link)
    ensures Standing(code, o') && SpecifiedRun(code, n, o) == SpecifiedRun(code, n - 1, o') && link(o, o')
  {
    SpecifiedKeeps(code, o.pc, o.s);
    StepIsPrescribed(code, o.pc, o.s);
    o' := Specified(code, o.pc, o.s);
    assert Y.Leads(code, o, o');
  }

  lemma SpecificationLeads(
    code: Bytecode, link: Link, final: (nat, Outcome) -> Outcome, standing: Outcome -> bool)
    requires CoreCode(code) && Above(code, link) && standing == (o => Standing(code, o))
    requires final == ((n: nat, o) => if Standing(code, o) then SpecifiedRun(code, n, o) else o)
    ensures Leading(code, link, final, standing)
  {
    forall n: nat, o | standing(o) && n > 0 && o.Running?
      ensures Leads(link, final, standing, n, o)
    {
      var o' := FirstLeads(code, link, final, standing, n, o);
    }
  }

  lemma FirstLeads(
    code: Bytecode, link: Link, final: (nat, Outcome) -> Outcome, standing: Outcome -> bool, n: nat, o: Outcome)
    returns (o': Outcome)
    requires CoreCode(code) && Above(code, link) && standing == (o => Standing(code, o))
    requires final == ((n: nat, o) => if Standing(code, o) then SpecifiedRun(code, n, o) else o)
    requires standing(o) && n > 0 && o.Running?
    ensures standing(o') && link(o, o') && final(n, o) == final(n - 1, o')
  {
    o' := FirstIsPrescribed(code, link, n, o);
    FinalIs(code, final, n, o);
    FinalIs(code, final, n - 1, o');
  }

  lemma FinalIs(code: Bytecode, final: (nat, Outcome) -> Outcome, n: nat, o: Outcome)
    requires CoreCode(code) && Standing(code, o)
    requires final == ((n: nat, o) => if Standing(code, o) then SpecifiedRun(code, n, o) else o)
    ensures final(n, o) == SpecifiedRun(code, n, o)
  {
  }

  /** The outcomes of a run of the specification, at most `n` steps of it, lead to each other as prescribed. */
  lemma RunIsPrescribed(code: Bytecode, n: nat, o: Outcome) returns (outcomes: seq<Outcome>)
    requires CoreCode(code) && Standing(code, o)
    ensures outcomes != [] && outcomes[0] == o && Y.Follows(code, outcomes)
    ensures outcomes[|outcomes| - 1] == SpecifiedRun(code, n, o)
  {
    var link := (o, o') => Y.Leads(code, o, o');
    var standing := o => Standing(code, o);
    var final := (n: nat, o) => if Standing(code, o) then SpecifiedRun(code, n, o) else o;
    SpecificationLeads(code, link, final, standing);
    outcomes := Traced(code, link, final, standing, n, o);
    forall i | 0 <= i < |outcomes| - 1
      ensures Y.Leads(code, outcomes[i], outcomes[i + 1])
    {
      assert link(outcomes[i], outcomes[i + 1]);
    }
  }

  /** The run prescribed from a given outcome is the only one. */
  lemma {:induction false} FollowedIsTrace(code: Bytecode, one: seq<Outcome>, other: seq<Outcome>, k: nat)
    requires Y.Follows(code, one) && Y.Follows(code, other) && k < |one| && k < |other| && one[0] == other[0]
    ensures one[k] == other[k]
  {
    if k > 0 {
      FollowedIsTrace(code, one, other, k - 1);
      assert Y.Leads(code, one[k - 1], one[k]) && Y.Leads(code, other[k - 1], other[k]);
      PrescriptionIsUnique(code, one[k - 1].pc, one[k - 1].s, one[k], other[k]);
    }
  }

  /**
   For every core bytecode and gas: if no operation of the run has operands out of reach on the stack, the compiled
   program ends by reporting the result of a run in which every step is the one prescribed, from an empty stack and
   memory to the first that halts.
   */
  lemma CompiledIsPrescribed(code: Bytecode, gas: nat, m: Target.Machine) returns (k: nat, outcomes: seq<Outcome>)
    requires CoreCode(code) && gas <= I64_MAX && Compilation.Initial(m, gas)
    requires Reachable(code, Compilation.Start(gas)) && RightStacks(code, gas + 1, Compilation.Start(gas))
    ensures Codegen.AllCore(ParseFrom(code, 0))
    ensures Y.Follows(code, outcomes) && outcomes != [] && outcomes[0] == Running(0, State([], gas, []))
    ensures var last := outcomes[|outcomes| - 1];
            && last.Halted?
            && forall n | n >= k ::
                 Target.Run(Codegen.Compiled(ParseFrom(code, 0)), n, Target.At(Target.SETUP, m)) ==
                 Target.Exited(last.result)
  {
    k := Compilation.CompiledMeetsSpecification(code, gas, m);
    outcomes := RunIsPrescribed(code, gas + 1, Compilation.Start(gas));
  }
}
