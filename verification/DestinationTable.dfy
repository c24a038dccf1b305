/** The jump table of any program, whatever blocks its operations are made of. */
module DestinationTables {
  import opened Primitives
  import opened Programs
  import opened Parsing
  import opened JumpTables

  /** How many blocks each operation is given. */
  type BlockCounts = Operation -> nat

  ghost predicate Positive(count: BlockCounts) {
    forall op :: count(op) > 0
  }

  /** The jump destinations in program order, with the blocks they start. */
  function Landings(ops: seq<Operation>, base: nat, count: BlockCounts): seq<Landing>
    decreases ops
  {
    if ops == [] then []
    else
      (if ops[0].Jumpdest? then [Landing(ops[0].pc, base)] else [])
      + Landings(ops[1..], base + count(ops[0]), count)
  }

  function JumpdestPcs(ops: seq<Operation>): seq<nat> {
    if ops == [] then []
    else (if ops[0].Jumpdest? then [ops[0].pc] else []) + JumpdestPcs(ops[1..])
  }

  lemma LandingsStep(code: Bytecode, pc: nat, base: nat, count: BlockCounts)
    requires pc < |code|
    ensures var parsed := OneOp(code, pc);
            Landings(ParseFrom(code, pc), base, count) ==
            (if parsed.op.Jumpdest? then [Landing(parsed.op.pc, base)] else [])
            + Landings(ParseFrom(code, parsed.next), base + count(parsed.op), count)
  {
    var ops := ParseFrom(code, pc);
    assert ops[0] == OneOp(code, pc).op;
    assert ops[1..] == ParseFrom(code, OneOp(code, pc).next);
  }

  /** Landings from `pc` and `base` on come in the order of their counters and of their blocks. */
  ghost predicate Ordered(landings: seq<Landing>, pc: nat, base: nat) {
    && Increasing(Pcs(landings)) && Increasing(Blocks(landings))
    && forall l | l in landings :: l.pc >= pc && l.block >= base
  }

  lemma OrderedCons(l: Landing, rest: seq<Landing>, pc: nat, base: nat)
    requires Ordered(rest, pc, base) && l.pc < pc && l.block < base
    ensures Ordered([l] + rest, l.pc, l.block)
  {
    assert Pcs([l] + rest) == [l.pc] + Pcs(rest);
    assert Blocks([l] + rest) == [l.block] + Blocks(rest);
    forall x | x in Pcs(rest)
      ensures l.pc < x
    {
      var i :| 0 <= i < |rest| && Pcs(rest)[i] == x;
      assert rest[i] in rest;
    }
    forall x | x in Blocks(rest)
      ensures l.block < x
    {
      var i :| 0 <= i < |rest| && Blocks(rest)[i] == x;
      assert rest[i] in rest;
    }
    IncreasingCons(l.pc, Pcs(rest));
    IncreasingCons(l.block, Blocks(rest));
  }

  /** For every byte string: counters and blocks of the parsed destinations are strictly increasing. */
  lemma {:induction false} LandingsAreOrdered(code: Bytecode, pc: nat, base: nat, count: BlockCounts)
    requires Positive(count)
    ensures Ordered(Landings(ParseFrom(code, pc), base, count), pc, base)
    decreases |code| - pc
  {
    if pc < |code| {
      LandingsStep(code, pc, base, count);
      OneOpFacts(code, pc);
      var parsed := OneOp(code, pc);
      var base' := base + count(parsed.op);
      LandingsAreOrdered(code, parsed.next, base', count);
      var rest := Landings(ParseFrom(code, parsed.next), base', count);
      if parsed.op.Jumpdest? {
        OrderedCons(Landing(parsed.op.pc, base), rest, parsed.next, base');
      } else {
        assert [] + rest == rest;
      }
    }
  }

  /** The cases, listed from the program, are the counters of the landings. */
  lemma {:induction false} CasesAreLandings(ops: seq<Operation>, base: nat, count: BlockCounts)
    ensures JumpdestPcs(ops) == Pcs(Landings(ops, base, count))
    decreases ops
  {
    if ops != [] {
      var rest := Landings(ops[1..], base + count(ops[0]), count);
      CasesAreLandings(ops[1..], base + count(ops[0]), count);
      if ops[0].Jumpdest? {
        var l := Landing(ops[0].pc, base);
        assert Pcs([l] + rest) == [l.pc] + Pcs(rest);
      } else {
        assert [] + rest == rest;
      }
    }
  }

  /** The landings are the positions that hold a JUMPDEST outside PUSH data. */
  lemma {:induction false} LandingsAreDestinations(code: Bytecode, pc: nat, p: nat)
    ensures p in JumpdestPcs(ParseFrom(code, pc)) <==> p in Positions(code, pc) && p < |code| && code[p] == JUMPDEST
    decreases |code| - pc
  {
    if pc < |code| {
      OneOpFacts(code, pc);
      var parsed := OneOp(code, pc);
      LandingsAreDestinations(code, parsed.next, p);
      PositionsBound(code, parsed.next);
      assert ParseFrom(code, pc) == [parsed.op] + ParseFrom(code, parsed.next);
      assert ([parsed.op] + ParseFrom(code, parsed.next))[1..] == ParseFrom(code, parsed.next);
    }
  }

  /** The destinations of the switch: the values of the map once every landing is registered. */
  function Destinations(ops: seq<Operation>, base: nat, count: BlockCounts): seq<nat> {
    Values(Registered(Landings(ops, base, count)))
  }

  /** Parsed programs keep cases and destinations in step. */
  lemma TableLinesUp(code: Bytecode, base: nat, count: BlockCounts)
    requires Positive(count)
    ensures var ops := ParseFrom(code, 0);
            && Increasing(JumpdestPcs(ops))
            && JumpdestPcs(ops) == Pcs(Landings(ops, base, count))
            && Destinations(ops, base, count) == Blocks(Landings(ops, base, count))
            && |JumpdestPcs(ops)| == |Destinations(ops, base, count)|
  {
    LandingsAreOrdered(code, 0, base, count);
    CasesAreLandings(ParseFrom(code, 0), base, count);
    LinesUp(Landings(ParseFrom(code, 0), base, count));
  }

  /**
   For every byte string, whatever number of blocks each operation is given: the switch sends `v` to a
   block exactly when byte `v` is a JUMPDEST outside PUSH data, then to the very block generated for it,
   and otherwise to the revert block.
   */
  lemma JumpTableIsCorrect(code: Bytecode, base: nat, count: BlockCounts, revert: nat, v: nat)
    requires Positive(count) && revert < base
    ensures var ops := ParseFrom(code, 0);
            && |JumpdestPcs(ops)| == |Destinations(ops, base, count)|
            && var target := SwitchTarget(JumpdestPcs(ops), Destinations(ops, base, count), revert, v);
            && (v in JumpDestinations(code) ==> Landing(v, target) in Landings(ops, base, count))
            && (v in JumpDestinations(code) <==> target != revert)
  {
    var landings := Landings(ParseFrom(code, 0), base, count);
    TableLinesUp(code, base, count);
    LandingsAreDestinations(code, 0, v);
    SwitchLands(landings, revert, v);
    LandingsAreOrdered(code, 0, base, count);
    if v in JumpDestinations(code) {
      var i :| 0 <= i < |landings| && Pcs(landings)[i] == v;
      assert landings[i] in landings;
    }
  }
}
