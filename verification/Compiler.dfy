/** The compiler's loop: it appends each operation's blocks and closes the block the one before left open. */
module Compiler {
  import opened Primitives
  import opened Programs
  import opened Results
  import opened Interpreter
  import opened Target
  import opened Codegen
  import opened JumpTables
  import opened DestinationTables

  // ----- Closing an open block -----

  /** The block with a terminator appended, if it has none yet. */
  function Closed(body: Code, t: Terminator): Code {
    match body
    case End(Open) => End(t)
    case End(_) => body
    case Then(i, rest) => Then(i, Closed(rest, t))
  }

  lemma ClosedTwo(i: Instr, j: Instr, rest: Code, t: Terminator)
    ensures Closed(Then(i, Then(j, rest)), t) == Then(i, Then(j, Closed(rest, t)))
  {
    assert Closed(Then(j, rest), t) == Then(j, Closed(rest, t));
  }

  lemma ClosedBinary(fn: Fn, t: Terminator)
    ensures Closed(BinaryBody(fn, Open), t) == BinaryBody(fn, t)
  {
    var rest := Then(Compute(2, fn, Reg(0), Reg(1)), Then(StackPush(Reg(2)), End(Open)));
    ClosedTwo(Compute(2, fn, Reg(0), Reg(1)), StackPush(Reg(2)), End(Open), t);
    ClosedTwo(StackPop(0), StackPop(1), rest, t);
  }

  lemma ClosedUnary(fn: Fn, constant: nat, t: Terminator)
    ensures Closed(UnaryBody(fn, constant, Open), t) == UnaryBody(fn, constant, t)
  {
    ClosedTwo(Compute(1, fn, Reg(0), Imm(constant)), StackPush(Reg(1)), End(Open), t);
  }

  lemma ClosedSar(t: Terminator)
    ensures Closed(SarBody(Open), t) == SarBody(t)
  {
    var push := Then(StackPush(Reg(3)), End(Open));
    var rest := Then(Compute(2, MinU, Reg(0), Imm(255)), Then(Compute(3, ShiftRS, Reg(1), Reg(2)), push));
    ClosedTwo(Compute(2, MinU, Reg(0), Imm(255)), Compute(3, ShiftRS, Reg(1), Reg(2)), push, t);
    ClosedTwo(StackPop(0), StackPop(1), rest, t);
    assert Closed(push, t) == Then(StackPush(Reg(3)), End(t));
  }

  lemma ClosedSignExtend(t: Terminator)
    ensures Closed(SignExtendBody(Open), t) == SignExtendBody(t)
  {
    var push := Then(StackPush(Reg(7)), End(Open));
    var shifts := Then(Compute(6, ShiftL, Reg(1), Reg(5)), Then(Compute(7, ShiftRS, Reg(6), Reg(5)), push));
    var middle := Then(Compute(4, Add(TWO_256), Reg(3), Imm(7)),
                    Then(Compute(5, Sub(TWO_256), Imm(255), Reg(4)), shifts));
    var first := Then(Compute(2, MinU, Reg(0), Imm(31)), Then(Compute(3, Mul(TWO_256), Reg(2), Imm(8)), middle));
    assert Closed(push, t) == Then(StackPush(Reg(7)), End(t));
    ClosedTwo(Compute(6, ShiftL, Reg(1), Reg(5)), Compute(7, ShiftRS, Reg(6), Reg(5)), push, t);
    ClosedTwo(Compute(4, Add(TWO_256), Reg(3), Imm(7)), Compute(5, Sub(TWO_256), Imm(255), Reg(4)), shifts, t);
    ClosedTwo(Compute(2, MinU, Reg(0), Imm(31)), Compute(3, Mul(TWO_256), Reg(2), Imm(8)), middle, t);
    ClosedTwo(StackPop(0), StackPop(1), first, t);
  }

  lemma ClosedBody(op: Operation, t: Terminator)
    ensures Closed(Body(op, Open), t) == Body(op, t)
  {
    if op.Basic? {
      var b := op.opcode;
      if IsBinary(b) {
        ClosedBinary(BinaryFn(b), t);
      } else if b == ISZERO {
        ClosedUnary(Equal, 0, t);
      } else if b == NOT {
        ClosedUnary(XorI, TWO_256 - 1, t);
      } else if b == SAR {
        ClosedSar(t);
      } else if b == SIGNEXTEND {
        ClosedSignExtend(t);
      } else if b == GAS {
        ClosedTwo(RemainingGas(3), StackPush(Reg(3)), End(Open), t);
      } else if b == MSIZE {
        ClosedTwo(MemorySize(3), StackPush(Reg(3)), End(Open), t);
      }
    } else if op.Dup? {
      ClosedTwo(GetNth(3, op.n), StackPush(Reg(3)), End(Open), t);
    }
  }

  lemma ClosedAccess(b: Byte, t: Terminator)
    ensures Closed(Access(b, Open), t) == Access(b, t)
  {
    ClosedTwo(LoadWord(13, Reg(1)), StackPush(Reg(13)), End(Open), t);
  }

  /** Closing the block an operation left open gives the operation's blocks with that terminator. */
  lemma ClosedFragment(op: Operation, base: nat, t: Terminator)
    requires Core(op)
    ensures var f := Fragment(op, base, Open);
            && OpenBlock(op) < |f|
            && f[OpenBlock(op) := Closed(f[OpenBlock(op)], t)] == Fragment(op, base, t)
  {
    if IsStraight(op) {
      ClosedBody(op, t);
    } else if op.Basic? && IsAccess(op.opcode) {
      ClosedAccess(op.opcode, t);
    }
  }

  // ----- One more operation -----

  lemma LinkedCons(ops: seq<Operation>, op: Operation, base: nat, head: seq<Code>)
    requires ops != [] && AllCore(ops) && AllCore(ops + [op])
    requires head == Fragment(ops[0], base, Br(base + BlockCount(ops[0])))
    ensures AllCore(ops[1..]) && AllCore(ops[1..] + [op]) && |head| == BlockCount(ops[0])
    ensures Linked(ops, base) == head + Linked(ops[1..], base + BlockCount(ops[0]))
    ensures Linked(ops + [op], base) == head + Linked(ops[1..] + [op], base + BlockCount(ops[0]))
  {
    FragmentLength(ops[0], base, Br(base + BlockCount(ops[0])));
    assert (ops + [op])[1..] == ops[1..] + [op];
    assert (ops + [op])[0] == ops[0];
  }

  lemma Regroup<T>(head: seq<T>, middle: seq<T>, last: seq<T>)
    ensures head + (middle + last) == (head + middle) + last
  {
  }

  lemma LinkedOne(op: Operation, base: nat)
    requires Core(op)
    ensures AllCore([op]) && Linked([op], base) == Fragment(op, base, Br(base + BlockCount(op)))
  {
    assert [op][1..] == [];
    assert Linked([op], base) == Fragment(op, base, Br(base + BlockCount(op))) + [];
  }

  lemma {:induction false} LinkedSnoc(ops: seq<Operation>, op: Operation, base: nat)
    requires AllCore(ops) && AllCore(ops + [op]) && Core(op)
    ensures var n := base + |Linked(ops, base)|;
            Linked(ops + [op], base) == Linked(ops, base) + Fragment(op, n, Br(n + BlockCount(op)))
    decreases ops
  {
    if ops == [] {
      assert [] + [op] == [op];
      LinkedOne(op, base);
    } else {
      var base' := base + BlockCount(ops[0]);
      var head := Fragment(ops[0], base, Br(base'));
      LinkedCons(ops, op, base, head);
      LinkedSnoc(ops[1..], op, base');
      var n := base' + |Linked(ops[1..], base')|;
      Regroup(head, Linked(ops[1..], base'), Fragment(op, n, Br(n + BlockCount(op))));
    }
  }

  function TotalBlocks(ops: seq<Operation>): nat {
    if ops == [] then 0 else BlockCount(ops[0]) + TotalBlocks(ops[1..])
  }

  lemma {:induction false} LinkedLength(ops: seq<Operation>, base: nat)
    requires AllCore(ops)
    ensures |Linked(ops, base)| == TotalBlocks(ops)
    decreases ops
  {
    if ops != [] {
      FragmentLength(ops[0], base, Br(base + BlockCount(ops[0])));
      LinkedLength(ops[1..], base + BlockCount(ops[0]));
    }
  }

  /** The landing an operation adds when its first block is number `n`. */
  function NewLanding(op: Operation, n: nat): seq<Landing> {
    if op.Jumpdest? then [Landing(op.pc, n)] else []
  }

  lemma {:induction false} LandingsSnoc(ops: seq<Operation>, op: Operation, base: nat)
    requires AllCore(ops) && AllCore(ops + [op]) && Core(op)
    ensures Landings(ops + [op], base, BlockCount) ==
            Landings(ops, base, BlockCount) + NewLanding(op, base + TotalBlocks(ops))
    decreases ops
  {
    if ops == [] {
      assert [] + [op] == [op];
      assert [op][1..] == [];
    } else {
      var base' := base + BlockCount(ops[0]);
      LandingsCons(ops, op, base, base');
      LandingsSnoc(ops[1..], op, base');
      Regroup(NewLanding(ops[0], base), Landings(ops[1..], base', BlockCount),
              NewLanding(op, base' + TotalBlocks(ops[1..])));
    }
  }

  lemma LandingsCons(ops: seq<Operation>, op: Operation, base: nat, base': nat)
    requires ops != [] && AllCore(ops + [op]) && base' == base + BlockCount(ops[0])
    ensures Landings(ops, base, BlockCount) == NewLanding(ops[0], base) + Landings(ops[1..], base', BlockCount)
    ensures AllCore(ops[1..] + [op])
    ensures Landings(ops + [op], base, BlockCount) ==
            NewLanding(ops[0], base) + Landings(ops[1..] + [op], base', BlockCount)
  {
    assert (ops + [op])[1..] == ops[1..] + [op] && (ops + [op])[0] == ops[0];
  }

  lemma RegisteredSnoc(landings: seq<Landing>, l: Landing)
    ensures Registered(landings + [l]) == Insert(Registered(landings), l.pc, l.block)
    ensures Registered(landings + []) == Registered(landings)
  {
    assert (landings + [l])[..|landings|] == landings;
    assert landings + [] == landings;
  }

  // ----- The region being filled -----

  class MainRegion {
    var blocks: seq<Code>
    var jumpdests: Tree

    /** The setup block, the revert block and the still empty jump table. */
    constructor ()
      ensures blocks == [SetupCode(Open), RevertCode(), End(Open)] && jumpdests == Empty
    {
      blocks := [SetupCode(Open), RevertCode(), End(Open)];
      jumpdests := Empty;
    }

    method AppendBlock(body: Code) returns (id: nat)
      modifies this`blocks
      ensures id == |old(blocks)| && blocks == old(blocks) + [body]
    {
      id := |blocks|;
      blocks := blocks + [body];
    }

    method AppendTerminator(id: nat, t: Terminator)
      requires id < |blocks|
      modifies this`blocks
      ensures blocks == old(blocks)[id := Closed(old(blocks)[id], t)]
    {
      blocks := blocks[id := Closed(blocks[id], t)];
    }

    method RegisterJumpDestination(pc: nat, block: nat)
      modifies this`jumpdests
      ensures jumpdests == Insert(old(jumpdests), pc, block)
    {
      jumpdests := Insert(jumpdests, pc, block);
    }

    method CodegenDividing(b: Byte) returns (start: nat, end: nat)
      requires IsDividing(b)
      modifies this`blocks
      ensures blocks == old(blocks) + BasicFragment(b, |old(blocks)|, Open)
      ensures start == |old(blocks)| && end == start + 4
    {
      start := AppendBlock(Guard(Basic(b), |blocks| + 1));
      var ok := AppendBlock(DividingOk(b, start + 2, start + 3));
      var zero := AppendBlock(Then(StackPush(Imm(0)), End(Br(start + 4))));
      var notZero := AppendBlock(DividingBy(b, start + 4));
      end := AppendBlock(End(Open));
    }

    /** The block that touches memory comes before the two that expand it. */
    method CodegenAccess(b: Byte) returns (start: nat, end: nat)
      requires IsAccess(b)
      modifies this`blocks
      ensures blocks == old(blocks) + BasicFragment(b, |old(blocks)|, Open)
      ensures start == |old(blocks)| && end == start + 2
    {
      start := AppendBlock(StackOnly(if b == MLOAD then 1 else 2, |blocks| + 1));
      var ok := AppendBlock(AccessOk(b, start + 3, start + 4));
      end := AppendBlock(Access(b, Open));
      var ext := AppendBlock(Extension(3, end));
      var noExt := AppendBlock(NoExtension(3, end));
    }

    method CodegenLeaving(b: Byte) returns (start: nat, end: nat)
      requires IsLeaving(b)
      modifies this`blocks
      ensures blocks == old(blocks) + BasicFragment(b, |old(blocks)|, Open)
      ensures start == |old(blocks)| && end == start + 5
    {
      start := AppendBlock(StackOnly(2, |blocks| + 1));
      var ok := AppendBlock(LeavingOk(start + 3, start + 4));
      var leave := AppendBlock(ExitWith(if b == RETURN then ReturnStatus else RevertStatus, Reg(1), Reg(12)));
      var ext := AppendBlock(Extension(0, leave));
      var noExt := AppendBlock(NoExtension(0, leave));
      end := AppendBlock(End(Open));
    }

    method CodegenJump(b: Byte) returns (start: nat, end: nat)
      requires b == JUMP || b == JUMPI
      modifies this`blocks
      ensures blocks == old(blocks) + BasicFragment(b, |old(blocks)|, Open)
      ensures start == |old(blocks)| && end == start + 2
    {
      start := AppendBlock(Guard(Basic(b), |blocks| + 1));
      if b == JUMP {
        var ok := AppendBlock(Then(StackPop(0), End(BrTable(Reg(0)))));
      } else {
        var ok := AppendBlock(Then(StackPop(0), Then(StackPop(1), Then(Compute(3, NotEqual, Reg(1), Imm(0)),
                                End(CondBrTable(Reg(3), Reg(0), start + 2))))));
      }
      end := AppendBlock(End(Open));
    }

    /** Appends the operation's blocks; returns the first one and the one left open. */
    method GenerateCodeForOp(op: Operation) returns (start: nat, end: nat)
      requires Core(op)
      modifies this
      ensures blocks == old(blocks) + Fragment(op, |old(blocks)|, Open)
      ensures start == |old(blocks)| && end == start + OpenBlock(op)
      ensures jumpdests == if op.Jumpdest? then Insert(old(jumpdests), op.pc, start) else old(jumpdests)
    {
      if op.Basic? && IsDividing(op.opcode) {
        start, end := CodegenDividing(op.opcode);
      } else if op.Basic? && IsAccess(op.opcode) {
        start, end := CodegenAccess(op.opcode);
      } else if op.Basic? && IsLeaving(op.opcode) {
        start, end := CodegenLeaving(op.opcode);
      } else if op == Basic(JUMP) || op == Basic(JUMPI) {
        start, end := CodegenJump(op.opcode);
      } else if op.Jumpdest? {
        start := AppendBlock(Landed(|blocks| + 1));
        end := AppendBlock(End(Open));
        RegisterJumpDestination(op.pc, start);
      } else if op == Basic(STOP) {
        start := AppendBlock(ExitWith(StopStatus, Imm(0), Imm(0)));
        end := AppendBlock(End(Open));
      } else if op.Invalid? {
        start := AppendBlock(End(Br(REVERT_BLOCK)));
        end := AppendBlock(End(Open));
      } else {
        start := AppendBlock(Guard(op, |blocks| + 1));
        end := AppendBlock(Body(op, Open));
      }
    }

    /** Cases from the program, destinations from the map. */
    method PopulateJumptable(ops: seq<Operation>)
      requires |blocks| > TABLE && blocks[TABLE] == End(Open)
      modifies this`blocks
      ensures blocks == old(blocks)[TABLE := End(Switch(JumpdestPcs(ops), Values(jumpdests), REVERT_BLOCK))]
    {
      AppendTerminator(TABLE, Switch(JumpdestPcs(ops), Values(jumpdests), REVERT_BLOCK));
    }
  }

  // ----- The loop -----

  /** The blocks as they will be once the open one leads to the next block appended. */
  function Joined(blocks: seq<Code>, last: nat): seq<Code>
    requires last < |blocks|
  {
    blocks[last := Closed(blocks[last], Br(|blocks|))]
  }

  function Header(): seq<Code> {
    [SetupCode(Br(FIRST_OP)), RevertCode(), End(Open)]
  }

  /** What one turn of the loop does to the blocks. */
  lemma JoinStep(blocks: seq<Code>, last: nat, op: Operation)
    requires last < |blocks| && Core(op)
    ensures var f := Fragment(op, |blocks|, Open);
            var grown := (blocks + f)[last := Closed(blocks[last], Br(|blocks|))];
            && |blocks| + OpenBlock(op) < |grown|
            && Joined(grown, |blocks| + OpenBlock(op)) ==
               Joined(blocks, last) + Fragment(op, |blocks|, Br(|blocks| + BlockCount(op)))
  {
    var f := Fragment(op, |blocks|, Open);
    var t := Br(|blocks| + BlockCount(op));
    FragmentLength(op, |blocks|, Open);
    ClosedFragment(op, |blocks|, t);
    var grown := (blocks + f)[last := Closed(blocks[last], Br(|blocks|))];
    assert grown == Joined(blocks, last) + f;
    assert Joined(grown, |blocks| + OpenBlock(op)) ==
           Joined(blocks, last) + f[OpenBlock(op) := Closed(f[OpenBlock(op)], t)];
  }

  /** The invariant of the loop after `i` operations. */
  ghost predicate Filled(ops: seq<Operation>, i: nat, blocks: seq<Code>, jumpdests: Tree, last: nat)
    requires i <= |ops| && AllCore(ops)
  {
    && last < |blocks| && last != TABLE
    && Joined(blocks, last) == Header() + Linked(ops[..i], FIRST_OP)
    && jumpdests == Registered(Landings(ops[..i], FIRST_OP, BlockCount))
  }

  /** The blocks after one more operation, its predecessor's open block closed onto it. */
  function Grown(blocks: seq<Code>, last: nat, op: Operation): seq<Code>
    requires last < |blocks| && Core(op)
  {
    (blocks + Fragment(op, |blocks|, Open))[last := Closed(blocks[last], Br(|blocks|))]
  }

  lemma BlocksStep(ops: seq<Operation>, op: Operation, blocks: seq<Code>, last: nat)
    requires AllCore(ops) && AllCore(ops + [op]) && Core(op) && last < |blocks|
    requires Joined(blocks, last) == Header() + Linked(ops, FIRST_OP)
    ensures |blocks| + OpenBlock(op) < |Grown(blocks, last, op)|
    ensures Joined(Grown(blocks, last, op), |blocks| + OpenBlock(op)) == Header() + Linked(ops + [op], FIRST_OP)
    ensures |blocks| == FIRST_OP + |Linked(ops, FIRST_OP)|
  {
    JoinedGrows(blocks, last, op, Header(), Linked(ops, FIRST_OP));
    LinkedSnoc(ops, op, FIRST_OP);
  }

  lemma JoinedGrows(blocks: seq<Code>, last: nat, op: Operation, header: seq<Code>, linked: seq<Code>)
    requires Core(op) && last < |blocks| && Joined(blocks, last) == header + linked
    ensures |blocks| + OpenBlock(op) < |Grown(blocks, last, op)| && |blocks| == |header| + |linked|
    ensures Joined(Grown(blocks, last, op), |blocks| + OpenBlock(op)) ==
            header + (linked + Fragment(op, |blocks|, Br(|blocks| + BlockCount(op))))
  {
    JoinStep(blocks, last, op);
    assert |blocks| == |Joined(blocks, last)|;
    Regroup(header, linked, Fragment(op, |blocks|, Br(|blocks| + BlockCount(op))));
  }

  lemma Prefix(ops: seq<Operation>, i: nat)
    requires AllCore(ops) && i < |ops|
    ensures ops[..i] + [ops[i]] == ops[..i + 1]
    ensures AllCore(ops[..i]) && AllCore(ops[..i + 1]) && Core(ops[i])
  {
  }

  lemma FilledStep(ops: seq<Operation>, i: nat, blocks: seq<Code>, jumpdests: Tree, last: nat)
    requires AllCore(ops) && i < |ops| && Filled(ops, i, blocks, jumpdests, last)
    ensures var op := ops[i];
            Filled(ops, i + 1, Grown(blocks, last, op),
                   if op.Jumpdest? then Insert(jumpdests, op.pc, |blocks|) else jumpdests, |blocks| + OpenBlock(op))
  {
    Prefix(ops, i);
    BlocksStep(ops[..i], ops[i], blocks, last);
    FilledLandings(ops, i, |blocks|);
  }

  lemma FilledLandings(ops: seq<Operation>, i: nat, n: nat)
    requires AllCore(ops) && i < |ops| && n == FIRST_OP + |Linked(ops[..i], FIRST_OP)|
    ensures var jumpdests := Registered(Landings(ops[..i], FIRST_OP, BlockCount));
            Registered(Landings(ops[..i + 1], FIRST_OP, BlockCount)) ==
            if ops[i].Jumpdest? then Insert(jumpdests, ops[i].pc, n) else jumpdests
  {
    Prefix(ops, i);
    LandingsSnoc(ops[..i], ops[i], FIRST_OP);
    LinkedLength(ops[..i], FIRST_OP);
    RegisteredSnoc(Landings(ops[..i], FIRST_OP, BlockCount), Landing(if ops[i].Jumpdest? then ops[i].pc else 0, n));
  }

  /** Closing the last open block onto the final STOP completes the program. */
  lemma FilledEnd(ops: seq<Operation>, blocks: seq<Code>, jumpdests: Tree, last: nat)
    requires AllCore(ops) && Filled(ops, |ops|, blocks, jumpdests, last)
    ensures |blocks| > TABLE && blocks[TABLE] == End(Open)
    ensures var table := End(Switch(JumpdestPcs(ops), Values(jumpdests), REVERT_BLOCK));
            var stopped := blocks[TABLE := table] + [ExitWith(StopStatus, Imm(0), Imm(0))];
            stopped[last := Closed(blocks[last], Br(|blocks|))] == Compiled(ops)
  {
    assert ops[..|ops|] == ops;
    var joined := Header() + Linked(ops, FIRST_OP);
    assert joined == Joined(blocks, last);
    assert joined[TABLE] == blocks[TABLE];
    EndStep(blocks, last, Table(ops), ExitWith(StopStatus, Imm(0), Imm(0)), Linked(ops, FIRST_OP));
  }

  lemma EndStep(blocks: seq<Code>, last: nat, table: Code, exit: Code, linked: seq<Code>)
    requires last < |blocks| && last != TABLE < |blocks| && Joined(blocks, last) == Header() + linked
    ensures (blocks[TABLE := table] + [exit])[last := Closed(blocks[last], Br(|blocks|))] ==
            [SetupCode(Br(FIRST_OP)), RevertCode(), table] + linked + [exit]
  {
    var joined := Joined(blocks, last);
    assert joined[TABLE := table] == [SetupCode(Br(FIRST_OP)), RevertCode(), table] + linked;
    assert (blocks[TABLE := table] + [exit])[last := Closed(blocks[last], Br(|blocks|))] ==
           joined[TABLE := table] + [exit];
  }

  method CompileProgram(ops: seq<Operation>) returns (region: MainRegion)
    requires AllCore(ops)
    ensures region.blocks == Compiled(ops)
  {
    region := new MainRegion();
    var last: nat := SETUP;
    assert Joined(region.blocks, last) == Header() + Linked(ops[..0], FIRST_OP);
    for i := 0 to |ops|
      invariant Filled(ops, i, region.blocks, region.jumpdests, last)
    {
      FilledStep(ops, i, region.blocks, region.jumpdests, last);
      var start, end := region.GenerateCodeForOp(ops[i]);
      region.AppendTerminator(last, Br(start));
      last := end;
    }
    FilledEnd(ops, region.blocks, region.jumpdests, last);
    region.PopulateJumptable(ops);
    var returnBlock := region.AppendBlock(ExitWith(StopStatus, Imm(0), Imm(0)));
    region.AppendTerminator(last, Br(returnBlock));
  }
}
