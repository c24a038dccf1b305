/** The bytecode parser, the printer, and how far they undo each other. */
module Parsing {
  import opened Primitives
  import opened Programs

  datatype Parsed = Parsed(op: Operation, next: nat)

  /** One operation at `pc`, or None for an unknown opcode. A PUSH takes the bytes that are left. */
  function ParseOperation(code: Bytecode, pc: nat): Option<Parsed>
    requires pc < |code|
  {
    var b := code[pc];
    if IsPush(b) then
      var size := b - PUSH0;
      Some(Parsed(Push(size, FromBytes(code[pc + 1..Min(|code|, pc + 1 + size)])), pc + 1 + size))
    else
      match Decode(b, pc)
      case None => None
      case Some(op) => Some(Parsed(op, pc + 1))
  }

  /** The unchecked parser: an unknown byte becomes Invalid. */
  function OneOp(code: Bytecode, pc: nat): Parsed
    requires pc < |code|
  {
    match ParseOperation(code, pc)
    case None => Parsed(Invalid, pc + 1)
    case Some(parsed) => parsed
  }

  function ParseFrom(code: Bytecode, pc: nat): seq<Operation>
    decreases |code| - pc
  {
    if pc >= |code| then []
    else
      var parsed := OneOp(code, pc);
      [parsed.op] + ParseFrom(code, parsed.next)
  }

  /** The bytes the checked parser complains about, in order. */
  function FailedFrom(code: Bytecode, pc: nat): Bytecode
    decreases |code| - pc
  {
    if pc >= |code| then []
    else
      (if ParseOperation(code, pc).None? then [code[pc]] else []) + FailedFrom(code, OneOp(code, pc).next)
  }

  predicate AllValid(ops: seq<Operation>) {
    forall i | 0 <= i < |ops| :: Valid(ops[i])
  }

  function PrintAll(ops: seq<Operation>): Bytecode
    requires AllValid(ops)
  {
    if ops == [] then [] else Print(ops[0]) + PrintAll(ops[1..])
  }

  function CodeSize(ops: seq<Operation>): nat {
    if ops == [] then 0 else Size(ops[0]) + CodeSize(ops[1..])
  }

  // ----- One operation -----

  /** What the parser reads at `pc` is valid, prints to as many bytes as it skips, and starts with the same byte. */
  lemma OneOpFacts(code: Bytecode, pc: nat)
    requires pc < |code|
    ensures var parsed := OneOp(code, pc);
            && Valid(parsed.op)
            && parsed.next == pc + Size(parsed.op)
            && |Print(parsed.op)| == Size(parsed.op)
            && (IsPush(code[pc]) <==> parsed.op.Push?)
            && (parsed.op.Push? ==> parsed.op.size == code[pc] - PUSH0)
            && (parsed.op.Invalid? <==> !Defined(code[pc]))
            && (parsed.op.Invalid? <==> ParseOperation(code, pc).None?)
            && Lead(parsed.op) == (if Defined(code[pc]) then code[pc] else INVALID)
  {
    var b := code[pc];
    if IsPush(b) {
      var data := code[pc + 1..Min(|code|, pc + 1 + (b - PUSH0))];
      FromBytesBound(data);
      Pow256Monotone(|data|, b - PUSH0);
    }
  }

  // ----- Parsing what was printed -----

  /** Printing one parsed operation and parsing it back at the same place gives the operation again. */
  lemma ReparseOne(code: Bytecode, pc: nat, before: Bytecode, after: Bytecode)
    requires pc < |code| && |before| == pc
    ensures Valid(OneOp(code, pc).op)
    ensures OneOp(before + Print(OneOp(code, pc).op) + after, pc) == OneOp(code, pc)
  {
    OneOpFacts(code, pc);
    var op := OneOp(code, pc).op;
    var printed := before + Print(op) + after;
    assert printed[pc] == Lead(op);
    if op.Push? {
      assert printed[pc + 1..pc + 1 + op.size] == ToBytes(op.value, op.size);
      BytesRoundTrip(op.value, op.size);
    } else if op.Invalid? {
      assert ParseOperation(printed, pc).None?;
    }
  }

  lemma PrintCons(op: Operation, ops: seq<Operation>)
    requires Valid(op) && AllValid(ops)
    ensures AllValid([op] + ops)
    ensures PrintAll([op] + ops) == Print(op) + PrintAll(ops)
  {
    assert ([op] + ops)[1..] == ops;
  }

  lemma {:induction false} ReparseFrom(code: Bytecode, pc: nat, before: Bytecode)
    requires |before| == pc
    ensures AllValid(ParseFrom(code, pc))
    ensures ParseFrom(before + PrintAll(ParseFrom(code, pc)), pc) == ParseFrom(code, pc)
    decreases |code| - pc
  {
    if pc < |code| {
      OneOpFacts(code, pc);
      var parsed := OneOp(code, pc);
      ReparseFrom(code, parsed.next, before + Print(parsed.op));
      PrintCons(parsed.op, ParseFrom(code, parsed.next));
      ReparseStep(code, pc, before, PrintAll(ParseFrom(code, parsed.next)));
    }
  }

  lemma ReparseStep(code: Bytecode, pc: nat, before: Bytecode, rest: Bytecode)
    requires pc < |code| && |before| == pc
    requires Valid(OneOp(code, pc).op)
    requires ParseFrom(before + Print(OneOp(code, pc).op) + rest, OneOp(code, pc).next) ==
             ParseFrom(code, OneOp(code, pc).next)
    ensures ParseFrom(before + (Print(OneOp(code, pc).op) + rest), pc) == ParseFrom(code, pc)
  {
    var printed := before + Print(OneOp(code, pc).op) + rest;
    assert before + (Print(OneOp(code, pc).op) + rest) == printed;
    ReparseOne(code, pc, before, rest);
  }

  /** Parsing is stable: printing a parsed program and parsing it again gives the same program, counters included. */
  lemma ParsePrintParse(code: Bytecode)
    ensures AllValid(ParseFrom(code, 0))
    ensures ParseFrom(PrintAll(ParseFrom(code, 0)), 0) == ParseFrom(code, 0)
  {
    ReparseFrom(code, 0, []);
    assert [] + PrintAll(ParseFrom(code, 0)) == PrintAll(ParseFrom(code, 0));
  }

  // ----- When printing gives the bytes back -----

  /** The next instruction after the one at `i`, as section 9.4.3 of the Yellow Paper defines it. */
  function NextPosition(i: nat, w: Byte): nat {
    if IsPush(w) then i + w - PUSH1 + 2 else i + 1
  }

  /** The positions of `code` that hold instructions, from `pc` on. */
  ghost function Positions(code: Bytecode, pc: nat): set<nat>
    decreases |code| - pc
  {
    if pc >= |code| then {} else {pc} + Positions(code, NextPosition(pc, code[pc]))
  }

  /** The valid jump destinations of section 9.4.3 of the Yellow Paper. */
  ghost function JumpDestinations(code: Bytecode): set<nat> {
    set p | p in Positions(code, 0) && p < |code| && code[p] == JUMPDEST
  }

  /** An instruction the printer writes as it was read: a known byte or 0xfe, with all its data there. */
  predicate Faithful(code: Bytecode, p: nat)
    requires p < |code|
  {
    && (Defined(code[p]) || code[p] == INVALID)
    && (IsPush(code[p]) ==> NextPosition(p, code[p]) <= |code|)
  }

  lemma {:induction false} PositionsBound(code: Bytecode, pc: nat)
    ensures forall p | p in Positions(code, pc) :: pc <= p < |code|
    decreases |code| - pc
  {
    if pc < |code| {
      PositionsBound(code, NextPosition(pc, code[pc]));
    }
  }

  lemma PrintPush(data: Bytecode)
    requires 1 <= |data| <= 32
    ensures Valid(Push(|data|, FromBytes(data)))
    ensures Print(Push(|data|, FromBytes(data))) == [PUSH0 + |data|] + data
  {
    FromBytesBound(data);
    NumberRoundTrip(data);
  }

  /** A PUSH whose data is all there. */
  lemma CompletePush(code: Bytecode, pc: nat, data: Bytecode)
    requires pc < |code| && IsPush(code[pc]) && NextPosition(pc, code[pc]) <= |code|
    requires data == code[pc + 1..pc + 1 + (code[pc] - PUSH0)]
    ensures OneOp(code, pc) == Parsed(Push(|data|, FromBytes(data)), pc + 1 + |data|)
  {
  }

  lemma PrintFaithful(code: Bytecode, pc: nat)
    requires pc < |code| && Faithful(code, pc)
    ensures Valid(OneOp(code, pc).op)
    ensures OneOp(code, pc).next <= |code|
    ensures Print(OneOp(code, pc).op) == code[pc..OneOp(code, pc).next]
  {
    if IsPush(code[pc]) {
      var data := code[pc + 1..pc + 1 + (code[pc] - PUSH0)];
      CompletePush(code, pc, data);
      PrintPush(data);
      assert code[pc..pc + 1 + |data|] == [code[pc]] + data;
    } else {
      OneOpFacts(code, pc);
      assert code[pc..pc + 1] == [code[pc]];
    }
  }

  lemma PrintUnfaithful(code: Bytecode, pc: nat, rest: Bytecode)
    requires pc < |code| && !Faithful(code, pc)
    ensures Valid(OneOp(code, pc).op)
    ensures Print(OneOp(code, pc).op) + rest != code[pc..]
  {
    OneOpFacts(code, pc);
    var op := OneOp(code, pc).op;
    if op.Push? {
      assert |Print(op) + rest| > |code[pc..]|;
    } else {
      assert (Print(op) + rest)[0] == INVALID != code[pc..][0];
    }
  }

  /** Every instruction from `pc` on is faithful. */
  ghost predicate AllFaithful(code: Bytecode, pc: nat) {
    forall p | p in Positions(code, pc) :: p < |code| && Faithful(code, p)
  }

  lemma AllFaithfulStep(code: Bytecode, pc: nat)
    requires pc < |code|
    ensures AllFaithful(code, pc) <==> Faithful(code, pc) && AllFaithful(code, NextPosition(pc, code[pc]))
  {
    PositionsBound(code, NextPosition(pc, code[pc]));
    assert Positions(code, pc) == {pc} + Positions(code, NextPosition(pc, code[pc]));
  }

  lemma {:induction false} PrintFrom(code: Bytecode, pc: nat)
    requires pc <= |code|
    ensures AllValid(ParseFrom(code, pc))
    ensures PrintAll(ParseFrom(code, pc)) == code[pc..] <==> AllFaithful(code, pc)
    decreases |code| - pc
  {
    if pc < |code| {
      OneOpFacts(code, pc);
      AllFaithfulStep(code, pc);
      var parsed := OneOp(code, pc);
      ReparseFrom(code, parsed.next, seq(parsed.next, _ => 0));
      PrintCons(parsed.op, ParseFrom(code, parsed.next));
      if Faithful(code, pc) {
        PrintFaithful(code, pc);
        PrintFrom(code, parsed.next);
        SplitCode(code, pc, parsed.next, PrintAll(ParseFrom(code, parsed.next)));
      } else {
        PrintUnfaithful(code, pc, PrintAll(ParseFrom(code, parsed.next)));
      }
    }
  }

  lemma SplitCode(code: Bytecode, pc: nat, next: nat, rest: Bytecode)
    requires pc <= next <= |code|
    ensures code[pc..next] + rest == code[pc..] <==> rest == code[next..]
  {
    assert code[pc..] == code[pc..next] + code[next..];
    assert (code[pc..next] + rest)[next - pc..] == rest;
    assert code[pc..][next - pc..] == code[next..];
  }

  /**
   Printing a parsed program gives the original bytes exactly when every byte in instruction position
   is a known opcode or 0xfe and no PUSH lacks data.
   */
  lemma PrintParse(code: Bytecode)
    ensures AllValid(ParseFrom(code, 0))
    ensures PrintAll(ParseFrom(code, 0)) == code <==> AllFaithful(code, 0)
  {
    PrintFrom(code, 0);
    assert code[0..] == code;
  }

  /** A truncated PUSH2 is printed with a byte it did not have. */
  lemma TruncatedPushGrows()
    ensures ParseFrom([0x61, 0xab], 0) == [Push(2, 0xab)]
    ensures PrintAll([Push(2, 0xab)]) == [0x61, 0x00, 0xab]
  {
    assert [0x61, 0xab][1..Min(2, 3)] == [0xab];
    assert FromBytes([0xab]) == 0xab by {
      assert [0xab][..0] == [];
    }
    assert ToBytes(0xab, 2) == ToBytes(0, 1) + [0xab];
    assert Valid(Push(2, 0xab)) by {
      assert Pow256(1) == 256 && Pow256(2) == 65536;
    }
    assert PrintAll([Push(2, 0xab)]) == Print(Push(2, 0xab)) + [];
  }

  /** The recorded code size is the printed length. */
  lemma {:induction false} CodeSizeIsLength(ops: seq<Operation>)
    requires AllValid(ops)
    ensures CodeSize(ops) == |PrintAll(ops)|
  {
    if ops != [] {
      CodeSizeIsLength(ops[1..]);
    }
  }

  // ----- The two parsers -----

  datatype Program = Program(operations: seq<Operation>, codeSize: nat)

  datatype Checked = Ok(program: Program) | ParseError(opcodes: Bytecode)

  lemma AppendOne(ops: seq<Operation>, code: Bytecode, pc: nat)
    requires pc < |code|
    ensures ops + [OneOp(code, pc).op] + ParseFrom(code, OneOp(code, pc).next) == ops + ParseFrom(code, pc)
  {
  }

  method FromBytecode(code: Bytecode) returns (program: Program)
    ensures program == Program(ParseFrom(code, 0), CodeSize(ParseFrom(code, 0)))
    ensures AllValid(program.operations) && program.codeSize == |PrintAll(program.operations)|
  {
    var operations: seq<Operation> := [];
    var pc := 0;
    while pc < |code|
      invariant operations + ParseFrom(code, pc) == ParseFrom(code, 0)
    {
      AppendOne(operations, code, pc);
      match ParseOperation(code, pc) {
        case Some(parsed) =>
          operations := operations + [parsed.op];
          pc := parsed.next;
        case None =>
          operations := operations + [Invalid];
          pc := pc + 1;
      }
    }
    assert operations + [] == operations;
    program := Program(operations, CodeSize(operations));
    ParsePrintParse(code);
    CodeSizeIsLength(operations);
  }

  /** The bytes of `code` that stand where `ops`, laid out from `pc` on, has Invalid. */
  ghost function InvalidBytes(code: Bytecode, ops: seq<Operation>, pc: nat): Bytecode {
    if ops == [] then []
    else
      (if ops[0].Invalid? && pc < |code| then [code[pc]] else []) + InvalidBytes(code, ops[1..], pc + Size(ops[0]))
  }

  lemma InvalidBytesCons(code: Bytecode, op: Operation, ops: seq<Operation>, pc: nat)
    ensures InvalidBytes(code, [op] + ops, pc) ==
            (if op.Invalid? && pc < |code| then [code[pc]] else []) + InvalidBytes(code, ops, pc + Size(op))
    ensures Invalid in [op] + ops <==> op.Invalid? || Invalid in ops
  {
    assert ([op] + ops)[1..] == ops;
  }

  lemma FailedUnfolds(code: Bytecode, pc: nat)
    requires pc < |code|
    ensures FailedFrom(code, pc) ==
            (if OneOp(code, pc).op.Invalid? then [code[pc]] else []) + FailedFrom(code, OneOp(code, pc).next)
    ensures ParseFrom(code, pc) == [OneOp(code, pc).op] + ParseFrom(code, OneOp(code, pc).next)
    ensures OneOp(code, pc).next == pc + Size(OneOp(code, pc).op)
  {
    OneOpFacts(code, pc);
  }

  lemma {:induction false} FailedAreInvalid(code: Bytecode, pc: nat)
    ensures FailedFrom(code, pc) == InvalidBytes(code, ParseFrom(code, pc), pc)
    decreases |code| - pc
  {
    if pc < |code| {
      var parsed := OneOp(code, pc);
      FailedUnfolds(code, pc);
      FailedAreInvalid(code, parsed.next);
      InvalidBytesCons(code, parsed.op, ParseFrom(code, parsed.next), pc);
    }
  }

  lemma {:induction false} FailedIffInvalid(code: Bytecode, pc: nat)
    ensures FailedFrom(code, pc) == [] <==> Invalid !in ParseFrom(code, pc)
    decreases |code| - pc
  {
    if pc < |code| {
      OneOpFacts(code, pc);
      var parsed := OneOp(code, pc);
      FailedIffInvalid(code, parsed.next);
      InvalidBytesCons(code, parsed.op, ParseFrom(code, parsed.next), pc);
    }
  }

  lemma FailOne(failed: Bytecode, code: Bytecode, pc: nat)
    requires pc < |code|
    ensures failed + (if ParseOperation(code, pc).None? then [code[pc]] else [])
            + FailedFrom(code, OneOp(code, pc).next) == failed + FailedFrom(code, pc)
  {
  }

  /** Ok with the unchecked parser's program if that has no Invalid, otherwise every byte it turned into one. */
  method FromBytecodeChecked(code: Bytecode) returns (result: Checked)
    ensures var ops := ParseFrom(code, 0);
            result == if Invalid in ops then ParseError(InvalidBytes(code, ops, 0))
                      else Ok(Program(ops, CodeSize(ops)))
  {
    var operations: seq<Operation> := [];
    var failed: Bytecode := [];
    var pc := 0;
    while pc < |code|
      invariant failed + FailedFrom(code, pc) == FailedFrom(code, 0)
      invariant failed == [] ==> operations + ParseFrom(code, pc) == ParseFrom(code, 0)
    {
      AppendOne(operations, code, pc);
      FailOne(failed, code, pc);
      assert failed + [] == failed;
      match ParseOperation(code, pc) {
        case Some(parsed) =>
          operations := operations + [parsed.op];
          pc := parsed.next;
        case None =>
          failed := failed + [code[pc]];
          pc := pc + 1;
      }
    }
    FailedAreInvalid(code, 0);
    FailedIffInvalid(code, 0);
    assert operations + [] == operations && failed + [] == failed;
    if failed == [] {
      result := Ok(Program(operations, CodeSize(operations)));
    } else {
      result := ParseError(failed);
    }
  }
}
