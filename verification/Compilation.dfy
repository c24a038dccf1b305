/** Compiling a whole program, and what the compiled program computes. */
module Compilation {
  import opened Primitives
  import opened Programs
  import opened Parsing
  import opened Stacks
  import opened Results
  import opened Interpreter
  import opened Target
  import opened Codegen
  import opened BlockRuns
  import opened JumpTables
  import opened DestinationTables
  import opened Simulation
  import opened Specification

  // ----- Layout -----

  lemma {:induction false} CoreParse(code: Bytecode, pc: nat)
    requires forall p | p in Positions(code, pc) :: p < |code| && Core(OneOp(code, p).op)
    ensures AllCore(ParseFrom(code, pc))
    decreases |code| - pc
  {
    if pc < |code| {
      var next := CoreTail(code, pc);
      CoreParse(code, next);
      AllCoreCons(OneOp(code, pc).op, ParseFrom(code, next));
    }
  }

  lemma CoreTail(code: Bytecode, pc: nat) returns (next: nat)
    requires pc < |code| && forall p | p in Positions(code, pc) :: p < |code| && Core(OneOp(code, p).op)
    ensures next == OneOp(code, pc).next > pc && Core(OneOp(code, pc).op)
    ensures forall p | p in Positions(code, next) :: p < |code| && Core(OneOp(code, p).op)
  {
    next := OneOp(code, pc).next;
    OneOpFacts(code, pc);
    assert pc in Positions(code, pc);
  }

  lemma AllCoreCons(op: Operation, rest: seq<Operation>)
    requires Core(op) && AllCore(rest)
    ensures AllCore([op] + rest)
  {
  }

  lemma LinkedStep(code: Bytecode, pc: nat, base: nat)
    requires pc < |code| && AllCore(ParseFrom(code, pc))
    ensures var parsed := OneOp(code, pc);
            var rest := ParseFrom(code, parsed.next);
            && Core(parsed.op) && AllCore(rest)
            && Linked(ParseFrom(code, pc), base) ==
               Fragment(parsed.op, base, Br(base + BlockCount(parsed.op)))
               + Linked(rest, base + BlockCount(parsed.op))
  {
    var parsed := OneOp(code, pc);
    var ops := ParseFrom(code, pc);
    assert ops[0] == parsed.op;
    assert ops[1..] == ParseFrom(code, parsed.next);
    assert forall i | 0 <= i < |ops[1..]| :: ops[1..][i] == ops[i + 1];
  }

  lemma SplitSuffix(blocks: seq<Code>, base: nat, fragment: seq<Code>, tail: seq<Code>)
    requires base <= |blocks| && blocks[base..] == fragment + tail
    ensures Holds(blocks, base, fragment)
    ensures base + |fragment| <= |blocks| && blocks[base + |fragment|..] == tail
  {
    assert |blocks| == base + |fragment| + |tail|;
    forall i: nat | i < |fragment|
      ensures IsBlock(blocks, base + i, fragment[i])
    {
      assert blocks[base..][i] == fragment[i];
    }
    assert blocks[base + |fragment|..] == blocks[base..][|fragment|..];
  }

  function FinalStop(): seq<Code> {
    [ExitWith(StopStatus, Imm(0), Imm(0))]
  }

  /** Linked blocks, followed by the final STOP, are laid out as the simulation needs them. */
  lemma {:induction false} LinkedIsLaid(blocks: seq<Code>, code: Bytecode, pc: nat, base: nat)
    requires AllCore(ParseFrom(code, pc)) && base <= |blocks|
    requires blocks[base..] == Linked(ParseFrom(code, pc), base) + FinalStop()
    ensures Laid(blocks, code, pc, base)
    decreases |code| - pc
  {
    if pc >= |code| {
      assert blocks[base] == blocks[base..][0];
    } else {
      var parsed := OneOp(code, pc);
      var last := Br(base + BlockCount(parsed.op));
      LinkedStep(code, pc, base);
      FragmentLength(parsed.op, base, last);
      LaidStep(blocks, Fragment(parsed.op, base, last), base,
               Linked(ParseFrom(code, parsed.next), base + BlockCount(parsed.op)));
      LinkedIsLaid(blocks, code, parsed.next, base + BlockCount(parsed.op));
    }
  }

  lemma LaidStep(blocks: seq<Code>, fragment: seq<Code>, base: nat, rest: seq<Code>)
    requires base <= |blocks| && blocks[base..] == (fragment + rest) + FinalStop()
    ensures Holds(blocks, base, fragment)
    ensures base + |fragment| <= |blocks| && blocks[base + |fragment|..] == rest + FinalStop()
  {
    assert (fragment + rest) + FinalStop() == fragment + (rest + FinalStop());
    SplitSuffix(blocks, base, fragment, rest + FinalStop());
  }

  // ----- The jump table -----

  lemma LandingCases(code: Bytecode, pc: nat, base: nat, l: Landing) returns (next: nat, after: nat)
    requires pc < |code| && l in Landings(ParseFrom(code, pc), base, BlockCount)
    ensures next == OneOp(code, pc).next > pc && after == base + BlockCount(OneOp(code, pc).op)
    ensures l == Landing(pc, base) || l in Landings(ParseFrom(code, next), after, BlockCount)
  {
    next, after := OneOp(code, pc).next, base + BlockCount(OneOp(code, pc).op);
    LandingsStep(code, pc, base, BlockCount);
    OneOpFacts(code, pc);
  }

  lemma LaidNext(blocks: seq<Code>, code: Bytecode, pc: nat, base: nat, next: nat, after: nat)
    requires pc < |code| && Laid(blocks, code, pc, base)
    requires next == OneOp(code, pc).next && after == base + BlockCount(OneOp(code, pc).op)
    ensures Laid(blocks, code, next, after)
  {
  }

  lemma {:induction false} LandingsAreLaid(blocks: seq<Code>, code: Bytecode, pc: nat, base: nat, l: Landing)
    requires Laid(blocks, code, pc, base) && l in Landings(ParseFrom(code, pc), base, BlockCount)
    ensures Laid(blocks, code, l.pc, l.block)
    decreases |code| - pc
  {
    if pc < |code| {
      var next, after := LandingCases(code, pc, base, l);
      if l != Landing(pc, base) {
        LaidNext(blocks, code, pc, base, next, after);
        LandingsAreLaid(blocks, code, next, after, l);
      }
    }
  }

  lemma CountsArePositive()
    ensures Positive(BlockCount)
  {
  }

  lemma CompiledIsReady(code: Bytecode)
    requires AllCore(ParseFrom(code, 0))
    ensures var blocks := Compiled(ParseFrom(code, 0));
            Ready(blocks, code) && Laid(blocks, code, 0, FIRST_OP)
  {
    var ops := ParseFrom(code, 0);
    var blocks := Compiled(ops);
    var head := [SetupCode(Br(FIRST_OP)), RevertCode(), Table(ops)];
    assert blocks == head + (Linked(ops, FIRST_OP) + FinalStop());
    LinkedIsLaid(blocks, code, 0, FIRST_OP);
    assert blocks[REVERT_BLOCK] == head[1] && blocks[TABLE] == head[2];
    CountsArePositive();
    TableLinesUp(code, FIRST_OP, BlockCount);
    forall v: nat
      ensures v !in JumpDestinations(code) ==> SentTo(blocks, v) == REVERT_BLOCK
      ensures v in JumpDestinations(code) ==> Laid(blocks, code, v, SentTo(blocks, v))
    {
      JumpTableIsCorrect(code, FIRST_OP, BlockCount, REVERT_BLOCK, v);
      if v in JumpDestinations(code) {
        LandingsAreLaid(blocks, code, 0, FIRST_OP, Landing(v, SentTo(blocks, v)));
      }
    }
  }

  // ----- Running a compiled program -----

  /** How a frame starts: a stack of whatever values, an empty memory, and its gas as the setup block's argument. */
  predicate Initial(m: Machine, gas: nat) {
    |m.stack.slots| == MAX_STACK_SIZE && m.memory == [] && m.arg == gas
  }

  function Start(gas: nat): Outcome {
    Running(0, State([], gas, []))
  }

  lemma SetupRuns(m: Machine, gas: nat)
    requires Initial(m, gas) && gas <= I64_MAX
    ensures Lands(Exec(SetupCode(Br(FIRST_OP)), m), FIRST_OP, State([], gas, []))
  {
    AsI64Same(gas);
  }

  lemma StartIsReachable(code: Bytecode, gas: nat)
    requires gas <= I64_MAX
    ensures Reachable(code, Start(gas))
  {
  }

  lemma SetupSim(code: Bytecode, gas: nat, m: Machine)
    requires CoreCode(code) && gas <= I64_MAX && Initial(m, gas)
    ensures AllCore(ParseFrom(code, 0))
    ensures var blocks := Compiled(ParseFrom(code, 0));
            && Ready(blocks, code)
            && Simulates(blocks, code, Run(blocks, 1, At(SETUP, m)), Start(gas))
  {
    CoreParse(code, 0);
    CompiledIsReady(code);
    SetupRuns(m, gas);
    RunOne(Compiled(ParseFrom(code, 0)), At(SETUP, m));
  }

  /**
   For every bytecode over the core subset, every gas a signed 64-bit counter can hold, whatever the stack's
   slots hold at the start, and every number of steps: the linked blocks, run from the setup block, reach a
   configuration that stands for the interpreter's state, with the same stack, gas, memory and result.
   */
  lemma CompilationIsCorrect(code: Bytecode, gas: nat, m: Machine, n: nat) returns (k: nat)
    requires CoreCode(code) && gas <= I64_MAX && Initial(m, gas)
    ensures AllCore(ParseFrom(code, 0)) && Reachable(code, Start(gas))
    ensures Simulates(Compiled(ParseFrom(code, 0)), code, Run(Compiled(ParseFrom(code, 0)), k, At(SETUP, m)),
                      Interpret(code, n, Start(gas)))
    ensures Interpret(code, n, Start(gas)).Running? ==> k > n
  {
    SetupSim(code, gas, m);
    StartIsReachable(code, gas);
    var blocks := Compiled(ParseFrom(code, 0));
    var j := RunSim(blocks, code, n, Run(blocks, 1, At(SETUP, m)), Start(gas));
    RunSum(blocks, 1, j, At(SETUP, m));
    k := 1 + j;
  }

  /** What the interpreter ends with; it ends before it has made more steps than it has gas. */
  ghost function Evaluate(code: Bytecode, gas: nat): (o: Outcome)
    requires CoreCode(code) && gas <= I64_MAX
    ensures !o.Running?
  {
    RunEnds(code, gas + 1, Start(gas));
    Interpret(code, gas + 1, Start(gas))
  }

  /**
   The compiled program always ends, with exactly the interpreter's result: status, gas left and bytes
   returned. It goes wrong, touching a slot or a byte that is not its own, exactly where the interpreter
   says the operation is undefined.
   */
  lemma CompiledResult(code: Bytecode, gas: nat, m: Machine) returns (k: nat)
    requires CoreCode(code) && gas <= I64_MAX && Initial(m, gas)
    ensures AllCore(ParseFrom(code, 0))
    ensures forall n | n >= k ::
              Run(Compiled(ParseFrom(code, 0)), n, At(SETUP, m)) ==
              match Evaluate(code, gas)
              case Halted(result) => Exited(result)
              case _ => Stuck
  {
    k := CompilationIsCorrect(code, gas, m, gas + 1);
    var blocks := Compiled(ParseFrom(code, 0));
    var final := Run(blocks, k, At(SETUP, m));
    assert Interpret(code, gas + 1, Start(gas)) == Evaluate(code, gas);
    forall n | n >= k
      ensures Run(blocks, n, At(SETUP, m)) == final
    {
      RunSum(blocks, k, n - k, At(SETUP, m));
      RunStays(blocks, n - k, final);
    }
  }

  /**
   As long as no operation of the run has operands out of reach on the stack, what the compiled program reports
   is what the Yellow Paper prescribes. A PUSH cut off by the end of the code does not show.
   */
  lemma CompiledMeetsSpecification(code: Bytecode, gas: nat, m: Machine) returns (k: nat)
    requires CoreCode(code) && gas <= I64_MAX && Initial(m, gas)
    requires RightStacks(code, gas + 1, Start(gas))
    ensures AllCore(ParseFrom(code, 0))
    ensures var o := SpecifiedRun(code, gas + 1, Start(gas));
            && o.Halted?
            && forall n | n >= k :: Run(Compiled(ParseFrom(code, 0)), n, At(SETUP, m)) == Exited(o.result)
  {
    EvaluateMeets(code, gas);
    k := CompiledResult(code, gas, m);
  }

  lemma EvaluateMeets(code: Bytecode, gas: nat)
    requires CoreCode(code) && gas <= I64_MAX && RightStacks(code, gas + 1, Start(gas))
    ensures Evaluate(code, gas) == SpecifiedRun(code, gas + 1, Start(gas)) && !Evaluate(code, gas).Undefined?
  {
    EndsAlike(code, gas + 1, Start(gas));
    NeverUndefined(code, gas + 1, Start(gas));
  }

  /** The specification knows no undefined operation. */
  lemma {:induction false} NeverUndefined(code: Bytecode, n: nat, o: Outcome)
    requires CoreCode(code) && Standing(code, o) && !o.Undefined?
    ensures !SpecifiedRun(code, n, o).Undefined?
  {
    if n > 0 && o.Running? {
      SpecifiedKeeps(code, o.pc, o.s);
      NeverUndefined(code, n - 1, Specified(code, o.pc, o.s));
    }
  }
}
