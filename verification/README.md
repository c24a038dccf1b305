# evm_mlir in Dafny

evm_mlir compiles EVM bytecode to a graph of MLIR blocks and runs them against a journaled account
state. This project models four parts of it and a small annex, and proves what they promise.

**Journal over database** (`Primitives`, `Db`, `Journal`, `CacheRefinement`, `NestedFrames`, `WriteBack`,
`PlainFrames`, `PlainSteps`, `PlainRuns`, `Transaction`, `ReadBack`). The journal is a write-back cache that
is handed down to callees and taken back. `Database.Db` and `Journaling.Journal` are classes that update their
maps in place; each method is proved equal to a function on values. `CacheRefinement` shows that the cache is
one plain world at every moment, `NestedFrames` that a stack of journals is a stack of plain worlds,
`WriteBack` that committing realises exactly that world. `PlainFrames` runs scripts on plain maps, with no
journal at all; `PlainRuns` shows that the syscalls on journals do the same, `Transaction` joins all this over
a whole transaction, and `ReadBack` says that what was written is what is read, before and after the commit.

**Syscalls as a call-frame protocol** (`Syscalls`, `SyscallContext`, `SyscallTrace`, `StorageGas`, `CallGas`,
`CallOutcome`, `StaticPurity`, `StaticFrames`, `Conservation`, `Accounting`). What a frame's code does is an
arbitrary tree of actions, a `Script`: the syscalls it makes, the frames it calls and how it ends. Unless a
line under "Left out" says otherwise a theorem holds for all scripts, so for all bytecodes. Keccak is a free
constructor, so it has no collisions.

**Parser, printer and jump table** (`Program`, `Parser`, `JumpTable`, `DestinationTable`). The parser's loops are
methods over a program counter; the jump table pairs a list in program order with an ordered map, and
`DestinationTable` shows it right for every byte string.

**Compiler** (`Words`, `EvmStack`, `Memory`, `Results`, `Interpreter`, `Target`, `Codegen`, `BlockRuns`,
`Simulation`, `Compilation`, `Compiler`, `Specification`, `Departures`, `YellowPaper`, `Prescription`,
`WordRoundTrip`). `Target` is a machine of blocks with 1024 stack slots, a signed 64-bit gas counter, byte
memory and a switch. `Codegen` gives the blocks of each operation, in the order they are appended; `Compiler`
is the loop that appends and links them. `Interpreter` reads bytecode directly, one operation at a time, and
treats operands as the code does: memory offsets and lengths are cut to 32 bits and indices are signed.
`Compilation` ends with the simulation of one by the other. `Specification` is the machine of sections 9.4.2
and 9.4.3 and appendices G and H of the Yellow Paper, with nothing cut; it says for every operation and for
every run exactly when the two machines agree, and `Departures` follows programs on which they do not.
`YellowPaper` writes the same instructions down byte by byte, as literal numbers, with its own notions of
words, bytes, memory and destinations; `Prescription` proves the specification, and so the compiled program,
equal to it. `WordRoundTrip` follows a stored word to the bytes returned.

The core subset is PUSH, POP, DUP, SWAP, ADD, MUL, SUB, DIV, MOD, ADDMOD, MULMOD, SIGNEXTEND, LT, GT, SLT,
SGT, EQ, ISZERO, AND, OR, XOR, NOT, SAR, PC, GAS, MSIZE, MLOAD, MSTORE, MSTORE8, JUMP, JUMPI, JUMPDEST,
RETURN, REVERT, STOP and INVALID.

**Annex** (`BlobFee`, `BlobPrice`, `Rlp`, `Blake2`, `Blake2Constants`, `Blake2Precompile`): the blob gas
price, the encoding of 64-bit numbers, and the BLAKE2 F precompile.

`Arithmetic` holds facts about products and quotients.

Where the code departs from what it is meant to do, the model does what the code does, a lemma shows a concrete
case, and another says exactly when the code is right:

- 0xfe is not among the opcodes the parser knows, so it parses as Invalid and the checked parser rejects it
  (case: `Departures.InvalidIsTurnedAway`; exactly: `Parsing.FromBytecodeChecked`, `Parsing.PrintParse`).
- A truncated PUSH keeps its short value, where the missing bytes should be zeros, and prints longer (cases:
  `Departures.ShortPushPushesLess`, `Parsing.TruncatedPushGrows`; exactly: `Specification.StepMeetsExactly`,
  `Parsing.PrintParse`).
- DUP does not check for room (case: `Departures.DupLeavesStack`; exactly: `Interpreter.UndefinedExactly`).
- The index of a memory access is a signed 32-bit number, so offsets from 2^31 on address bytes before the memory
  (case: `Departures.NegativeIndexLeavesMemory`; exactly: `Interpreter.UndefinedExactly`).
- Memory offsets and lengths are cut to 32 bits (cases: `Departures.CutOffsetReadsElsewhere`,
  `Departures.WrappedRangeReturns`; exactly: `Specification.MeetsSpecificationExactly`).
- An empty range beyond the end of memory still expands it (case: `Departures.EmptyReturnCharges`; exactly:
  `Specification.EmptyRangeAgrees`).
- The jump table is right only for programs whose counters increase, which every parsed program's do and a
  hand-built one's need not (case: `JumpTables.UnorderedDestinationsSwap`; exactly: `JumpTables.LinesUp`).
- Moving value from an account to itself makes or loses it (cases: `Conservation.SelfCallMakesValue`,
  `Conservation.SelfDestructToSelfLosesValue`; exactly: `Conservation.PreparedTotal`, `Conservation.DestroyedTotal`).
- The value sent with a call stays with the callee even if the callee fails (case: `CallOutcomes.FailedCallKeepsValue`;
  exactly: `CallOutcomes.FailedCallWorld`).
- An endowment the creator cannot afford is kept (case: `Conservation.UnpaidEndowmentIsKept`; exactly:
  `Conservation.CreationTotal`).
- At the end of a creation both balances are reset to what they were to be before the initialisation code ran, so
  value it moved is made or lost (case: `Conservation.SpentEndowmentIsRestored`; exactly:
  `Accounting.CreationAccounts`, `Accounting.CreationKeepsExactly`). `Accounting.RunAccounts` adds all these events up;
  `Accounting.HonestMakesNothing` is the condition that can be read off a script.
- Looking an account up makes it warm, so no call pays the price of a cold account (case: `PlainRuns.FirstCallIsWarm`;
  exactly: `PlainRuns.CallsAreNeverCold`).
- The blob gas price is computed in 128 bits (case: `BlobPrices.BlobPriceOverflows`; exactly:
  `BlobPrices.CalcBlobGasprice`, and `BlobFee.FitsExactly` for any arguments).

## Model

| member | source | states |
|---|---|---|
| Compilation.CompilationIsCorrect | src/context.rs:203-259 | for every bytecode over the core subset, every gas up to the largest signed 64-bit number, any contents of the stack slots and every number of interpreter steps, the linked blocks run from the setup block reach a configuration with the interpreter's stack, gas, memory and result |
| Compilation.CompiledResult | src/context.rs:203-259 | the compiled program always ends, and from then on shows exactly the interpreter's status, gas left and returned bytes; it leaves its stack or memory exactly where the interpreter is undefined (Interpreter.UndefinedExactly says when) |
| Compilation.CompiledMeetsSpecification | src/context.rs:203-259 | as long as every operation of the run has right operands on the stack, the compiled program reports what the Yellow Paper prescribes: status, gas left and returned bytes; a PUSH cut off by the end of the code does not show |
| Compilation.NeverUndefined | src/codegen/operations.rs:41-132 | a run of the specification is never undefined, so such a compiled program never leaves its stack or memory |
| Prescription.CompiledIsPrescribed | src/context.rs:203-259 | under the same condition the compiled program reports the result of a run in which every step is the one the Yellow Paper prescribes, written down byte by byte without any definition of the parser, the generator or the interpreter |
| Prescription.StepIsPrescribed | src/codegen/operations.rs:41-132 | at every position of every core bytecode and in every state, the specified step is the prescribed one: words taken, given and their values, fee, memory, output and next position |
| Prescription.PrescriptionIsUnique | src/codegen/operations.rs:41-132 | the prescription leaves exactly one outcome |
| Prescription.FollowedIsTrace | src/context.rs:243-255 | so two prescribed runs from the same start are the same |
| Prescription.ScheduleAgrees | src/constants.rs:24-107 | the core subset is exactly the listed bytes, and each takes, gives and costs what appendices G and H list for it |
| WordRoundTrip.StoredWordIsReturned | src/syscall.rs:219-225 | for every word v, every offset o below 2^31 and every gas that pays for it, the specified run and the compiled run of PUSH v, PUSH o, MSTORE, PUSH 32, PUSH o, and RETURN or REVERT, halt with that status, the gas left and exactly the 32 bytes of v |
| Prescription.LeavingMeets | src/syscall.rs:219-225 | RETURN and REVERT of n bytes at o give n bytes, the i-th of which is byte o + i of memory, zero where nothing was touched |
| Compilation.Evaluate | src/context.rs:243-255 | interpreting any core bytecode ends before it has made more steps than it has gas |
| DestinationTables.JumpTableIsCorrect | src/codegen/context.rs:89-138 | for every byte string, whatever positive number of blocks each operation is given: the table sends a value to a block exactly when that byte is a JUMPDEST outside PUSH data (section 9.4.3 of the Yellow Paper), then to the very block generated for it, otherwise to the revert block |
| DestinationTables.TableLinesUp | src/codegen/context.rs:99-127 | for every byte string, whatever positive number of blocks each operation is given: the cases listed in program order line up with the values of the ordered map |
| DestinationTables.LandingsAreOrdered | src/program.rs:563-586 | for every byte string, whatever positive number of blocks each operation is given: the recorded counters of parsed JUMPDESTs, and the blocks generated for them, are strictly increasing |
| DestinationTables.CasesAreLandings | src/codegen/context.rs:99-108 | for every list of operations the case list taken from the program is the list of counters registered while generating code |
| DestinationTables.LandingsAreDestinations | src/codegen/operations.rs:2789-2817 | for every byte string the registered counters are exactly the positions holding a JUMPDEST outside PUSH data |
| Prescription.JumpDestinationsAgree | src/program.rs:563-586 | for every byte string the valid destinations are those of section 9.4.3 of the Yellow Paper with its bytes 0x60 to 0x7f and 0x5b written out |
| Compilation.LinkedIsLaid | src/context.rs:243-255 | from the block where an operation starts stand its blocks, then those of every later operation, then the final STOP |
| Compilation.CompiledIsReady | src/context.rs:203-259 | setup, revert block, table, operations and final STOP are where the simulation needs them |
| Compilation.SetupRuns | src/codegen/context.rs:154-342 | the setup block starts the first operation with an empty stack, no memory and the given gas |
| Compiler.CompileProgram | src/context.rs:243-258 | the loop that appends each operation's blocks and closes the one before produces exactly the linked program |
| Compiler.MainRegion.constructor | src/codegen/context.rs:50-85 | a new region holds the setup block, the revert block and an empty table |
| Compiler.MainRegion.GenerateCodeForOp | src/codegen/operations.rs:41-132 | appends the operation's blocks, returns the first and the open one, registers a JUMPDEST's first block |
| Compiler.MainRegion.CodegenDividing | src/codegen/operations.rs:1323-1388 | five blocks: guard, operands, zero divisor, division, join |
| Compiler.MainRegion.CodegenAccess | src/codegen/operations.rs:2117-2234 | five blocks, the access before the two that expand memory |
| Compiler.MainRegion.CodegenLeaving | src/codegen/operations.rs:3040-3103 | six blocks, the last one empty and open |
| Compiler.MainRegion.CodegenJump | src/codegen/operations.rs:2819-2931 | three blocks; JUMP always and JUMPI on a condition branch to the table with the destination as argument |
| Compiler.MainRegion.PopulateJumptable | src/codegen/context.rs:89-132 | the table becomes a switch over the program's counters, the map's values and the revert block |
| Compiler.ClosedFragment | src/context.rs:246-249 | appending a branch to the block an operation left open gives its blocks with that terminator and changes no other |
| Compiler.LinkedSnoc | src/context.rs:243-250 | one more operation adds its blocks at the end and leaves the earlier ones alone |
| Simulation.OpSim | src/codegen/operations.rs:41-132 | one operation: some number of blocks ends where and as the interpreter does, failed guards and bad jumps in an error with no gas |
| Simulation.RunSim | src/context.rs:243-255 | after any number of interpreter steps there is a point in the machine's run that stands for the same state |
| Simulation.StepGuarded | src/codegen/operations.rs:1237-1278 | the generated stack and gas checks hold exactly when section 9.4.2 of the Yellow Paper lets the operation run, except for room on a DUP |
| Simulation.StraightSim | src/codegen/operations.rs:1116-1235 | guarded straight code: runs or fails as the interpreter does, and a DUP on a full stack leaves the stack |
| Simulation.JumpdestSim | src/codegen/operations.rs:2789-2817 | a JUMPDEST charges one gas and goes on |
| Simulation.InvalidSim | src/codegen/operations.rs:4589-4601 | INVALID fails at once |
| Simulation.StopSim | src/codegen/operations.rs:3105-3118 | STOP and the end of the program report the remaining gas and no data |
| Simulation.DividingSim | src/codegen/operations.rs:1639-1826 | DIV, MOD, ADDMOD and MULMOD take the right branch for a zero divisor and push the right value |
| Simulation.JumpSim | src/codegen/operations.rs:2887-2931 | JUMP lands on a valid destination or fails |
| Simulation.JumpiSim | src/codegen/operations.rs:2819-2885 | JUMPI jumps, fails or falls through |
| Simulation.AccessSim | src/codegen/operations.rs:3308-3551 | MLOAD, MSTORE and MSTORE8 expand, pay and access memory, or fail, or leave it, as the interpreter does |
| Simulation.LeavingSim | src/codegen/operations.rs:3040-3103 | RETURN and REVERT expand and pay for the range, then report it, or nothing if it lies outside memory, with the gas left |
| Simulation.StepTouching | src/utils/memory.rs:197-331 | a memory operation halts exceptionally for want of operands or gas only |
| BlockRuns.GuardRuns | src/utils/gas.rs:47-113 | the guard passes exactly when the stack check holds and the gas suffices, and then has charged it |
| BlockRuns.RevertRuns | src/codegen/context.rs:424-478 | from any state the revert block reports an error with no gas |
| BlockRuns.ConsumeRuns | src/utils/gas.rs:116-172 | within 63 bits, charging gas neither wraps nor misjudges |
| BlockRuns.BinaryAgrees | src/codegen/operations.rs:820-1114 | the two-operand arithmetic, comparison and bitwise instructions compute the EVM's values, operands in the right order |
| BlockRuns.SarRuns | src/codegen/operations.rs:2490-2548 | SAR's code computes the EVM's SAR for every shift |
| BlockRuns.SignExtendRuns | src/codegen/operations.rs:3120-3202 | SIGNEXTEND's code computes the EVM's SIGNEXTEND for every size |
| BlockRuns.WideEnough | src/codegen/operations.rs:1688-1722 | 257 bits hold every sum and 512 bits every product of two words |
| BlockRuns.DupRuns | src/codegen/operations.rs:1162-1198 | DUP copies the n-th value, or leaves the stack when it is full |
| BlockRuns.SwapRuns | src/codegen/operations.rs:1200-1235 | SWAP exchanges the top with the value n below it and nothing else |
| BlockRuns.ExtensionRuns | src/utils/memory.rs:246-313 | the expansion block charges fixed and dynamic gas without wrap-around, grows memory, and reverts if the gas did not suffice |
| BlockRuns.AccessRuns | src/codegen/operations.rs:2180-2233 | the access reads or writes the right bytes, big-endian, or is out of bounds exactly when the interpreter's is, negative indices included |
| Interpreter.RunEnds | src/constants.rs:20-125 | every operation but the halting ones costs gas, so runs end |
| Interpreter.StepOpKeeps | src/utils/stack.rs:338-511 | depth stays at most 1024, gas falls, memory stays aligned |
| Interpreter.StackIsPaidFor | src/constants.rs:20-125 | in every state of every run each value on the stack has cost two gas or more |
| Interpreter.UndefinedExactly | src/codegen/operations.rs:2195-2206 | an operation that passes its checks is undefined exactly for a DUP on a full stack or an access whose offset, cut to 32 bits, is 2^31 or more: the generated index is signed |
| Specification.MeetsSpecificationExactly | src/codegen/operations.rs:41-132 | for every core operation and every state, the step as the code treats its operands equals the step with uncut offset and length (M and C_mem of the Yellow Paper) if and only if: an access starts below 2^31; a non-empty RETURN or REVERT range ends at 2^32 - 32 or below; an empty one starts, once cut, within memory or beyond 2^32 - 32; a DUP has room; or the gas does not suffice even at the code's price |
| Specification.RunMeetsExactly | src/context.rs:243-255 | the two runs agree at every moment of the first n steps if and only if each of those steps has right operands, on the stack and in the code |
| Specification.StepMeetsExactly | src/program.rs:672-688 | at every position of every core bytecode, the step of the code is the step of the Yellow Paper if and only if the stack operands are right and a PUSH has all its data, or what is there is zero, or it fails for want of room or gas |
| Specification.WholePush | src/program.rs:672-688 | the value the parser reads for a PUSH is the Yellow Paper's, which has zeros beyond the end of the code, divided by 256 for every byte missing |
| Specification.EndsAlike | src/context.rs:243-255 | a run with right stack operands ends with the specification's result, a PUSH cut off included, because the program ends right after it |
| Specification.InReachAgrees | src/utils/memory.rs:197-331 | a non-empty range in reach is expanded, charged and used as in appendix H of the Yellow Paper |
| Specification.AccessDiffers | src/codegen/operations.rs:2195-2206 | an affordable access at 2^31 or above never does what the Yellow Paper says, whether its index turns negative or its offset is cut |
| Specification.LeavingDiffers | src/codegen/operations.rs:3040-3103 | nor does an affordable RETURN or REVERT of a non-empty range that ends above 2^32 - 32 |
| Specification.EmptyRangeAgrees | src/utils/misc.rs:302-339 | an empty range is right exactly when its cut offset is within memory or beyond 2^32 - 32, where rounding wraps to zero |
| Departures.DupLeavesStack | src/codegen/operations.rs:1162-1198 | 1024 PUSH0 and a DUP1, from the start with 2051 gas or more: the code writes past the stack, the Yellow Paper fails |
| Departures.NegativeIndexLeavesMemory | src/codegen/operations.rs:2195-2206 | PUSH4 0x80000000, MLOAD with 8796294610953 gas or more: the index is negative and the load leaves memory |
| Departures.CutOffsetReadsElsewhere | src/codegen/operations.rs:2142-2176 | PUSH5 2^32, MLOAD with 9 gas or more, up to 2^44: the code reads the word at offset 0 and goes on, the Yellow Paper runs out of gas |
| Departures.WrappedRangeReturns | src/codegen/operations.rs:3040-3103 | RETURN of 32 bytes at 0xfffffff0 with 9 gas or more, up to 2^44: the code returns nothing for 3 gas, the Yellow Paper runs out of gas |
| Departures.EmptyReturnCharges | src/codegen/operations.rs:3040-3103 | RETURN of no bytes at 32: the code charges 3 gas, the Yellow Paper none |
| Departures.ShortPushPushesLess | src/program.rs:680-687 | PUSH2 with the one byte 0xab, from the start: the code pushes 0xab, the Yellow Paper 0xab00 |
| Words.BitwiseBits | src/codegen/operations.rs:1828-1869 | each bit of AND, OR and XOR is that gate of the operands' bits |
| Words.GateBits | src/codegen/operations.rs:1828-1869 | bit by bit, AND is both, OR is either, XOR is one of the two |
| Words.NotByXor | src/codegen/operations.rs:4393-4443 | XOR with all ones is the complement |
| Words.SarByClamping | src/codegen/operations.rs:2525-2541 | clamping the shift to 255 gives the EVM's result for every larger shift |
| Words.SignExtendByShifts | src/codegen/operations.rs:3157-3198 | shifting left and arithmetically right again extends the sign |
| JumpTables.LinesUp | src/codegen/context.rs:99-127 | cases and destinations line up if and only if the program's counters are strictly increasing |
| JumpTables.InsertKeys | src/codegen/context.rs:136-138 | registering a destination keeps the map's counters strictly increasing and adds that counter and no other |
| JumpTables.UnorderedDestinationsSwap | src/program.rs:993-1003 | a hand-built program with two destinations out of order sends each jump to the other's block |
| JumpTables.SwitchLands | src/codegen/context.rs:118-127 | lined up, each counter goes to its own block and everything else to the default |
| Stacks.EvmStack.constructor | src/codegen/context.rs:197-284 | a new stack is empty |
| Stacks.EvmStack.Push | src/utils/stack.rs:174-240 | with room appends to the sequence, writing the free slot only; on a full stack reports that the write would fall outside |
| Stacks.EvmStack.Pop | src/utils/stack.rs:108-172 | removes the last value of the sequence and returns it |
| Stacks.EvmStack.GetNth | src/utils/stack.rs:243-299 | returns the n-th value from the top |
| Stacks.EvmStack.SwapElements | src/utils/stack.rs:301-335 | exchanges two values and changes nothing else |
| Stacks.EvmStack.HasSpaceFor | src/utils/stack.rs:338-424 | true exactly when that many values still fit in 1024 |
| Stacks.EvmStack.HasAtLeast | src/utils/stack.rs:427-511 | true exactly when that many values are there |
| Memories.ExpansionTelescopes | src/utils/memory.rs:197-331 | whatever the order of requests that fit in 32 bits: memory is as long as the largest, rounded up, and the gas charged in all is the difference of C_mem |
| Memories.FrameMemory | src/utils/memory.rs:27-125 | from an empty memory the total is w*w/512 + 3w for the final number of words |
| Memories.LargestIsMaximum | src/utils/memory.rs:232-244 | the final size is a maximum of the rounded requests |
| Memories.CostIsExact | src/utils/memory.rs:27-125 | no 64-bit operation of the cost formula overflows on a 32-bit size |
| Memories.RoundUpIsExact | src/utils/misc.rs:165-208 | rounding gives the next multiple of 32 for sizes up to 2^32 - 32 |
| Memories.RoundUpWraps | src/utils/misc.rs:165-208 | above that it gives zero |
| Memories.ExpansionFacts | src/utils/memory.rs:246-313 | expansion keeps contents and alignment, adds zeros and charges the difference of the two costs |
| Memories.ExpansionCovers | src/codegen/operations.rs:2143-2176 | expansion covers a range exactly when its end can be rounded up in 32 bits |
| Memories.ExpandsAsSpecified | src/utils/misc.rs:302-339 | a range that ends at 2^32 - 32 or below expands memory as M of the Yellow Paper's appendix H exactly when it is not empty or starts within memory |
| Memories.InnerContext.ExtendMemory | src/syscall.rs:571-591 | grows with zeros, never shrinks |
| Memories.InnerContext.ResizeMemoryIfNecessary | src/syscall.rs:133-137 | makes the range fit, keeping what was there |
| Memories.InnerContext.SetValueToMemory | src/syscall.rs:139-162 | copies what there is of the value, zero-fills the rest of the range, changes nothing outside |
| Parsing.ParsePrintParse | src/program.rs:563-593 | parsing what was printed from a parsed program gives the program back, counters included |
| Parsing.PrintParse | src/program.rs:429-523 | printing gives the original bytes exactly when every byte in instruction position is a known opcode or 0xfe and no PUSH lacks data |
| Parsing.TruncatedPushGrows | src/program.rs:680-687 | a truncated PUSH2 prints longer than it was |
| Parsing.CodeSizeIsLength | src/program.rs:976-990 | the recorded code size is the printed length |
| Parsing.OneOpFacts | src/program.rs:595-974 | one parsed operation is valid, starts with the byte read, and skips as many bytes as it prints |
| Prescription.KnownBytes | src/program.rs:5-163 | the parser knows exactly the bytes of the literal list of opcodes, 0xfe apart, and goes on after each where the Yellow Paper does |
| Prescription.PushIsParsed | src/program.rs:672-927 | for every n from 1 to 32, n bytes of data and any rest, byte 0x5f + n is a PUSH of that number, parsing goes on behind the data, and no byte of it is a jump destination |
| Prescription.InvalidExactly | src/program.rs:533-586 | a program has something invalid exactly when one of its positions holds an unlisted byte |
| Parsing.FromBytecode | src/program.rs:563-586 | the loop computes the recursive parse, with valid operands |
| Parsing.FromBytecodeChecked | src/program.rs:533-561 | Ok with the unchecked parser's program, or every byte that one turned into Invalid, in order |
| Parsing.FailedAreInvalid | src/program.rs:533-561 | the rejected bytes are those standing where the unchecked parser has Invalid |
| Departures.InvalidIsTurnedAway | src/program.rs:533-561 | the one-byte program 0xfe parses as Invalid and prints back as 0xfe, yet that byte is what the checked parser complains of |
| CacheRefinement.ApplyRefines | src/journal.rs:128-283 | every journal operation acts on the view as the same operation on plain maps, and answers the same |
| CacheRefinement.ApplyCoherent | src/journal.rs:239-264 | every operation keeps the cache coherent: original values are the database's, and what differs is marked |
| CacheRefinement.ReadsAreInvisible | src/journal.rs:359-384 | loading accounts and slots lazily never shows |
| CacheRefinement.AnswersAgree | src/journal.rs:179-200 | what a query returns is what the plain maps hold |
| CacheRefinement.NewJournalIsCoherent | src/journal.rs:99-104 | a new journal is coherent |
| NestedFrames.StepRefines | src/journal.rs:326-351 | each journal operation, entry and return keeps the stack of journals a stack of views |
| NestedFrames.RunRefines | src/journal.rs:326-351 | so does every sequence of them |
| NestedFrames.TransactionRefines | src/journal.rs:99-104 | from a new journal, only the innermost journal holds the database, which never changes, and each shows its frame's world |
| NestedFrames.CallersKept | src/journal.rs:326-333 | whatever happens above a frame leaves it and its callers alone |
| NestedFrames.CallReturns | src/syscall.rs:465-484 | after a failed callee the caller's journal is the one it called with, after a successful one the callee's last |
| WriteBack.CommitRealisesView | src/db.rs:139-168 | after commit the database alone shows the journal's view at every address not created and destroyed at once |
| WriteBack.CommitSkipsDoomed | src/db.rs:143-149 | an account created and destroyed in one transaction is not written |
| WriteBack.OrderDoesNotMatter | src/db.rs:139-168 | every order of visiting the accounts gives the same database |
| WriteBack.CommitKeepsWellFormed | src/db.rs:170-179 | the code table still maps every hash to its preimage and misses no account's code |
| WriteBack.Finish | src/journal.rs:285-324 | writing a journal back leaves its database in that state |
| PlainSteps.ShowsNext | src/journal.rs:128-283 | one journal operation is the same operation on plain maps, with the same accounts marked as created and destroyed |
| PlainRuns.RunIsPlain | src/syscall.rs:207-508 | for every script: the run on journals and the run on plain maps, an interpreter of its own, give the same exit, gas used, refund and frames entered, and the journal shows the plain world |
| PlainRuns.CallsAreNeverCold | src/syscall.rs:365-379 | in every state of every such run a call is charged as warm, which is the price of EIP-2929 exactly when the callee had been looked up before |
| PlainRuns.FirstCallIsWarm | src/journal.rs:359-375 | the first call of a transaction to an account of the database is charged 100, not 2600 |
| Transactions.TransactionIsPlain | src/syscall.rs:207-283 | a transaction from a new journal ends as the plain run does, and dooms the addresses that one created and destroyed |
| Transactions.TransactionRealisesWorld | src/syscall.rs:207-283 | from a new journal over a well-formed database, after any script and a commit in any order, the database alone shows the world that the same script leads to on plain maps, without journal or cache, at every address not created and destroyed at once |
| Transactions.TransactionIsDeterministic | src/db.rs:139-168 | script and database determine the committed database |
| ReadBack.CodeIsFound | src/journal.rs:183-200 | the code of every visible account is the one its hash was taken of |
| ReadBack.DeployedCodeIsRead | src/journal.rs:143-157 | code deployed at an address is the code then read there |
| ReadBack.CommittedCodeIsRead | src/db.rs:139-179 | and the code read from the committed database |
| ReadBack.TransactionKeepsCode | src/db.rs:139-179 | after any transaction the database answers the code of every account not created and destroyed at once |
| ReadBack.InsertAndRead | src/db.rs:90-104 | a contract inserted into the database is read back by a journal |
| ReadBack.DatabaseIsRead | src/db.rs:258-276 | a new journal reads the stored slots and block hashes, zero where there is none, and no account that is absent |
| ReadBack.StoredSlotIsRead | src/journal.rs:239-264 | a slot written is read with its value, keeps the database's as its original, and no other slot changes |
| Database.Db.Commit | src/db.rs:139-168 | in any order of the changes, accounts and code become those of the commit |
| Database.Db.CommitAccount | src/db.rs:143-167 | one account is skipped or written with its slots |
| Database.Db.StoreContract | src/db.rs:170-179 | code under a hash that is neither zero nor that of the empty code is stored, unless there is some; nothing else is |
| Database.Db.InsertContract | src/db.rs:90-104 | a contract is inserted with its code |
| Journaling.Journal.GetAccountMut | src/journal.rs:359-375 | loads an account once, from the database if there is one |
| Journaling.Journal.NewAccount | src/journal.rs:128-132 | replaces the account by a fresh one |
| Journaling.Journal.AddAccountAsWarm | src/journal.rs:134-141 | inserts an account that is absent, and clears the cold flag |
| Journaling.Journal.NewContract | src/journal.rs:143-157 | replaces the account by a contract and stores its code |
| Journaling.Journal.SetBalance | src/journal.rs:159-164 | sets and marks |
| Journaling.Journal.SetNonce | src/journal.rs:166-171 | sets and marks |
| Journaling.Journal.SetStatus | src/journal.rs:173-177 | adds the given flags to the account's |
| Journaling.Journal.CodeByAddress | src/journal.rs:183-200 | returns the account's code, loading the account and marking it warm |
| Journaling.Journal.ReadStorage | src/journal.rs:239-250 | returns the slot, cached or loaded |
| Journaling.Journal.WriteStorage | src/journal.rs:252-264 | changes the present value and marks the account |
| Journaling.Journal.GetBlockHash | src/journal.rs:268-283 | returns and caches the hash |
| Journaling.Journal.EjectBase | src/journal.rs:326-333 | hands a copy and the database to the callee |
| Journaling.Journal.ExtendFromSuccessful | src/journal.rs:335-340 | takes everything from the callee |
| Journaling.Journal.ExtendFromReverted | src/journal.rs:342-351 | takes back the database only |
| SyscallContexts.SyscallContext.Execute | src/syscall.rs:207-283 | running a frame's actions on the objects gives the state, gas and outcome of the functional run |
| SyscallContexts.SyscallContext.CallFrame | src/syscall.rs:324-508 | a call on the objects is the functional call, and tells its caller the truth: a missing callee gives failure at no cost; an affordable value whose charge is not available halts; success is exactly a callee that went ahead and returned or stopped, and only then is its journal adopted |
| SyscallContexts.SyscallContext.PrepareCall | src/syscall.rs:365-424 | charges, transfer and forwarded gas of a call, with every early return |
| CallOutcomes.GoesAhead | src/syscall.rs:365-424 | in numbers: when a call goes ahead, what it is charged (100 or 2600, 9000 for value, 25000 for an empty receiver), forwards (a 64th) and adds (2300) |
| CallOutcomes.CallTells | src/syscall.rs:477-484 | return code and journal after a call, case by case |
| CallOutcomes.Reported | src/syscall.rs:472-484 | a callee that returns or stops reports success and leaves its journal, one that reverts or fails reports failure and leaves the journal of the call; either way charge plus gas used less stipend and refund is consumed |
| CallOutcomes.CalleeOf | src/syscall.rs:430-463 | address, caller, value and static flag of the frame each kind of call enters |
| CallOutcomes.InitialiserOf | src/syscall.rs:984-989 | the same for a creation |
| CallOutcomes.CallEnters | src/precompiles.rs:545-549 | addresses 1 to 9 run no frame, and only CALL and CALLCODE send value |
| CallOutcomes.FrameReports | src/syscall.rs:230-283 | a frame reports all its gas used if it failed exceptionally, and a refund of at most a fifth if it succeeded |
| CallOutcomes.FailedCallWorld | src/syscall.rs:480-483 | after a failed callee the caller's world is the one before the call exactly if no value was sent |
| CallOutcomes.FailedCallKeepsValue | src/syscall.rs:480-483 | an account with 5 sends 1 to one whose code reverts: the balances are 4 and 1 |
| SyscallContexts.SyscallContext.CreateFrame | src/syscall.rs:920-1053 | a creation on the objects is the functional creation |
| SyscallContexts.SyscallContext.SelfDestruct | src/syscall.rs:1076-1112 | credits the receiver, then empties and marks the account |
| SyscallContexts.SyscallContext.ReadStorage | src/syscall.rs:613-633 | the slot's value and the warm or cold charge |
| SyscallContexts.SyscallContext.WriteStorage | src/syscall.rs:635-697 | the charge and the saturating refund counter |
| SyscallTrace.RunTraced | src/syscall.rs:324-508 | every call tree is a sequence of journal operations, entries and returns that the frame protocol allows |
| SyscallTrace.RunKeepsProtocol | src/syscall.rs:465-484 | so any call tree, of any depth, keeps every journal coherent and showing its frame's plain world |
| StorageGas.PathIndependence | src/syscall.rs:613-697 | charge minus refund of a slot over a frame depends on the number of accesses, the first touch and the end values only (EIP-2200, EIP-2929 and EIP-3529, Specification) |
| StorageGas.StoreMovesPrice | src/syscall.rs:642-694 | one store costs the flat charge plus a difference of prices |
| StorageGas.RefundsAreExact | src/syscall.rs:666-694 | over any interleaving of stores to clean slots the counter is the exact signed sum: the subtraction never saturates |
| StorageGas.RefundShare | src/syscall.rs:666-694 | a slot's share is what its present value owes plus one bonus per return to its original |
| StorageGas.SharesAddUp | src/syscall.rs:666-694 | the shares of all slots add up to the whole |
| CallGas.Settlement | src/syscall.rs:416-476 | no subtraction underflows, the caller pays base plus used less stipend and refund, and can pay exactly when it could pay the base |
| CallGas.CalleeLimit | src/syscall.rs:416-424 | a callee's limit is strictly below the gas available, at most a third of it |
| CallGas.CallsThinGas | src/syscall.rs:416-424 | without creations a frame d levels of calls down has at most the gas divided by 3^d: 38 levels down it cannot pay for the arguments of another call |
| CallGas.CallsNestAtMost38 | src/syscall.rs:337-337 | with any gas a signed counter holds, calls made once their arguments are paid for nest at most 38 deep |
| CallGas.StaticIsInherited | src/syscall.rs:457-463 | every frame below a static one is static |
| StaticPurity.StaticCallsChangeNothing | src/utils/misc.rs:36-60 | whatever a static frame and those below it do, balances, nonces, code and storage read as before (EIP-214, Specification) |
| StaticPurity.StaticCallIsPure | src/syscall.rs:457-484 | a STATICCALL from any frame leaves the caller's world as it was |
| StaticPurity.StaticCallKeeps | src/syscall.rs:457-484 | balance, nonce, code and every slot of every account read the same before and after a STATICCALL |
| StaticPurity.StaticRunIsPure | src/codegen/operations.rs:2345-2361 | a static frame performs no journal operation that writes |
| StaticFrames.StaticHaltsExactly | src/codegen/operations.rs:4990-5035 | of the actions a frame carries out, the static flag halts exactly SSTORE, LOG, SELFDESTRUCT, CREATE and a CALL or CALLCODE with value |
| StaticFrames.FlagDoesNotShow | src/utils/misc.rs:36-60 | every script that nowhere does any of these ends with the same exit, gas, refund and journal whether static or not |
| Conservation.ValueIsConserved | src/syscall.rs:385-416 | over any call tree without creations and self-transfers the sum of all balances is constant and, below 2^256, no balance overflows |
| Conservation.PreparedTotal | src/syscall.rs:388-416 | a call keeps the sum exactly when it moves nothing or moves it to another account |
| Conservation.DestroyedTotal | src/syscall.rs:1076-1099 | a selfdestruct keeps the sum exactly when it names another account or has nothing to give |
| Conservation.CreationTotal | src/syscall.rs:920-1053 | a creation whose initialisation code moves nothing keeps the sum exactly when the creator can afford the endowment |
| Conservation.SelfCallMakesValue | src/syscall.rs:409-415 | an account calling itself with value gains it |
| Conservation.SelfDestructToSelfLosesValue | src/syscall.rs:1086-1099 | an account naming itself loses its balance |
| Conservation.UnpaidEndowmentIsKept | src/syscall.rs:1019-1029 | a creator with 5 endowing a new account with 7 keeps its 5 and the account has 7 |
| Conservation.SpentEndowmentIsRestored | src/syscall.rs:1031-1043 | a creator with 10, an endowment of 7, initialisation code that sends 3 on: the creator has 3, the third account its 3 more, and the new account 7 again |
| Accounting.RunAccounts | src/syscall.rs:385-416 | for every script, with creations, reverts, self-calls and selfdestructs at any depth: the sum of all balances changes by exactly what self-calls and unpaid endowments made, less what selfdestructs to oneself and overwritten accounts lost |
| Accounting.CreationAccounts | src/syscall.rs:920-1053 | a creation with any initialisation code changes the sum by what that code made and by what the final balances, computed before it ran, add or lose |
| Accounting.CreationKeepsExactly | src/syscall.rs:1019-1043 | leaving aside what the initialisation code itself made or lost, a creation keeps the sum if and only if the creator can pay and that code leaves creator and new account with as much together as they had when it began (or, with the nonce exhausted, leaves the new account twice the endowment) |
| Accounting.ConservedExactly | src/syscall.rs:385-416 | a run keeps the sum of all balances if and only if what its events make and lose cancels; the guards of the single events are those of PreparedTotal, DestroyedTotal and CreationKeepsExactly |
| Accounting.HonestMakesNothing | src/syscall.rs:385-416 | it cancels for every script without creations and self-transfers, which can be read off the script |
| BlobFee.ComputeFakeExponential | src/utils/misc.rs:553-570 | for all 64-bit arguments the 128-bit computation ends; it has a result if and only if the largest accumulator, the one after numerator / denominator turns, times the numerator and the sum of the terms are below 2^128, and then it is the series |
| BlobFee.SumTerms | src/utils/misc.rs:559-569 | the loop adds up the accumulators, or stops at the first number that outgrows 128 bits |
| BlobFee.FitsExactly | src/utils/misc.rs:553-570 | no product, sum or divisor of any turn overflows if and only if that one product and the whole sum fit |
| BlobFee.PeakIsLargest | src/utils/misc.rs:562-568 | the accumulators rise for numerator / denominator turns and fall from then on |
| BlobFee.ProductDecides | src/utils/misc.rs:553-570 | but for the smallest numerators the product alone decides |
| BlobFee.ClosedFormFits | src/utils/misc.rs:553-570 | a test without a loop: the exact Taylor term in place of the accumulator |
| BlobPrices.BlobPriceFits | src/utils/misc.rs:535-541 | for every 64-bit excess: product and sum fit if and only if the excess is at most 192204552 |
| BlobPrices.BlobPriceOverflows | src/utils/misc.rs:535-541 | at an excess of 192204552 the loop stays within 128 bits, at 192204553 it does not |
| BlobPrices.CalcBlobGasprice | src/utils/misc.rs:535-541 | there is a price if and only if the excess is at most 192204552; it is the series for the excess gas and at least the minimum |
| BlobFee.SumsTheSeries | src/utils/misc.rs:559-569 | the result is the sum of all accumulators up to the first zero one, divided by the denominator (EIP-4844, Helpers) |
| BlobFee.AtLeastFactor | src/utils/misc.rs:553-570 | the result is at least the factor |
| BlobFee.Monotone | src/utils/misc.rs:553-570 | a larger numerator never gives less |
| BlobFee.TermBound | src/utils/misc.rs:565-566 | the i-th accumulator times denominator^i times i! is at most factor times denominator times numerator^i |
| BlobFee.Shrinks | src/utils/misc.rs:562-568 | once the divisor passes the numerator the accumulator strictly decreases |
| Rlp.EncodeRlpU64 | src/utils/misc.rs:572-591 | the search for the first byte that is not zero computes the encoding |
| Rlp.DecodeEncode | src/utils/misc.rs:572-591 | decoding as in appendix B of the Yellow Paper inverts encoding |
| Rlp.EncodingIs | src/utils/misc.rs:572-591 | 0x80 for zero, the byte itself below 0x80, otherwise 0x80 plus the length and the bytes of the number |
| Rlp.NoLeadingZero | src/utils/misc.rs:583-588 | no leading zero byte |
| Rlp.Shortest | src/utils/misc.rs:572-591 | nothing shorter decodes to the same number |
| Rlp.PrefixFree | src/utils/misc.rs:572-591 | no encoding is a prefix of another |
| Blake2.RoundsAreBijective | src/precompiles.rs:438-451 | for every message and number of rounds the round loop is a bijection on the work vector, with an explicit inverse |
| Blake2.MixInverts | src/precompiles.rs:413-422 | mixing four words is a bijection for every pair of message words |
| Blake2.GInverts | src/precompiles.rs:413-422 | so is mixing four places of the vector |
| Blake2.Gee | src/precompiles.rs:413-422 | the eight assignments in place are G of section 3.1 of RFC 7693 |
| Blake2.MixRound | src/precompiles.rs:442-450 | a round is the next eight mixings: columns, then diagonals |
| Blake2.InitialiseVector | src/precompiles.rs:427-436 | chain value, initialization vector, counters, and one word inverted for the last block |
| Blake2.Compress | src/precompiles.rs:425-457 | the loops in place compute F of section 3.2 of RFC 7693 |
| Blake2.NotIsXor | src/precompiles.rs:434-436 | inverting all bits is XOR with all ones |
| Blake2Constants.MixIs | src/precompiles.rs:413-422 | for all words, G adds, exclusive-ors and rotates by 32, 24, 16 and 63, the rotations written as quotients and remainders |
| Blake2Constants.RotationIs | src/precompiles.rs:413-422 | rotating moves the low bits to the top |
| Blake2Constants.IvIsSquareRoots | src/precompiles.rs:395-404 | the initialization vector is the fractional part of the square roots of the first eight primes (section 2.6 of RFC 7693) |
| Blake2Constants.SigmaIsRows | src/precompiles.rs:381-392 | the message schedule is that of section 2.7 of RFC 7693 |
| Blake2Constants.LanesAreLines | src/precompiles.rs:442-450 | a round mixes the columns, then the diagonals |
| Blake2Constants.ZeroRounds | src/precompiles.rs:425-457 | without rounds, for every chain value and message, F is the initialization vector with counters and flag |
| Blake2Precompile.Blake2f | src/precompiles.rs:465-543 | length, gas and flag are checked in that order; words are read at their offsets and written back little-endian |
| Blake2Precompile.PrecompileComputesF | src/precompiles.rs:470-476 | given the arguments in the order of EIP-152, the precompile returns F of them, or runs out of gas |

## Left out

- LLVM and MLIR: passes, lowering, linking, and whatever the foreign code does with the blocks; only the blocks appended are modelled.
- Opcodes outside the core subset, among them SHL, SHR, BYTE, SDIV, SMOD, EXP, MCOPY, LOG, KECCAK256 and the environment getters, as generated code; storage, calls, creations and selfdestructs are modelled as syscalls.
- The access list: prefetched accounts and slots start from defaults, so the claims on coherence cover journals made by `Journal::new`; `prefetch_account_keys` is not modelled.
- Creation transactions at the top level, whose first frame has no address of its own: `write_storage` returns at once and `get_address` is the caller there (src/syscall.rs:639-642, src/env.rs:243-248).
- Transient storage, logs, return data and calldata, which no property here depends on.
- SyscallContexts.SyscallContext.CallFrame: does not model the bounds check on the argument range, which returns early, nor the copying of calldata and return data, because a script stands for the callee's code whatever its input.
- SyscallContexts.SyscallContext.CreateFrame: does not model the limit on the size of initialisation code, the refusal of a program that creates itself, nor the gas a creation reports, because a script has no code bytes to measure.
- Precompiles other than BLAKE2 F: a call to one is a step without effect on the journal.
- Conservation.ValueIsConserved: excludes creations, value-carrying calls of an account to itself and selfdestructs to oneself; Accounting.RunAccounts and Accounting.ConservedExactly state the exact law for every script.
- CallGas.CallsNestAtMost38: excludes creations, and counts on every call having paid for its six arguments, at two gas each; Interpreter.StackIsPaidFor proves that price for the core subset only, and CallGas.CallsThinGas needs no such price.
- CallGas.CallsThinGas: excludes creations, because a script does not say what a creation has spent before it hands on the gas left.
- StorageGas.PathIndependence: covers one frame with no calls in between; a callee may change the same slots.
- Conservation.CreationTotal: covers initialisation code that moves no value; Accounting.CreationAccounts covers any.
- CallGas.Settlement: leaves out what a creation consumes.
- A failed transaction's rollback: the journal's state is returned on every outcome, so no claim is made that the database is unchanged then.
- A failed allocation in `extend_memory`, programs of 2^32 bytes or more, and counters that do not fit a signed 64-bit constant.
- Pointers to stack slots are counted in slots from the base; an address space too small for the comparison of pointers is not modelled.
- Registers hold the values MLIR would name; that each is assigned before it is used follows from the order of the generated code and is not stated apart.
