# Arcana verification

Arcana turns a semantic graph of regions, nodes, ports and edges into bytecode for a stack
machine, and also interprets the graph directly. This project models both paths byte for
byte and proves that they agree; it models the bytecode verifier, the architecture (effect)
verifier and graph validation and says exactly what they accept and what that is worth at
run time; and it models the shared-state parts of the runtime, blocking channels, the
mark-sweep collector and closures that share variables through upvalues. The image file
format, the type checker and the derivation of regions from geometry complete it.

How the parts fit:

- `Values`, `Bytecode`, `SemanticGraph`, `Interpreter`: integer values and operators, the
  instruction set with its byte encoding, the graph with the compiler's and interpreter's
  lookups, and the reference interpreter with its frame, variable and iteration limits.
- `CodeGen` says what the compiler emits as instruction lists; `Compiler.dfy` is the
  compiler as it runs, appending bytes, interning constants, patching jumps and rewriting
  calls in place, proved to produce exactly those lists. `Machine` says what one step does;
  `VirtualMachine` is the machine as it runs, on fixed arrays, proved to take those steps.
- `Support`, `RunFacts`, `SimulationBase`, `Simulation`, `Linking`, `OperandBounds`,
  `CompilerCorrectness`, `Pipeline`: the forward simulation from interpreter runs to byte
  level machine runs, ending in `Pipeline.CompileAndRun`.
- `Verifier`: acceptance is exactly the existence of a height certificate, and a
  certificate makes runs safe. `HeightFlow`, `Balance`, `StatementBalance`,
  `ExactAcceptance`, `BalancedPrograms`: exactly which compiled programs are accepted, read
  off the graph. `StackFlow`, `StackDiscipline`, `HeightCertificates`, `CertifiedOutput`:
  where the recorded maximum bounds the heights. `MisalignedJump` and `PrintingBranch` show
  what the verifier wrongly accepts and wrongly rejects.
- `Validation`, `Reachability`, `Architecture`, `EffectSoundness`: validated graphs, exact
  effect collection, and what collected effects bound at run time, with the input on which
  they bound nothing.
- `UnconnectedInput`, `FinishedTurn`, `StaleResult`: programs outside the supported ones on
  which interpreter and machine differ, followed step by step with `SmallPrograms`.
- `ImageFormat`, `SavedPrograms`: the image file, and the tools in sequence from a graph
  over a file to a run. `DebugRanges`, `DebugExactness`: what the debug table of an image
  says, and exactly when it names the right functions.
- `Closures`: the upvalue machine against one in which every variable has its own cell,
  with the instruction after which they differ, a throw out of a frame.
- `TypeInference`, `TypeSoundness`: the memoising type checker and what its types promise
  to evaluation. `Containment`: region membership derived from circles.
- `Channel.dfy`, `Collector.dfy`: channel threads interleaved statement by statement, and
  collection of a linked heap in place.

Conventions and assumptions:

- Values are null, booleans and 64-bit integers. Signed overflow of `+`, `-`, `*`, unary `-`
  and of shifting a non-negative value left is assumed to wrap; the build files do not ask
  for this, so on other compilers the model covers only runs without overflow. What C leaves
  undefined otherwise (sections 6.5.5 and 6.5.7 of ISO/IEC 9899:2018) is an error in the
  model: dividing the least integer by -1, shifting a negative value left, and folding a
  shift by a count outside 0..63. Nothing is claimed about programs that do this.
- Nothing in the graph format rejects cyclic value edges or regions that contain
  themselves, on which compiler and interpreter recurse without end. A program therefore
  carries a rank that value edges and control regions descend.
- `Program.extended` gives AND, OR and the bitwise operators a reference meaning, which the
  interpreter itself rejects; with it the simulation also covers their code. With it off,
  the interpreter is the source's.
- `Support.Supported` collects what the simulation asks of a program: connected inputs, one
  binding per name in a function, arity equal to the parameter count, at most sixteen
  arguments, a return on every path of a function, and in a cycle no statement before its
  break test and none after a possible return. Outside them the two sides can differ:
  `UnconnectedInput.UnconnectedDiffers`, `FinishedTurn.FinishedTurnDiffers` and
  `StaleResult.StaleResultDiffers` are three programs on which they do.
- `CompilerCorrectness.Fits` bounds the image by its field widths, by the 32768 entries a
  constant pool or function table can hold before its 16-bit capacity wraps to zero, and by
  256 locals, the size of the compiler's unchecked local table.

## Model

| member | source | states |
|---|---|---|
| Pipeline.CompileAndRun | src/compiler/compiler.c:53-98 | Compiling a graph by emission and patching and running the image in the array machine: on a supported program on which the interpreter succeeds, an ended run is a stack overflow or a halt with the interpreter's prints (plus the output once more) and its result on top. |
| Pipeline.FinalUnique | src/vm/vm.c:361-378 | A run has one end: whatever step bounds it is observed with, two ended observations are equal. |
| Pipeline.DeliversEnds | src/vm/vm.c:361-378 | An ended run of an image that delivers prints and a result shows exactly those, or stack overflow. |
| CompilerCorrectness.CompilerCorrect | src/compiler/compiler.c:53-98 | Whole-program forward simulation, recursion included: if the interpreter succeeds on a supported program that compiles to an image whose tables fit, the byte-level run of the image overflows the stack or halts with the same prints and result. |
| CompilerCorrectness.SimMain | src/compiler/compiler.c:14-30 | Main's code, run from the boot state, prints what the interpreter prints at the top level, then the output value, and leaves that value on the stack. |
| CompilerCorrectness.SimRoot | src/compiler/compiler.c:14-22 | Running the code of the root statements from any state level with the interpreter's ends at the end of that code, level with the interpreter's state after those statements. |
| CompilerCorrectness.ImageLinked | src/compiler/compiler.c:82-95 | In the finished image every function's code stands, relocated by one, at the offset its record names, with its arity and local count, and main's code after them. |
| CompilerCorrectness.MainDistinct | src/compiler/compiler_internal.h:87-93 | Main binds no local name twice when the program is supported. |
| Simulation.SimNode | src/compiler/compile_nodes.c:456-510 | Expression code is exact: wherever the bytes of an expression stand in an image, running them from any stack ends at their end with exactly the interpreter's value pushed, locals unchanged and the interpreter's prints made, or reports stack overflow. |
| Simulation.SimBinary | src/compiler/compile_nodes.c:138-166 | The same for binary operators, folded or emitted, with operands in cyclic or role order. |
| Simulation.SimUnary | src/compiler/compile_nodes.c:168-177 | The same for unary operators. |
| Simulation.SimShortCircuit | src/compiler/compile_nodes.c:208-221 | The same for AND and OR through DUP, a patched conditional jump and POP: the deciding operand's value is left, the other is not evaluated. |
| Simulation.SimCall | src/compiler/compile_nodes.c:367-392 | The same for calls at any depth: arguments in order, a frame whose parameters are bound to them, the body, and the returned value in place of frame and arguments. |
| Simulation.SimArgs | src/compiler/compile_nodes.c:367-380 | Argument code pushes exactly the interpreter's argument values, first to last. |
| Simulation.SimBody | src/compiler/compile_nodes.c:513-544 | Running a supported function body from its entry frame ends in the caller with the interpreter's result on the caller's stack. |
| Simulation.BindParamsBinds | src/interpreter/interpreter.c:207-213 | Binding the parameters gives each the argument of its position. |
| Simulation.SimStmt | src/compiler/compile_nodes.c:290-364 | Statement code ends at its end with stack and locals level with the interpreter's variables, or, when the interpreter returned, in the caller with the result. |
| Simulation.SimRegion | src/compiler/compile_nodes.c:106-114 | The same for the statements of a region, stopping where the interpreter stops. |
| Simulation.SimLet | src/compiler/compile_nodes.c:292-298 | A binding stores the value in the slot of its name. |
| Simulation.SimAssign | src/compiler/compile_nodes.c:299-308 | An assignment stores the value in the slot of the name's latest binding. |
| Simulation.SimPrint | src/compiler/compile_nodes.c:309-313 | A print emits exactly the interpreter's value. |
| Simulation.SimReturn | src/compiler/compile_nodes.c:315-320 | A return unwinds the frame and leaves the value, or null without one. |
| Simulation.SimIf | src/compiler/compile_nodes.c:327-336 | A branch with two patched forward jumps runs exactly the region the interpreter runs. |
| Simulation.SimWhile | src/compiler/compile_nodes.c:337-347 | A loop with a patched exit and a backward jump runs as many turns as the interpreter, for any number of turns the interpreter allows. |
| Simulation.SimCycle | src/compiler/compile_nodes.c:348-363 | A cycle, with its first break test hoisted to the top of the loop or none, runs as the interpreter runs it when the break test precedes its statements. |
| SimulationBase.GlueShortCircuit | src/compiler/compile_nodes.c:217-220 | The glue of short-circuit code: either the jump is taken with the left value kept, or it is popped and the right value pushed. |
| SimulationBase.EnvStore | src/vm/vm.c:247-252 | Storing to a local slot keeps the environment relation for every other name. |
| SimulationBase.EnvExtend | src/vm/vm_ops.h:23-27 | Pushing values above the locals keeps every binding. |
| SimulationBase.FindVarUpdate | src/interpreter/interpreter.c:39-53 | Updating the latest binding of a name changes what that name looks up to and nothing else. |
| RunFacts.MustReturnStmt | src/interpreter/interpreter.c:313-362 | A statement all of whose paths return leaves the returned flag set whenever it runs without error. |
| RunFacts.NoReturnStmt | src/interpreter/interpreter.c:313-362 | A statement with no return on any path never sets the returned flag. |
| RunFacts.InertCycleBody | src/interpreter/interpreter.c:296-307 | After a return inside a turn, members that neither side executes change nothing. |
| RunFacts.StmtLocals | src/compiler/compiler_internal.h:81-93 | The compiler's locals after a statement are exactly the bindings of the statement in slot order. |
| Values.FoldingAgrees | src/compiler/compile_nodes.c:15-50 | For every operator and all integer literals: folding is defined and does what emitting and running the operator does if and only if FoldSafe holds; a zero divisor, and nothing else, is left to the machine's run-time error. |
| Values.FoldingFails | src/compiler/compile_nodes.c:27-45 | Inputs of each failing family: counts outside 0..63, negative left shifts and the least integer divided by -1 have no defined fold; a negative right shift folds to one value and runs to another. |
| Values.ShrAgrees | src/vm/vm_ops.c:205-209 | C's signed right shift and the machine's logical one agree exactly when the left operand is non-negative or the count is zero. |
| Values.FoldingUnaryAgrees | src/compiler/compile_nodes.c:52-75 | A folded unary operation gives the machine's value. |
| Values.TruncDiv | src/vm/vm_ops.c:45-52 | Integer division discards the fraction: sign and magnitude of the quotient (section 6.5.5 of ISO/IEC 9899:2018). |
| Values.TruncRem | src/vm/vm_ops.c:53-59 | The remainder completes the quotient to the dividend and is smaller than the divisor. |
| Bytecode.InstrTable | src/bytecode/opcodes.h:17-99 | Instruction sizes, pops and pushes are those of the opcode table every consumer shares. |
| Bytecode.DecodeEncode | src/vm/vm_ops.h:37-51 | Decoding the encoding of an instruction whose operands fit gives it back, wherever it stands. |
| Bytecode.U32RoundTrip | src/common/arcana_common.h:70-88 | Writing a 32-bit value and reading it back, signed or unsigned, gives the value. |
| Bytecode.EncodeConcat | src/compiler/compiler_internal.h:44-56 | The bytes of a longer instruction list are the bytes of its parts in order. |
| Bytecode.AtSplit | src/compiler/compiler_internal.h:44-56 | A list found in code splits into parts found at their own offsets. |
| Bytecode.AtDecode | src/vm/vm_ops.h:37-51 | Where a list is found, decoding yields its first instruction. |
| Compiling.CompileGraph | src/compiler/compiler.c:53-98 | Emission, interning, height tracking, jump patching, function table shifting and call rewriting together build exactly the specified image and success flag. |
| Compiling.Compiler.PatchJump | src/compiler/compiler_internal.h:65-72 | Four byte stores turn a zero-offset jump into one over exactly the code after it, and change nothing else. |
| Compiling.Compiler.EmitJump | src/compiler/compiler_internal.h:58-63 | Emits a jump to be patched, tracks its height, and returns the position of its operand. |
| Compiling.Compiler.EmitOp | src/compiler/compiler_internal.h:48-54 | Appends the opcode and moves the tracked height and maximum by the opcode table. |
| Compiling.Compiler.AddConst | src/bytecode/format.c:27-74 | Interning returns the first equal entry, appending only when there is none. |
| Compiling.Compiler.LookupLocal | src/compiler/compiler_internal.h:81-85 | The slot of the latest local with a name. |
| Compiling.Compiler.SourceNode | src/compiler/compiler_internal.h:111-117 | The owner of the port feeding an input, through the first edge into it. |
| Compiling.Compiler.PortByRole | src/compiler/compiler_internal.h:119-127 | The first input port of a node with a role. |
| Compiling.Compiler.CyclicPorts | src/compiler/compile_nodes.c:141-150 | The first two inputs in cyclic order. |
| Compiling.Compiler.LookupFunction | src/compiler/compile_nodes.c:381-388 | The first function whose name constant has the name. |
| Compiling.Compiler.CompileNode | src/compiler/compile_nodes.c:456-510 | Appends exactly the specified code of a node, reaches the specified compiler state, and records its debug range after those of its parts. |
| Compiling.Compiler.CompileBinary | src/compiler/compile_nodes.c:138-166 | Appends the specified code of a binary operator: operands, then opcode, or the folded constant, or an error. |
| Compiling.Compiler.CompileShortCircuit | src/compiler/compile_nodes.c:208-221 | Emission and patching produce the specified short-circuit code. |
| Compiling.Compiler.CompileIf | src/compiler/compile_nodes.c:327-336 | Both forward jumps, patched in the order the source patches them, reach the specified places. |
| Compiling.Compiler.CompileWhile | src/compiler/compile_nodes.c:337-347 | The backward and the patched exit jump reach the specified places. |
| Compiling.Compiler.CompileCycle | src/compiler/compile_nodes.c:348-363 | The same with the first break test hoisted, or without an exit. |
| Compiling.Compiler.CompileArgs | src/compiler/compile_nodes.c:370-380 | Compiles the connected input ports in order and counts them. |
| Compiling.Compiler.CompileFunction | src/compiler/compile_nodes.c:513-544 | Compiles a registered function into its record and closes it with a null return unless the last byte is the return opcode. |
| Compiling.Compiler.RegisterFunctions | src/compiler/compiler.c:60-69 | Registers every function definition under its interned name before any body is compiled. |
| Compiling.Compiler.CompileMain | src/compiler/compiler.c:14-30 | The root statements, the output printed and kept, and a halt. |
| Compiling.Compiler.PatchCallsForMain | src/compiler/compiler.c:33-50 | The byte walk visits exactly the instruction starts, moves every call operand up by one and changes no other byte. |
| Compiling.PatchedCall | src/compiler/compiler.c:40-44 | Rewriting two operand bytes with the 16-bit successor is relocating the call. |
| Compiling.ShiftDebugEntries | src/compiler/compiler.c:47-49 | Exactly the entries that start before main move up by one function. |
| Compiling.InsertFirst | src/compiler/compiler.c:82-87 | Shifting the table in place, last record first, puts main in front of the unchanged records. |
| Linking.AddFunctionsPlaces | src/compiler/compile_nodes.c:513-544 | Compiling the functions one after the other leaves each where its record says, whatever is compiled later. |
| Linking.RecordFound | src/compiler/compile_nodes.c:520-523 | With distinct names a function is compiled into its own pre-registered record. |
| OperandBounds.FuncBounded | src/compiler/compile_nodes.c:513-544 | Every operand in a function's code refers into the tables as they are when it ends: constants, locals, functions and jump distances. |
| OperandBounds.MainBounded | src/compiler/compiler.c:14-30 | The same for main. |
| CodeGen.EmitConst | src/compiler/compiler_internal.h:56 | Emitting a constant only adds: the pool keeps its indices and code and height grow by one load. |
| CodeGen.CNode | src/compiler/compile_nodes.c:456-510 | Compiling a node only adds: constants and locals keep their indices, errors stay set, code lengths add up. |
| CodeGen.FindLocal | src/compiler/compiler_internal.h:81-85 | The latest local of the name, none after it, -1 exactly when there is none. |
| CodeGen.FindName | src/compiler/compile_nodes.c:381-388 | The first function of the name, the table size exactly when there is none. |
| Machine.RunCompose | src/vm/vm.c:361-378 | Running in two parts is running once for the sum of the steps. |
| Machine.ReachesTrans | src/vm/vm.c:361-378 | Reachability of machine states composes, stack overflow included. |
| VirtualMachine.Execute | src/vm/vm.c:361-378 | Running an image in fixed arrays gives the outcome of the step function within the step bound. |
| VirtualMachine.Processor.RunSteps | src/vm/vm.c:361-378 | The dispatch loop does what that many steps of the machine function do. |
| VirtualMachine.Processor.Dispatch | src/vm/vm.c:314-359 | One dispatched opcode byte is one machine step, for every opcode byte. |
| VirtualMachine.Processor.ExecCall | src/vm/vm.c:52-79 | A call checks index, depth and arity, and pushes a frame of arguments followed by null locals. |
| VirtualMachine.Processor.ExecReturn | src/vm/vm.c:81-106 | A return drops frame, locals and operands and leaves the result; the last one halts. |
| VirtualMachine.Processor.ExecBranch | src/vm/vm.c:281-298 | Jumps add their offset in 32 bits, conditional ones by truthiness of the popped value. |
| VirtualMachine.Processor.ExecStackOrLocal | src/vm/vm.c:227-254 | Constants, pop, dup and locals, with their error cases. |
| VirtualMachine.Processor.ExecBinary | src/vm/vm_ops.c:15-123 | Pops right then left operand and pushes the operator's value or fails. |
| VirtualMachine.Processor.ExecIntrinsic | src/vm/vm_ops.c:435-445 | Print takes the top value off and appends it to the output. |
| VirtualMachine.Processor.SetupMain | src/vm/vm.c:300-312 | The boot state: main's frame with all locals null. |
| VirtualMachine.Processor.Push | src/vm/vm_ops.h:23-27 | Push stores and advances, or reports overflow at 1024 values. |
| VirtualMachine.Processor.Pop | src/vm/vm_ops.h:29-33 | Pop retreats and reads, or reports underflow. |
| Verifier.AcceptsExact | src/verifier/verifier.c:99-177 | For functions of at most 32767 bytes the one-pass verifier accepts exactly those that are whole known instructions, halt or return somewhere, and have a height certificate. |
| Verifier.VerifyFunction | src/verifier/verifier.c:99-177 | The scan over the in-place height table decides exactly what the pass function decides, including truncated code, unknown opcodes and 32-bit wrap of the bounds. |
| Verifier.VerifyImage | src/verifier/verifier.c:179-191 | An image is valid exactly when it has functions and each is accepted. |
| Verifier.VerifyOperands | src/verifier/verifier.c:19-59 | Operand checks: constant, slot, function and intrinsic indices and jump targets within the function. |
| Verifier.RecordJumpHeights | src/verifier/verifier.c:62-96 | The height is recorded or checked at a jump target, and after a transfer the next height is the recorded one or zero. |
| Verifier.PassSound | src/verifier/verifier.c:99-177 | When the pass succeeds, the table it leaves is a certificate. |
| Verifier.PassComplete | src/verifier/verifier.c:99-177 | Next to any certificate no check of the pass fails. |
| Verifier.StepSafe | src/vm/vm.c:227-298 | One machine step inside an accepted, aligned function of fixed effects keeps exactly the certified height, never underflows and uses no bad constant or local index. |
| Verifier.RunSafe | src/vm/vm.c:361-378 | After any number of steps the machine is at the certified height, stopped by a type error or stack overflow, or has left the function. |
| Verifier.VerifiedMainIsSafe | src/vm/vm.c:361-378 | The same from the boot state of an accepted main. |
| MisalignedJump.MisalignedUnderflows | src/verifier/verifier.c:48-55 | Alignment is needed: an accepted image that jumps into an operand underflows on its second step. |
| PrintingBranch.GoodProgramRejected | src/verifier/verifier.c:150-158 | Variable pop counts are not taken off: a valid, supported program that prints in one branch only, which the interpreter runs and whose machine run is correct, is rejected once compiled. |
| HeightFlow.ThenYields | src/verifier/verifier.c:62-96 | What consecutive pieces of code make of a height is exactly what the second makes of the first's exit, in both directions. |
| HeightFlow.BranchYields | src/compiler/compile_nodes.c:327-336 | A branch can be given heights exactly if both regions can from the height under the test and leave the same one; the exit is that height. |
| HeightFlow.LoopYields | src/compiler/compile_nodes.c:337-347 | A tested loop can be given heights exactly if its test and body can and the body comes back to the height at the top. |
| HeightFlow.EndlessYields | src/compiler/compile_nodes.c:348-363 | A loop without a test can exactly if its body comes back to its own height; nothing arrives after it. |
| Balance.ExprYields | src/compiler/compile_nodes.c:456-510 | Expression code, entered at any height, leaves exactly the number of values read off the graph, with variable pops as zero, or cannot be given heights at all. |
| StatementBalance.StmtGoes | src/compiler/compile_nodes.c:290-364 | Statement code, entered at any height, is left exactly as StmtExit says from the graph: at a height, not at all after a return, or it cannot be given heights. |
| StatementBalance.MembersGo | src/compiler/compile_nodes.c:106-114 | The same for the statements of a region in order, and whether they have heights up to their last instruction. |
| ExactAcceptance.AcceptsIff | src/verifier/verifier.c:99-177 | The pass over the bytes accepts a function of at most 32767 bytes that stops somewhere and keeps its jumps inside if and only if its instructions can be given heights from zero on. |
| BalancedPrograms.FuncRuns | src/compiler/compile_nodes.c:534-543 | The code of a function, with the null return that is appended unless the last byte reads as a return, can be given heights if and only if its definition balances on the graph. |
| BalancedPrograms.MainRuns | src/compiler/compiler.c:14-30 | The same for main with the print of the output, which leaves both copies of the value to the verifier. |
| BalancedPrograms.AcceptedIffBalanced | src/verifier/verifier.c:99-185 | The verifier accepts the image of a supported program with functions of at most 32767 bytes if and only if the program balances: heights with variable pops read as zero agree at every join, loop bodies come back to where they started, and short-circuit operands leave one value. |
| StackFlow.FlowThen | src/verifier/verifier.c:62-96 | Heights along consecutive pieces of code compose. |
| StackFlow.FlowBranch | src/compiler/compile_nodes.c:327-336 | A branch with its two jumps has consistent heights at both joins. |
| StackFlow.FlowLoop | src/compiler/compile_nodes.c:337-347 | A loop with exit and backward jump has consistent heights at top and exit. |
| StackDiscipline.ExprTracks | src/compiler/compiler_internal.h:48-54 | Expression code leaves exactly one value more by the opcode table, and no height on the way exceeds the tracked maximum. |
| StackDiscipline.StmtTracks | src/compiler/compiler_internal.h:74-78 | Statement code starts and ends at height zero, below the tracked maximum. |
| HeightCertificates.FlowCertifies | src/verifier/verifier.c:99-177 | Consistent instruction heights, spread over the bytes, are a certificate for the function that holds the code. |
| CertifiedOutput.CompilerOutputAccepted | src/compiler/compile_nodes.c:513-544 | For supported programs that print only their output and pass no arguments the recorded max_stack bounds every certified height, all jumps are aligned, and the image is accepted; which other programs are accepted is AcceptedIffBalanced. |
| CertifiedOutput.FuncTracks | src/compiler/compile_nodes.c:534-543 | A compiled function flows from height zero to zero below its recorded maximum and contains a return. |
| CertifiedOutput.MainTracks | src/compiler/compiler.c:14-30 | The same for main and its halt. |
| Channels.NoLostWakeUp | src/runtime/concurrency.c:76-100 | For any number of threads and any interleaving with spurious wake-ups: while a receiver waits unsignalled the buffered count is at most the number of woken receivers; dually for senders and free slots. |
| Channels.NeverBothWait | src/runtime/concurrency.c:76-100 | With the mutex free and nobody woken, unsignalled senders and receivers never wait together. |
| Channels.StuckMeansEmptyOrFull | src/runtime/concurrency.c:76-100 | Deadlock freedom: when no thread can move, all waiting threads are receivers of an empty channel or all are senders to a full one. |
| Channels.Fifo | src/runtime/concurrency.c:60-100 | Over every run the values sent are the values received followed by the buffer from head, with wrap-around, and count never exceeds capacity. |
| Channels.MutualExclusion | src/runtime/concurrency.c:76-100 | No two threads are inside the critical section at once. |
| Channels.CallsSucceed | src/runtime/concurrency.c:76-100 | Calls on a channel never fail, and a receive returns the value it took from the front of the queue. |
| Channels.StepKeeps | src/runtime/concurrency.c:76-100 | Every statement, signal and spurious wake-up keeps the invariant. |
| Channels.Channel.constructor | src/runtime/concurrency.c:60-74 | A new channel is empty and open, with capacity zero read as one. |
| Channels.Channel.FinishSend | src/runtime/concurrency.c:80-87 | Past its wait a send appends the value to the queue, or fails on a closed channel and changes nothing. |
| Channels.Channel.FinishReceive | src/runtime/concurrency.c:93-99 | Past its wait a receive takes the front of the queue, or fails exactly when it is empty. |
| Channels.RingStore | src/runtime/concurrency.c:81-83 | Storing at the slot after the last appends to the queue, across the end of the buffer. |
| Channels.RingTake | src/runtime/concurrency.c:94-96 | Reading at head and moving it drops the front of the queue, across the end of the buffer. |
| Collector.Heap.Collect | src/runtime/gc.c:154-172 | A collection keeps exactly the objects reachable from live stack, globals and open upvalues, in their old order with marks cleared and no pointer outside the heap, and sets the next threshold. |
| Collector.MarkObject | src/runtime/gc.c:50-98 | Recursive marking terminates on cyclic heaps and adds exactly marks of reachable objects together with all their targets. |
| Collector.MarkTargets | src/runtime/gc.c:54-97 | Each kind of object marks exactly what it points at. |
| Collector.MarkRing | src/runtime/concurrency.c:126-133 | A channel marks its live slots, wrapping at the end of the buffer. |
| Collector.MarkMachine | src/runtime/concurrency.c:106-125 | A coroutine or thread marks its live stack, its globals and what it yielded. |
| Collector.Heap.MarkChain | src/runtime/gc.c:161-165 | Every open upvalue of the chain is marked with what it reaches. |
| Collector.Heap.Sweep | src/runtime/gc.c:140-152 | Unlinking in place leaves exactly the marked objects, in order, linked and unmarked. |
| Collector.Heap.SweepOne | src/runtime/gc.c:142-151 | One turn of the pointer-to-pointer loop. |
| Collector.Heap.Allocate | src/runtime/gc.c:30-46 | A new unmarked object goes to the front of the list. |
| Reachability.MarkedIsReachable | src/runtime/gc.c:50-103 | Marks that started empty and were added only with all successors are exactly what the roots reach. |
| Reachability.ProgressThen | src/verifier/architecture.c:130-209 | Two depth-first walks one after the other are one walk from both roots. |
| Reachability.ProgressNode | src/verifier/architecture.c:130-209 | Marking a node and walking its successors is walking the node. |
| Architecture.RegionClosure | src/verifier/architecture.c:130-209 | The walk with two visited tables shared across calls and regions terminates and returns exactly the union of effects over the regions it can follow. |
| Architecture.CollectRegion | src/verifier/architecture.c:130-209 | Called with partly filled tables, it marks new regions together with all their successors and returns exactly the effects of the new marks. |
| Architecture.Verify | src/verifier/architecture.c:258-265 | Valid if and only if every sealed closure stays within its capabilities and every edge between different nearest seals has a declared channel. |
| Architecture.FindSealedAncestor | src/verifier/architecture.c:104-116 | On a validated graph the walk ends and returns the first entry sealing the nearest sealed ancestor, or none exactly when no ancestor is sealed. |
| Architecture.VerifyEffects | src/verifier/architecture.c:222-239 | True exactly when every sealed closure's effects are among its capabilities. |
| Architecture.VerifyBoundaries | src/verifier/architecture.c:242-256 | True exactly when every crossing edge has a channel. |
| Architecture.HasChannel | src/verifier/architecture.c:212-219 | True exactly when a channel is declared in either direction. |
| Architecture.NearestUnique | src/verifier/architecture.c:104-116 | A region has at most one nearest seal. |
| EffectSoundness.NoLoggerNoPrint | src/interpreter/interpreter.c:170-362 | Interpreting a region whose collected effects lack the logger prints nothing, through any depth of calls, branches and loops, if its covered members read only values of covered members. |
| EffectSoundness.SealedPrintsNothing | src/verifier/architecture.c:222-239 | What acceptance of a sealed region without the logger capability promises about its runs, under that condition. |
| EffectSoundness.SealedRegionCanPrint | src/verifier/architecture.c:258-265 | The condition is needed: an accepted graph whose sealed region has no effects and prints, through a value edge from outside. |
| EffectSoundness.NoRunnablePrint | src/interpreter/interpreter.c:170-362 | With no condition on value edges: a region from which no print node can be reached through value edges, branches, loops and calls prints nothing when interpreted. |
| EffectSoundness.RunnableIsCovered | src/verifier/architecture.c:130-209 | Where covered members read only values of covered members, everything a run can reach is covered by the effect collection. |
| EffectSoundness.EvalPrintsNothing | src/interpreter/interpreter.c:225-268 | Evaluating a node of a quiet set prints nothing. |
| EffectSoundness.StmtPrintsNothing | src/interpreter/interpreter.c:313-350 | Executing a statement of a quiet set prints nothing. |
| Validation.Validate | src/semantic_graph/semantic_graph.c:196-207 | Accepts exactly the graphs whose identifiers are positions, whose references are in range, whose edges run from outputs to inputs and in which no region is its own ancestor. |
| Validation.HasCyclicAncestry | src/semantic_graph/semantic_graph.c:139-144 | The walk bounded by the number of regions finds a region on a parent cycle exactly when it is on one of any length. |
| Validation.AcyclicMeansChainsEnd | src/semantic_graph/semantic_graph.c:133-146 | With valid parents, no region is its own ancestor if and only if every parent chain ends within as many steps as there are regions. |
| Validation.ShortCycle | src/semantic_graph/semantic_graph.c:139-144 | A parent chain that returns to its start does so within as many steps as there are regions. |
| Validation.ChainEnds | src/semantic_graph/semantic_graph.c:133-146 | In a graph without parent cycles each chain ends within that many steps. |
| Validation.Pigeonhole | src/semantic_graph/semantic_graph.c:139-144 | Distinct numbers below n are at most n many. |
| ImageFormat.RoundTripExact | src/bytecode/format.c:27-336 | Reading what was written restores the image with the same constant indices if and only if its pool is interned; without interning equal constants merge and indices move. |
| ImageFormat.RoundTripMerges | src/bytecode/format.c:147-336 | For any image whose fields fit, reading what was written gives it back with the constants passed through the adders again. |
| ImageFormat.AddAllInterned | src/bytecode/format.c:27-74 | The adders build a pool without equal entries, and keep every entry of a sequence exactly when it has none; float equality is an arbitrary relation. |
| ImageFormat.ParsedFits | src/bytecode/format.c:292-336 | Every accepted byte string is an image whose fields fit and whose pool is interned. |
| ImageFormat.ReadWriteRead | src/bytecode/format.c:147-336 | Reading, writing and reading again gives what reading gave, for any accepted bytes. |
| ImageFormat.TruncatedRejected | src/bytecode/format.c:292-336 | Of the proper prefixes of a written file exactly one is accepted, the one without the debug section, and it gives the image without debug entries. |
| ImageFormat.Write | src/bytecode/format.c:147-206 | The writer's byte pushes produce exactly the encoding. |
| ImageFormat.Read | src/bytecode/format.c:292-336 | The reader's cursor steps accept exactly the byte strings the parser accepts, with its result. |
| ImageFormat.Intern | src/bytecode/format.c:27-74 | An adder returns the pool unchanged if an equal entry is there and appends otherwise. |
| ImageFormat.CapacityWraps | src/bytecode/format.c:19-25 | Doubling a 16-bit capacity finds room for every entry up to the 32768th and leaves a table of capacity zero for the next. |
| ImageFormat.EntriesRead | src/bytecode/format.c:236-264 | Reading written constants is adding them one after the other. |
| ImageFormat.RecordsRead | src/bytecode/format.c:267-290 | Reading written function records gives them back, captures included. |
| SavedPrograms.CompileSaveRun | tools/arcana-run.c:45-75 | Compile, verify, write, read, verify and run in turn: on a supported program on which the interpreter succeeds the tools end as the interpreter does, are still running, or the verifier rejected; without functions over 32767 bytes it rejects exactly the programs that do not balance. |
| SavedPrograms.CompiledSurvives | tools/arcana-compile.c:123-130 | A compiled image comes back from its file unchanged, constant indices included. |
| SavedPrograms.SavedProgramRuns | tools/arcana-run.c:45-75 | The image read back from a compiled program's file runs to the interpreter's prints and result, or stack overflow. |
| SavedPrograms.SavedInterned | src/bytecode/format.c:27-74 | The saved pool is interned exactly when the image's constants have no repeats, which the compiler's never have. |
| SavedPrograms.RunFile | tools/arcana-run.c:45-75 | What the run tool does with any bytes: malformed, rejected, running on or ended as the machine's run of the image in them. |
| SavedPrograms.CompileToFile | tools/arcana-compile.c:93-130 | The compiler tool writes the encoding of the compiled image exactly when compilation succeeds and the verifier accepts. |
| DebugRanges.RangesNest | src/compiler/compile_nodes.c:504-509 | Any two debug ranges of a compiled image are nested or disjoint. |
| DebugRanges.RangesNamed | src/compiler/compiler.c:82-87 | With distinct function names every debug range lies in the code of the function it names, after main has been put at index 0 and the entries before it moved up. |
| DebugExactness.RangesNamedExactly | src/compiler/compiler.c:64-87 | In every compiled image all debug ranges lie in the functions they name if and only if no function with a later one of its name adds an entry, read off the graph: no compiled member, nor anything it pulls in, has a source element and emits code. |
| DebugExactness.NodeAdds | src/compiler/compile_nodes.c:504-509 | Compiling a node adds a debug entry exactly if the node or something it pulls in emits code and has a source element. |
| DebugExactness.FuncAdds | src/compiler/compile_nodes.c:513-544 | Compiling a function adds a debug entry exactly if its body does. |
| DebugRanges.NodeTraced | src/compiler/compile_nodes.c:456-510 | Compiling a node adds only entries inside its own code, for the current function, nested or disjoint. |
| Closures.ClosuresShareVariables | src/vm/vm_ops.c:348-421 | Over every run that keeps to its operands the stack holds what it holds when every variable has a cell of its own and closures hold cells: sharing slots and closing upvalues is unobservable. |
| Closures.StepExact | src/vm/vm.c:81-106 | One instruction refines the cell machine, with every earlier upvalue still standing for its cell, if and only if it leaves no open upvalue on a slot it drops. |
| Closures.StepRefines | src/vm/vm_ops.c:348-421 | Each instruction that leaves none behind takes the step of the cell machine. |
| Closures.DisciplineKept | src/vm/vm.c:52-106 | Code that keeps to its operands keeps every open upvalue in the locals of an active frame. |
| Closures.ReturnDisciplined | src/vm/vm.c:81-106 | After a return no upvalue is open at or above the frame's base. |
| Closures.OneUpvaluePerSlot | src/vm/vm_ops.c:358-366 | At most one upvalue is open on a slot, and only on live slots. |
| Closures.CloseKeepsReads | src/vm/vm.c:84-92 | Every upvalue reads the same value just before and just after closing. |
| Closures.ThrowLosesVariable | src/vm/vm.c:123-134 | A throw out of a frame leaves its upvalues open: a captured 7 reads as the thrown value afterwards. |
| Closures.ClosureMachine.Capture | src/vm/vm_ops.c:356-366 | The list walk finds the slot's upvalue or puts a new one in front. |
| Closures.ClosureMachine.CloseUpvalues | src/vm/vm.c:84-92 | The pointer walk closes and unlinks exactly the upvalues at or above a slot and keeps the order of the rest. |
| Closures.ClosureMachine.NewClosure | src/vm/vm_ops.c:348-377 | Captures locals through shared upvalues and enclosing captures by copy, then pushes the closure. |
| Closures.ClosureMachine.GetUpvalue | src/vm/vm_ops.c:379-390 | Pushes what the upvalue stands for, open or closed. |
| Closures.ClosureMachine.SetUpvalue | src/vm/vm_ops.c:392-404 | Writes through the upvalue to the slot or the closed value. |
| Closures.ClosureMachine.ReturnFrom | src/vm/vm.c:81-106 | Closes, drops the frame and pushes the result. |
| Closures.ClosureMachine.CloseTopValue | src/vm/vm_ops.c:406-421 | Closes the upvalues of the top slot and leaves the stack. |
| TypeInference.Typecheck | src/typecheck/typecheck.c:240-269 | The memoising pass over all nodes computes the types of plain recursion, and succeeds exactly when plain recursion reports no node. |
| TypeInference.Checker.InferType | src/typecheck/typecheck.c:199-234 | From any table the pass can reach, inferring a node gives the plain type, keeps what is known, and records an error exactly for reported known nodes. |
| TypeSoundness.TypeSound | src/interpreter/interpreter.c:115-268 | The value of a successful evaluation has the inferred type, for any floats, float arithmetic, variables and calls, if every arithmetic node orders its ports as its roles. |
| TypeSoundness.EvaluateIsEval | src/interpreter/interpreter.c:115-268 | With the interpreter's own variables and calls, and float literals without a value, this evaluation is the reference interpreter's, errors and prints included. |
| TypeSoundness.InterpretedType | src/interpreter/interpreter.c:115-268 | In particular the reference interpreter's values have their inferred types. |
| TypeSoundness.MixedNeverEvaluates | src/interpreter/interpreter.c:225-268 | An integer and a float under arithmetic or an order are not reported and never evaluate. |
| TypeSoundness.WellTypedEvaluates | src/interpreter/interpreter.c:115-268 | Expressions of integer and float constants, comparisons, operators on operands of one type, negation and not evaluate to a value of their type without error and change nothing. |
| TypeSoundness.MixedTypesFail | src/typecheck/typecheck.c:78-87 | The agreement is needed in both directions: a valid graph with a node inferred float that evaluates to an integer and one inferred integer that evaluates to a float, because inference follows roles and evaluation port order. |
| Containment.DerivePartition | src/geometry/containment.c:123-170 | Every prefix of a derivation, an ambiguous exit included, leaves each node in exactly one member list, its region's. |
| Containment.MovePartition | src/geometry/containment.c:69-78 | Swap-removing a node from one list and appending it to another keeps the partition. |
| Containment.DerivedRegion | src/geometry/containment.c:87-111 | After a successful derivation a node positioned once is in the region of a smallest circle around it, or in its old region if no circle below the radius bound is around it. |
| Containment.DeriveAssigns | src/geometry/containment.c:123-170 | Derivation succeeds exactly when no positioned node is ambiguous, and then each node's region is the last its positions give, or its old one. |
| Containment.InnermostMeaning | src/geometry/containment.c:87-111 | One pass over the circles finds a smallest circle around a position, and fails exactly when some circle is ambiguous. |
| Containment.ConsistencyExact | src/geometry/containment.c:173-182 | The consistency check after a derivation passes if and only if no node was derived into two regions. |
| Containment.PlacedGraph.VerifyConsistency | src/geometry/containment.c:173-182 | The check compares every derived membership with the region stored in its node. |
| Containment.ClassifyIsDistance | src/geometry/containment.c:47-58 | Comparing squares classifies a position as comparing the distance does. |
| Containment.DeriveStateless | src/geometry/containment.c:123-170 | What is derived depends on the layout and the number of nodes, not on where the nodes were. |
| Containment.AddNodePartition | src/semantic_graph/semantic_graph.c:51-66 | Adding a node to a graph keeps the partition. |
| Containment.PlacedGraph.DeriveRegions | src/geometry/containment.c:123-170 | Deriving in place gives the specified regions, lists, members and verdict. |
| Containment.PlacedGraph.DeformationStable | src/geometry/containment.c:186-210 | True exactly when both layouts derive from the original graph the same sequence of regions, compared position by position and not node by node, so layouts that move different nodes can pass; the first derivation having moved nodes already does not matter. |
| Containment.PlacedGraph.RemoveFromRegion | src/geometry/containment.c:69-78 | Removes the first entry of the node by overwriting it with the last. |
| DebugRanges.TwinsMisnamed | src/compiler/compiler.c:82-87 | Distinct names are needed: with two functions of one name an entry of the first lies outside the code of the function it names. |
| UnconnectedInput.UnconnectedDiffers | src/compiler/compile_nodes.c:309-313 | A valid graph outside the supported ones: a print without a connected value prints null in the interpreter, while its image takes a value off an empty stack. |
| FinishedTurn.FinishedTurnDiffers | src/interpreter/interpreter.c:296-307 | A valid graph outside the supported ones: after a return in a cycle the interpreter finishes the turn and prints null for a one, while the machine leaves at once; two prints against one. |
| StaleResult.StaleResultDiffers | src/interpreter/interpreter.c:215-218 | A valid graph outside the supported ones: a call of a function without a return yields the last function's result in the interpreter and null on the machine. |

## Left out

- Floats, strings, casts, arrays, maps, records, bit vectors and globals: the modelled opcodes are constants, pop, dup, locals, integer and boolean operators, jumps, call, return, print and halt. A string constant fails when loaded. In TypeSoundness floats and their arithmetic are left open.
- Closures, try/catch and handlers, coroutines, thread spawning and intrinsics other than print: the compiler model reports an error for these nodes. The source compiles a closure's body inline in the outer function and leaves a thrown value on the stack of the catch path.
- CompilerCorrectness.CompilerCorrect: says nothing when the interpreter fails; a machine run of such a program may still succeed, because the interpreter's limits (64 frames, 256 variables, 100000 iterations) are its own.
- Verifier.StepSafe: does not cover CALL and INTRINSIC, whose pop counts the verifier never takes off because the branch for them is unreachable; heights after them are not exact, as PrintingBranch.GoodProgramRejected shows.
- CertifiedOutput.CompilerOutputAccepted: the bound of heights by the recorded maximum covers programs whose only print is the output's and whose calls pass no arguments; elsewhere the verifier's heights count values already printed or passed, which the recorded maximum does not. Acceptance itself is decided for all supported programs by BalancedPrograms.AcceptedIffBalanced.
- BalancedPrograms.AcceptedIffBalanced: functions over 32767 bytes are left out, for the reason given at Verifier.AcceptsExact.
- Verifier.AcceptsExact: heights are kept in 16 bits, so functions over 32767 bytes are outside the statement; above 65536 bytes the source keeps no heights, which VerifyFunction models.
- Machine accesses outside the live stack, and operands past the end of the code, end the model's run with the fault Wild; the source reads or writes whatever is there.
- VirtualMachine.Execute: takes a step bound, where the source's loop runs on. Error messages, tracing and arc_vm_continue are not modelled.
- Argument counts above 255, which wrap in the source's narrow counters. Tables above 32768 entries: the model reports a file with more as too large, where the source stores out of bounds.
- Channels: thread scheduling fairness is not modelled, so nothing is said about a particular thread being served. Nothing in the source closes a channel; the flag is carried and never changes.
- Collector.Heap.Collect: freeing memory is leaving the list; the byte counter is not lowered, as in the source. Open upvalues inside a coroutine's own machine are not roots, as in the source.
- Architecture: at most 32 diagnostics are kept by the source; the model has only the verdict. Specification builders with their limit of 64 entries are not modelled.
- Validation.Validate: reports only the verdict. It does not check region members, port lists or the regions a node names, and neither does the source.
- Closures.ClosureMachine: the list of open upvalues is a sequence of names rather than linked objects, and a read of a slot above the live stack has no value; closures are machine instructions only, the compiler model emits none.
- Closures.DisciplineKept: covers throws within one frame; a throw out of a frame may leave upvalues open, which StepExact and ThrowLosesVariable describe. A return does not remove handlers; a throw to a handler of a finished frame ends the run.
- TypeSoundness.TypeSound: says nothing of a root output node, whose type is null whatever it carries. Diagnostics are only counted as some or none. Strings have no value: the evaluator has no case for a string constant.
- TypeSoundness.WellTypedEvaluates: leaves out integer division and remainder, which can fail on any integers.
- DebugRanges.RangesNamed: asks for distinct function names; two functions with one name share a record (TwinsMisnamed). The exact condition is DebugExactness.RangesNamedExactly.
- Containment: coordinates are reals; rounding is not modelled. Fan-out counters and their measurement are left out.
- ImageFormat: floats are eight bytes; a reader's partly filled image after an error is not modelled. SavedPrograms loads only files without floats and captures.
- Assembler, disassembler, fixture parser, command line tools, service interface, intermediate representations and platform layers.
