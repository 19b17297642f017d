# A verified model of Mylo

Mylo compiles in one pass, without a syntax tree, to bytecode for a stack machine whose heap is a set
of bump arenas reached through generational pointers. There is no garbage collector: blocks remember
where the head of the arena was and rewind it, assignments and map growth push those marks forward,
and a return copies its result out of what it is about to reclaim. The guarantees therefore live in
counters that have to agree: `sp`, `fp`, the scope stack and its marks, the arena heads, and the
compile-time counts of locals and scopes that the compiler bakes into its jumps. This project models
those parts and proves that they agree.

| layer | files | what is modelled |
|---|---|---|
| machine | `Defines` `Arenas` `Evacuation` `Machine` `Vm` | the heap, the deep copy, the bytecode as a step function, and the class whose methods update arrays and counters in place and are proved to refine that function |
| language | `Language` `Operators` `Codegen` `Drift` | function bodies with a direct big-step meaning, the laws of the operators, the code of each statement, and the compile-time counters |
| compiler | `Parsing` `Statements` `Rendering` `Linking` `Patching` `Building` `Compiler` `Resolution` | the grammar as functions from tokens to trees, a printer that it inverts, and the class that emits and patches bytecode in one pass, proved to emit the code of the tree it never builds |
| meaning | `Protection` `Returning` `Frames` `Calls` `Instructions` `Simulation` `Meaning` `Counting` | why locals survive blocks and returns, and the proof that the emitted code means what the source means |
| depths | `Depths` `Agreement` `Activations` `Tameness` | the height and the open scopes of every instruction, and what every run, ending or not, keeps |
| limits | `Aliasing` `Losing` | exactly which assignments break the protection of locals, and a program that loses its result |
| arenas | `Discipline` `Reclaim` `Survival` `Generations` `Sizing` `Copying` | what is never handed out again, what blocks and returns give back, how maps outlive their growth, how long stale pointers stay rejected, what copy() shares |
| library | `Maps` `Slices` `Splitting` `Natives` `Workers` `Bundles` `Sokoban` | collections, strings, natives that re-enter the machine, workers, standalone executables, and a game written in Mylo |

Some results come out differently from what the names in the source suggest:

- The mark that protects an assigned object can overtake the mark of an inner block
  (src/vm.c:1205-1216). `Aliasing.StoreKeepsIff` says for which assignments; `Losing.LoserLoses`
  shows a five-line function that then returns a pointer to reclaimed memory.
- A condition-form `for` lowers the compile-time scope counter once too often (src/compiler.c:2117),
  so that a later `break` or `continue` of an enclosing loop leaves a scope open.
  `Drift.BodyFormedIff` gives the exact condition, `Drift.LaggingLeaks` a program.
- copy() shares i16[] and i32[] with the original, because the size test of the copy leaves their tags
  out (src/vm.c:139). `Copying.CopyDeepIff` says this is the only way to share.
- A region that a worker has can be freed and its slot given out again, after which docking loses a
  block (`Workers.ClearedLoses`). `Workers.Exchange.FreeRegion` gives the exact condition.
- A map that lives in another region than the current one is not protected when it grows
  (`Survival.RegrownSheltered`).

## Model

| member | source | states |
|---|---|---|
| `Meaning.FunctionMeans` | src/compiler.c:2404-2478 | For every linked program and every source call that returns `v`: entered the way OP_CALL enters it, with a stack that represents the arguments, the compiled body either fills the stack, the scope stack or a region, or arrives at the return address with the caller's `fp`, scopes, region and lower stack as they were and one result on top that represents `v`; all other cells still represent their values and no allocated cell changed. Hypothesis: the run's assignments keep the boundaries in order (`Orderly`), which `TameOrderly` gives from the text of the program and which `LoserLoses` shows is needed |
| `Meaning.EntryMeans` | src/mylolib.c:236-248 | The same for a function started at the bottom of an empty machine, as a worker starts it: the run halts with one cell that unfolds to the returned value |
| `Meaning.CallUnique` | src/compiler.c:2404-2478 | What a source call returns does not depend on the bound on its run, so the meaning that the compiler preserves is a single value |
| `Simulation.SimExpr` | src/compiler.c:1142-1254 | For every expression with a value, its code takes any represented frame to the same frame plus that value, with `ip` at the end of the fragment; both arms of a ternary, eager AND and OR, unary minus, calls, lists, ranges, indexing and slicing included. Otherwise the run fills a resource or comes to a store out of order |
| `Simulation.SimStmt` | src/compiler.c:1833-2120 | For every statement whose source run ends normally, by break, by continue or by return, the code ends with the locals the source ends with, at the end of the fragment, at the jump target of the loop with its locals and scopes, or returned with the value |
| `Simulation.SimCall` | src/vm.c:1230-1279 | OP_CALL on arguments that represent `xs` replaces them by what the source call returns, in the same frame |
| `Simulation.SimBody` | src/compiler.c:2443-2465 | From the scope entry of a function to its return, falling off the end included |
| `Codegen.SizeShape` | src/compiler.c:395-451 | The size of the code does not depend on the jump targets, which is why placeholders can be patched later |
| `Operators.ComparisonLaws` | src/vm.c:1154-1174 | Of every two numbers exactly one of less, equal and greater gives 1, less exactly when `a < b`; the other three comparisons are the negations, and greater is less with its operands exchanged |
| `Operators.CompareStep` | src/vm.c:1154-1174 | What the instruction emitted for each comparison leaves on the stack, by the order of the two numbers alone |
| `Operators.LogicLaws` | src/vm.c:1907-1924 | and and or give 1 or 0 by whether both, or one, of their values is anything but 0 |
| `Operators.LogicStep` | src/vm.c:1907-1924 | The two instructions, by how many of the two cells are 0 |
| `Operators.BranchStep` | src/vm.c:1221-1229 | OP_JZ jumps on 0, OP_JNZ on everything else; both take the cell |
| `Operators.DupStep` | src/vm.c:1714-1714 | OP_DUP leaves the top twice |
| `Operators.SumLaws` | src/vm.c:993-1018 | Within 2^53: 0 is neutral, counting an operand on by one counts the sum on by one, and the difference takes the sum back |
| `Operators.ProductLaws` | src/vm.c:993-1018 | Within 2^53 the product is repeated addition, up and down from 0 |
| `Operators.RemainderLaws` | src/vm.c:993-1018 | The remainder is what is left after taking away whole multiples of the divisor, smaller than it and on the side of the dividend; the quotient is whole, and then the one whose product is the dividend, if and only if nothing is left |
| `Operators.RemainderUnique` | src/vm.c:993-1018 | There is only one such quotient and remainder |
| `Operators.RangeLaws` | src/vm.c:1925-1951 | The value of `start ... stop` begins with start, ends with stop, goes on by one in the direction of stop, and holds an integer if and only if it lies between the two, both included |
| `Operators.RangeStep` | src/vm.c:1925-1951 | The same of the array that OP_RANGE pushes |
| `Operators.ElementLaws` | src/vm.c:1332-1345 | Indices count from either end, and nothing is found beyond |
| `Operators.IterStep` | src/vm.c:1842-1872 | On an array OP_IT_KEY gives the position, OP_IT_VAL and OP_IT_DEF the element, and all fail outside |
| `Operators.ListLaws` | src/vm.c:1319-1331 | A list holds the values of its elements in order, and has a value exactly if all of them have |
| `Operators.CondLaws` | src/compiler.c:1238-1254 | A conditional is its first arm unless the condition is 0 |
| `Operators.NegatedMeans` | src/compiler.c:880-896 | A sign before a parenthesis negates, whether or not what it holds folds into a constant |
| `Counting.OddsReturns` | src/compiler.c:2357-2402 | A source function with forever, if, elif, else, break and continue returns, for every argument within 2^53, the square that is the sum of the odd numbers up to it |
| `Counting.OddsParses` | src/compiler.c:2404-2478 | Its tokens, written out one by one, are read as that function |
| `Counting.OddsRuns` | src/vm.c:1964-1969 | Its linked bytecode, started at the bottom of any machine, halts with that square on the stack, or fills something |
| `Counting.OddsStraight` | src/compiler.c:413-451 | Its jumps are aligned, so what the compiler makes of its tokens is linked |
| `Counting.TotalReturns` | src/compiler.c:2010-2075 | A source function that iterates over a range returns n (n + 1) / 2 |
| `Counting.DownReturns` | src/compiler.c:2077-2120 | So does one with a condition-form for |
| `Compiling.Compiler.Program` | src/compiler.c:2481-2492 | On success the tokens parse to functions `fs` and the bytecode holds the code of each at its recorded address; if every body is straight the program is linked, so `FunctionMeans` applies to all of it. It reports a syntax error only for tokens outside the grammar, and gives up otherwise only where the bytecode or the pool is full or a limit on loops or their jumps is met |
| `Compiling.Compiler.Function` | src/compiler.c:2404-2478 | Appends one function: the jump over it, its code at the address recorded for its name, and nothing before it changed |
| `Compiling.Compiler.Expression` | src/compiler.c:1148-1254 | At every precedence level, one pass over the tokens consumes exactly what the grammar parses and appends exactly the code generated from that tree; the constant pool only grows |
| `Compiling.Compiler.Arms` | src/compiler.c:1240-1253 | The two backpatched jumps of a ternary end up pointing at the second arm and past it |
| `Compiling.Compiler.Factor` | src/compiler.c:873-896 | Numbers, booleans, lists, names, parentheses and unary minus, where a number after the sign folds into the constant |
| `Compiling.Compiler.Statement` | src/compiler.c:2282-2391 | Appends exactly the code of the statement that the grammar parses, with the local count, the scope counter and the recorded jumps in step with it |
| `Compiling.Compiler.IfStatement` | src/compiler.c:1833-1935 | The branch of each arm is patched to the rest of the chain and each exit to its end |
| `Compiling.Compiler.ForeverStatement` | src/compiler.c:2357-2372 | Loop entry, body, back jump and the patched breaks and continues |
| `Compiling.Compiler.Iteration` | src/compiler.c:1979-2075 | The code of `for (x in e)`, with a new or an existing loop variable, two hidden locals, and breaks and continues patched |
| `Compiling.Compiler.ConditionLoop` | src/compiler.c:2077-2120 | The code of `for (c)`, which enters two scopes and lowers the scope counter three times |
| `Compiling.Compiler.EmitUnwind` | src/compiler.c:413-451 | break and continue: an error outside loops, and else the scope exits, pops and recorded jump of the innermost loop |
| `Compiling.Compiler.PopLoop` | src/compiler.c:404-413 | Every cell recorded for the innermost loop holds the address of its end or of its next turn, and no other cell of the code changed |
| `Compiling.Compiler.MakeConst` | src/vm.c:538-544 | The index of the first equal constant; the pool is append-only |
| `Compiling.Compiler.PatchHere` | src/compiler.c:1249-1253 | One cell becomes the address of the next instruction |
| `Compiling.FuncsLinked` | src/compiler.c:2404-2478 | Functions in place, with aligned bodies, make a linked program |
| `Parsing.ParseInvertsShow` | src/compiler.c:1142-1254 | Every expression, printed with parentheses only where the grammar levels need them and followed by anything that cannot continue it, is read back whole, with exactly its own tokens |
| `Parsing.Reads` | src/compiler.c:1148-1254 | The same at each grammar level and from any position of a longer token sequence |
| `Rendering.StmtReads` | src/compiler.c:2282-2402 | Every statement, printed with its own keyword and followed by anything that cannot continue it, is read back as itself with exactly its own tokens, and leaves the names in scope that it declares: declarations, assignments, calls, if with elif and else, forever, both forms of for, break, continue and ret |
| `Rendering.BodyReads` | src/compiler.c:2283-2402 | The statements of a body in turn, with the names that each leaves to the next |
| `Rendering.FuncReads` | src/compiler.c:2404-2478 | A function with its parameters, with or without commas |
| `Rendering.ProgramReads` | src/compiler.c:2481-2492 | A program: printing and parsing gives back its functions |
| `Rendering.BareReturn` | src/compiler.c:2393-2400 | `ret` at the end of a block returns 0 |
| `Rendering.BareName` | src/compiler.c:1665-1690 | A name by itself does nothing |
| `Linking.SettledStays` | src/compiler.c:873-896 | Code already emitted stays the code of its expression when constants and functions are added later |
| `Drift.BodyFormedIff` | src/compiler.c:1988-2117 | In a parsed function body every break and continue leaves exactly the scopes of its loop if and only if none follows a condition-form `for` in the same loop body |
| `Drift.AlignedIffStraight` | src/compiler.c:413-451 | The same for a statement compiled with the scope counter already behind by any number |
| `Drift.CounterDrifts` | src/compiler.c:1988-2117 | Each condition-form `for` lowers the compile-time scope counter by one for good |
| `Drift.ShortUnwind` | src/compiler.c:413-433 | A break or continue compiled with the counter `d` behind arrives with the right locals but with `d` scopes too many, or all that the body opened |
| `Drift.LaggingContinue` | src/compiler.c:2117-2117 | A program with such a `continue` |
| `Drift.LaggingLeaks` | src/compiler.c:435-451 | That `continue` jumps back with one scope more than the loop was entered with |
| `Statements.FuncFormed` | src/compiler.c:2404-2478 | For parsed functions the shape that `BodyFormedIff` asks for always holds: compiled to aligned code if and only if straight |
| `Resolution.AtKnown` | src/compiler.c:1087-1140 | A parsed expression names only locals and functions that are in scope |
| `Resolution.ParsedKnown` | src/compiler.c:2282-2391 | So does a parsed statement, loop variables and hidden locals included |
| `Resolution.ProgramSoundIff` | src/compiler.c:2404-2478 | A linked program that was parsed meets the hypothesis of every result about all runs below if and only if each of its calls passes the number of arguments that the function takes, which the compiler does not check |
| `Agreement.StmtAgrees` | src/compiler.c:1833-2120 | Depth consistency: every instruction of a statement has one height above `fp` and one list of open scopes, and each of its successors (fall-through, branch, break, continue, elif exit, back edge) is the start of an instruction noted with the height and scopes it arrives with |
| `Agreement.FuncAgrees` | src/compiler.c:2404-2478 | The same for the whole code of every function of a linked program |
| `Depths.ExprClean` | src/compiler.c:1142-1254 | The same for expressions, ternary jumps included |
| `Activations.StepConsistent` | src/vm.c:1680-1962 | Whatever the values, one machine step from a state whose frames all agree with the notes leads to such a state, until the bottom function returns; only calls and returns change the list of active functions |
| `Activations.RunConsistent` | src/vm.c:1964-1969 | Hence over every run of any length, terminating or not: the state agrees with the notes, or the bottom function has returned |
| `Activations.EntryConsistent` | src/vm.c:1230-1245 | Calling a function with the right number of arguments starts such a run |
| `Activations.NoUnderflow` | src/vm.c:1822-1840 | In such a state the next instruction takes no cell below the frame, leaves no scope but the own frame's, and reads or writes a local that exists |
| `Activations.FramesIncrease` | src/vm.c:1230-1279 | The frame pointers of all active calls strictly increase |
| `Protection.GuardStore` | src/vm.c:1191-1217 | An order-safe OP_SVAR keeps the invariant that everything reachable from a stack cell lies below every boundary the cell outlives and is cut by none |
| `Protection.StoredKept` | src/vm.c:1205-1216 | After the bump, what was stored lies below every boundary that its variable outlives |
| `Protection.GuardLeave` | src/vm.c:1831-1840 | SCOPE_EXIT keeps everything that a remaining cell reaches |
| `Protection.GuardEnter` | src/vm.c:1822-1830 | SCOPE_ENTER keeps the invariant |
| `Returning.PopAll` | src/vm.c:1250-1272 | Leaving all scopes of a frame, rewinding or evacuating, keeps what the caller's cells and the result represent and leaves exactly the caller's scopes |
| `Calls.DoCall` | src/vm.c:1230-1245 | The overlapping shift preserves all arguments, which become the first locals of the new frame |
| `Calls.DoRet` | src/vm.c:1246-1279 | From any nest of blocks OP_RET restores `ip`, `fp` and the caller's scopes and leaves one result where the arguments began, still representing its value |
| `Aliasing.BumpOrderedIff` | src/vm.c:1205-1216 | After an OP_SVAR the boundaries are still in order if and only if each boundary that the variable outlives is above the object or has no other strictly between it and the head |
| `Aliasing.StoreKeepsIff` | src/vm.c:1191-1217 | The protection invariant survives the store if and only if that condition holds |
| `Aliasing.UnsafeStoreCrosses` | src/vm.c:1205-1216 | After any other store some outer boundary is above an inner one, and the object between them |
| `Aliasing.CrossedCuts` | src/vm.c:1246-1271 | An array allocated across such a pair loses cells when the outer scope is left |
| `Losing.LoserLinked` | src/compiler.c:2404-2478 | The function `g(x) { var a = [] if (1) { var t = [] x = a } ret [7] }` compiles to the given bytecode, and its source returns [7] |
| `Losing.LoserLoses` | src/vm.c:1191-1279 | On every machine with room, that bytecode makes an out-of-order store and hands back a pointer that does not unfold to [7]: its last cell is above the head |
| `Losing.LoserOverwritten` | src/vm.c:503-515 | The next array is written over that cell |
| `Tameness.TameStore` | src/vm.c:1191-1217 | Where each assignment to a variable that outlives two scopes has a number or a fresh array on its right-hand side, stores are order-safe |
| `Tameness.SteadyStep` | src/vm.c:1680-1962 | In such code every step keeps the boundaries ordered and every store safe |
| `Tameness.TameOrderly` | src/vm.c:1191-1217 | So the hypothesis of `FunctionMeans` holds of every such program, for every call |
| `VirtualMachine.Vm.RunFrom` | src/vm.c:1964-1969 | The machine with arrays and counters updated in place, run for at most `limit` instructions, ends in exactly the state that as many steps of the step function give |
| `VirtualMachine.Vm.Step` | src/vm.c:1680-1962 | One instruction is one step of the step function, its errors and full resources included |
| `VirtualMachine.Vm.ExecRetOp` | src/vm.c:1246-1279 | OP_RET |
| `VirtualMachine.Vm.LeaveFrame` | src/vm.c:1250-1272 | The loop that pops every scope of the frame computes the recursive unwinding, result and heap |
| `VirtualMachine.Vm.ExecCallOp` | src/vm.c:1230-1245 | OP_CALL |
| `VirtualMachine.Vm.ShiftArgs` | src/vm.c:1235-1238 | Shifting the arguments up by two, last one first, moves all and loses none |
| `VirtualMachine.Vm.ExecVarOp` | src/vm.c:1176-1219 | OP_LVAR and OP_SVAR |
| `VirtualMachine.Vm.RaiseBoundaries` | src/vm.c:1205-1216 | The protection loop changes exactly the boundaries of the frame's scopes that the variable outlives and that are not above the object |
| `VirtualMachine.Vm.EvacuateObject` | src/vm.c:118-226 | The recursive copy, writing as it goes, computes the evacuation function, or runs past the region exactly where that has no result |
| `VirtualMachine.Vm.EvacuateCells` | src/vm.c:180-188 | The loop over the copied elements |
| `VirtualMachine.Vm.EvacuateData` | src/vm.c:189-216 | The headerless block of a map and its cells |
| `VirtualMachine.Vm.HeapAlloc` | src/vm.c:503-515 | Takes `size` cells at the head of the current region, opening it if need be, exactly when they fit |
| `VirtualMachine.Vm.InitArena` | src/vm.c:292-312 | Opens a region with zeroed cells under the next generation, skipping 0 |
| `VirtualMachine.Vm.ArrayLength` | src/vm.c:469-491 | Resolves a pointer and its header if and only if the step function has elements for it |
| `VirtualMachine.Vm.ExecSliceOp` | src/vm.c:1498-1534 | OP_SLICE |
| `VirtualMachine.Vm.SliceBounds` | src/vm.c:1508-1514 | Negative bounds from the end, both clamped |
| `VirtualMachine.Vm.ExecArrayOp` | src/vm.c:1319-1331 | OP_ARR: the elements come off the stack last first and are in order in memory |
| `VirtualMachine.Vm.ExecIndexOp` | src/vm.c:1332-1361 | OP_AGET on arrays, negative indices included |
| `VirtualMachine.Vm.ExecRangeOp` | src/vm.c:1925-1951 | OP_RANGE in both directions |
| `VirtualMachine.Vm.ExecEnterOp` | src/vm.c:1822-1830 | OP_SCOPE_ENTER |
| `VirtualMachine.Vm.ExecExitOp` | src/vm.c:1831-1840 | OP_SCOPE_EXIT rewinds only a scope of the current region |
| `VirtualMachine.Vm.ExecIterOp` | src/vm.c:1842-1872 | The iteration opcodes on arrays |
| `VirtualMachine.Vm.NewArena` | src/vm.c:1874-1881 | The first inactive region |
| `Copying.EvacFaithful` | src/vm.c:118-226 | For every boundary, the evacuated object unfolds to the value the original unfolds to, byte by byte for all elements of a packed array, the original still does, and no cell below an old head changed |
| `Copying.CopyDeepIff` | src/mylolib.c:147-171 | copy() makes a value of new cells only if and only if no i16[] or i32[] is reachable in it; those come back shared |
| `Copying.CopyIsDeep` | src/mylolib.c:147-171 | One direction of it, by itself |
| `Copying.OriginalUnaffected` | src/mylolib.c:147-171 | Whatever is later written to new cells, the original unfolds to the same value |
| `Copying.CopyUnaffected` | src/mylolib.c:147-171 | Whatever is later written to old cells, a deep copy unfolds to the same value |
| `Evacuation.EvacRep` | src/vm.c:118-226 | Faithful copying at any point of a larger copy, with everything copied so far |
| `Sizing.PackedCovers` | src/vm.c:96-107 | Each packed type has its width; the bytes of all elements lie in the words that count as the array, and one word less would not hold them |
| `Sizing.AlikeBytes` | src/vm.c:135-147 | Two packed arrays that unfold alike agree in every byte of every element, all of it allocated, at whatever depth they occur |
| `Sizing.EvacMoves` | src/vm.c:118-170 | An object below the boundary, or of a type that the size test leaves out, is not copied; any other goes to the head of its own region |
| `Sizing.EvacFits` | src/vm.c:118-226 | A copy succeeds wherever the regions have room for all that the object unfolds to, and takes no more than that |
| `Discipline.ScopeMemorySafe` | src/vm.c:1822-1840 | Over every run that succeeds so far and frees no region, for the whole life of a scope: the head of its region stays at or above where it was on entry, and no cell below that changes |
| `Discipline.StepPreserves` | src/vm.c:1680-1962 | The step of it, for every opcode but the freeing of a region |
| `Discipline.AllocatedAbove` | src/vm.c:503-515 | An allocation inside a scope never reaches below the scope's entry point |
| `Survival.MapSurvives` | src/vm.c:1403-1453 | Over every interleaving of machine instructions with stores to a map and with changes elsewhere, in blocks and calls of any depth and until a scope older than the map is left, the map holds exactly the pairs stored in it |
| `Survival.StepHeld` | src/vm.c:1246-1279 | Every instruction but the freeing of a region, SCOPE_EXIT and RET included, keeps the map and its boundaries |
| `Survival.SetsHeld` | src/vm.c:1417-1440 | Storing, with or without growth, keeps every younger boundary above the header also above the new block |
| `Survival.RegrownSheltered` | src/vm.c:1430-1439 | After growth in the current region a boundary is above the new block if and only if it was above the map's header |
| `Survival.NewHeld` | src/vm.c:1460-1469 | A new map is so protected from the start |
| `Survival.NewMapPreserves` | src/vm.c:1460-1469 | Map allocation keeps the arena discipline |
| `Survival.SetsDisciplined` | src/vm.c:1417-1440 | So does map growth with its lifted boundaries; below the entry points only the map's own cells can change |
| `Generations.PointerLife` | src/vm.c:277-326 | After any frees and initialisations of its region a pointer resolves if and only if the region is open and was initialised a multiple of 16383 times |
| `Generations.StaleRejected` | src/vm.c:277-290 | A pointer minted before a free is rejected while the region is free and after each of the next 16382 initialisations |
| `Generations.GenReturns` | src/vm.c:295-296 | The generation returns to where it was after exactly 16383 initialisations and not before |
| `Defines.PackRoundTrip` | src/defines.h:82-96 | Packed pointers unpack to their fields, fit in 48 bits and are never 0 |
| `Defines.PackInjective` | src/defines.h:82-96 | Unpacking and packing again is the identity on all 48-bit values |
| `Defines.PackLayout` | src/defines.h:66-96 | Offset, region and generation in 28, 6 and 14 bits, from the lowest: the next cell, the next region and the next generation are so far apart |
| `Reclaim.EnterStep` | src/vm.c:1822-1830 | Opening a scope notes head, frame and height, and overflows only when all scopes are in use |
| `Reclaim.ExitStep` | src/vm.c:1831-1840 | Leaving one goes back to the mark, in the region where it was opened and only there |
| `Reclaim.BlockReclaims` | src/vm.c:1822-1840 | A block that leaves the marks alone has taken no memory in the end |
| `Reclaim.ReturnReclaims` | src/vm.c:1246-1279 | A function whose result is no object, or lies below all marks of its frame, gives back everything above the outermost mark; the exact state after the return |
| `Reclaim.UnwindReclaims` | src/vm.c:1250-1272 | The unwinding of it, scope by scope |
| `Reclaim.PopFits` | src/vm.c:1246-1279 | A return fails only for want of room for one copy of its result for each scope of the frame |
| `Reclaim.NewRegionStep` | src/vm.c:1874-1881 | The lowest free region, empty, zeroed and under another generation than its last; an error only if there is none |
| `Reclaim.FreeRegionStep` | src/vm.c:1882-1887 | Refuses region 0, ends every pointer into the region, leaves the others alone |
| `Reclaim.SetContextStep` | src/vm.c:1888-1894 | Allocation is directed to an open region or to region 0, and to no other |
| `Reclaim.OverflowOnlyFull` | src/vm.c:503-522 | Any other instruction overflows only when the stack has no room for a frame, all scopes are in use, or the region has none for the array it makes |
| `Survival.RegrownElsewhere` | src/vm.c:1430-1439 | Growth touches no other boundary, and lifts those to the new head |
| `Maps.MapSet` | src/vm.c:1403-1453 | The map becomes the one with the key put: in place if it is there, else last. The block doubles exactly when a new key meets a full block, and the call fails exactly when that finds no room; the head of the current region then rises by exactly 4 times the old capacity and else not at all; other cells stay |
| `Maps.MapRemove` | src/mylolib.c:819-842 | Forgets the key, closes the gap, touches nothing but the map |
| `Maps.MapGet` | src/vm.c:1362-1377 | The value under the key, or the empty string |
| `Maps.MapEntry` | src/vm.c:1862-1869 | Iteration yields the pairs in insertion order |
| `Maps.NewMap` | src/vm.c:1460-1469 | An empty map of capacity 16 in 36 new cells, exactly when they fit; every other cell undisturbed |
| `Maps.PutFinds` | src/vm.c:1403-1453 | Storing changes what is found under that key only and keeps keys unique and in order |
| `Maps.RemovedFinds` | src/mylolib.c:819-842 | Removing changes what is found under that key only |
| `Maps.RemovedOthers` | src/mylolib.c:819-842 | What is left is the pairs under other keys, in their order |
| `Maps.StoreAll` | src/vm.c:1417-1453 | Storing n distinct keys one after the other yields the map of all of them in order and raises the head by exactly the header and `BlockCells(n)`; it fails exactly when they do not fit |
| `Maps.GrowthBound` | src/vm.c:1417-1429 | All data blocks for n keys together take at most max(32, 8n) cells |
| `Slices.SliceSet` | src/vm.c:1535-1571 | Slice assignment between arrays that share no cell: every access is in range, the first min(slice, source) positions become the source's elements, and the rest of the heap is as it was |
| `Slices.SplicedElsewhere` | src/vm.c:1555-1571 | It reaches no head, no other region, and no cell outside the elements of its array |
| `Slices.SliceMembers` | src/vm.c:1508-1514 | For all integer bounds, an index is in the slice if and only if it lies between the two positions, both included |
| `Slices.SliceElements` | src/vm.c:1525-1532 | The elements of a slice, in order |
| `Slices.AssignedElements` | src/vm.c:1557-1569 | Position by position, what slice assignment changes |
| `Slices.SliceAssignRoundTrip` | src/vm.c:1498-1571 | Assigning a slice to its own range is the identity, and a slice reads back what was assigned |
| `Slices.StringPool.MakeString` | src/vm.c:529-536 | A string already interned keeps its id, a new one gets the next and is stored up to its 1023rd character, ids in use keep their strings; full exactly when the string is new and the limit reached |
| `Slices.StringPool.SameIdSameString` | src/vm.c:529-536 | For strings shorter than 1023 characters, equal ids if and only if equal strings |
| `Slices.StringPool.LongNeverFound` | src/vm.c:529-536 | A string that was cut when stored is never found again |
| `Splitting.Split` | src/mylolib.c:899-963 | The filling loop stores exactly the pieces that the counting loop counted; one piece per character for the empty delimiter |
| `Splitting.JoinPieces` | src/mylolib.c:919-962 | Joining the pieces with the delimiter gives back the source |
| `Splitting.PiecesClean` | src/mylolib.c:919-962 | No piece contains the delimiter |
| `Splitting.SplitJoin` | src/mylolib.c:919-962 | Splitting a joined list gives back the list if and only if no piece completes the delimiter early |
| `Natives.ForList` | src/mylolib.c:1060-1130 | for_list over a compiled function whose source call returns for every element and whose stores stay in order: fails on wrong operands and only there; else, if the run ends, `ip`, `fp`, scopes and the stack below are restored and the result is the list of what the function returns for each element. It ends early only for want of room for the result, or when the callback on one of the elements fills something or takes too long |
| `Natives.Filter` | src/mylolib.c:2387-2485 | The same with the elements, in order, for which the function returns a number other than 0 |
| `Natives.ParamFilter` | src/mylolib.c:2488-2583 | The same with a second argument |
| `Natives.ChosenIff` | src/mylolib.c:2463-2477 | The kept positions are exactly those of numbers other than 0, each once and in order |
| `Natives.SieveLaws` | src/mylolib.c:2463-2477 | A further element is appended if its verdict is a number other than 0, and otherwise left out |
| `Natives.Call` | src/mylolib.c:2294-2377 | call() builds exactly the frame that OP_CALL builds on the elements of the argument array |
| `Natives.CallMeans` | src/mylolib.c:2350-2377 | So a function called by name gives the caller what the source call returns, the rest as it was |
| `Natives.TameCareful` | src/vm.c:1191-1217 | The hypothesis of these results on stores holds of every tame program |
| `Workers.Exchange.CreateWorker` | src/mylolib.c:274-375 | Hands the block to the first free worker slot and leaves main without it; changes nothing and gives -1 exactly when there is none |
| `Workers.Exchange.StartWorker` | src/mylolib.c:209-220 | The worker's machine holds the region in the slot it had |
| `Workers.Exchange.WorkerRun` | src/mylolib.c:236-248 | Writes and allocation in the region change the contents of its block and no owner |
| `Workers.Exchange.CompleteWorker` | src/mylolib.c:250-262 | The region is taken out of the worker's machine before that is cleaned up |
| `Workers.Exchange.DockWorker` | src/mylolib.c:379-413 | Main has the block again, and every pointer into the region resolves to the cell it resolved to when the worker was created |
| `Workers.Exchange.NewRegion` | src/vm.c:1874-1881 | A handed-over region is not given out again |
| `Workers.Exchange.FreeRegion` | src/vm.c:314-326 | Ownership stays unique after a free if and only if no worker has the region |
| `Workers.OneOwner` | src/mylolib.c:274-413 | In every table that meets the invariant, which each step of main and of the workers keeps in any interleaving, each block has exactly one owner |
| `Workers.ClearedSoundIff` | src/vm.c:314-326 | The condition on the table itself |
| `Workers.ClearedLoses` | src/mylolib.c:274-413 | Freeing a handed-over region, giving its slot out again and docking the worker leaves the new block without an owner |
| `Workers.ClearedInsideUnsound` | src/mylolib.c:250-262 | So does a worker that frees its own region |
| `Bundles.CreateStandalone` | src/compiler.c:2817-2865 | Writes the host, the sections and the footer, byte for byte |
| `Bundles.Load` | src/vm.c:1981-2023 | Reads the image by seeking back from the footer and leaves the file as it was |
| `Bundles.PlainIff` | src/vm.c:1981-1990 | A file is taken for a program alone if and only if it ends in the mark |
| `Bundles.BundleRoundTrip` | src/vm.c:1981-2023 | For any host bytes, even another bundle, and any sections, loading finds exactly what was appended |
| `Sokoban.PlayConserves` | examples/sokoban.mylo:121-186 | Over every sequence of unit steps: walls and goals stay, the number of boxes is constant, the game stays proper, and steps counts the moves that succeeded |
| `Sokoban.PlayFrozen` | examples/sokoban.mylo:107-122 | Once complete nothing changes; complete only with every box on a goal |
| `Sokoban.GameState.TryMove` | examples/sokoban.mylo:121-186 | The moves written in cell codes refine the moves of the game; and cell by cell: a step succeeds exactly if the game is not complete, the cell ahead is no wall and a box ahead has neither wall nor box behind it; then the player is at x + dx, y + dy, a pushed box two steps on, the floor is restored, nothing else changes, and the game is complete exactly if no loose box is left |
| `Sokoban.GameState.CheckWin` | examples/sokoban.mylo:107-117 | Won if and only if no loose box is left |
| `Sokoban.GameState.SetCell` | examples/sokoban.mylo:70-73 | Exactly one cell changes |
| `Sokoban.CodedProper` | examples/sokoban.mylo:121-186 | Cells with known codes and one player at the recorded coordinates stand for a proper game |
| `Sokoban.LooseIff` | examples/sokoban.mylo:107-117 | No loose box if and only if every box is on a goal |

## Left out

Statements that are weaker than the code's full behaviour:

- Simulation.SimExpr: strings, fractions and whole numbers beyond 2^53 have no source meaning, so nothing is said about the code of an expression that computes one; string concatenation, array broadcasting and printf-style formatting are not modelled.
- Simulation.SimStmt: a source run that faults or does not end has no final state to arrive at; for those runs `Activations.RunConsistent` says what the machine keeps.
- Meaning.FunctionMeans: one region throughout, no globals, maps, structs or packed arrays among the values of the compiled language; the arity of each call and the order of stores are hypotheses.
- Meaning.EntryMeans: only functions, not statements at the top level, which use globals instead of locals.
- Tameness.TameOrderly: the textual condition is sufficient, not necessary; the exact condition is on the states of the run.
- Compiling.Compiler.Program: a program of functions only; a program with other statements at the top level counts as a syntax error.
- Compiling.Compiler.IfStatement: the elif chain is compiled by recursion where the source keeps a list of exit jumps; the bytecode is the same, the limit on the list is not modelled.
- Rendering.StmtReads: the printed form is one of several that are read alike; redundant parentheses and other tokens that are skipped like the comma are covered by the grammar functions, not by this law.
- Operators.CompareStep: not for enum cells, which are a runtime error here.
- Operators.RemainderLaws: not for divisor 0, where the source goes on with an infinity or no number, which is a fault here.
- Sizing.EvacFits: enough room in every region, where room in those that hold the object would do.
- Compiling.Compiler.Statement: the end of the tokens inside a function is a syntax error, where the source keeps reading; a statement on a subscripted name is not modelled.
- Natives.ForList: only compiled functions as callbacks, not natives; each callback is cut off after `limit` instructions.
- Natives.Filter: as for ForList.
- Natives.ParamFilter: as for ForList.
- Natives.Call: not for native targets or print; the source does not look whether there is room for the two cells of the frame, which here is a full stack.
- VirtualMachine.Vm.RunFrom: cut off after `limit` instructions, because a program need not end.
- VirtualMachine.Vm.ExecSliceOp: a slice of an array whose own block reaches past the head of its arena, so that the new array overwrites it while it is read, is a runtime error here.
- VirtualMachine.Vm.EvacuateObject: a copy that would run past its region ends the run here, where the source writes out of bounds.
- VirtualMachine.Vm.ExecVarOp: OP_SET and OP_GET, the globals, are not modelled.
- Discipline.ScopeMemorySafe: not over OP_DEL_ARENA, which takes away the memory of live scopes too.
- Survival.MapSurvives: a map that grows while another region is current is excluded; `RegrownSheltered` shows why.
- Maps.MapSet: numbers, strings and pointers as keys are compared by value and tag; strings are their ids.
- Slices.SliceSet: source and target share no cell; with overlap the loop reads what it has written.
- Slices.StringPool.SameIdSameString: false for longer strings, which are cut when stored (`LongNeverFound`).
- Workers.Exchange.WorkerRun: the worker's program is any sequence of writes to its region and moves of its head, not a program of the machine.
- Workers.Exchange.CreateWorker: only on a region that main holds; the source hands over whatever is in the slot.
- Bundles.Load: the binding of shared libraries after the sections were read, and failing file operations.
- Sokoban.GameState.TryMove: a step of (0, 0) is excluded; it would push a box onto the player.

Not modelled at all:

- The lexer, namespaces, imports, enums, struct declarations, f-strings, typed declarations, `region`, `embed`, pair iteration and C blocks.
- The generic code of packed arrays; only their sizes matter to copying.
- IEEE rounding, number formatting, trigonometry, noise and random numbers.
- Debuggers, the language server, the REPL, terminal, web canvas, file, socket and job functions.
- Generated C bindings and the reference store.
- The message bus, `add`, `where`, `contains` and the other natives that touch one array or string.
