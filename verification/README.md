# Lavril: proofs about its compiler, its machine and its run-time data

Lavril is a small dynamic language. Source text is compiled in one pass to register bytecode, optimised while it is
emitted, and run by a virtual machine whose frames share one growing value stack. These files model that pipeline and
the run-time structures beside it, and prove what each is for.

- **Compiler, optimiser and machine.** `Bytecode` is the register machine, with everything that reaches the heap
  (metamethods, calls, tables) as an arbitrary deterministic effect. `FuncState` is the function under construction
  with its one-instruction optimiser; `Source` is the language and its meaning, bare variables being read when their
  operator runs, as the bytecode does. `CodeGen` and `StmtGen` say what is emitted, `Compiler` has the methods that
  emit it in place, `Peephole`, `Stream`, `Simulation`, `Layout`, `ExprSim`, `StmtLay` and `StmtSim` carry the proof
  to `Program`: machine and program end alike, or neither ends. `Execute` is the interpreter to the letter, with a
  call's destination read as a signed byte and a failing `%` that nobody notices, and says when it does as the machine
  of these proofs. `Toplevel` joins the compiler's methods with that theorem. `Limits` has the programs for which the
  optimiser changes meaning, and the exact conditions.
- **Tables.** `TableNodes` and `Table`: the chained scatter table with in-place relocation behaves as a finite map.
- **Frames, traps, captured variables, generators.** `Frames`, `VM`, `Coroutine` and `Machine`.
- **Memory.** `References` and `Collector` (marking, sweeping, reference counts), `StringTable` (interning).
- **Algorithms.** `HeapSort`; `Escape` (string escapes against the lexer); `Json`, `Jsmn`, `JsonTokens`, `JsonDecode`,
  `JsonRoundTrip`, `JsonLevel`; `Prototype`, `SaveLoad`, `ClosureStream` (saved closures); `Sha1Words`, `Sha1`.

`dafny verify dfyconfig.toml` checks everything.

## Model

| member | source | states |
|---|---|---|
| Execute.RunsAsMeant | src/vm.cpp:852-1310 | for every compiled program, every start state and every meaning of the effects: if no step of the run is a failing `%` or a call whose result has no proper register, the interpreter stops with a value or an exception exactly when the program, with enough fuel, ends that way; so one runs forever exactly when the other does |
| Execute.RunsInside | src/compiler.cpp:1755-1773 | at every step of every such run the program counter is on an instruction until the program ends |
| Execute.CalmSteady | src/vm.cpp:887-1034 | every run of a code is of that kind if, for each `%` in it, that operation fails for no operands, and for each call in it, its register suits every kind of value that is called; a code without `%` and calls is so on every machine |
| Execute.FailurePassed | src/vm.cpp:1032-1034 | in every compiled program: where a run, after steps as they should be, comes to a `%` that fails, the program raises, and the interpreter goes on to the next instruction |
| Execute.CallResultIff | src/vm.cpp:887-897 | the result of a call expression arrives in its register, whatever closure is called and in every state, exactly if fewer than 128 registers are in use |
| Execute.After126 | src/vm.cpp:887-897 | after 126 variables `f()` asks for register 128, and the result of a closure does not arrive there |
| Execute.ModuloByZero | src/vm.cpp:1032-1034 | where the remainder by zero fails, `1 % 0` raises; the interpreter runs on past it and the register of its value holds 1 |
| Program.ProgramCorrect | src/compiler.cpp:217-347 | for every compiled program, every start state and every meaning of the effects, a machine that reads destinations unsigned and raises where an operation fails stops with a value or an exception exactly when the program, with enough fuel, ends that way |
| Program.ProgramSafe | src/compiler.cpp:1755-1773 | at every step of every run of that machine the program counter is on an instruction until the program ends: every patched or merged jump lands inside the code |
| Program.ErrorIffStray | src/compiler.cpp:276-297 | an error is reported exactly for a `break` or `continue` outside every loop |
| Toplevel.Compile | src/compiler.cpp:170-215 | compiling yields code exactly if no jump is stray, and the interpreter runs the code of an admissible program as the program means, on every run as in RunsAsMeant |
| StmtSim.SimS | src/compiler.cpp:224-347 | the code of any statement, from its first instruction, follows the statement's meaning for any number of loop rounds: it falls through, breaks, continues, returns, raises or goes on as the statement does |
| ExprSim.SimE | src/compiler.cpp:400-550 | under WellFormed, Safe and Fits, the code of any expression, whatever instruction is pending before it, reaches its end with the expression's value in the target register, its effects done once and in order, and every variable and live temporary kept |
| Simulation.AddArrive | src/funcstate.cpp:440-586 | adding a straight-line instruction, merged with the last one or appended, brings the machine to that instruction's effect on every live register |
| Layout.LayE | src/compiler.cpp:400-550 | an expression's code extends what was final, pushes one target, and ends in a comparison still open to rewriting exactly when its syntax says so |
| Peephole.MergeEffect | src/funcstate.cpp:459-577 | for all registers, literals and effects, a merged straight-line instruction does what the pair did, but for the register it elides |
| Stream.StreamAgrees | src/funcstate.cpp:440-586 | for any stream of instructions and snoozes, the optimised code raises exactly when the plain code does, has the same effects, and agrees on every register but those left unwritten |
| Stream.TestMergeIff | src/funcstate.cpp:445-451 | a conditional jump merged with the comparison before it goes where the pair goes, in all states, exactly if it tests the register the comparison wrote |
| Stream.MoveMergeIff | src/funcstate.cpp:520-539 | for each of the eleven operations that merge with a move: redirecting the result does what operation and move do, in all states, exactly if the move goes back to the same register |
| Limits.BareConditionIff | src/compiler.cpp:463-466 | with a variable as the condition of `?:`, the emitted test goes where testing the variable goes, in all states, exactly if the instruction before is not a comparison open to rewriting |
| Limits.ChoiceGoesWrong | src/compiler.cpp:463-484 | `(a < b) == (x ? true : false)`: the code and its run, which leaves false where the expression is true |
| Limits.SecondVariableIff | src/compiler.cpp:1212-1232 | in `var p = e, q = p` the operation that computed `p` is redirected to `q` exactly if it is one that merges with a move and is open to rewriting; and the second declaration copies `p`, in every state and under every meaning of the effects, exactly if it is not |
| Limits.IntegerGoesToSecond | src/compiler.cpp:1212-1232 | `var p = k, q = p` with an integer `k` emits one load into `q`, and no run writes `p` |
| Limits.RegisterRefusedIff | src/funcstate.cpp:262-270 | while none was refused, a register is refused exactly if 256 are in use; so 255 is handed out, the number that means no destination |
| Limits.SetArrivesIff | src/vm.cpp:993-998 | the value of a field assignment arrives in its register, in all states, exactly if that is not register 255 |
| Limits.LastRegister | src/vm.cpp:993-998 | `o[k] = v` where 255 registers are in use: nothing is refused, the value is meant for register 255 and does not arrive |
| FuncState.FunctionState.AddInstruction | src/funcstate.cpp:440-586 | the in-place optimiser computes the rewriting that the proofs above speak of |
| Compiler.LVCompiler.Expression | src/compiler.cpp:400-550 | the methods that walk an expression and update the function state emit exactly the code proved correct |
| Compiler.LVCompiler.Statement | src/compiler.cpp:224-347 | the same for statements |
| Compiler.LVCompiler.ResolveBreaks | src/compiler.cpp:1755-1763 | every waiting break of this loop gets the distance to the loop's end, and no other instruction changes |
| Compiler.LVCompiler.ResolveContinues | src/compiler.cpp:1765-1773 | every waiting continue of this loop gets the distance to the loop's test, and no other instruction changes |
| Table.Run | src/table.cpp:99-208 | after any sequence of NewSlot, Set, Remove and Clear, a lookup finds exactly what a finite map holds, and the count is its size |
| Table.LVTable.NewSlot | src/table.cpp:110-162 | the map with the key bound, whether the key was there, a node was free, another node had to move, or the table was rehashed; true is returned exactly if the key is new and a free node is left; the recursion through Rehash ends |
| Table.FillFour | src/table.cpp:110-162 | of any four keys put in a fresh table of four nodes, with any hash function, the third is reported as new and the fourth is not, though it is found afterwards |
| Table.LVTable.Relocate | src/table.cpp:126-142 | a node that is in another's main position moves to the free node: chains stay chains and the contents are unchanged |
| Table.LVTable.Rehash | src/table.cpp:39-63 | the same contents in a table of another size, with no rehash inside the rehash |
| Table.LVTable.Get | src/table.cpp:99-108 | the chain walk finds a key exactly if the map has it, tombstones and merged chains notwithstanding |
| Table.LVTable.Remove | src/table.cpp:17-25 | the map without the key |
| Table.LVTable.Clone | src/table.cpp:65-97 | iterating with Next meets every key once: the clone is equal |
| TableNodes.JoinChained | src/table.cpp:143-149 | a free node linked behind a key's main position: every key stays reachable from its main position |
| TableNodes.MoveChained | src/table.cpp:126-142 | moving a colliding node keeps chains acyclic, with one predecessor at most |
| Frames.TrapsOf | src/vm.cpp:1272-1286 | the traps are one segment a frame, and each recorded its own frame's base and top, at any depth |
| Frames.CatcherIs | src/vm.cpp:1310-1349 | the frame that catches is the innermost with a trap, no further out than the root of this activation |
| Frames.SuspendRestore | src/object.cpp:160-206 | suspending traps and restoring them at another base gives them back in order, moved with their frame |
| VM.LVVM.Throw | src/vm.cpp:1310-1349 | a throw resumes at the trap of the catching frame with that frame's base and top and the error in its register, the value of every captured variable kept except one in that register, and the generators of the frames left dead; uncaught, it leaves the frames of this activation and no trap |
| VM.LVVM.FindOuter | src/vm.cpp:1889-1907 | two captures of one slot share one outer; the list stays strictly descending |
| VM.LVVM.CloseOuters | src/vm.cpp:1964-1972 | exactly the outers at or above the slot are closed, and each still shows the value it showed |
| VM.LVVM.EnterFrame | src/vm.cpp:1909-1936 | a call, growing and moving the stack if need be, keeps every slot and what every captured variable shows |
| VM.LVVM.EnterTailFrame | src/vm.cpp:1909-1936 | the same for a frame that is used again |
| VM.LVVM.TailCall | src/vm.cpp:881-890 | a tail call closes what is captured of the frame before it moves the arguments over it: every captured variable keeps its value, and the arguments are those passed, though they may overlap |
| VM.LVVM.LeaveFrame | src/vm.cpp:1938-1954 | back to the caller's base and top; captured variables of the frame keep their values, and the slots above are null |
| VM.LVVM.Yield | src/vm.cpp:1230-1240 | a running generator is suspended with its registers and traps; a captured variable of the frame is kept if and only if its value was null already or it is in the register that is yielded |
| VM.LVVM.Resume | src/object.cpp:174-220 | exactly a suspended generator resumes: registers and traps are back, relative to the new base |
| Coroutine.YieldResume | src/object.cpp:139-220 | yield, any call, resume on top of it: kept registers are equal and traps are moved by the distance of the two bases |
| Coroutine.YieldOneOfTwo | src/vm.cpp:1230-1240 | of two captured variables of a generator the one that is yielded is kept, and the other is null afterwards |
| Machine.Run | src/vm.cpp:880-1306 | over every run of calls from code or as the root of an activation, tail calls, returns, traps, throws, captures, closes, generator starts, yields and resumes: frames, traps and open outers fit together, a generator runs exactly while one frame is its own, no generator once dead runs again, and every variable ever captured is either in the list of open ones or has its own value |
| Machine.DoRaise | src/vm.cpp:1310-1349 | over any machine state that a run can reach, a throw leaves exactly the frames inside the catching one, and every generator of these frames is dead while every other keeps its state |
| Collector.LVSharedState.RunMark | src/state.cpp:301-320 | the marked objects are the least set with the roots and all it refers to; they are one well-formed chain and the rest another |
| Collector.LVSharedState.CollectGarbage | src/state.cpp:374-404 | objects out of reach give up their references and are released exactly if nothing refers to them any more; the others keep theirs, are unmarked in a well-formed chain, and their counts are less by the references given up; the result is the number of objects out of reach less those released before their turn; there are none of these if each object out of reach is referred to from elsewhere or by an object not before it in the chain, and only if, where every object has a reference and none is kept by one before it until that is released |
| Collector.LVSharedState.Collect | src/state.cpp:374-404 | if nothing outside the roots refers to what they do not reach, exactly that is released, and the heap is valid and counted as before |
| Collector.LVSharedState.CollectTwice | src/state.cpp:374-404 | a second collection finds nothing |
| Collector.CollectTwo | src/state.cpp:374-404 | an array in an array, with no roots: both are released and the result is 1 |
| Collector.AllReleased | src/state.cpp:374-404 | every object out of reach that nothing outside refers to is released, whatever cycles it was part of |
| Collector.LVSharedState.Sweep | src/state.cpp:380-394 | finalizing, holding the next object while this one is released, visits or has released every unmarked object, though releases unlink objects ahead of it |
| Collector.LVSharedState.ResurrectUnreachable | src/state.cpp:322-372 | the unreachable objects are counted, and held by a new array that has them all but prototypes and outers: each of these has one reference more and every other object as many as before, and one chain has every object and the array |
| StringTable.Run | src/state.cpp:595-676 | after any run of interning and releasing there is exactly one live string for every text in use, and none besides |
| StringTable.LVStringTable.Add | src/state.cpp:612-636 | the live string with these contents, a new one only if there was none |
| StringTable.LVStringTable.Resize | src/state.cpp:638-653 | the same strings, each in the bucket of its hash |
| StringTable.LVStringTable.Remove | src/state.cpp:655-676 | exactly its argument leaves |
| StringTable.LVStringTable.AddAll | src/state.cpp:612-636 | two handles are equal exactly if the contents are |
| HeapSort.HSort | src/baselib.cpp:881-894 | a sorted permutation for every total preorder on the values of the array, without the inconsistent-compare error; a permutation for any comparator |
| HeapSort.ObjCmpIff | src/vm.cpp:261-326 | on nulls, booleans, integers and strings the comparison used when none is given is such a preorder exactly if, but for nulls, the values are of one kind |
| HeapSort.RootGreatest | src/baselib.cpp:846-879 | in a heap with children 2r and 2r+1 from index 0, where 0 is its own child, the root is greatest, for a total preorder on the values of the heap |
| Escape.EscapeReadIff | src/lvstring.cpp:86-172 | a byte string escaped, quoted and read back is itself exactly if all its characters are 7-bit, NUL included, and it is not a lone character written as a hexadecimal escape; whatever follows the literal, and whatever was in the buffer |
| Escape.LoneNewline | src/lvstring.cpp:152-156 | the escape of a lone newline is cut to a backslash, x, 0 and a NUL, and does not read back |
| Escape.LVLexer.ReadString | src/lexer.cpp:400-535 | the in-place scanner reads the literal that the recursive reader does, or fails where it does |
| Escape.EscapeAndRead | src/lvstring.cpp:86-172 | the methods that escape and read, together, give the string back as a token exactly under that condition |
| Jsmn.JsmnParser.Parse | modules/json/module.cpp:228-394 | the scanning loop over the token array computes the token sequence of the text, its error code, and where it stops |
| JsonTokens.Resume | modules/json/module.cpp:617-636 | going on where the array was full, with more room, is the same as having had that room |
| JsonTokens.TokenizeAll | modules/json/module.cpp:617-636 | growing and retrying gives the outcome of one run in an array of any sufficient size |
| JsonTokens.TokensNest | modules/json/module.cpp:228-394 | on success all tokens are closed, in order of their starts, and any two are nested or disjoint |
| JsonTokens.SizesAddUp | modules/json/module.cpp:155-223 | the sizes of all tokens add up to the number of tokens created under another |
| JsonLevel.RoundTripIff | modules/json/module.cpp:432-615 | decoding what was encoded is the identity exactly on trees whose integers have no point in the text from them on and whose floating-point numbers have one |
| JsonLevel.RoundTrip | modules/json/module.cpp:432-615 | it is the identity on every tree of null, booleans, plain strings, arrays and objects |
| JsonLevel.PointTurnsIntegers | modules/json/module.cpp:586-592 | `[1, "."]` does not come back |
| JsonLevel.EncodeDecode | modules/json/module.cpp:432-644 | encoding into a buffer, tokenising with retries and decoding on a stack give the tree back under exactly that condition |
| JsonDecode.JsonDecodeText | modules/json/module.cpp:617-644 | tokenising with retries and building on a stack computes the value that the token sequence of the whole text describes, or the error |
| SaveLoad.ProtoBack | src/object.cpp:418-559 | loading a saved prototype, nested to any depth, gives it back and leaves exactly what follows; only four stray bytes behind each outer's kind are lost |
| SaveLoad.Truncated | src/object.cpp:480-559 | a stream that ends anywhere before its end is refused |
| ClosureStream.SaveClosure | src/object.cpp:384-392 | saving succeeds exactly if every literal and name is of a kind that can be saved and the stream has room |
| ClosureStream.LoadClosure | src/object.cpp:394-405 | loading accepts exactly the streams the format describes |
| ClosureStream.SaveAndLoad | src/object.cpp:384-405 | writing a closure behind whatever a stream holds and reading it from there gives it back |
| Sha1.HashPieces | modules/crypto/sha1.cpp:21-79 | however a message is cut into pieces, the result is the SHA-1 of the whole (sections 5.1.1, 5.2.1, 5.3.1 and 6.1.2 of FIPS 180-4) |
| Sha1.SHA1.Transform | modules/crypto/sha1.cpp:104-203 | words wider than 32 bits and a circular schedule of sixteen words compute, in their low halves, the compression function with its eighty words |
| Sha1.SHA1.Final | modules/crypto/sha1.cpp:42-79 | padding by the length of the whole message, then a fresh start |
| Sha1.PadLength | modules/crypto/sha1.cpp:42-68 | the padded message is a whole number of blocks, with as few zeros as that takes |

## Findings

Places where the code does not do what one would expect of it. Each is proved with an input, and with the exact
condition.

- **A variable as the condition of `?:` right after a comparison is ignored.** `(a < b) == (x ? true : false)` with
  `a < b` and `x` true is false (`Limits.ChoiceGoesWrong`): the jump is merged with the pending `a < b`
  (src/funcstate.cpp:445-451 does not compare registers). The test is right exactly if the instruction before it is not
  a comparison open to rewriting (`Limits.BareConditionIff`; for any jump, `Stream.TestMergeIff`).
- **`var a = 1, b = a` leaves `a` unassigned.** The move into `b` redirects the load of `a`
  (`Limits.IntegerGoesToSecond`). The second declaration copies the first variable exactly if the operation that
  computed it is not one of the eleven that merge with a move, or not open to rewriting (`Limits.SecondVariableIff`,
  `Stream.MoveMergeIff`): src/funcstate.cpp:534 does not ask whether the register is a variable, and
  src/compiler.cpp:1212-1232 does not snooze.
- **The result of a call is lost from register 128 on.** After 126 variables, `var z = f()` asks for register 128
  (`Execute.After126`). src/vm.cpp:892-897 reads the destination as a signed byte, so the result of a closure goes to a
  register below the frame. It arrives, whatever closure is called, exactly if fewer than 128 registers are in use
  (`Execute.CallResultIff`).
- **`1 % 0` is 1.** src/vm.cpp:1033 does not look at whether the operation failed, so execution goes on with the
  register as it was (`Execute.ModuloByZero`). A `%` does what it should exactly if it does not fail (`Execute.ModIs`),
  in any program: at the first that fails, the program raises and the interpreter goes on (`Execute.FailurePassed`).
- **JSON numbers change kind.** `[1, "."]` comes back with a floating-point 1 (`JsonLevel.PointTurnsIntegers`): the
  decoder looks for a point from the number to the end of the text. `JsonLevel.RoundTripIff` is the exact condition.
- **Escaped strings do not always read back.** A string of one newline is escaped to a backslash, `x`, `0` and a NUL
  (`Escape.LoneNewline`): the bound given to the formatting is four bytes a character, and a lone escape with its NUL
  takes five. A character above 127 is written as a sign-extended escape, which reads back as seven characters if the
  string has three or more, and is cut in a shorter one. The string comes back exactly if all its characters are 7-bit
  and it is not a lone character that is neither printable nor NUL (`Escape.EscapeReadIff`).
- **A captured variable of a generator's frame becomes null when it yields.** The registers are cleared before the
  frame's outers are closed, so the outer closes over null. Of two captured variables the one that is yielded is kept
  and the other is lost (`Coroutine.YieldOneOfTwo`): a variable keeps its value exactly if its slot is below the frame,
  held null, or is the one yielded, which is put back in time (`VM.LVVM.Yield`, last clause).
- **Four stray bytes are saved behind each outer's kind.** The kind is written with the width of an integer from a
  smaller field; for any prototype with outers the high bytes are whatever is there, and are lost on loading. Nothing
  else is, in any prototype (`SaveLoad.ProtoBack`).
- **The number of collected objects is a lower bound.** An array in an array, both out of reach, counts as one
  (`Collector.CollectTwo`). The loop does not count an object that another's finalization releases ahead of its turn:
  the result is the number of objects out of reach less exactly those. Every object is counted if each is referred to
  from elsewhere or by an object that is not before it in the chain; where each has a reference and none is kept by a
  closure or prototype before it, only then (`Collector.LVSharedState.CollectGarbage`). An object out of reach that is
  not released, because something outside the roots still refers to it, is in no chain afterwards.
- **NewSlot reports false for a new key when the table is full.** The fourth key put in a fresh table of four nodes is
  reported as not new (`Table.FillFour`; src/table.cpp:151-161). True is returned exactly if the key is new and, with
  it in place, a node is still free (`Table.LVTable.NewSlot`); the contents are right in any case.
- **Register 255 is handed out, though as a destination it means none.** src/funcstate.cpp:265-268 compares the size
  before it grows; a register is refused exactly if 256 are in use (`Limits.RegisterRefusedIff`). With 255 in use, the
  value of `o[k] = v` is meant for it and does not arrive (`Limits.LastRegister`); a value arrives exactly if its
  register is another one (`Limits.SetArrivesIff`; for calls, `Execute.CallLandsIff`).

## Left out

- Execute.RunsAsMeant: is about runs on which no `%` fails and every result of a call has a proper register. That is so
  of every run under the condition of Execute.CalmSteady on the code; Execute.CallLandsIff and Execute.ModIs are exact
  for one instruction. Values that are called through a metamethod count as native functions, and a native function
  does not suspend the machine.
- Program.ProgramCorrect: is about the machine without these two; it asks that the program compiles: expressions are as
  for ExprSim.SimE, and no variable is declared by the unbraced branch of an `if`, where a declaration without a value
  would leak into the enclosing scope.
- Program.ProgramSafe: is about the same machine; Execute.RunsInside carries it over.
- Toplevel.Compile: the same, for runs as in Execute.RunsAsMeant.
- ExprSim.SimE: asks for Safe (no variable as the condition of `?:` while a comparison is pending, where the property
  is false as above), for WellFormed (operators that exist) and for Fits (fewer than 255 registers).
- Peephole.MergeEffect: is about straight-line merges; CMP with JZ is Stream.TestMergeIff, and the rewrites of CALL
  with RETURN to TAILCALL and of CLOSE with RETURN are not modelled.
- FuncState.FunctionState.AddInstruction: has no case for RETURN, NEWSLOT, SETOUTER and LINE. The modelled expressions
  and statements emit none of the last three; a RETURN is merged after a call in a nested function, or after a CLOSE.
- Compiler.LVCompiler.Expression: has no outer variables, `base`, assignment to a new slot, literals of tables, classes
  and functions, `delete`, `resume`, and comma expressions.
- Compiler.LVCompiler.Statement: has no `for`, `foreach`, `switch`, `try`, `throw` and `yield`, no declarations of
  functions, classes, enums and constants, and no `var` with several variables; two of them are in Limits.
- VM.LVVM.EnterFrame: every trap's recorded stack size is its frame's top, so the values pushed for native calls and
  metamethods lie outside the model; growing inside a metamethod call, which raises, is left out.
- VM.LVVM.EnterTailFrame: the growth that is refused inside a metamethod call is left out here too.
- VM.LVVM.LeaveFrame: the store of a returned value into the caller's register is not modelled.
- VM.LVVM.TailCall: the growth that is refused inside a metamethod call is left out here too.
- VM.LVVM.Yield: the store of the yielded value into the caller's register is not modelled, as for LeaveFrame. A
  generator keeps its `this` as a weak reference, so that it can be null after resuming; here it is kept.
- Collector.LVSharedState.CollectGarbage: asks that no thread out of reach has outers still open on its stack
  (Detached): finalizing such a thread closes them (src/vm.cpp:171-189), and an outer that a live closure captured gets
  a reference to the value, which is not in the model. An object leaves its chain before it gives up its references,
  though some destructors do it after; release hooks, weak references and native memory are not modelled. The indices
  are the objects there when the collection starts.
- Collector.LVSharedState.ResurrectUnreachable: the index of the new array is given, one that no object has.
- HeapSort.HSort: comparators are functions of the two values; for one that is not a total preorder only the
  permutation is promised.
- HeapSort.ObjCmpIff: says nothing of floating-point numbers and objects, whose order is a parameter.
- Escape.EscapeAndRead: a buffer that holds everything written is assumed, though strings of 8-bit characters need more
  than the four bytes a character that are reserved.
- SaveLoad.ProtoBack: gives the prototype back without the four stray bytes behind an outer's kind.
- JsonLevel.RoundTripIff: strings without quote, backslash and NUL, and objects with distinct string keys in iteration
  order; a floating-point number is its text, without rounding, and integers are not cut to 64 bits.
- JsonLevel.EncodeDecode: the encoder's buffer is a sequence without bound; in modules/json/module.cpp:407-418 it is
  doubled once when it is full, which is less than a long string needs.
- Machine.Run: code is not executed, so which requests follow one another is arbitrary; those that the compiler's code
  never makes are skipped: a call whose registers end below an open captured variable, a return or tail call inside
  `try`, the end of more `try` than there are, a register outside the frame, a yield without a generator.
- Closures over outer variables in compiled programs, CLOSE instructions, line instructions and line information.
- A closure's bound environment, which replaces `this` when it is called.
- Metamethods, tables and calls inside an expression are arbitrary effects, deterministic in the state of the heap.
- Equality of an integer and a floating-point number is an arbitrary relation; arithmetic is not interpreted.
- The limit on the number of literals, and code offsets beyond 32 bits.
- Parsing: programs are trees. A compile error is a flag that stays, where the compiler jumps out at once.
- Null keys, weak references in tables, and hash & (n - 1), which is taken as the remainder for a power of two.
- Outers left open by a throw caught in the same frame, and `lv_reservestack`, which does not relocate outers.
- The hash function of strings, and encodings: strings are bytes or characters.
- Decoding tokens in an order the tokeniser never makes gives an unspecified value, where the decoder reads stray
  memory.
- The saved format is that of a 64-bit little-endian build; a negative count fails to load.
- The unrolled rounds of SHA-1 are a loop, and reading a file by blocks is reading from a byte stream.
- Everything that is input, output or a foreign call: files, streams, shell, network, databases, the native API.
