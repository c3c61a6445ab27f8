# A verified model of labrea and the Lua 5.1.4 engine it embeds

labrea preloads a library into a program, intercepts C functions and runs Lua scripts around them; the
Lua 5.1.4 engine is part of the repository. This project models the parts of both whose correctness is hardest
to see from any one function, in Dafny, and proves what they promise.

`dafny verify dfyconfig.toml` checks everything.

## What is modelled

**Garbage collector** (`Gc*.dfy`, `GlobalState.dfy`). The heap is a graph of objects with the mark bits of `lgc.h`;
`Gc` is a snapshot of the collector's fields of `global_State`. Each collector operation and each barriered store of
the mutator is a function on snapshots, `Inv` is the invariant between any two of them, and `GcRuns` lets
allocations, stores, stack changes, captured and closed upvalues, string interning, resizes, collector steps and
full collections happen in any order. `Reachable` is a path from the roots, independent of colours; `GcStores` says
without the functions of the model what each event writes. The class `GlobalState` runs the same operations with the
source's loops and list updates; its methods end in the state that the functions give.

**Code for `and`, `or`, `not` and comparisons** (`LCode*.dfy`). `LCodeVm` is the target: the outcome of running
code. `LCodeGen` is the generator on sets of jumps. `LCodeWays` describes on the source how a run through the code
of an expression ends and with which value; the emitted code is proved to do that for every expression, and the
description is compared with `Eval`, the value of the expression, which `LCodeManual` gives as the manual does.
`LCodeFuncState` is the generator as it is written, with every list of jumps threaded through the operands of the
jump instructions, proved to emit the code that `LCodeGen` describes.

**Tables** (`Table*.dfy`). The array part and the chained scatter table with Brent's variation, as one class that
represents a finite map (`contents`). `mainposition` is an arbitrary function of key and size. The chains are stated
without paths: every node has a line and a place on it.

**Pattern matching** (`Patterns.dfy`, `PatternText.dfy`, `PatternMeaning.dfy`, `Backtracking.dfy`,
`MatchState.dfy`). `Patterns` gives the meaning of a pattern as choices, one per item, and the order in which they
are preferred; `Backtracking` proves that the recursive matcher finds the preferred one; `MatchState` is the matcher
of `lstrlib.c` with its captures updated in place. `PatternText` describes patterns as trees and proves that the
text of a tree is read as the tree; `PatternMeaning` says what the items match.

**Sorting** (`TableSort.dfy`), the in-place quicksort of `table.sort`.

**Binary chunks** (`Chunk*.dfy`). The byte format as functions, the writer and the reader as classes over a writer
that may fail and a reader that hands out pieces of any size, and the round trip between them; `ChunkChecks` says
byte by byte what is accepted.

**Operator precedence** (`Operators.dfy`). `subexpr` against a description of trees that follows the precedence
table of section 2.5.6 of the Lua 5.1 Reference Manual.

**Lexical scope** (`Scopes.dfy`). Names, blocks and upvalue descriptors across nested functions.

**Hooks** (`Hooks.dfy`, `HookSteps.dfy`, `HookWrapper.dfy`). Any number of threads, each with a stack of wrappers,
hooks, original functions and scripts, taking steps in any order; and the wrapper itself as sequential code over
those steps, which takes exactly the steps that the tree of calls asks for.

**`%q` and string literals** (`Quoted.dfy`, `QuotedText.dfy`), and **references** (`References.dfy`).

## Where the code does not do what it promises

- `luaK_jump` puts pending jumps on the list of the jump it emits (lua-5.1.4/src/lcode.c:59-66). When a literal makes
  `luaK_goiffalse` or `luaK_goiftrue` jump always, the list that results mixes a jump without a value and one that
  still carries a value, and the value of the whole expression can be wrong. `LCodeWays` says on the source which value
  the code leaves for any expression (`LCodeTheorem.ValueEmitted`). It is the value of the expression if and only if the
  run does not leave through a jump with such a value that differs from the boolean the jump stands for
  (`LCodeTheorem.ValuePreservedIff`). The smallest expressions that go wrong are `(a and b) or (true or c)`,
  `(a and b) or (false and c)`, `(a or b) and (true or c)` and `(a or b) and (false and c)`: the code yields `a` in place
  of the literal exactly if `a` decides the first operator and is not itself the literal
  (`LCodeTheorem.TakenOverIsWrongIff`). The code is right for every expression in which no `and` has a left operand that
  ends in a false literal and no `or` one that ends in a true literal (`LCodeTheorem.PlainValuePreserved`).
- `lua_setupvalue` runs its barrier on the closure, though other closures may share the upvalue
  (lua-5.1.4/src/lapi.c:1071-1086). The collector's invariant survives if and only if it is not the case that marking is
  under way, the upvalue is black, the value is white and the closure is not black (`GcSetUpvalue.SetUpvalueIsSafeIff`).
  A program can run into it: two closures capture one local variable, the collector marks the first one, a new table is
  stored through the second one, and the collector frees the table although the first closure still leads to it
  (`GcMissedBarrier.SetUpvalueFreesReachable`). In general the value is freed as if the upvalue held nil
  (`GcMissedValue.MissedValueIsFreedIff`).
- `labrea_periodic` and `labrea_exiting` run with the mutex but without the re-entrancy flag (scripting.cc:166-179,
  250-257). A function they call is an outermost call to the wrapper: with advice it waits for ever for the mutex its own
  thread holds, whatever the other threads do, and without advice the original runs with the mutex held. Both are stated exactly
  (`Hooks.ScriptCallReturnsIff`, `Hooks.OriginalHoldsTheMutexIff`) and shown to happen in runs from the beginning of the
  program (`Hooks.ScriptCallCanStick`, `Hooks.OriginalCanHoldTheMutex`).

## Model

| member | source | states |
|---|---|---|
| GcRuns.RunsAreSafe | lua-5.1.4/src/lgc.c:556-607 | After any run of program and collector events from a new state, every reachable object exists and is not dead, and the next event does not free it |
| GcRuns.NothingReachableIsFreed | lua-5.1.4/src/lgc.c:407-428 | From any state of the invariant, no event frees an object the program can still reach, and a collection leaves its content alone |
| GcRuns.ApplyKeeps | lua-5.1.4/src/lgc.h:86-97 | Every event (creation, barriered stores, stack writes and cuts, captures, closes, interning, resizes, collector steps) keeps the invariant |
| GcRuns.InitialInv | lua-5.1.4/src/lstate.c:143-190 | The state of a new Lua satisfies the invariant |
| GcCollector.SingleStepKeeps | lua-5.1.4/src/lgc.c:556-607 | One collector step in any phase keeps the invariant and every reachable object with its content |
| GcCollector.SingleStepProgress | lua-5.1.4/src/lgc.c:556-607 | Every step of a cycle after its first goes to a later phase or has less left to do in this one |
| GcFullCycle.FullGcCollectsExactly | lua-5.1.4/src/lgc.c:636-659 | A full collection from any collector state ends in the pause with everything current white; what is left is exactly what was reachable and the fixed objects, with contents unchanged |
| GcCycle.CycleCollectsExactly | lua-5.1.4/src/lgc.c:556-607 | When marking is under way and the collector goes on alone, what is left at the end of the cycle is exactly what the roots and the objects marked so far lead to, and the fixed objects |
| GcMark.ReallyMarkKeeps | lua-5.1.4/src/lgc.c:69-112 | Marking turns white objects into visited ones, adds to the gray list only, and stays within the live part of the heap |
| GcPropagate.PropagateMarkKeeps | lua-5.1.4/src/lgc.c:277-320 | Blackening one gray object keeps the tri-colour invariant and what the finished passes have established |
| GcPropagate.AtomicMarkFinishes | lua-5.1.4/src/lgc.c:525-553 | After the three passes of the atomic step the marked objects are closed under references and contain the re-marked roots |
| GcSweep.SweepBucketKeeps | lua-5.1.4/src/lgc.c:572-581 | Sweeping one string bucket keeps the invariant and everything that is not dead |
| GcSweep.SweepOneKeeps | lua-5.1.4/src/lgc.c:407-428 | Sweeping one element of rootgc, a thread with its open upvalues, keeps the invariant and everything that is not dead |
| GcSweep.SweepManyKeeps | lua-5.1.4/src/lgc.c:582-592 | So does a sweep of any length, and it makes progress unless the list is done |
| GcMutator.TableStoreKeeps | lua-5.1.4/src/lgc.c:675-683 | A store in a table with the backward barrier keeps the invariant in every phase |
| GcMutator.FieldStoreKeeps | lua-5.1.4/src/lgc.c:662-672 | A store in any other object with the forward barrier keeps the invariant in every phase |
| GcMutator.NewObjectKeeps | lua-5.1.4/src/lgc.c:686-692 | Linking a new object in the current white keeps the invariant in every phase |
| GcMutator.SetUpvalKeeps | lua-5.1.4/src/lvm.c:447-452 | Assigning to an upvalue, open or closed, keeps the invariant |
| GcStores.EventWrites | lua-5.1.4/src/lgc.h:86-97 | Every event does what it says and nothing else: what is created is there and reachable, what is stored is at its place in the object, everything else is as it was |
| GcStores.TableStoreWrites | lua-5.1.4/src/lvm.c:134-146 | After a store in a table its content is the old one with the value at its place, every other object is as it was, and if the table is reachable, so are table and value |
| GcStores.FieldStoreWrites | lua-5.1.4/src/lgc.h:86-94 | The same for every other kind of object and every field |
| GcStores.StorableMeans | lua-5.1.4/src/lgc.h:86-97 | The stores of the model reach every field of every object, and the place behind the last one of those that grow |
| GcStores.StackStoreWrites | lua-5.1.4/src/lvm.c:403-406 | The same for a stack slot, and with it what the open upvalues of the thread hold |
| GcStores.CloseWrites | lua-5.1.4/src/lfunc.c:96-112 | Closing closes exactly the open upvalues of the thread from the level on, each with the value of its slot, unless they were dead; upvalues below the level stay open, and no other object changes |
| GcStores.NewObjectWrites | lua-5.1.4/src/lgc.c:686-692 | A new object is there as given, current white and reachable; every other one is as it was |
| GcStores.StoredSurvives | lua-5.1.4/src/lgc.c:636-659 | A value stored in a reachable table, and the object that it refers to, are there after the next full collection |
| GcStores.PointsMeans | lua-5.1.4/src/lgc.c:277-320 | What an object refers to, for every kind of object: these are the references along which objects are reachable |
| GcLastWrite.ClosureReadsLastWrite | lua-5.1.4/src/lfunc.c:53-112 | In every run, from the point where a stack slot has an open upvalue and as long as the program can reach it, the upvalue holds the value last written to the variable, through the upvalue or in the slot, before and after it is closed |
| GcLastWrite.RunHolds | lua-5.1.4/src/lfunc.c:53-112 | The same from any state of the invariant, for an upvalue that is open or closed at first |
| GcLastWrite.EventHolds | lua-5.1.4/src/lfunc.c:96-112 | After any single event a reachable upvalue holds what the event wrote to its variable, and what it held before if the event did not write to it |
| GcLastWrite.UpvalReadsWrite | lua-5.1.4/src/lvm.c:447-452 | An assignment to an upvalue, open or closed, is read back through it, and no other variable changes |
| GcUpval.CloseKeeps | lua-5.1.4/src/lfunc.c:96-112 | Closing keeps the invariant and the value of every live upvalue, and leaves no open upvalue of the thread at or above the level |
| GcFindUpval.FindUpvalKeeps | lua-5.1.4/src/lfunc.c:53-79 | Capturing a slot keeps the invariant and yields the live open upvalue of that slot |
| GcFindUpval.OneUpvalPerSlot | lua-5.1.4/src/lfunc.c:53-79 | Two open upvalues of one stack slot are the same upvalue |
| GcIntern.InternKeeps | lua-5.1.4/src/lstring.c:75-93 | Interning a string, with resurrection of a dead one, keeps the invariant, and so the string table |
| GcIntern.InternIsInjective | lua-5.1.4/src/lstring.c:75-93 | In any state of the invariant two strings are the same object exactly if they have the same content |
| GcIntern.ResizeKeeps | lua-5.1.4/src/lstring.c:22-47 | Rehashing all chains into a table of another size keeps the invariant |
| GcBits.ColourMacros | lua-5.1.4/src/lgc.h:41-77 | The macros on the byte `marked` compute the colour predicates and changes of the model, including the sweep's test with otherwhite |
| GcSetUpvalue.SetUpvalueIsSafeIff | lua-5.1.4/src/lapi.c:1071-1086 | lua_setupvalue on any upvalue of a Lua closure, open or closed, keeps the collector's invariant if and only if its barrier is not missed |
| GcMissedValue.MissedValueIsFreedIff | lua-5.1.4/src/lapi.c:1071-1086 | If it is missed and the collector goes on alone, the value is freed by the end of the cycle if and only if, with nil in the upvalue instead, neither the roots nor the objects marked so far lead to it |
| GcMissedValue.CycleHolding | lua-5.1.4/src/lgc.c:556-607 | To the end of a cycle the collector does the same whatever value an upvalue that is black already holds |
| GcMissedBarrier.SetUpvalueFreesReachable | lua-5.1.4/src/lapi.c:1071-1086 | In a run from a new state, with closure and value reachable, the barrier is missed, and the collector then frees the table that was stored although it is reachable |
| GlobalStates.GlobalState.constructor | lua-5.1.4/src/lstate.c:143-190 | Ends in the initial state of the runs |
| GlobalStates.GlobalState.ReallyMarkObject | lua-5.1.4/src/lgc.c:69-112 | Ends in the state that ReallyMark gives |
| GlobalStates.GlobalState.PropagateOne | lua-5.1.4/src/lgc.c:277-320 | Ends in the state that PropagateMark gives |
| GlobalStates.GlobalState.PropagateGray | lua-5.1.4/src/lgc.c:323-327 | Empties the gray list, as PropagateAll does |
| GlobalStates.GlobalState.AtomicStep | lua-5.1.4/src/lgc.c:525-553 | Ends in the state that Atomic gives, white flipped |
| GlobalStates.GlobalState.SweepStringBucket | lua-5.1.4/src/lgc.c:572-581 | Ends in the state that SweepBucket gives |
| GlobalStates.GlobalState.SweepRoot | lua-5.1.4/src/lgc.c:407-428 | Ends in the state that SweepOne gives |
| GlobalStates.GlobalState.SweepList | lua-5.1.4/src/lgc.c:407-428 | Ends in the state that SweepMany gives |
| GlobalStates.GlobalState.FreeObj | lua-5.1.4/src/lgc.c:378-402 | Frees the object, a thread after closing its upvalues |
| GlobalStates.GlobalState.Step | lua-5.1.4/src/lgc.c:556-607 | Ends in the state that SingleStep gives; the invariant and all reachable objects are kept |
| GlobalStates.GlobalState.FullCollection | lua-5.1.4/src/lgc.c:636-659 | Leaves exactly the reachable and the fixed objects |
| GlobalStates.GlobalState.Link | lua-5.1.4/src/lgc.c:686-692 | Ends in the state that NewObject gives, with the invariant; the object is there as given and reachable, and every other one is as it was |
| GlobalStates.GlobalState.LinkClosedUpval | lua-5.1.4/src/lgc.c:695-710 | Ends in the state that LinkUpval gives: black with a barrier while marking, else white |
| GlobalStates.GlobalState.BackBarrier | lua-5.1.4/src/lgc.c:675-683 | Ends in the state that BarrierBack gives |
| GlobalStates.GlobalState.ForwardBarrier | lua-5.1.4/src/lgc.c:662-672 | Ends in the state that BarrierForward gives |
| GlobalStates.GlobalState.SetTableField | lua-5.1.4/src/lgc.h:89-90 | Stores the value at its place in the table, changes no other object, and keeps the invariant with the backward barrier; value and table are reachable if the table was |
| GlobalStates.GlobalState.SetObjectField | lua-5.1.4/src/lgc.h:86-94 | The same for any other object with the forward barrier |
| GlobalStates.GlobalState.CloseUpvalues | lua-5.1.4/src/lfunc.c:96-112 | Ends in the state that CloseUpvals gives |
| GlobalStates.GlobalState.FindUpvalue | lua-5.1.4/src/lfunc.c:53-79 | Returns the open upvalue of the slot, found in or inserted into the sorted list, with the invariant |
| GlobalStates.GlobalState.Newlstr | lua-5.1.4/src/lstring.c:75-93 | Returns the object with the given content, found (and brought back if dead) or new, with the invariant |
| GlobalStates.GlobalState.ResizeStringTable | lua-5.1.4/src/lstring.c:22-47 | Ends in the state that ResizeStrings gives, with the invariant; nothing while strings are swept |
| LCodeTheorem.ValueEmitted | lua-5.1.4/src/lcode.c:390-411 | For every expression, if the source needs no more registers than there are, running the emitted code leaves what the way of the expression stores in the destination register and the other active registers alone, and every jump is patched |
| LCodeTheorem.ValuePreservedIff | lua-5.1.4/src/lcode.c:390-411 | If every comparison that the run comes to is true to the values of its operands, that is the value of the expression if and only if the run does not leave the expression through a jump that has taken over, from another condition, a value other than the boolean it stands for |
| LCodeTheorem.PlainOperandsPreservedIff | lua-5.1.4/src/lcode.c:390-411 | The same if and only if, without a condition on the run, for every expression in which no literal decides a condition inside an operand of a comparison |
| LCodeTheorem.PlainValuePreserved | lua-5.1.4/src/lcode.c:390-411 | The value is preserved for every expression without a literal that decides a condition, in particular without literals, with no condition but enough registers |
| LCodeTheorem.ValueCanBeLost | lua-5.1.4/src/lcode.c:59-66 | With a = 5 the code for (a or b) and (true or c) computes 5 and not true |
| LCodeWays.WaySound | lua-5.1.4/src/lcode.c:539-592 | If comparisons are true to their operands, a run goes the way of the truth of the expression, and what it holds is the value of the expression unless it was taken over |
| LCodeWays.EmittedIsRightIff | lua-5.1.4/src/lcode.c:539-592 | Then what is stored is the value of the expression exactly if the way is not spoilt |
| LCodeWays.CleanIsTrue | lua-5.1.4/src/lcode.c:681-694 | Comparisons are true to their operands if the run leaves none of the operands through a jump with a taken-over value other than its boolean |
| LCodeWays.PlainIsRight | lua-5.1.4/src/lcode.c:539-592 | It is, in every expression without a literal that decides a condition |
| LCodeWays.SmallestIsWrongIff | lua-5.1.4/src/lcode.c:539-592 | For the four smallest shapes, (a and b) or (true or c), (a and b) or (false and c), (a or b) and (true or c), (a or b) and (false and c), what is stored is wrong exactly if a decides the first operator and is not itself the literal; it is then a |
| LCodeRegisters.EnoughRegisters | lua-5.1.4/src/lcode.c:199-206 | The code of an expression can be generated if and only if the registers that the source needs are below the limit |
| LCodeTheorem.ConditionPreserved | lua-5.1.4/src/lcode.c:539-565 | If the registers suffice, the code of a condition goes on exactly if the way of the expression does, which is, if comparisons are true to their operands, exactly if the expression is true; otherwise it leaves by the list of false exits; the active registers are kept |
| LCodeTheorem.RunExpression | lua-5.1.4/src/lvm.c:385-581 | The interpreter, run on the emitted code, leaves what ValueEmitted and ValuePreservedIff say |
| LCodeTheorem.TakenOverIsWrongIff | lua-5.1.4/src/lcode.c:539-592 | For all variables a and b, every expression c and any destination, the code emitted for the four smallest shapes leaves a wrong value exactly if a decides the first operator and is not itself the literal; it leaves a where the literal is due |
| LCodeProgram.CompileAndRun | lua-5.1.4/src/lparser.c:827-853 | Compiling with threaded jump lists succeeds exactly if the source needs no more registers than there are; running the code then leaves what the way of the expression stores in the register after the locals: for a plain expression the value that the manual gives it, and, if comparisons are true to their operands, exactly if the way is not spoilt |
| LCodeManual.EvalIsManual | lua-5.1.4/src/lvm.c:541-581 | The value of an expression is the one that the manual gives it, written out for every kind of value of the operands |
| LCodeManual.LogicalOperators | lua-5.1.4/src/lobject.h:103 | If the first operand is nil or false, or yields the second operand, and yields the first, not yields true; if it is true or a number, the other way round |
| LCodeManual.InstructionsMean | lua-5.1.4/src/lvm.c:505-581 | What NOT, TEST and TESTSET do with nil, false, true and numbers |
| LCodeProgram.ExpressionComplete | lua-5.1.4/src/lcode.c:150-160 | No jump of a compiled expression stays unpatched and no TESTSET keeps the missing register |
| LCodeCorrect.CompileMeans | lua-5.1.4/src/lcode.c:718-790 | From any state of the generator, a run that arrives, whatever it holds, goes the way of the expression and delivers through its register or its jump lists; a run that has left stays out |
| LCodeCorrect.GoIfDecides | lua-5.1.4/src/lcode.c:539-592 | luaK_goiftrue and luaK_goiffalse go on or leave as the way of the expression turns, and the jump holds the value that its test has found, or the one that it has taken over |
| LCodeCorrect.CodeNotPasses | lua-5.1.4/src/lcode.c:594-626 | not delivers the negation: its lists are exchanged and lose their values |
| LCodeCorrect.CodeCompPasses | lua-5.1.4/src/lcode.c:681-694 | A comparison delivers whether its operands compare as asked, with operands exchanged for > and >= |
| LCodeShape.CompileShape | lua-5.1.4/src/lcode.c:718-790 | Compiling keeps the lists open, inside the code and disjoint, the registers a stack, and leaves enclosing lists alone |
| LCodeClosed.CompileListed | lua-5.1.4/src/lcode.c:150-166 | Every unpatched jump and every TESTSET without register stays on a list, so that none is forgotten |
| LCodeRun.PatchRun | lua-5.1.4/src/lcode.c:150-160 | What patching a list changes in the runs of the code: the exits of the list continue at their targets, those with a value after storing it |
| LCodeRun.RemoveRun | lua-5.1.4/src/lcode.c:144-147 | Removing values changes no run except that nothing is stored |
| LCodeRun.AppendRun | lua-5.1.4/src/lcode.c:797-809 | Appending code changes no run before its end |
| LCodeVm.Execute | lua-5.1.4/src/lvm.c:385-581 | The interpreter's loop ends where the recursive description of a run says |
| LCodeChains.ChainConcat | lua-5.1.4/src/lcode.c:185-196 | Linking the last jump of one list to the head of another threads the concatenation |
| LCodeFuncState.FuncState.GetJump | lua-5.1.4/src/lcode.c:100-106 | The next jump of a list, from the operand |
| LCodeFuncState.FuncState.GetJumpControl | lua-5.1.4/src/lcode.c:109-115 | The instruction on which it depends whether a jump is taken: the jump itself if every run that gets there takes it, else the test before it, from which a run takes the jump exactly if the test says so |
| LCodeFuncState.FuncState.FixJump | lua-5.1.4/src/lcode.c:80-90 | Sets the operand of one jump to its target |
| LCodeFuncState.FuncState.NeedValue | lua-5.1.4/src/lcode.c:122-128 | Whether a jump of the threaded list lacks a value |
| LCodeFuncState.FuncState.PatchTestReg | lua-5.1.4/src/lcode.c:131-141 | Turns the TESTSET before a jump into its final form |
| LCodeFuncState.FuncState.RemoveValues | lua-5.1.4/src/lcode.c:144-147 | Walks the threaded list and removes the values of exactly its jumps |
| LCodeFuncState.FuncState.PatchListAux | lua-5.1.4/src/lcode.c:150-160 | Walks the threaded list while overwriting its links, and patches exactly its jumps |
| LCodeFuncState.FuncState.Concat | lua-5.1.4/src/lcode.c:185-196 | The result threads the first list followed by the second; only jumps of the first change, and only as links |
| LCodeFuncState.FuncState.DischargeJpc | lua-5.1.4/src/lcode.c:163-166 | The pending jumps arrive at the next instruction |
| LCodeFuncState.FuncState.Code | lua-5.1.4/src/lcode.c:797-809 | Emits one instruction, the pending jumps patched to it |
| LCodeFuncState.FuncState.Jump | lua-5.1.4/src/lcode.c:59-66 | Emits a jump whose list takes over the pending jumps |
| LCodeFuncState.FuncState.PatchToHere | lua-5.1.4/src/lcode.c:179-182 | The list becomes pending |
| LCodeFuncState.FuncState.CondJump | lua-5.1.4/src/lcode.c:74-77 | Emits a test and the jump it controls |
| LCodeFuncState.FuncState.InvertJump | lua-5.1.4/src/lcode.c:516-521 | Inverts the comparison before the jump |
| LCodeFuncState.FuncState.DischargeVars | lua-5.1.4/src/lcode.c:304-334 | Emits what LCodeGen.DischargeVars emits, other lists untouched |
| LCodeFuncState.FuncState.Discharge2Reg | lua-5.1.4/src/lcode.c:343-379 | Emits what LCodeGen.Discharge2Reg emits |
| LCodeFuncState.FuncState.CloseLists | lua-5.1.4/src/lcode.c:390-411 | Closes both lists of an expression, with the two boolean loads only if needed |
| LCodeFuncState.FuncState.Exp2Reg | lua-5.1.4/src/lcode.c:390-411 | Emits what LCodeGen.Exp2Reg emits; the expression is in its register and has no lists |
| LCodeFuncState.FuncState.Exp2NextReg | lua-5.1.4/src/lcode.c:414-419 | Emits what LCodeGen.Exp2NextReg emits |
| LCodeFuncState.FuncState.Exp2AnyReg | lua-5.1.4/src/lcode.c:422-433 | Emits what LCodeGen.Exp2AnyReg emits |
| LCodeFuncState.FuncState.Exp2Val | lua-5.1.4/src/lcode.c:436-441 | Emits what LCodeGen.Exp2Val emits |
| LCodeFuncState.FuncState.Exp2RK | lua-5.1.4/src/lcode.c:444-469 | Emits what LCodeGen.Exp2RK emits, and the operand |
| LCodeFuncState.FuncState.JumpOnCond | lua-5.1.4/src/lcode.c:524-536 | Emits the test, dropping a not before it, and returns the jump |
| LCodeFuncState.FuncState.GoIfTrue | lua-5.1.4/src/lcode.c:539-564 | Emits what LCodeGen.GoIf emits; the false exits are threaded in e.f and the true ones are pending |
| LCodeFuncState.FuncState.GoIfFalse | lua-5.1.4/src/lcode.c:567-591 | The same with the truths exchanged |
| LCodeFuncState.FuncState.CodeNot | lua-5.1.4/src/lcode.c:594-626 | Emits what LCodeGen.CodeNot emits and exchanges the lists |
| LCodeFuncState.FuncState.CodeComp | lua-5.1.4/src/lcode.c:681-694 | Emits what LCodeGen.CodeComp emits |
| LCodeFuncState.FuncState.Join | lua-5.1.4/src/lcode.c:745-760 | The list of the left operand is threaded before that of the right one |
| LCodeFuncState.FuncState.Compile | lua-5.1.4/src/lparser.c:827-853 | Emits for any expression what LCodeGen.Compile emits, and leaves enclosing lists alone |
| LCodeFuncState.FuncState.CompileInto | lua-5.1.4/src/lcode.c:390-411 | Emits for any expression and destination what LCodeGen emits |
| Tables.Table.constructor | lua-5.1.4/src/ltable.c:358-371 | A new table is empty and has the requested room |
| Tables.Table.GetNum | lua-5.1.4/src/ltable.c:435-449 | The slot of an integer key, in the array or on the chain of its main position, or none |
| Tables.Table.Get | lua-5.1.4/src/ltable.c:469-491 | The slot of any key, or none if the table has no such key |
| Tables.Table.GetFreePos | lua-5.1.4/src/ltable.c:382-388 | Finds a free node if there is any: they all lie before lastfree |
| Tables.Table.NewKey | lua-5.1.4/src/ltable.c:399-429 | Places a key that no live node has, before any dead nodes of the same key, moving a colliding node off its place if it does not belong there, and changes no value; after a rehash it needs no second one |
| Tables.Table.Set | lua-5.1.4/src/ltable.c:494-505 | The slot of the key, old or new, also if nodes with that key are dead, with no value changed; an error for nil and NaN |
| Tables.Table.Put | lua-5.1.4/src/ltable.c:494-505 | After a store under any key the table represents the old map with that one key written |
| Tables.Table.SetNodeVector | lua-5.1.4/src/ltable.c:272-294 | A hash part of free nodes with room for the requested keys |
| Tables.Table.Resize | lua-5.1.4/src/ltable.c:297-324 | New sizes, same map; no re-insertion triggers a rehash |
| Tables.Table.Rehash | lua-5.1.4/src/ltable.c:333-349 | The array gets the best size for the keys and the pending one, same map, and the pending key finds room |
| Tables.Table.NewSizes | lua-5.1.4/src/ltable.c:333-347 | The sizes that rehash computes by counting are those of the actual keys |
| Tables.Table.ResizeArray | lua-5.1.4/src/ltable.c:327-330 | A larger array part, same map |
| Tables.Table.RemoveEntry | lua-5.1.4/src/lgc.c:62-66 | Marking the key of a cleared entry dead, whether or not its object lives on, changes no value and keeps the chains |
| Tables.Table.FindIndex | lua-5.1.4/src/ltable.c:137-159 | The index of a key, that of its first node on the chain, alive or dead, if it stands in the table, and an error exactly if it does not |
| Tables.Table.Next | lua-5.1.4/src/ltable.c:162-179 | The first entry with a value after the index at which the given key stands, and an error exactly for a key that does not stand in the table |
| Tables.Table.Getn | lua-5.1.4/src/ltable.c:560-576 | A boundary: t[n] is not nil, or n is 0, and t[n+1] is nil |
| Tables.Table.UnboundSearch | lua-5.1.4/src/ltable.c:532-553 | A boundary by doubling and bisection, by linear search beyond MAX_INT |
| TableInsert.ReuseKeeps | lua-5.1.4/src/ltable.c:399-429 | A key put at its free main position keeps chains disjoint and complete |
| TableInsert.LinkAfterKeeps | lua-5.1.4/src/ltable.c:420-426 | A key put in a free node and linked after its main position keeps them |
| TableInsert.MoveOutKeeps | lua-5.1.4/src/ltable.c:405-419 | Moving a colliding node to a free one and giving its place to the key keeps them |
| TableSizes.ComputeSizes | lua-5.1.4/src/ltable.c:189-208 | The largest power of two n such that more than n/2 of 1..n are in use, and how many are |
| TableCount.NumUseArray | lua-5.1.4/src/ltable.c:222-244 | Counts the array's integers in use, and per slice between powers of two |
| TableCount.NumUseHash | lua-5.1.4/src/ltable.c:247-260 | Adds the keys of the hash part to those counts |
| TableCount.CountInt | lua-5.1.4/src/ltable.c:211-219 | Counts one key if it is a candidate for the array part |
| TableContents.RoomLeft | lua-5.1.4/src/ltable.c:382-407 | A hash part with fewer distinct keys than nodes has a free node |
| Tables.Table.Traverse | lua-5.1.4/src/ltable.c:137-179 | Calling next from nil, each time with the key of the call before, ends after at most as many entries as there are slots, whatever values are cleared and overwritten and keys marked dead in between; no key is yielded twice, and every entry that keeps a value is yielded |
| Tables.Table.TraverseUnchanged | lua-5.1.4/src/ltable.c:162-179 | In a table that is not changed the calls yield exactly the keys of the map with their values, each once |
| TableNext.TraversalVisitsOnce | lua-5.1.4/src/ltable.c:137-179 | The positions of such a traversal: none twice, and every one whose entry keeps a value |
| TableNext.KeysDiffer | lua-5.1.4/src/ltable.c:137-179 | Two calls of a traversal yield different keys, though entries change in between |
| TableNext.StandsOnce | lua-5.1.4/src/ltable.c:137-159 | A key stands at one index only, however many dead nodes have it |
| TableNext.LiveIsFirst | lua-5.1.4/src/ltable.c:399-429 | A node whose key is alive comes before all other nodes with that key |
| TableNext.StillStands | lua-5.1.4/src/ltable.c:137-159 | A key returned by next is still good for the next call after clearing and collection |
| Backtracking.BestFound | lua-5.1.4/src/lstrlib.c:365-440 | The backtracking search ends as the choices do, in a match or an error, that are preferred to all others which lead to a match or an error, and finds nothing only if no choices lead to either |
| Backtracking.PreferredIsBest | lua-5.1.4/src/lstrlib.c:365-440 | Conversely, an outcome that is preferred in this sense is the one that the search yields |
| Backtracking.MatchShapes | lua-5.1.4/src/lstrlib.c:329-351 | Which captures a match leaves open or as positions is settled by the pattern alone |
| Backtracking.WellFormedRaisesNothing | lua-5.1.4/src/lstrlib.c:365-440 | A well-formed pattern never raises an error |
| MatchStates.MatchState.constructor | lua-5.1.4/src/lstrlib.c:495-510 | A match starts without captures |
| MatchStates.MatchState.Match | lua-5.1.4/src/lstrlib.c:365-440 | Yields the end and captures of the preferred match; on failure level and captures are as on entry |
| MatchStates.MatchState.MaxExpand | lua-5.1.4/src/lstrlib.c:301-313 | The longest repetition after which the rest matches |
| MatchStates.MatchState.MinExpand | lua-5.1.4/src/lstrlib.c:316-326 | The shortest repetition after which the rest matches |
| MatchStates.MatchState.StartCapture | lua-5.1.4/src/lstrlib.c:329-340 | Opens a capture, undone if the rest fails |
| MatchStates.MatchState.EndCapture | lua-5.1.4/src/lstrlib.c:343-351 | Closes the last open capture, reopened if the rest fails |
| MatchStates.MatchState.MatchBalance | lua-5.1.4/src/lstrlib.c:281-298 | The end of the balanced string, or no match, or the error for a cut pattern |
| MatchStates.MatchState.MatchCapture | lua-5.1.4/src/lstrlib.c:354-362 | Matches the text of an earlier capture |
| MatchStates.MatchState.CheckCapture | lua-5.1.4/src/lstrlib.c:186-191 | A back reference is found in error exactly if matching that item is an error from every position; otherwise its capture is closed and its number fits the digit |
| MatchStates.MatchState.CaptureToClose | lua-5.1.4/src/lstrlib.c:194-199 | The last open capture |
| MatchStates.MatchState.ClassEnd | lua-5.1.4/src/lstrlib.c:202-223 | The end of a single-character class, or the error |
| MatchStates.MatchState.MatchBracketClass | lua-5.1.4/src/lstrlib.c:245-265 | Membership in a set as the pattern has it: what that is for a set with ranges, classes and complement, BracketsRead says |
| MatchStates.MatchState.SingleMatch | lua-5.1.4/src/lstrlib.c:268-275 | Membership in a single-character class |
| MatchStates.MatchState.StrFind | lua-5.1.4/src/lstrlib.c:512-531 | The first start from which the pattern matches, or only the first position if it is anchored |
| MatchStates.MatchState.PushCaptures | lua-5.1.4/src/lstrlib.c:485-492 | One value for each capture, in order, or the whole match if there are none; an error exactly if a capture is still open |
| MatchStates.MatchState.StrMatch | lua-5.1.4/src/lstrlib.c:495-535 | string.match: the captures of the preferred match at the first start that has one (at the first position only if the pattern is anchored), no match if no start has one, the error of the first start that raises one; the captures cannot be pushed exactly if the pattern leaves one open |
| PatternText.PatternRead | lua-5.1.4/src/lstrlib.c:365-440 | A pattern put together from classes with repetitions, captures, balances, frontiers, back references and an end is read as these parts, each class with the characters that it has |
| PatternText.BracketsRead | lua-5.1.4/src/lstrlib.c:245-265 | A set ends at its bracket and has a character exactly if one of its elements does, a range from its first to its last character with both; with ^ exactly the others |
| PatternMeaning.ClassMatches | lua-5.1.4/src/lstrlib.c:495-535 | string.match with a single class yields the first character that the class has, or nothing if there is none |
| PatternMeaning.RangeMatches | lua-5.1.4/src/lstrlib.c:257-261 | The pattern [x-y] matches a one-character subject c if and only if x <= c and c <= y |
| PatternMeaning.BalanceMeans | lua-5.1.4/src/lstrlib.c:281-298 | %bxy matches from an x to the first position at which as many y as x have come, and nothing if there is none |
| PatternText.CutOff | lua-5.1.4/src/lstrlib.c:202-223 | A pattern cut off after %, within %b, after %f or within a set is the error for it |
| PatternMeaning.RepeatMeans | lua-5.1.4/src/lstrlib.c:354-362 | A back reference matches the characters of its capture once more, one by one, and is an error exactly if there is no such closed capture |
| PatternMeaning.BalanceTwice | lua-5.1.4/src/lstrlib.c:281-298 | %bxx matches from one x to the next |
| PatternMeaning.FrontierMeans | lua-5.1.4/src/lstrlib.c:392-402 | %f[set] matches between a character outside the set and one in it, with a NUL before and after the subject |
| PatternMeaning.CaptureHolds | lua-5.1.4/src/lstrlib.c:329-351 | A capture around any classes holds exactly the text that they match |
| PatternMeaning.PositionMatches | lua-5.1.4/src/lstrlib.c:466-482 | An empty capture yields its position, counted from 1 |
| TableSort.AuxSort | lua-5.1.4/src/ltablib.c:193-254 | Terminates within the bounds with a permutation; for a strict weak order sorted and without the error; the recursion is at most logarithmic in the length |
| TableSort.Sort | lua-5.1.4/src/ltablib.c:256-265 | The same for the whole table |
| TableSort.Partition | lua-5.1.4/src/ltablib.c:223-240 | Splits around the pivot; for a strict weak order both scans stop inside the range, and for any order function they look no further than one element beyond it and change nothing outside it |
| TableSort.OrderMiddle | lua-5.1.4/src/ltablib.c:204-216 | First, middle and last element are in order |
| TableSort.OrderEnds | lua-5.1.4/src/ltablib.c:196-202 | First and last element are in order |
| TableSort.Split | lua-5.1.4/src/ltablib.c:218-243 | Puts the pivot in its final place, for a strict weak order; for any order function the range is permuted, or the range and the one element beyond it |
| ChunkRoundTrip.DumpIsLoaded | lua-5.1.4/src/lundump.c:195-209 | Loading a dumped function tree consumes exactly its bytes and gives the tree with its inherited sources, or the nesting error exactly if it is nested more than 200 calls deep; without a source the main function has =? |
| ChunkRoundTrip.FunctionBack | lua-5.1.4/src/lundump.c:161-181 | The same for a function within a chunk, for every parent source |
| ChunkRoundTrip.SourcedSurvives | lua-5.1.4/src/ldump.c:129-141 | Without stripping, the tree comes back equal exactly if every function has a source |
| ChunkRoundTrip.StrippedSurvives | lua-5.1.4/src/ldump.c:111-141 | With stripping, the tree comes back equal exactly if it had no debug information beyond the inherited source |
| ChunkTruncation.UndumpExtends | lua-5.1.4/src/lundump.c:48-52 | Loading looks at no byte beyond those it consumes |
| ChunkTruncation.CutChunkIsRejected | lua-5.1.4/src/lundump.c:48-52 | Every proper prefix of a chunk is rejected with the unexpected-end error |
| ChunkChecks.HeaderChecked | lua-5.1.4/src/lundump.c:183-190 | The header error is raised exactly if there are twelve bytes and they are not those of Lua 5.1 on this machine; whatever is loaded begins with these |
| ChunkChecks.IntBytes | lua-5.1.4/src/lundump.c:61-67 | An int is four bytes, the lowest first, and is rejected exactly if its sign bit is set |
| ChunkChecks.StringBytes | lua-5.1.4/src/lundump.c:76-88 | A string is a size of eight bytes and as many bytes, of which the last is dropped; size 0 is no string |
| ChunkChecks.ConstantBytes | lua-5.1.4/src/lundump.c:100-135 | The constant error is raised exactly for a tag other than 0, 1, 3 and 4; what follows each of these |
| ChunkChecks.LoadedIsSound | lua-5.1.4/src/lundump.c:161-181 | Whatever bytes were loaded, no line or count is negative, every function of the tree has passed the check and has a source, and none is nested too deeply |
| ChunkChecks.LoadedComesBack | lua-5.1.4/src/lundump.c:195-209 | Whatever was loaded, from any bytes, can be dumped and is loaded back as it is |
| ChunkChecks.AcceptedIff | lua-5.1.4/src/lundump.c:161-181 | A chunk is accepted exactly if it is without the check of the code and every function of the tree passes; the code error is raised if that is all that is wrong, and never without a function that fails |
| ChunkChecks.SharedSource | lua-5.1.4/src/ldump.c:129-133 | A function is written without its source exactly if it is stripped, has none, or has that of the enclosing function |
| ChunkChecks.SmallChunk | lua-5.1.4/src/ldump.c:29-164 | The bytes of a chunk with one of everything, written out |
| ChunkInput.UndumpFrom | lua-5.1.4/src/lundump.c:195-209 | However the reader splits the bytes, the result and the bytes left over are those of the whole |
| ChunkStream.LoadDumped | lua-5.1.4/src/lundump.c:195-209 | From any reader that hands out the bytes of a dumped function, in pieces of any size, exactly these are consumed and the function is loaded back, or the nesting error is raised if it is too deep |
| ChunkStream.DumpAndLoad | lua-5.1.4/src/ldump.c:153-164 | Dumping to a writer that never fails and loading from a reader of what was written, through both sets of methods, gives the function back |
| ChunkInput.Zio.Fill | lua-5.1.4/src/lzio.c:21-32 | Takes the next non-empty piece and its first byte |
| ChunkInput.Zio.Lookahead | lua-5.1.4/src/lzio.c:35-45 | Makes a byte available without consuming it |
| ChunkInput.Zio.Read | lua-5.1.4/src/lzio.c:58-71 | The next bytes across any number of pieces, and how many are missing |
| ChunkInput.LoadState.LoadBlock | lua-5.1.4/src/lundump.c:48-52 | Reads from the stream what Take reads from the bytes |
| ChunkInput.LoadState.LoadInt | lua-5.1.4/src/lundump.c:61-67 | Reads an int and rejects a negative one |
| ChunkInput.LoadState.LoadString | lua-5.1.4/src/lundump.c:76-88 | Reads a string without its final NUL, or none |
| ChunkInput.LoadState.LoadConstants | lua-5.1.4/src/lundump.c:100-135 | Reads the constants |
| ChunkInput.LoadState.LoadDebug | lua-5.1.4/src/lundump.c:137-159 | Reads the debug information |
| ChunkInput.LoadState.LoadFunction | lua-5.1.4/src/lundump.c:161-181 | Reads a function tree, with nesting limit and code check |
| ChunkInput.LoadState.Undump | lua-5.1.4/src/lundump.c:195-209 | Reads the header, raises its error exactly if the first twelve bytes are others than those written out here, then reads the main function |
| ChunkOutput.DumpState.DumpBlock | lua-5.1.4/src/ldump.c:29-37 | Offers the block to the writer unless that has failed before; the new status is what the writer returned |
| ChunkOutput.DumpState.DumpString | lua-5.1.4/src/ldump.c:61-74 | Offers the bytes of the string format to the writer in blocks, up to the first one for which it reports a failure, and keeps that status |
| ChunkOutput.DumpState.DumpConstants | lua-5.1.4/src/ldump.c:80-109 | The same for the constants and the child functions |
| ChunkOutput.DumpState.DumpDebug | lua-5.1.4/src/ldump.c:111-127 | The same for the debug information, or nothing but counts if stripped |
| ChunkOutput.DumpState.DumpFunction | lua-5.1.4/src/ldump.c:129-141 | The same for the tree; a source shared with the parent is written as null |
| ChunkOutput.DumpState.Dump | lua-5.1.4/src/ldump.c:153-164 | Offers the whole chunk to the writer in blocks, up to the first one for which it reports a failure, and returns that status |
| ChunkOutput.WroteMeans | lua-5.1.4/src/ldump.c:29-37 | Offering bytes in blocks: what is written is a beginning of them, all of them if the status is 0, and a nonzero status is what the writer returned for the next block |
| ChunkOutput.DumpTo | lua-5.1.4/src/ldump.c:153-164 | luaU_dump: status 0 means that exactly the chunk was written, another status that the writer returned it for the block after what was written, and a writer that never fails gets the whole chunk |
| Operators.PrioritiesAreTheManuals | lua-5.1.4/src/lparser.c:810-822 | The priority table says of any two operators exactly what the precedence and associativity of the manual say |
| Operators.ParseComplete | lua-5.1.4/src/lparser.c:827-853 | Every tree that the manual's rules mean is read back from its tokens, up to a token that cannot continue it |
| Operators.ParseSound | lua-5.1.4/src/lparser.c:827-853 | Whatever is read is such a tree, at any priority limit, and fits the tokens it used |
| Operators.ParseExact | lua-5.1.4/src/lparser.c:827-853 | Tokens are read completely as a tree if and only if they are its tokens and the rules mean it |
| Operators.PrintedIsParsed | lua-5.1.4/src/lparser.c:827-853 | Printing any operator tree with the parentheses the manual requires and parsing it gives the tree back |
| Operators.LexState.SubExpr | lua-5.1.4/src/lparser.c:827-853 | The recursive loop with its limit reads what Parse reads, and returns the operator that stopped it |
| Operators.LexState.SimpleExp | lua-5.1.4/src/lparser.c:727-775 | Reads an operand or a parenthesised expression |
| Scopes.DescriptorsLeadToTheDeclaration | lua-5.1.4/src/lparser.c:224-245 | Following an upvalue's descriptors outward ends at the innermost active declaration of its name |
| Scopes.DescriptorsNeverRepeat | lua-5.1.4/src/lparser.c:183-204 | No function has two equal descriptors or two upvalues for one declaration |
| Scopes.RefersToOne | lua-5.1.4/src/lparser.c:207-214 | A name refers to one declaration |
| Scopes.OneDescriptor | lua-5.1.4/src/lparser.c:187-191 | The search by descriptor finds the upvalue of that name, as the assertion there claims |
| Scopes.UsedIsFlagged | lua-5.1.4/src/lparser.c:217-245 | The block that declares a local which a nested function uses is flagged, so that leaving it closes the local |
| Scopes.LexState.SearchVar | lua-5.1.4/src/lparser.c:207-214 | The last active local of that name |
| Scopes.LexState.MarkUpval | lua-5.1.4/src/lparser.c:217-221 | Flags the block that declares the local, if there is one |
| Scopes.LexState.IndexUpvalue | lua-5.1.4/src/lparser.c:183-204 | The upvalue of that descriptor, appended if missing, or the limit error exactly if there is no room |
| Scopes.LexState.SingleVarAux | lua-5.1.4/src/lparser.c:224-245 | Resolves a name at any depth to its innermost active declaration; threads an upvalue through exactly the functions in between; marks the local as captured |
| Scopes.LexState.SingleVar | lua-5.1.4/src/lparser.c:248-253 | The same from the current function, whose own locals are not marked |
| Scopes.LexState.DeclareLocals | lua-5.1.4/src/lparser.c:160-173 | Activates new locals, or the limit error |
| Scopes.LexState.EnterBlock | lua-5.1.4/src/lparser.c:285-293 | A block without captured locals |
| Scopes.LexState.LeaveBlock | lua-5.1.4/src/lparser.c:296-307 | Deactivates the locals of the block, and emits OP_CLOSE exactly if one of them was captured |
| Scopes.LexState.OpenFunc | lua-5.1.4/src/lparser.c:328-353 | A nested function without locals and upvalues |
| Scopes.LexState.CloseFunc | lua-5.1.4/src/lparser.c:310-381 | Its descriptors, for the closure; none for the main function |
| Hooks.OneThreadInLua | script_state.hh:21-29 | In every run at most one thread is in Lua, and it owns the mutex |
| Hooks.HooksOnlyForTheOutermost | mkwrapfuns.py:22-49 | In every run a hook belongs to the outermost call of its thread, of a function with that advice |
| Hooks.HistoryIsInOrder | mkwrapfuns.py:22-49 | In every run the history of a thread is that of whole outermost calls, each before, then around or original, then after, and the part of the call it is in |
| Hooks.FlagIsRestored | script_state.hh:31-57 | The flag is set exactly inside an outermost call, and back as it was when the stack is |
| Hooks.OriginalHoldsTheMutexIff | mkwrapfuns.py:33-42 | Inside the original function of an outermost call the thread holds the mutex if and only if a script that ignores the flag made the call |
| Hooks.ReleasedHoldsNothing | scripting.cc:76-113 | During labrea.usleep and labrea.invoke the thread does not hold the mutex |
| Hooks.OnlyTheOwnerUnlocks | locks.hh:10-73 | Whoever unlocks the mutex owns it |
| Hooks.StepKeeps | locks.hh:10-73 | Every step of every thread keeps the invariant |
| Hooks.RunKeeps | mkwrapfuns.py:22-49 | So does every interleaving |
| Hooks.WaitsForItself | script_state.hh:21-29 | A thread waits for a mutex it owns only inside a script that ignores the flag |
| Hooks.OwnerLetsGo | scripting.cc:86-113 | An owner outside such scripts can always go on by itself until it unlocks |
| Hooks.StuckForever | scripting.cc:166-179 | A thread that waits for a mutex it owns stays there, whatever the others do |
| Hooks.ScriptCallReturnsIff | scripting.cc:166-179 | A call made by such a script can return, under some schedule of all threads, if and only if the function has no advice |
| Hooks.ScriptCallNeverReturns | scripting.cc:166-179 | If it has advice the call returns under no schedule, and the mutex stays taken |
| Hooks.ScriptCallSticksIff | scripting.cc:166-179 | Left to itself, the thread of such a call comes to wait for its own mutex if and only if the function has advice, and otherwise the call returns |
| Hooks.ScriptCallCanStick | scripting.cc:166-179 | From the beginning of a program there is a run in which a thread waits for the mutex it owns |
| Hooks.OriginalCanHoldTheMutex | scripting.cc:166-179 | From the beginning of a program there is a run in which an original function runs with the mutex held |
| Hooks.WrapperGoesOn | mkwrapfuns.py:22-49 | Left to itself, a wrapper comes to its next hook, or returns exactly if there is none left |
| HookWrapper.Process.Wrapper | mkwrapfuns.py:22-49 | For every tree of nested calls, alone on the machine, the wrapper takes exactly the steps of the tree, in order, and returns with stack, flag and mutex as before; an outermost call adds its whole history, a nested one nothing |
| HookWrapper.Process.RunOriginal | mkwrapfuns.py:12-20 | Starts the original function, makes every call nested in it, in order, and ends it |
| HookWrapper.Process.RunHook | mkcallfuns.py:10-74 | Finds or makes the Lua state, takes the lock, runs the advice with every call that it makes, and unlocks |
| HookWrapper.Process.GetLuaState | scripting.cc:259-270 | Finds the Lua state of the thread, or makes one under the lock; the mutex is free then |
| HookWrapper.Process.RunLuaCall | scripting.cc:76-113 | invoke, and usleep for 1 or more, first let go of the mutex, then make every call of their extent, and last take it again; usleep does nothing for less than 1 |
| HookWrapper.Process.Begin | script_state.hh:31-46 | The constructor of LuaInvocation: ready exactly if the flag was clear |
| HookWrapper.Process.End | script_state.hh:48-52 | Its destructor: the flag is what the remaining stack says |
| HookSteps.EveryCallIsMade | mkwrapfuns.py:12-49 | The wrappers entered at any depth of these steps are exactly the calls listed at that depth of the tree, in order: before advice, around advice or else the original function, after advice |
| HookSteps.FreeInBetween | scripting.cc:76-113 | Between the first and the last step of invoke and usleep nobody has the mutex, whatever is called in between |
| Hooks.WholeMeans | mkwrapfuns.py:22-49 | The history of one call, written out by the advice that the function has |
| Quoted.RoundTrip | lua-5.1.4/src/llex.c:276-329 | Reading what %q writes gives every byte string back and stops right after the closing quote; the only failure is a file with too many lines |
| Quoted.QuotedIsInjective | lua-5.1.4/src/lstrlib.c:696-723 | Different strings are written differently, and no output begins another |
| Quoted.QuotedIsText | lua-5.1.4/src/lstrlib.c:696-723 | The output contains neither NUL nor carriage return |
| Quoted.Buffer.AddQuoted | lua-5.1.4/src/lstrlib.c:696-723 | Appends the quoted string |
| Quoted.LexState.ReadString | lua-5.1.4/src/llex.c:276-329 | The loop reads what ReadFrom describes, for every input and delimiter, with its errors, and counts lines |
| Quoted.LexState.ReadEscaped | lua-5.1.4/src/llex.c:287-320 | One escape sequence |
| Quoted.LexState.IncLineNumber | lua-5.1.4/src/llex.c:127-135 | Skips one line break of one or two bytes and counts it |
| QuotedText.LiteralIsRead | lua-5.1.4/src/llex.c:276-329 | Every text is made of parts (plain bytes, escapes, decimal escapes up to 255, escaped line breaks) up to where it stops; a literal is read exactly if that is its delimiter and the lines do not run over, and its value is that of the parts |
| QuotedText.PartsRead | lua-5.1.4/src/llex.c:287-320 | Parts are read one after the other, each as its byte: the seven letters as the control characters of a table, digits as the number they write, any other byte as itself |
| QuotedText.DecimalRead | lua-5.1.4/src/llex.c:305-314 | One to three digits are their number if that is at most 255, else an error |
| QuotedText.StopRead | lua-5.1.4/src/llex.c:276-329 | What ends a literal: the delimiter, or which error |
| QuotedText.EveryTextHasParts | lua-5.1.4/src/llex.c:276-329 | Every text has such parts |
| References.Registry.Ref | lua-5.1.4/src/lauxlib.c:481-501 | A reference that is not in use, with its object; all others keep theirs; nil has its own |
| References.Registry.Unref | lua-5.1.4/src/lauxlib.c:504-512 | The reference is given back and all others keep their objects; negative ones are ignored |
| References.BoundaryIsExact | lua-5.1.4/src/lauxlib.c:493-498 | With an empty free list, slots 1..n are all references and every boundary is n |

## Left out

- LCodeTheorem.ValuePreservedIff: when a comparison comes out wrong because an operand of it was stored wrong, the expression may still have the right value by chance; then ValueEmitted says what is stored, but not in terms of a jump.
- LCodeTheorem.ConditionPreserved: in that case it says which way the run goes, but not that this is the truth of the expression.
- LCodeTheorem.RunExpression: the same as ValuePreservedIff.
- LCodeProgram.CompileAndRun: the same as ValuePreservedIff.
- GcMissedValue.MissedValueIsFreedIff: the program does nothing between the store and the end of the cycle.
- TableSort.AuxSort: requires an irreflexive order, because one that says x < x can lead the scan to the element beyond the range, which is then exchanged with the pivot (Split allows for it), and the range left to sort need not get smaller, so that the loop need not end.
- TableSort.Sort: the same condition.
- References.Registry.Ref: the result of lua_objlen is a parameter that may be any boundary; the table is the map that Tables proves, not the class.
- Hooks.OneThreadInLua: scripts that run while the library is loaded, before threads exist, hold no mutex and are not part of the runs; labrea.reinit is called only there, so the advice table is constant.
- HookWrapper.Process.Wrapper: one thread scheduled alone; interleavings are the subject of Hooks.
- Collector: weak tables, finalizers and userdata with __gc, sizes and pacing (luaC_step, GCthreshold), the decision of checkSizes, shrinking of stacks, luaC_freeall.
- Collector: addresses are never used again, string hashes are an arbitrary function, and references that exist only in local variables of C code are dropped at a collector step.
- Collector: no event changes the table of globals of a thread or the registry reference, and lua_setupvalue is not an event of the runs, because it does not keep the invariant; GcSetUpvalue, GcMissedBarrier and GcMissedValue treat it by themselves.
- Expressions: the literal nil (luaK_nil merges instructions), arithmetic and concatenation, globals, indexing, calls and varargs, line information, and the limits on constant indices and jump offsets.
- Tables: the limit on the size of the hash part, reuse of the address of a dead key, allocation failure; numbers that are not integers are keys without structure.
- Pattern matching: gmatch, gsub, plain search, negative start positions and the C stack; character classes are an arbitrary function, and a pattern ends at its first NUL.
- Chunks: the bytecode checker is a parameter, instructions and numbers are opaque bytes, the machine is little-endian with 4-byte int and 8-byte size_t, and error messages carry no chunk name.
- Operators: the limit on nesting and the other simple expressions.
- Scopes: the lists of break jumps, debug information about locals, and registers.
- Hooks: fairness and general freedom from deadlock, errors of the pthread calls, dlsym, and the argument marshalling.
- Lexer: everything but string literals, and the limit on the length of a token.
- The standard libraries, lua.c, luac.c, print.c, metamethods and the rest of the interpreter.
