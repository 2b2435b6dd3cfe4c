# Verification of the Ubel compiler core

This project models six parts of the Ubel repository in Dafny and proves what each of them is for:

- **The collected heap** of the runtime (`crates/llvm_poc/runtime/ubel_rt.c`): size-class spans, large objects over runs of
  spans, the packed pointer bitmap, the free stack with stale entries, lazy zeroing, marking, sweeping and pacing. The heap
  is an array of words with a span table and a bitmap, changed in place by the methods of the `Gc*` modules. The main
  results: a collection leaves exactly the objects that the root words reach, unmoved and unchanged; every allocation is
  zeroed, inside the heap, aligned and apart from every other object; over every run of collections, allocations and
  stores, the bitmap agrees with what each allocation declared, and what the roots reach survives.
- **The emitter** from Ubel statements to labelled LLVM blocks (`crates/llvm_poc/src/emit.rs`): `UbelSource` is a direct
  semantics of the source, `BlockCode` a machine for the blocks, `EmitSpec` the emitter as functions on its state, and
  `Emitter` the emitter as a class that is proved equal to those functions. `UbelTypes` says by rules on the syntax which
  programs are well typed, and `EmitAccepts` that these are the ones that are emitted. The main result is semantic preservation, with
  exact conditions where it fails (`EmitLimits`, `EmitLoops`). `InterpOps` compares the operators with the interpreter's;
  `IntOps` and `Rounding` say what both mean, by bits, by the laws of division and by the nearest double.
- **Object layouts** (`crates/llvm_poc/src/emit.rs`): the masks that tell the collector which words of a struct, an enum
  value or a closure are pointers, on targets with 4-byte and with 8-byte pointers.
- **The LOW-tier borrow checker** (`crates/core/src/sema/cfg.rs`, `borrow_check.rs`): the graph built from structured
  statements has exactly the executions of the structure, cut short or complete, and the verdict is exact for paths of
  that graph.
- **The outlives check** (`crates/core/src/sema/lifetime_check.rs`): the depth-first search finds a cycle exactly when there
  is one.
- **Arenas, strings and values**: the chunked bump arenas of the runtime, decimal integers and interpolated strings, the
  laws of `Value::equals`, `compute_hash` and `partial_cmp` and what exactly they compare (`ValueEquality`, `ValueHash`,
  `ValueOrder`), and `deep_clone` over an explicit heap.

Where the source changes fields or tables step by step, the model is a class or a method with loops that is proved against
a function or a relation on values; the laws are then proved about those. The runtime is modelled for 64-bit targets: a
word has 8 bytes. The masks are modelled for 32-bit targets too.

## Findings

- `lower_body` (`crates/llvm_poc/src/emit.rs:1040-1052`) emits the last expression of a body with a result type, and when its type
  is not the result type it goes on to emit the same statement again. `EmitLimits.DoubledIff`: on every run that comes to
  such an end, the code does what the body does if and only if running the last statement once more from there ends too
  and prints nothing. `EmitLimits.PrintTailTwice` is the case of a body that ends in a `print` of a text: its output is
  doubled, and the two agree exactly when the text is empty. The comment in the source expects semantic analysis to refuse
  such bodies. The guard is `DoublesTail`, a test on the last statement and its type.
- The value of a last statement that is not an expression is lost: `fn f(c: bool) -> int { if c { 1 } else { 2 } }` returns 1
  or 2 in the interpreter (`crates/core/src/interpreter/eval/stmt.rs:148-163`, `crates/core/src/interpreter/eval/mod.rs:690-702`), while `lower_body`
  and `if_stmt` (`crates/llvm_poc/src/emit.rs:1036-1069`, `1301-1337`) emit the branches for their effects and then the trap for a
  missing return. `EmitLimits.ValueLost` shows it for every function whose body ends in an `if` or an arena block with a
  value of the result type, and `EmitLimits.BehavesIff` that the emitted code does what the body does exactly when no such
  value is lost; `DropsTail`, a test on the last statement, shuts out all these functions before they run.
- The loop `for x in lo..=hi` steps its counter with wrap-around arithmetic, where the interpreter's list of integers ends
  (`crates/core/src/interpreter/eval/expr.rs:717-720`). `EmitLoops.PassesToSmallest`: every emitted loop that is entered with the largest
  integer as its limit, and whose body comes to its end, or to a `continue`, for each integer up to there, goes on at its
  test with the smallest one; in the language it ends after the same rounds (`EmitLoops.RoundsReturn`).
  `EmitLoops.InclusiveLoopEnds`: take a function that ends in such a loop, and a set of states that holds the one in which
  the loop is entered, in which the body comes to its end or to a `continue` for every integer, given enough fuel, and
  which these rounds do not leave. Then the code of the function stops if and only if the limit is not the largest integer,
  although in the language it stops for every limit. Among these are `for i in lo..=hi { print i }`, a loop that sums up
  its counter, and bodies with loops of their own (`EmitLoops.PrintLoopEnds`, `EmitLoops.SumLoopEnds`,
  `EmitLoops.NestedFalls`). A body that leaves the loop there by `break` or `return` does no harm: the code does what the
  body does unless a body has come to its end at that integer (`top` is `Passed`), and so in particular if no inclusive
  loop is entered with that limit (`top` stays `Below`).
- The interpreter computes `+ - * / %` and the comparisons of two `int`s by way of double-precision numbers
  (`crates/core/src/interpreter/eval/expr.rs:774-808`, `878-893`), where the emitted code computes with exact 64-bit
  two's-complement integers (`crates/llvm_poc/src/emit.rs:2101-2208`). `InterpOps.SmallAgrees`: the two agree as long as the operands and the exact
  result are at most 2^53, and that is the largest such limit for sums (`InterpOps.SumLimit`). With `a = 2^53`, `a + 1`
  is 2^53 in the interpreter and `a < 2^53 + 1` is false there (`InterpOps.SumRounds`). Two integers compare alike if and
  only if they are equal or do not round to the same double (`InterpOps.ComparesIff`). A sum that overflows saturates in
  the interpreter and wraps around in emitted code (`InterpOps.SumSaturates`). The operators `&`, `|` and `^` on two
  `bool`s, which type inference accepts (`crates/core/src/sema/type_infer.rs:6444-6459`), panic in the interpreter and are computed by the
  emitted code (`InterpOps.BoolBitsPanic`). The semantics of `UbelSource` uses the exact operators, so
  `EmitProgram.SemanticPreservation` is about those.
- Equality and hashing of values agree for all programs exactly when every type that derives equality derives hashing
  (`Values.HashContractIff`). The check of derivations (`crates/core/src/sema/type_infer.rs:6343-6386`) demands equality for hashing but
  not hashing for equality, so it accepts a type with `@derive(PartialEq)` alone, and two equal values of it hash
  differently (`Values.PartialEqAlone`).

## Model

| member | source | states |
|---|---|---|
| BitTable.Write | crates/llvm_poc/runtime/ubel_rt.c:245-255 | the bitmap is a flat sequence of bits: exactly bits `at` to `at+n-1` take the low bits of the mask, also when the write straddles two words |
| BitTable.Read | crates/llvm_poc/runtime/ubel_rt.c:257-263 | the value read has bit j exactly when j is below n and the flat bit at+j is set, straddling or not |
| BitTable.ClearRange | crates/llvm_poc/runtime/ubel_rt.c:266-276 | exactly the bits of the range are cleared, for any length |
| BitTable.NextFree | crates/llvm_poc/runtime/ubel_rt.c:312-327 | the slot found is the first free one from the index on, and none is found only when all of them are taken |
| BitWords.TrailingZeros | crates/llvm_poc/runtime/ubel_rt.c:317-317 | the position of the lowest set bit of a word that is not zero |
| GcHeap.InBounds | crates/llvm_poc/runtime/ubel_rt.c:413-434 | an allocated object and the words it keeps to itself lie in the used part of the heap |
| GcHeap.PointsInto | crates/llvm_poc/runtime/ubel_rt.c:529-543 | for every word and object: the word points to the object exactly if the object is allocated and the word is the address of one of its bytes, that is of its slot or of the large object's bytes |
| GcHeap.Disjoint | crates/llvm_poc/runtime/ubel_rt.c:360-434 | two allocated objects, small or large, share no word |
| GcHeap.ContInOneRun | crates/llvm_poc/runtime/ubel_rt.c:389-392 | a continuation span lies in the run of exactly one large object, the one it names |
| GcHeap.NoscanNoEdge | crates/llvm_poc/runtime/ubel_rt.c:517-528 | an object that is marked but never scanned has no outgoing pointer, so nothing is lost |
| GcHeap.ReachedWithin | crates/llvm_poc/runtime/ubel_rt.c:690-698 | what the roots reach lies in every set that holds the roots' targets and is closed under pointers |
| GcState.Gc.constructor | crates/llvm_poc/runtime/ubel_rt.c:201-241 | the tables and counters of an empty heap |
| GcMark.MarkPtr | crates/llvm_poc/runtime/ubel_rt.c:530-543 | a word greys the object one of whose bytes it is the address of (GcHeap.PointsInto), and no other; free slots, free spans and foreign words are ignored |
| GcMark.MarkLarge | crates/llvm_poc/runtime/ubel_rt.c:517-528 | an interior word of a large object greys it, one past its end does not |
| GcMark.ScanWords | crates/llvm_poc/runtime/ubel_rt.c:545-560 | every target of the pointer words of an object is marked |
| GcMark.ScanObject | crates/llvm_poc/runtime/ubel_rt.c:562-578 | scanning a grey object marks all its targets and marks nothing that the roots do not reach |
| GcMark.MarkedExactly | crates/llvm_poc/runtime/ubel_rt.c:690-698 | with nothing left grey, an object is marked if and only if the roots reach it |
| GcMark.Mark | crates/llvm_poc/runtime/ubel_rt.c:690-696 | the mark loop ends, with exactly the reached objects marked |
| GcSweep.SweepSmall | crates/llvm_poc/runtime/ubel_rt.c:627-645 | a span of slots keeps exactly the marked ones, its marks are cleared, and it becomes free if none is left |
| GcSweep.Sweep | crates/llvm_poc/runtime/ubel_rt.c:619-660 | the swept table, the free stack with every free span, the partial lists with every span that has room, the count of spans in use and the live bytes |
| GcSweep.SweptObjects | crates/llvm_poc/runtime/ubel_rt.c:619-660 | after the sweep exactly the marked objects are allocated, at their places |
| GcSweep.SweptSound | crates/llvm_poc/runtime/ubel_rt.c:619-660 | the swept table is well formed: runs stay whole, and dead runs become free spans |
| GcCollect.SweptExactly | crates/llvm_poc/runtime/ubel_rt.c:619-660 | marking and sweeping together leave exactly the reached objects |
| GcCollect.Collect | crates/llvm_poc/runtime/ubel_rt.c:690-710 | exactly the objects that the roots reach, by words that hold the address of any byte of an object, stay allocated, where they were; no word of the heap changes, all marks are clear, the invariant holds again, the live bytes are those of what is left, and the trigger is zero in stress mode and else the larger of them and the minimum |
| GcCollect.GcTrigger | crates/llvm_poc/runtime/ubel_rt.c:354-358 | which call collects: each one, or in stress mode the one at which the count of skipped calls comes up to the period; the others leave the heap alone |
| GcAlloc.NewSpan | crates/llvm_poc/runtime/ubel_rt.c:280-310 | a free span is opened, stale entries are skipped, and fresh heap is taken only when no span is free; all objects are unchanged |
| GcAlloc.TakeSlot | crates/llvm_poc/runtime/ubel_rt.c:413-434 | the slot is new, zero, and the only change to the set of objects; none is found only when the span is full |
| GcAlloc.TakenGrew | crates/llvm_poc/runtime/ubel_rt.c:413-434 | taking a slot adds one object and leaves the words of all others alone |
| GcSlots.Charge | crates/llvm_poc/runtime/ubel_rt.c:414-417 | a collection runs before the allocation exactly when the pace is used up and the trigger lets it; the bytes are counted |
| GcSlots.NextSpan | crates/llvm_poc/runtime/ubel_rt.c:429-432 | a span of the class with room as long as there is one, then a free span, then heap that was never used; none exactly when there is nothing left of the three |
| GcSlots.GcSlot | crates/llvm_poc/runtime/ubel_rt.c:413-434 | a new zeroed slot of the class, the lowest free one of a span that has room if any has, else of a free span, else of fresh heap; refused only when no slot of the class is free, no span is free and the heap is used up; invariant, pace and all other objects kept |
| GcSlots.BestIsLeft | crates/llvm_poc/runtime/ubel_rt.c:413-434 | a slot is chosen only when the class has a slot, a free span or fresh heap left |
| GcLarge.RunInStack | crates/llvm_poc/runtime/ubel_rt.c:338-339 | a run of free spans is never longer than the free stack, so the early exit misses none |
| GcLarge.FindFreeRun | crates/llvm_poc/runtime/ubel_rt.c:338-349 | the lowest run of n free spans; none is reported only when there is none |
| GcLarge.RanSpans | crates/llvm_poc/runtime/ubel_rt.c:382-392 | taking a free run keeps every other run whole |
| GcLarge.RanGrew | crates/llvm_poc/runtime/ubel_rt.c:360-408 | a large object is the only new object, and no other object changes |
| GcLarge.RanCounts | crates/llvm_poc/runtime/ubel_rt.c:365-393 | the spans in use grow by n and the allocated bytes by n whole spans |
| GcLarge.RanLists | crates/llvm_poc/runtime/ubel_rt.c:360-393 | the free stack still lists every free span, although the taken ones stay on it as stale entries |
| GcLarge.AllocLarge | crates/llvm_poc/runtime/ubel_rt.c:360-408 | first fit, fresh heap only when no run is free, failure if and only if the object cannot fit; the object is zero |
| GcObjects.SizeClass | crates/llvm_poc/runtime/ubel_rt.c:223-228 | the smallest class that holds the size |
| GcObjects.SizeTable | crates/llvm_poc/runtime/ubel_rt.c:223-228 | the table row of every size names its smallest class |
| GcObjects.GcObj | crates/llvm_poc/runtime/ubel_rt.c:440-447 | a new zeroed object of any size and the number of bitmap words that belong to it, in the lowest free run or the lowest free slot of the smallest class; refused only when nothing is left for that size |
| GcObjects.ChosenIsLeft | crates/llvm_poc/runtime/ubel_rt.c:360-434 | where a place is chosen something was left, so the refusal condition is exact |
| GcObjects.FillElements | crates/llvm_poc/runtime/ubel_rt.c:499-500 | the bits over an array repeat the element's mask and are clear in the slack; no bit outside changes |
| GcObjects.Finished | crates/llvm_poc/runtime/ubel_rt.c:451-503 | writing the bits of the new object completes the allocation and changes no bit over another object |
| GcApi.Alloc | crates/llvm_poc/runtime/ubel_rt.c:451-471 | a zeroed, aligned object apart from all others whose bits are the mask; a mask on a size above 512 is refused; allocated bytes stay within last live, the larger of last live and the minimum trigger, and this allocation |
| GcApi.AllocNoscan | crates/llvm_poc/runtime/ubel_rt.c:473-473 | the same without pointer words |
| GcApi.AllocArray | crates/llvm_poc/runtime/ubel_rt.c:475-503 | the same with the mask repeated per element; the overflow and bad-element refusals happen exactly under their conditions |
| GcApi.ElementOkIs | crates/llvm_poc/runtime/ubel_rt.c:480-491 | an array element is accepted exactly if its mask is empty, or its size is a whole number of words, at most 64, and every declared pointer word lies inside it |
| GcApi.SetMinTrigger | crates/llvm_poc/runtime/ubel_rt.c:712-715 | the invariant, the new minimum, and the trigger: zero in stress mode, else the larger of the last live bytes and the new minimum |
| GcApi.SetStress | crates/llvm_poc/runtime/ubel_rt.c:717-721 | the invariant, and the trigger of the new mode, stated by the same inequalities |
| GcApi.StoreHeap | crates/llvm_poc/runtime/ubel_rt.c:423-426 | a store into an object touches no free slot and no unused heap, so lazy zeroing stays right |
| GcRuns.Init | crates/llvm_poc/runtime/ubel_rt.c:201-241 | an empty heap satisfies the invariant |
| GcRuns.LayoutsHold | crates/llvm_poc/runtime/ubel_rt.c:451-503 | over every run of collections, allocations and stores, the bits over each allocated object are its declared layout |
| GcRuns.EdgesAreDeclared | crates/llvm_poc/runtime/ubel_rt.c:545-578 | over every run, the pointers that the collector follows are exactly the words that an allocation declared to be pointers, inside the object, and that hold the address of a byte of an allocated object |
| GcRuns.ReachableSurvive | crates/llvm_poc/runtime/ubel_rt.c:690-710 | over every run, an object that the roots reach at each collection keeps its address, and each word its value until the program writes it |
| GcRuns.CollectStep | crates/llvm_poc/runtime/ubel_rt.c:690-710 | a call of `Collect` is an event of the runs that the two theorems above speak of |
| GcRuns.AllocStep | crates/llvm_poc/runtime/ubel_rt.c:451-471 | so is a call of `Alloc` that gives an object, a collection in it included |
| GcRuns.AllocArrayStep | crates/llvm_poc/runtime/ubel_rt.c:475-503 | so is a call of `AllocArray` that gives an object |
| GcRuns.StoreStep | crates/llvm_poc/runtime/ubel_rt.c:423-426 | so is a store of the program |
| Emitter.Lower | crates/llvm_poc/src/emit.rs:973-1069 | the emitter as a class with tables, stacks and the `terminated` flag computes the function that the theorems below are about, and refuses a function exactly when it is not well typed |
| EmitAccepts.AcceptsWellTyped | crates/llvm_poc/src/emit.rs:973-1069 | a function is emitted if and only if it is well typed by the rules of UbelTypes: scopes of types, loop depth and result type, stated on the syntax without the emitter |
| EmitAccepts.ExprAccepted | crates/llvm_poc/src/emit.rs:1428-1520 | an expression is emitted if and only if it has a type by these rules, and the place that holds its value has that type |
| Emitter.Emitter.Lookup | crates/llvm_poc/src/emit.rs:665-671 | the innermost local of a name, searched from the last scope outwards |
| Emitter.Emitter.DestroyArenasFrom | crates/llvm_poc/src/emit.rs:679-684 | the arenas above a depth are destroyed innermost first |
| Emitter.Emitter.Expr | crates/llvm_poc/src/emit.rs:1428-1520 | the whole new state and result for an expression |
| Emitter.Emitter.ShortCircuit | crates/llvm_poc/src/emit.rs:2078-2099 | the whole new state and result for `&&` and for the other short-circuit operator; which operands are accepted is EmitAccepts.ExprAccepted |
| Emitter.Emitter.IfValue | crates/llvm_poc/src/emit.rs:1341-1424 | the whole new state and result for an `if` with a value |
| Emitter.Emitter.DoReturn | crates/llvm_poc/src/emit.rs:1081-1104 | the whole new state for a return: all arenas of the call destroyed, then the return |
| Emitter.Emitter.Stmt | crates/llvm_poc/src/emit.rs:1108-1232 | the whole new state for a statement |
| Emitter.Emitter.ForStmt | crates/llvm_poc/src/emit.rs:1237-1298 | the whole new state for a counting loop |
| Emitter.Emitter.IfStmt | crates/llvm_poc/src/emit.rs:1301-1337 | the whole new state for an `if` statement |
| EmitKeeps.EmittedBlocks | crates/llvm_poc/src/emit.rs:608-634 | emitted code is a list of blocks that each end in one terminator, with distinct labels |
| EmitTargets.TargetsPlaced | crates/llvm_poc/src/emit.rs:606-634 | every label that a terminator branches to is placed, exactly once |
| EmitCorrect.SimExpr | crates/llvm_poc/src/emit.rs:1428-1520 | running the code of an expression gives its value, output, traps and early ends |
| EmitCorrect.SimStmts | crates/llvm_poc/src/emit.rs:1108-1232 | running the code of a statement list does what the statements do, in every way they can end |
| EmitCorrect.SimWhileFrom | crates/llvm_poc/src/emit.rs:1146-1170 | a `while` loop in the finished code, any number of rounds |
| EmitCorrect.SimForFrom | crates/llvm_poc/src/emit.rs:1237-1298 | a counting loop in the finished code, any number of rounds, `continue` going to the increment |
| EmitProgram.EmittedRuns | crates/llvm_poc/src/emit.rs:973-1069 | for every function, argument list and bound on steps, the emitted blocks do what the body does with counters that wrap around, its last statement run twice if the emitter doubles it and its value dropped if it is no expression: same results, output and traps, or still running with the same output |
| EmitProgram.RunsCompared | crates/llvm_poc/src/emit.rs:1036-1069 | how that compares with the meaning of the body: the same, unless an inclusive loop passes the largest integer, except that a lost value is a trap |
| EmitProgram.SemanticPreservation | crates/llvm_poc/src/emit.rs:973-1069 | with exact 64-bit operators: without a doubled or dropped end and unless an inclusive loop passes the largest integer, the emitted blocks do what the body does |
| UbelLaws.WrapStmt | crates/llvm_poc/src/emit.rs:1237-1298 | a statement does the same with counters that end and with counters that wrap around, unless a body comes to its end at the largest integer |
| UbelLaws.TailStmts | crates/core/src/interpreter/eval/stmt.rs:148-163 | running statements for their effects is evaluating them and dropping the value |
| UbelLaws.NoValue | crates/core/src/interpreter/eval/stmt.rs:148-163 | a statement in which no way through ends in an expression never has a value |
| EmitResults.NeverStuck | crates/llvm_poc/src/emit.rs:973-1069 | the emitted code of a function with defined behaviour never reads an unwritten place, jumps to a missing label or destroys a wrong arena |
| EmitResults.OnlyReturns | crates/llvm_poc/src/emit.rs:1081-1104 | whatever the emitted code returns is what the body returns, with the same output and the callers' arenas open |
| EmitResults.ReturnsIff | crates/llvm_poc/src/emit.rs:973-1069 | the emitted code returns a result if and only if the body does |
| EmitResults.TrapsIff | crates/llvm_poc/src/emit.rs:1058-1069 | the emitted code stops at a trap if and only if the body does, with the same kind and output |
| EmitResults.ArenaDiscipline | crates/llvm_poc/src/emit.rs:1209-1230 | on every run that returns, each arena created in the call is destroyed once, innermost first, and no other is |
| UbelFuel.MoreStmt | crates/core/src/interpreter/eval/stmt.rs:94-343 | the bound on rounds is only a bound: a statement that has ended within one bound ends the same way within every larger one |
| EmitLimits.TailType | crates/llvm_poc/src/emit.rs:1040-1052 | the value of an expression that is emitted twice never has the result type, whatever the run |
| EmitLimits.DoubledIff | crates/llvm_poc/src/emit.rs:1040-1052 | for every function with a doubled end and every run that comes to it, the code does what the body does if and only if running the last statement once more from there ends and prints nothing |
| EmitLimits.PrintTailTwice | crates/llvm_poc/src/emit.rs:1040-1052 | a body with a result type that ends in a `print` prints once and traps; its code prints twice, and they agree exactly for the empty text |
| EmitLimits.PrintsTwice | crates/llvm_poc/src/emit.rs:1040-1052 | a concrete function of that kind and its two outputs |
| EmitLimits.ValueLost | crates/llvm_poc/src/emit.rs:1301-1337 | where the last statement has a value of the result type without being an expression, the body returns it and the emitted code traps with the same output and never returns |
| EmitLimits.BehavesIff | crates/llvm_poc/src/emit.rs:1036-1069 | without a doubled end and a passed largest integer, the emitted code does what the body does if and only if no such value is lost |
| EmitLimits.ChoiceLost | crates/llvm_poc/src/emit.rs:1301-1337 | a concrete function of that kind: 1 or 2 in the language, a trap in its code |
| EmitLoops.RoundsReturn | crates/core/src/interpreter/eval/expr.rs:717-720 | in the language a loop up to the largest integer ends after the round for it |
| EmitLoops.PassesToSmallest | crates/llvm_poc/src/emit.rs:1237-1298 | every emitted loop that is entered with the largest integer as limit, and whose body falls through up to there, goes on at its test with the smallest integer |
| EmitLoops.InclusiveLoopEnds | crates/llvm_poc/src/emit.rs:1237-1298 | for every function that ends in an inclusive loop whose body falls through in the states that its rounds come to: in the language it ends for all limits, and its code stops if and only if the limit is not the largest integer |
| EmitLoops.PrintLoopEnds | crates/llvm_poc/src/emit.rs:1237-1298 | a loop that prints its counter is such a loop |
| EmitLoops.SumLoopEnds | crates/llvm_poc/src/emit.rs:1237-1298 | a loop that adds its counter to a variable declared before it is such a loop |
| EmitLoops.NestedFalls | crates/llvm_poc/src/emit.rs:1237-1298 | a body with a counting loop of its own falls through |
| InterpOps.SmallAgrees | crates/core/src/interpreter/eval/expr.rs:774-808 | the interpreter's operators by way of doubles give the exact 64-bit results as long as operands and exact result are at most 2^53 |
| Rounding.DoubleIsNearest | crates/core/src/interpreter/eval/expr.rs:774-808 | the interpreter's rounding goes to a double, no double is nearer to the exact integer, and of two equally near ones it takes the one whose last bit is zero |
| InterpOps.SumLimit | crates/core/src/interpreter/eval/expr.rs:774-808 | sums of integers up to a limit are exact in all cases if and only if the limit is at most 2^53 |
| InterpOps.SumRounds | crates/core/src/interpreter/eval/expr.rs:878-893 | 2^53 + 1 is 2^53 in the interpreter, and 2^53 is not less than 2^53 + 1 |
| InterpOps.ComparesIff | crates/core/src/interpreter/eval/expr.rs:788-791 | two integers compare as in emitted code if and only if they are equal or do not round to the same double |
| InterpOps.SumSaturates | crates/core/src/interpreter/eval/expr.rs:802-808 | 2^62 + 2^62 is the largest integer in the interpreter and the smallest one in emitted code |
| InterpOps.BoolBitsPanic | crates/core/src/interpreter/eval/expr.rs:878-893 | the bit operators on booleans panic in the interpreter and have a value in emitted code |
| IntOps.WrapsAround | crates/llvm_poc/src/emit.rs:2101-2208 | sum, difference, product and negation are the 64-bit integer that differs from the exact result by a multiple of 2^64 |
| IntOps.DivisionLaw | crates/llvm_poc/src/emit.rs:2101-2208 | division by zero stops, the overflowing division has no result, and otherwise dividend = divisor times quotient plus a remainder that is smaller than the divisor and has the sign of the dividend |
| IntOps.BitwiseLaw | crates/llvm_poc/src/emit.rs:2101-2208 | each bit of the results of and, or, exclusive or and complement is that operation on the bits |
| IntOps.ShiftLaw | crates/llvm_poc/src/emit.rs:2101-2208 | a shift by 0 to 63 moves each bit by that many places, with zeros coming in to the left and the sign to the right; other amounts have no result |
| IntOps.BitsDetermine | crates/llvm_poc/src/emit.rs:2101-2208 | a 64-bit integer is determined by these 64 bits |
| PointerMasks.Helper | crates/llvm_poc/src/emit.rs:509-531 | the emitted helper sets exactly the bits of the words in which pointer fields start |
| PointerMasks.FieldPlaces | crates/llvm_poc/src/emit.rs:500-531 | the offsets that the masks are about: each field at the first multiple of its own alignment from the end of the field before it on, and the size the first multiple of the widest alignment |
| PointerMasks.StructMask | crates/llvm_poc/src/emit.rs:1617-1629 | for every struct within the limit and both pointer widths: the object fits a mask, bit i is set exactly when word i is a pointer field, and no other field has a byte in such a word |
| PointerMasks.VariantMask | crates/llvm_poc/src/emit.rs:1725-1739 | the same for every variant of an enum within the limit, in an object as wide as the widest variant |
| PointerMasks.ClosureMask | crates/llvm_poc/src/emit.rs:2560-2592 | the same for the captured variables of a closure |
| PointerMasks.StructLimit | crates/llvm_poc/src/emit.rs:175-177 | every struct of n fields fits a mask on every target if and only if n is within the limit |
| CfgBuilder.Build | crates/core/src/sema/cfg.rs:126-144 | the builder class with its block table and loop stack computes the graph that the theorems are about |
| CfgBuilder.Builder.BuildBlock | crates/core/src/sema/cfg.rs:164-239 | the new block table and the tail for a block of statements |
| CfgBuilder.Builder.BuildArms | crates/core/src/sema/cfg.rs:241-302 | the new block table and the tail for the branches of `if` and `match` |
| CfgBuilder.Builder.Converge | crates/core/src/sema/cfg.rs:321-330 | every fall-through end goes to one new block, and there is none if nothing falls through |
| CfgBuilder.Builder.BuildConditionalLoop | crates/core/src/sema/cfg.rs:332-353 | the header, body and exit blocks of `while` and `for` |
| CfgBuilder.Builder.BuildUnconditionalLoop | crates/core/src/sema/cfg.rs:355-376 | the header and exit blocks of `loop` |
| CfgCorrect.GraphEqualsStructure | crates/core/src/sema/cfg.rs:126-376 | the statement logs of paths through the graph are exactly the logs of the structured executions under free branch choices |
| CfgCorrect.ExitsEqualStructure | crates/core/src/sema/cfg.rs:126-376 | the logs of complete executions are exactly the logs of paths that end at an exit of the graph |
| CfgCorrect.BlockRunIsPath | crates/core/src/sema/cfg.rs:164-239 | every execution of a block is a path of the finished graph |
| CfgCorrect.BlockPathIsRun | crates/core/src/sema/cfg.rs:164-239 | every path that enters a block follows one of its executions |
| PointGraph.FirstPointsOf | crates/core/src/sema/borrow_check.rs:249-262 | every point listed is a first statement to run from the block, and the visited set closes the search |
| PointGraph.SuccPoints | crates/core/src/sema/borrow_check.rs:268-279 | the successors of a point are exactly the statements that can run next, empty blocks skipped, also around an empty loop |
| PointGraph.AllPoints | crates/core/src/sema/borrow_check.rs:281-289 | all points, each once |
| BorrowCheck.ComputeReachesBefore | crates/core/src/sema/borrow_check.rs:304-335 | a point is in the result if and only if a walk from the issue point reaches it with no kill strictly between |
| BorrowCheck.ComputeLiveness | crates/core/src/sema/borrow_check.rs:358-383 | the tables hold exactly "read later before redefinition", and the iteration ends within one sweep per table entry and one more |
| BorrowCheck.Check | crates/core/src/sema/borrow_check.rs:120-159 | the list of violations has one entry for each loan and each invalidation point listed for it at which a path shows the violation, no other entry, and is in the order of the loans and of their points |
| BorrowCheck.ComputeLoanRegions | crates/core/src/sema/borrow_check.rs:198-229 | the region of every bound loan is exactly where it is in force and its carrier live, and empty regions are absent |
| BorrowCheck.ViolationInRegion | crates/core/src/sema/borrow_check.rs:120-229 | a violation lies in the region of its loan unless the statement rebinds the carrier |
| BorrowRuns.BuiltIsClosed | crates/core/src/sema/cfg.rs:126-144 | every built graph has only existing targets |
| BorrowRuns.WalksAreExecutions | crates/core/src/sema/borrow_check.rs:241-279 | the walks under `succ_points` from the entry are exactly the non-empty logs of the structured executions |
| BorrowRuns.ViolationIsExecution | crates/core/src/sema/borrow_check.rs:120-159 | a mutable bound loan that can be issued is reported at a candidate if and only if an execution of the body exhibits the violation |
| BorrowRuns.ViolationHasExecution | crates/core/src/sema/borrow_check.rs:120-159 | every violation that `Check` reports for such a loan is exhibited by an execution of the body |
| BorrowRuns.ReportIsExecutions | crates/core/src/sema/borrow_check.rs:120-159 | for loans that can be issued: the report of the check on a built graph has one entry for each loan and invalidation point that an execution of the body exhibits, in order, and no other |
| BorrowRuns.KillsAre | crates/core/src/sema/borrow_check.rs:304-335 | a point kills a loan exactly if the facts list it as a kill, or if the carrier of the loan is defined there and it is not the issue itself |
| LifetimeCheck.FindOutlivesCycle | crates/core/src/sema/lifetime_check.rs:131-152 | None exactly when no walk from a declared name meets a name twice; otherwise a real cycle whose closing edge has the returned span |
| LifetimeCheck.CycleSearch.Dfs | crates/core/src/sema/lifetime_check.rs:154-182 | a cycle, or all that the node reaches finished with path and sets restored |
| LifetimeCheck.LoopFreeIsAcyclic | crates/core/src/sema/lifetime_check.rs:131-152 | for edges between declared names that is acyclicity, self-edges included |
| LifetimeCheck.CheckDeclarationWellFormed | crates/core/src/sema/lifetime_check.rs:78-123 | the errors appended: one for each repeated name with the span of its first parameter, one for each undeclared side of a constraint with the span of the constraint, longer before shorter, in the order of the parameters, then at most one cycle |
| LifetimeCheck.ErrorsAreFaults | crates/core/src/sema/lifetime_check.rs:78-115 | for every declaration the errors about names are exactly those of its faulty places, each once and in order, stated on the parameters |
| LifetimeCheck.NoErrorsIffWellFormed | crates/core/src/sema/lifetime_check.rs:78-123 | no error exactly for distinct names, declared constraints and an acyclic order |
| LifetimeCheck.DeclaredEdgesExact | crates/core/src/sema/lifetime_check.rs:96-114 | the edges are exactly the constraints between declared names |
| Arenas.BlocksTile | crates/llvm_poc/runtime/ubel_rt.c:846-857 | the blocks of a chunk leave no gap below its bump position |
| Arenas.CreateOk | crates/llvm_poc/runtime/ubel_rt.c:744-786 | creating an arena keeps the invariant: no chunk is shared by two arenas or with the cache, none is lost; the new arena has one chunk of the size asked for, or of the default size, from the cache exactly when that is the default size and one is cached |
| Arenas.AllocateOk | crates/llvm_poc/src/emit.rs:567-587 | bump or grow keeps the invariant and hands out one more block, which is at the bump position when it fits there and else at the start of one new chunk, cached or fresh, stated on the fields |
| Arenas.AllocatedAnswers | crates/llvm_poc/src/emit.rs:567-587 | if the block fits below the end it is at the bump position of the chunk in use, and sizes, cache and chunks stay; otherwise one chunk is added, from the cache exactly when it has the default size and the cache is not empty, with the arena's chunk size or the rounded request as payload when that is larger |
| Arenas.CreatedOpens | crates/llvm_poc/runtime/ubel_rt.c:744-786 | the fields of a created arena, and what is taken from the cache |
| Arenas.DestroyedCloses | crates/llvm_poc/runtime/ubel_rt.c:859-878 | which chunks of a destroyed arena go to the cache and which sizes are forgotten, chunk by chunk |
| Arenas.DestroyOk | crates/llvm_poc/runtime/ubel_rt.c:859-878 | destroying an arena keeps the invariant; its chunks of the default size are cached as long as there are fewer than 64, the others are freed |
| ArenaRuntime.NewBlock | crates/llvm_poc/runtime/ubel_rt.c:846-857 | a new block is aligned to 16, inside one chunk, and apart from every block of every live arena |
| ArenaRuntime.BlocksDisjoint | crates/llvm_poc/runtime/ubel_rt.c:744-857 | blocks of live arenas never overlap |
| ArenaRuntime.BlockInChunk | crates/llvm_poc/runtime/ubel_rt.c:744-857 | every block is aligned, inside a chunk of its own arena, and that chunk is not cached |
| ArenaRuntime.ScanExact | crates/llvm_poc/runtime/ubel_rt.c:792-801 | the words scanned are exactly those handed out by live scannable arenas |
| ArenaRuntime.Runtime.Create | crates/llvm_poc/runtime/ubel_rt.c:766-786 | the invariant and the new state, also said field by field |
| ArenaRuntime.Runtime.Grow | crates/llvm_poc/runtime/ubel_rt.c:846-857 | the invariant and the new state, also said field by field; the retired chunk's written bytes are recorded |
| ArenaRuntime.Runtime.Allocate | crates/llvm_poc/src/emit.rs:567-587 | the invariant and the new state: when the block is bumped and when a chunk is taken, and from where, said field by field |
| ArenaRuntime.Runtime.Destroy | crates/llvm_poc/runtime/ubel_rt.c:859-878 | the invariant and the new state, also said field by field |
| ArenaRuntime.Runtime.Live | crates/llvm_poc/runtime/ubel_rt.c:764-764 | the counter is the number of live arenas |
| ArenaRuntime.Runtime.Scan | crates/llvm_poc/runtime/ubel_rt.c:792-801 | the loop reads exactly the words that live scannable arenas have handed out |
| Strings.I64Len | crates/llvm_poc/runtime/ubel_rt.c:97-102 | the length of the decimal form, for every integer |
| Strings.I64Write | crates/llvm_poc/runtime/ubel_rt.c:105-110 | exactly the decimal form is written, and no other byte |
| Strings.ParseShow | crates/llvm_poc/runtime/ubel_rt.c:96-110 | every integer is read back, the smallest included |
| Strings.ShowIsDecimal | crates/llvm_poc/runtime/ubel_rt.c:96-110 | what is written for an integer is the one decimal, without a zero in front, that reads as the integer |
| Strings.Interpolate | crates/llvm_poc/src/emit.rs:2779-2844 | the summed lengths are the bytes written, and the payload is the concatenation of the pieces |
| Strings.ShowBoolIs | crates/llvm_poc/src/emit.rs:2823-2832 | a boolean is written as its literal |
| Values.EqualHash | crates/core/src/interpreter/value.rs:597-679 | equal values feed the same to the hasher, when every type that derives equality derives hashing |
| Values.AddressHash | crates/core/src/interpreter/value.rs:657-679 | with a type that derives equality without hashing the contract fails: two structs with the fields that it declares are equal and feed their addresses to the hasher |
| Values.HashContractIff | crates/core/src/interpreter/value.rs:565-597 | for every list of declarations that the check of derivations accepts, the contract of equality and hashing holds for all values exactly when every type that derives equality derives hashing |
| Values.PartialEqAlone | crates/core/src/sema/type_infer.rs:6343-6386 | a declaration with `PartialEq` alone is accepted and breaks the contract |
| ValueHash.HashTells | crates/core/src/interpreter/value.rs:597-679 | where equality and hashing are derived together, two values without a NaN feed the same to the hasher exactly if they are equal |
| ValueHash.Prefix | crates/core/src/interpreter/value.rs:606-679 | what two values feed to the hasher shows whether they are the same, whatever is fed after them |
| Values.EqualSymmetric | crates/core/src/interpreter/value.rs:425-488 | equality is symmetric |
| Values.EqualTransitive | crates/core/src/interpreter/value.rs:425-488 | equality is transitive, across structural and address comparison |
| Values.EqualReflexive | crates/core/src/interpreter/value.rs:425-488 | a value equals itself exactly when equality meets no NaN in it |
| ValueEquality.EqualsIs | crates/core/src/interpreter/value.rs:425-488 | two values are equal exactly if they have the same essence and no NaN is met: the values themselves, zeros being one, fields of deriving structs and of variants as maps, and addresses for all else |
| Values.Antisymmetric | crates/core/src/interpreter/value.rs:516-554 | comparing the other way round gives the opposite answer; which way is ValueOrder.CmpIs |
| Values.Transitive | crates/core/src/interpreter/value.rs:516-554 | comparison is transitive through lexicographic structs and wrappers, in the direction of ValueOrder.CmpIs |
| ValueOrder.CmpIs | crates/core/src/interpreter/value.rs:516-554 | `Less`, `Equal` and `Greater` exactly for values that come before, are tied or come after: integers of one kind and floats by size, `false` before `true`, strings by the first difference, structs by the first declared field that is not tied, wrappers by their contents |
| ValueOrder.StringsCompare | crates/core/src/interpreter/value.rs:529-529 | a string is less exactly if it is a proper beginning of the other or has the smaller character at the first difference |
| Values.EqualIsNotOrdered | crates/core/src/interpreter/value.rs:425-554 | values that are equal by address or structure are never ordered one before the other |
| DeepClone.CloneIsFresh | crates/core/src/interpreter/value.rs:704-767 | the clone reads like the original, aliases being the same ones, and none of its cells existed before |
| DeepClone.OriginalKept | crates/core/src/interpreter/value.rs:704-767 | whatever is written to the clone's cells, the original reads as before |
| DeepClone.CloneKept | crates/core/src/interpreter/value.rs:704-767 | whatever is written to the cells that existed before, the clone reads as the original did |
| DeepClone.CloneShows | crates/core/src/interpreter/value.rs:704-767 | the clone is displayed like the original to every depth, also behind aliases |

## Left out

- Emitter: calls between functions, structs, enums, strings as values, closures, `match`, `try` and sized integers are not modelled there, and the masks of objects only in PointerMasks; functions have integer and boolean values and text pieces to print. Without allocations in an arena block no arena has to be scannable, so the later rewriting of its creation does not arise.
- EmitProgram.SemanticPreservation: the meaning of the operators is that of exact 64-bit two's-complement integers, not the interpreter's rounding by way of doubles (see Findings and InterpOps); shifts of 64 or more and the smallest integer divided by -1 have no defined result, and nothing is said after them; an `if` is given as its list of branches; `fuel` bounds loop rounds, and the theorem holds for every bound.
- UbelSource: the semantics follows the interpreter for the statements above, with choices of its own. (1) The operators `+ - * / %` and the comparisons of integers are exact and wrap around, where the interpreter goes by way of doubles (`crates/core/src/interpreter/eval/expr.rs:774-808`, `878-893`): `2^53 + 1` is 2^53 there. (2) `&`, `|` and `^` on booleans have a value, where the interpreter panics (`crates/core/src/interpreter/eval/expr.rs:878-893`). (3) A shift by 64 or more, or by less than zero, has no defined result, where the interpreter takes the amount modulo 64 (`crates/core/src/interpreter/eval/expr.rs:896-905`), nor has the smallest integer divided by -1. (4) A body with a result type that comes to its end without a value of that type traps, where the interpreter, which relies on semantic analysis, returns `void` or the value. (5) An arena block evaluates its size and closes its arena, where the interpreter only runs the block. (6) A block with an expression at its end drops the value where nobody asks for it. Semantic analysis is not modelled, nor are `break` with a value, `defer`, operators of the program's own and iterators.
- InterpOps.InterpOp: division is left out, since its quotients are fractions; the operands are integers and booleans.
- BorrowCheck.Check: `facts.rs` is not part of this model; loans, kills, candidates, reads and definitions are parameters. Source spans of diagnostics are identified with points.
- CfgCorrect.GraphEqualsStructure: `try` is left out, a stated approximation in the source; a condition or match arm that is an expression is not looked into, as in the source.
- GcCollect.Collect: reading the stack, the registers and registered regions is not modelled; the roots are any sequence of words.
- GcApi.Alloc: exhaustion is a reply where the runtime aborts; the counters are unbounded integers; the per-class `next` links are sequences; statistics, clocks and environment variables are left out, and so are 32-bit targets.
- GcApi.StoreHeap: the program's own stores are one word at a time, anywhere in the words an object keeps to itself.
- ArenaRuntime.Runtime.Create: the system's allocator is a parameter that gives an address not in use; the doubly linked registry is a sequence; block sizes are multiples of 16, as the runtime demands.
- Values.EqualHash: what a value feeds to the hasher is a sequence of tokens, the hasher itself is any function of it; the contents of lists, dictionaries and other identity types are left out since neither equality, hashing nor ordering looks at them; cyclic values are left out.
- ValueHash.HashTells: the payload of an enum value has the shape that its variant declares, as type checking ensures; the declarations of enums are a parameter.
- DeepClone.Clone: a value that is nested in itself is left out, since the recursion of the source does not end there; a handle, a function and a number are plain data; the order in which a table of fields is gone through is that of the list.
- PointerMasks.StructMask: a boolean takes one byte and a 64-bit integer is aligned to 4 or 8 bytes, as on the targets in use; where an object is allocated is not modelled.
- `is_truthy`, the text of a display and the pool methods of `value.rs`.
- Types of references in signatures (`check_type_lifetimes`) and the callers that walk declarations in `lifetime_check.rs`.
- String equality, ordering and search in the runtime.
- The lexer, the parser, the prelude, the command line, the language server, the playground and the benchmark scripts.
