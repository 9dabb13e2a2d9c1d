# The cilk2c analyses and what the compiled code does with them

This project models the core of `cilk2c`, the compiler of Cilk 5, and proves what it promises.

The centre is the iterative data-flow engine (`dataflow.c`) with its four clients (`analyze.c`).  The engine works on
the syntax tree and has no flow graph: values are met into the confluence cells of loops, switches, labels and
procedures until nothing changes, and a final pass shows the client the values.  The clients compute live variables,
dirty variables, whether the end of a procedure is reachable, and whether a child may be outstanding.  The compiler
saves, at a spawn, the registers that are live and dirty, restores the live ones where a stolen procedure goes on, and
adds the syncs and returns that the flags call for.

The proofs run in four layers.

1. The engine (`Flow`, `Inner`, `Engine`, `Descent`, `FinalPass`, `TwoRuns`, `Convergence`): it ends after a bounded
   number of passes, at the greatest solution of the flow equations, and the final pass changes nothing.
2. Paths (`Control`, `Facts`, `BackwardPaths`, `ForwardPaths`, `BackwardExact`, `ForwardExact`, `Bridge`, `Bounds`,
   `Results`, `InnerPaths`, `InnerBridge`, `InnerExact`): control flow is given independently, as steps with
   continuations, and a bit is shown at a node if and only if a path says so.  Both directions are proved, for goto,
   break, continue, switch with fall-through, short-circuit operators and all three loops; backwards also at every node
   inside an expression.
3. The clients (`Clients`, `Walks`, `Analyses`, `InnerLive`, `ForwardAnalyses`, `Leaving`, `StaleBits`, `PairedVisits`,
   `DefinedValues`, `Lists`, `Analyzer`): the sets stored on the nodes, the chunks of variables cut from a linked list,
   and what each analysis records, in terms of paths alone.
4. Execution (`Semantics`, `Agreement`, `Noninterference`, `InnerMeaning`, `Machine`, `SaveRestore`, `Schedules`,
   `Compiled`, `SyncSafety`, `Elision`): the compiled procedure with its fast and slow versions, registers and frame, thefts and
   late results does, under every schedule, what its serial elision does.

Beside them stand the stack that resolves jumps (`Containers`), the matching of brace-elided initializers
(`Initializers`, `Writings`), patterns with wildcards and edits of trees in place (`Patterns`, `TreeEdits`), elision of possibly
cyclic types (`ElidedTypes`) and the index ranges of counting loops (`LoopRanges`).

`dafny verify dfyconfig.toml` checks everything.

## Findings

- The engine ends for every transfer function.  The comment at `cilk2c/dataflow.c:94-101` says that it need not
  converge without monotonicity, but a cell only ever moves down its chain.  The final pass agrees with the cells for
  every transfer function too, as long as its values do not depend on the pass being final.  Monotonicity is used for
  nothing but the solution being the greatest (`Convergence.GreatestSolution`).
- The meet laws hold up to `SetEqual` only: an undefined value keeps the bits it had.
- `GenKill` turns an undefined value into the empty set, so it is not strict, and facts generated in dead code flow on.
  The path theorems for the forward analyses therefore let paths start in dead code, at the places where the original
  makes a value defined.
- The bit that decides `needs_return` is stale when no path leads to the exit from the start or through any
  expression, as in `{ L: goto L; }`.  It is then the bit with which the last jump before the end of the body is
  entered, or that the cell of the last loop, switch or case kept from earlier analyses (`StaleBits.ReturnBitExact`),
  and wrong exactly when that is set.  It is right in every other case (`StaleBits.NeedsReturnRight`).
- The assertion at `cilk2c/analyze.c:475` fails for `{ return; spawn f(); }`.  It holds if and only if every path that
  brings an outstanding child to the exit, dead code included, means that control can fall off the end of the body
  (`Leaving.AssertionHolds`); reachable spawns are enough for that.
- A `%d` wildcard matches a declaration of any qualifiers, so filling the pattern gives the original back exactly when
  the kinds agree (`Patterns.MatchThenFill`).
- Elision loses the meaning of spawns like `x += spawn f(x++)` (`Elision.OrderMatters`): the result is combined with the
  value of `x` after the operands, the elided assignment reads it before them.  A run is elided right if and only if at
  each of its spawns the operator yields the same with both values (`Elision.ElisionKeepsMeaning`), and a spawn is
  elided right for every operator if and only if its operands leave the variable as it was (`Elision.SpawnExact`).
- The index range of a descending `>` loop starts one too early.  A negative step that is added, as in
  `for (i = 10; i >= 0; i += -1)`, is rounded at the wrong end, so that the range is never right for a loop with `<`, `<=`,
  `>` or `>=` that is entered (`LoopRanges.AddingMinusOne`).  The ranges that are right are listed exactly
  (`LoopRanges.RangeExact`).
- `NextChunkOnList` relies on having been the last to move the marker.  After a plain `NextOnList` in the middle of the
  list it returns NULL, as at the end, though elements are left and the marker has moved past some of them, so a loop
  over chunks ends early; it hands out a chunk if and only if the marker stands at a cut (`Lists.ListMarker.NextChunkOnList`).
- In a struct initializer, matching goes on with the last member after the error for too many items.

## Model

| member | source | states |
|---|---|---|
| FlowValues.MeetLaws | cilk2c/analyze.c:46-83 | the meet is commutative, associative and idempotent with undefined as identity and top, all up to the framework's own equality |
| Engine.DataFlowEngine.FlowInto | cilk2c/dataflow.c:865-873 | meets into one cell; only that cell and the change flag can differ afterwards, and the new value is returned |
| Engine.DataFlowEngine.DataFlow | cilk2c/dataflow.c:304-567 | one pass over a statement leaves the cells, the change flag and the visits of the pass function, about which everything below is proved; in a backward final pass also the visits to all expression nodes |
| Engine.DataFlowEngine.InitConfluencePoints | cilk2c/dataflow.c:823-858 | makes exactly the cells of the tree undefined, keeping their bits |
| Engine.DataFlowEngine.IterateDataFlow | cilk2c/dataflow.c:879-908 | for every transfer function, leaves cells that solve the flow equations and shows the client the values of exactly those cells, within K * (W + 1) + 1 passes |
| Convergence.TerminationBound | cilk2c/dataflow.c:896-903 | at most K * (W + 1) + 1 iterating passes for K cells and W-bit sets, whatever the transfer function |
| Convergence.GreatestSolution | cilk2c/dataflow.c:879-908 | for a monotone client the cells end at a solution, and every other solution over the same surroundings lies below it |
| Convergence.FinalPassChangesNothing | cilk2c/dataflow.c:905-907 | the final pass over a solution changes no cell, monotone client or not, so what is recorded are the converged values |
| FinalPass.PassesAlike | cilk2c/dataflow.c:879-908 | two passes from equal cells leave equal cells, whether or not either is the final one and whatever has been shown before |
| Clients.GenKillMonotone | cilk2c/analyze.c:88-96 | the transfer functions of live-variable, dirty-variable and sync analysis are monotone, so their solutions are the greatest |
| Leaving.ReturnMonotone | cilk2c/analyze.c:363-412 | and so is that of return flow |
| TwoRuns.ForwardRelated | cilk2c/dataflow.c:304-567 | a forward pass keeps every relation between flow values that meet, transfer and undefinedness respect |
| BackwardPaths.PathsCovered | cilk2c/dataflow.c:178-567 | whatever satisfies the backward node rules for one bit covers every control path that meets the fact before it is killed |
| BackwardExact.LiveCellsSolve | cilk2c/dataflow.c:178-567 | the cells from which such a path exists satisfy those rules themselves, so the rules show no more than paths do |
| ForwardPaths.PathsKept | cilk2c/dataflow.c:178-567 | whatever satisfies the forward node rules for one bit holds at the end of every control path that carries the fact |
| ForwardExact.ReachedCellsSolve | cilk2c/dataflow.c:178-567 | the cells that such paths reach, dead starts included, satisfy those rules themselves |
| Results.BackwardAnalysisExact | cilk2c/dataflow.c:879-908 | a backward client is shown a bit at a statement's exit if and only if some path from there meets the fact before it is killed |
| Results.ForwardAnalysisExact | cilk2c/dataflow.c:879-908 | a forward client is shown a bit after a statement's operands if and only if some path brings the fact there |
| Results.ForwardExitExact | cilk2c/dataflow.c:622-644 | the same at the exit of the procedure, returns and the end of the body together |
| Walks.WalkStmtDone | cilk2c/analyze.c:198-257 | the set-up walk leaves on every visited node the gen and kill sets that its event calls for, and touches no other node |
| Walks.NodeSets.ListFind | cilk2c/analyze.c:102-116 | the bits of all positions at which the variable stands in the chunk, and no others |
| Analyzer.VariableAnalyzer.ListSelect | cilk2c/analyze.c:123-134 | the variables whose bits are set |
| Lists.ListMarker.NextOnList | cilk2c/list.c:182-204 | moves to the next element, joining a list that was cut behind the current one; the elements never change |
| Lists.ListMarker.EndOfList | cilk2c/list.c:206-219 | true exactly when every element has been handed out, cut or not |
| Lists.ListMarker.NextChunkOnList | cilk2c/list.c:313-333 | from a cut, the next chunk as a list of its own, of at most chunksize elements, in order, and the list whole again when NULL is returned; from anywhere else NULL, the marker moved on; a chunk if and only if at a cut |
| Analyses.ChunksCover | cilk2c/analyze.c:156-165 | no chunk exceeds a word, and together they hold exactly the variables of the list |
| Analyzer.VariableAnalyzer.ApplyInChunks | cilk2c/analyze.c:156-165 | the analysis runs over every chunk of the cut and rejoined list, each starting from the sets and cells the one before left |
| Analyses.LiveVarsExact | cilk2c/analyze.c:324-351 | over chunks of any number, a variable is recorded live at a statement if and only if a path from its exit reaches a use that no kill precedes |
| Analyses.AnalyzeLiveExact | cilk2c/analyze.c:198-351 | the same for a whole variable list of any length, started on a fresh tree |
| InnerPaths.MarksExact | cilk2c/dataflow.c:162-302 | the backward node rules inside an expression compute a fact at the exit of a node if and only if some rest of an evaluation from there meets it before it is killed |
| InnerBridge.MarksAreShown | cilk2c/dataflow.c:162-302 | a final pass shows a bit at exactly the expression nodes that those rules mark |
| InnerExact.InnerAnalysisExact | cilk2c/dataflow.c:879-908 | a backward client is shown a bit at the exit of any node inside an expression if and only if some evaluation goes on from there along a path that meets the fact before it is killed |
| InnerLive.ExprLiveVarsExact | cilk2c/analyze.c:263-351 | over chunks of any number, a variable is recorded live at an expression node if and only if an evaluation goes on from its exit to a use that no kill precedes |
| InnerLive.AnalyzeExprLiveExact | cilk2c/analyze.c:198-351 | the same for a whole variable list of any length, started on a fresh tree |
| DefinedValues.DirtyVarsExact | cilk2c/analyze.c:513-677 | at a spawn or a return with a result, and wherever a path leads from the start or through an expression, the recorded dirty variables are exactly the live ones that some path leaves dirty |
| ForwardAnalyses.DirtyVarsCover | cilk2c/analyze.c:581-677 | everywhere, they include every live variable that some path leaves dirty, and nothing that is not live |
| ForwardAnalyses.ReturnsMarked | cilk2c/analyze.c:463-485 | a return that some path reaches with a child outstanding has needs_sync |
| DefinedValues.ReturnsMarkedExactly | cilk2c/analyze.c:463-485 | a return with a result, or to which a path leads from the start or through an expression, has it only then |
| PairedVisits.ForwardPairs | cilk2c/dataflow.c:304-567 | two forward clients that correspond are shown corresponding values at every statement without parts |
| ForwardAnalyses.EndMarked | cilk2c/analyze.c:463-485 | a procedure whose end some path reaches with a child outstanding has needs_sync |
| Leaving.ReturnExitDefined | cilk2c/analyze.c:363-412 | the value of return flow at the exit is defined if and only if a path leads there from the start or through some expression |
| StaleBits.ReturnBitExact | cilk2c/analyze.c:363-424 | the bit behind needs_return for every procedure: whether the end of the body is reachable if the exit value is defined, else the stale bit of the last jump, loop, switch or case, given by paths and by the bits left from before |
| StaleBits.CarriedBit | cilk2c/dataflow.c:304-567 | no defined value flows into a cell that stays undefined, and a jump passes on the bit it is entered with |
| StaleBits.NeedsReturnRight | cilk2c/analyze.c:363-424 | so the bit says whether the end of the body is reachable unless the exit is undefined and the stale bit set |
| Leaving.SyncFlowExact | cilk2c/analyze.c:463-496 | needs_sync of the procedure is set if and only if some path brings an outstanding child to the exit |
| Leaving.OutstandingImpliesReturn | cilk2c/analyze.c:471-478 | where every spawn is reachable, an outstanding child at the exit of a cilk procedure implies needs_return |
| Leaving.AssertionHolds | cilk2c/analyze.c:471-478 | the assertion holds for a cilk procedure if and only if a path that brings an outstanding child to the exit means that the end of the body is reachable |
| Counterexamples.StaleReachable | cilk2c/analyze.c:363-424 | `{ L: goto L; }` gets needs_return though no path reaches the end of its body |
| Counterexamples.DeadSpawnTripsAssertion | cilk2c/analyze.c:471-478 | `{ return; spawn f(); }` has a child outstanding at its exit without needs_return |
| Analyzer.VariableAnalyzer.AnalyzeLiveVariables | cilk2c/analyze.c:344-351 | records, for a linked list of any length, the sets that AnalyzeLiveExact and AnalyzeExprLiveExact characterize, and leaves the list as it was |
| Analyzer.VariableAnalyzer.AnalyzeDirtyVariables | cilk2c/analyze.c:670-677 | records the live variables that dirty-variable analysis shows, keeping the live ones |
| StaleBits.NeedsReturnMeans | cilk2c/analyze.c:385-408 | every procedure but a plain C function returning int needs a return if and only if that bit is set; such a function never does |
| Analyzer.VariableAnalyzer.AnalyzeReturnFlow | cilk2c/analyze.c:414-424 | for every procedure but a plain C function returning int, needs_return ends up set if and only if it was set, or the end of the body is reachable, or the exit is undefined and the stale bit set; for such a function it is left as it was |
| Analyzer.VariableAnalyzer.AnalyzeSyncFlow | cilk2c/analyze.c:487-496 | sets needs_sync of exactly the returns, and of the procedure, that are shown an outstanding child |
| Analyzer.VariableAnalyzer.AnalyzeProgram | cilk2c/analyze.c:1590-1610 | the analyses of a procedure in order leave the record on which CompiledCorrect and CompiledLeavesNoChild rest |
| Semantics.SerialFollowsControl | cilk2c/dataflow.c:178-567 | every step of the serial meaning is a step that control flow allows, with the same events |
| Agreement.StepSame | cilk2c/analyze.c:198-315 | stores that agree on what is live before a step lead to the same step, and then agree on what is live after it |
| Noninterference.LivenessMeans | cilk2c/analyze.c:198-315 | for any number of steps, stores that agree on the live variables take the same branches and have the same calls, spawns and results |
| Noninterference.RecordedLivenessMeans | cilk2c/analyze.c:263-315 | the same for the sets recorded at a statement: everything else can have any value, or none |
| InnerMeaning.StepSwapSame | cilk2c/analyze.c:198-315 | a step whose variables are changed at the exit of a node inside its expression, but for those live there, is the same step |
| InnerMeaning.RecordedInsideMeans | cilk2c/analyze.c:263-315 | from the exit of an expression node on, variables not recorded there can have any value, or none: the evaluation under way and any number of further steps have the same branches and effects |
| Schedules.StepCorresponds | cilk2c/transform.c:2302-2447 | whatever the scheduler chooses, one machine step is the serial step and keeps: live and clean implies frame equals register |
| Schedules.SaveRestoreCorrect | cilk2c/transform.c:1870-1922 | for every race-free serial run and every schedule, with any garbage in the thief's registers, saving and restoring recorded sets that cover the paths gives the same effects |
| Compiled.AnalysesCover | cilk2c/analyze.c:226-240 | what the analyses record covers the paths |
| Compiled.CompiledCorrect | cilk2c/transform.c:1870-1922 | a procedure compiled with what the analyses record behaves, under every schedule, as its serial meaning does |
| SyncSafety.OutstandingIsUnwaited | cilk2c/transform.c:2302-2447 | what the machine counts as outstanding are the children stolen from since it last waited, over whole runs |
| SyncSafety.LeavesNoChild | cilk2c/analyze.c:438-496 | in every run of the machine, races or not, a procedure whose marks cover the paths is left with no child outstanding and no result on its way |
| SyncSafety.CompiledLeavesNoChild | cilk2c/transform.c:3791-3808 | the implicit syncs at marked returns and ends are enough for that |
| Elision.ElidedIsSame | cilk2c/elide.c:389-398 | elision changes nothing but spawns, which become calls with the same operands, assigned to the same receiver with the same operator, and syncs, which go |
| Elision.ElidedIsC | cilk2c/elide.c:389-398 | elision leaves no Cilk, and changes exactly the statements that have some |
| Elision.SpawnExact | cilk2c/elide.c:313-323 | a spawn is elided right for every operator if and only if its operands leave the variable that the result is combined with as it was |
| Elision.ElisionKeepsMeaning | cilk2c/elide.c:313-335 | at every one of any number of steps the elided procedure has the stores and effects of the serial meaning, and is stuck if and only if that is, if and only if at every spawn executed the operator yields the same with the variable read before or after the operands |
| Elision.KeepingRunMatches | cilk2c/elide.c:313-335 | so it has them in every run whose spawns leave those variables as they were |
| Elision.ProperRunMatches | cilk2c/elide.c:313-335 | and in every run at all, if no evaluated operand of a spawn writes to its op-assigned receiver |
| Elision.CompiledDoesWhatElisionDoes | cilk2c/elide.c:313-335 | under every schedule the compiled procedure has the effects of its serial elision, and is where the elision is |
| Elision.OrderMatters | cilk2c/elide.c:313-323 | `x += spawn f(x++)` adds to another value of x once it is elided |
| ElidedTypes.PlainIsSame | cilk2c/elide.c:243-251 | there is one type without cilk qualifiers that is otherwise the same: same types in the same places, as many arguments, in order |
| ElidedTypes.ElideNode | cilk2c/elide.c:243-288 | ends on cyclic types and gives that type; every struct type is entered at most once, those entered become plain, and what they name is reached |
| ElidedTypes.ElideSUE | cilk2c/elide.c:254-270 | the members of a type entered for the first time lose their cilk qualifiers and nothing else, in place and in order; others stay |
| ElidedTypes.ElideType | cilk2c/elide.c:389-398 | the same for a whole type, and keeps: whatever has been reached is plain and names only types that have been reached |
| ElidedTypes.ReachedIsPlain | cilk2c/elide.c:254-288 | so every type at the end of any chain of members is free of cilk qualifiers |
| Containers.ParsedResolves | cilk2c/container.c:54-166 | however statements are nested, every jump is bound to the innermost loop or switch that encloses it |
| Containers.ParsedErrors | cilk2c/container.c:107-166 | exactly the jumps that nothing encloses are reported, in order |
| Containers.ParsedDefault | cilk2c/container.c:54-102 | has_default is set if and only if the switch is the innermost one around some default |
| Containers.SwitchGetsItsCases | cilk2c/container.c:54-102 | a switch gets the list of its own cases, in source order, when it is closed |
| Containers.EverySwitchGetsItsCases | cilk2c/container.c:54-102 | and every switch of a body still has its own when all of it has been parsed |
| Containers.ParsingWritesFields | cilk2c/container.c:43-166 | with or without errors, the tree is left as it was but for the container of every enclosed jump, which is its innermost target, and has_default of every switch, which says whether it is the innermost one around some default |
| Containers.ParsingResolves | cilk2c/container.c:43-166 | a body without errors leaves a tree whose jumps are resolved, as the analyses require, and that is otherwise the tree that was parsed |
| Containers.ContainerStack.Parse | cilk2c/container.c:43-166 | the array stack does what the lemmas are about, within its bound, and is as it was afterwards |
| Initializers.FitConserves | cilk2c/initializer.c:137-278 | if no error is reported, the leaves of the result followed by what the cursor holds are the leaves of the input, for any mixture of braces |
| Initializers.RoundTrip | cilk2c/initializer.c:137-278 | matching the flat list of a value's leaves rebuilds exactly that value and leaves what follows |
| Initializers.UnsizedRoundTrip | cilk2c/initializer.c:239-278 | the same for an array of unknown size, whose length is inferred |
| Initializers.FlatErrors | cilk2c/initializer.c:239-278 | a flat list is rejected if and only if it has more items than the type has leaves |
| Initializers.InferredDimension | cilk2c/initializer.c:239-278 | the dimension inferred from m expressions for elements of k leaves is m / k rounded up |
| Writings.WrittenFits | cilk2c/initializer.c:137-278 | however a value is written, with parts braced or not, trailing parts missing, items too many or expressions missing, matching gives exactly that value, leaves what follows, and reports exactly what is at fault, in order |
| Writings.EveryListIsWritten | cilk2c/initializer.c:137-278 | every list is such a writing |
| Writings.FitExact | cilk2c/initializer.c:137-278 | so value, rest and errors are those of an initializer if and only if the list writes them |
| Writings.BracedRoundTrip | cilk2c/initializer.c:239-278 | an initializer with all its braces is matched to the value that it spells |
| Initializers.SemCheckInitList | cilk2c/initializer.c:137-278 | the shared cursor, advanced in place, gives the value, the errors and the rest that the lemmas are about |
| Initializers.SUE_MatchInitList | cilk2c/initializer.c:578-658 | the same for the members of a struct, with the error for too many items |
| Patterns.MatchIsInstance | cilk2c/astEquals.c:703-761 | a match keeps earlier bindings, and makes the tree the instance of the pattern under the table and any later one |
| Patterns.InstanceMatches | cilk2c/astEquals.c:703-761 | every instance under a table that keeps the earlier bindings matches, with no binding that table does not have |
| Patterns.FillIsInstance | cilk2c/astModify.c:53-107 | filling the pattern gives a tree if and only if the tree is the instance and the kinds at %d wildcards agree |
| Patterns.MatchThenFill | cilk2c/astModify.c:53-107 | matching and then filling gives the original back, repeated wildcards included, exactly when those kinds agree |
| Patterns.UnboundStays | cilk2c/astModify.c:53-107 | what has no binding is left as it is |
| Patterns.PatternAnswer.PatternEqualASTHelper | cilk2c/astEquals.c:703-761 | leaves the answer and the bindings of the match |
| Patterns.PatternEqualsAST | cilk2c/astEquals.c:766-780 | TRUE if and only if some table makes the original an instance of the pattern |
| TreeEdits.CopyAST | cilk2c/astModify.c:24-30 | a fresh, unshared copy of equal value |
| TreeEdits.FillWildcardsFromTable | cilk2c/astModify.c:53-107 | fills an unshared pattern in place to the filled tree; the result shares nothing with the bindings |
| TreeEdits.EqualAST | cilk2c/astEquals.c:422-438 | TRUE if and only if the two heap trees have equal value |
| TreeEdits.MatchesAreDisjoint | cilk2c/astEquals.c:593-608 | the collected matches are disjoint subtrees that equal the tree sought |
| TreeEdits.ReplaceEach | cilk2c/astEquals.c:634-655 | overwriting the matches in any order turns an unshared tree into the one with every outermost match replaced |
| TreeEdits.ReplacedAt | cilk2c/astEquals.c:634-655 | that tree has the replacement at every outermost position of the tree sought, and the same node at every position at and above which it does not stand |
| TreeEdits.PositionsAreOutermost | cilk2c/astEquals.c:593-608 | the positions counted are the outermost ones, and no others |
| TreeEdits.ReplaceAllMatchingSubtrees | cilk2c/astEquals.c:634-655 | the whole replacement in place, with the number of outermost positions as its result |
| LoopRanges.RangeExact | cilk2c/analyze.c:1354-1397 | the computed range is what the iterations pass over if and only if the comparison, direction, step and bounds are of the listed kinds, rounding and negative steps included |
| LoopRanges.AddingMinusOne | cilk2c/analyze.c:1336-1397 | counting from 10 down to 0 by adding -1 gets a range that misses index 10 |
| LoopRanges.LoopRangeExact | cilk2c/analyze.c:1302-1397 | the same of the for statement itself: what it passes over, by the C meaning of its three expressions |
| LoopRanges.LoopAnalyzer.IsSimpleFor | cilk2c/analyze.c:1302-1397 | 0 for every statement that is not of the counting shapes, else its variable, step, start and size, which are those of what the statement passes over if and only if it is of the listed kinds |

## Left out

- Expression nodes in forward passes: what is shown there is not part of this model, because the compiled code reads dirty variables and outstanding children only at spawns, syncs and returns.
- Convergence.GreatestSolution: stated for the union of 64-bit sets, the only meet and equality that the four clients pass to the engine, not for an arbitrary lattice.
- ForwardAnalyses.DirtyVarsCover: at a sync or bare return to which no path leads from the start or through an expression, an undefined value may keep bits of an earlier analysis, so there it is a bound from both sides; DirtyVarsExact covers everything else.
- ForwardAnalyses.ReturnsMarked: at such a bare return the mark may be set without a path, which costs only an idle sync.
- ForwardAnalyses.EndMarked: the converse is SyncFlowExact, for procedures whose body is a block, as all are.
- Schedules.SaveRestoreCorrect: asks for race-free serial runs, since a program that touches a receiver between its spawn and the next sync depends on the schedule.
- Results of spawns that are combined with their receiver (`+=`) or stored outside variables arrive at once; plainly assigned results may be late.
- The children's own steps, shared memory as a data structure, the scheduler's queues and the memory-checking mode: effects are actions whose replies an environment decides.
- The temporary that holds the value of a return across its implicit sync, and the live and dirty lists of returns that serve it.
- Inlets, inlet calls, abort, synched, attributes, asm, va_arg and variable-length arrays.
- Casts, comma, array references, constructors and initializer expressions: the same flow as operators that are included.
- Statement expressions and the expressions of case labels.
- Recorded sets are sets; the original keeps lists, joined in front.
- The heap tree of nodes is a value with node identities, its confluence cells and gen and kill sets are fields kept in maps by identity.
- Return-flow warnings, coordinates and diagnostics in general.
- RegisterVariables: the list of register candidates is an input.
- FindFormals looks up parameters as a set; procedure declarations are not modelled.
- Initializers.SemCheckInitList: scalars, arrays and structs; unions, strings, labelled initializers and struct-valued items are left out, and the inferred dimension is returned instead of being written into the type.
- An empty brace list for a scalar is reported here as a missing item; the original reads through a null pointer.
- Containers.ContainerStack.Parse: asks that nesting stays within the stack bound, which the original does not check.
- Patterns.Match: a %d wildcard is matched against declarations; against a node of another type the original reads that type's fields from the pattern.  Absent children are left out.
- Lists in trees that are edited are sequences of children; the walk over a function type that goes on after a failure is left out.
- ElidedTypes.ElideNode: types only; declarations and procedures around them, and blocks of inlets, which elision does not enter, are left out.
- LoopRanges.LoopAnalyzer.IsSimpleFor: integers are unbounded and types are not looked at; a step of 0, on which the original divides by zero, and a missing step, which it dereferences, are left out.
- The merging of accesses in `add_into_list`, whose parallel lists can lose their alignment, and everything of the determinacy checker around it.
- `atmTransform.c`, pragmas, printing, the parser and the scanner.
- Elision.ElisionKeepsMeaning: asks that a switch has no duplicate case, which semantic checking reports, and that the operator of a spawn is an assignment, which the grammar says.
