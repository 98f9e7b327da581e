# Starstream compiler: verified model

This project models the middle and back end of the Starstream compiler, and the module
graph and expression printer beside it, and proves what their code promises.

- **Control flow to structured code** (`ControlFlow`, `Ir`, `Linear`, `TarjanState`,
  `TarjanRun`, `BlockInsertion`, `BlockPlacing`, `StructuredCode`, `StructuredRun`,
  `Stackify`, `LoopInsertion`, `LoopPlacing`, `LoopLabels`, `LoopRun`, `Landing`,
  `LoopFacts`, `LoopKeeping`, `LoopLinear`, `LoopConverse`, `LoopStackify`, `TwoLoops`).
  Blocks are built by the add/write/seal/fill protocol, linearised by a nested Tarjan
  search, and given `block`/`end` pairs. The linearisation is proved for every graph. For
  acyclic graphs the emitted code visits the same blocks on the same states as the graph.
  For every graph, the jumps of the emitted code all reach the blocks that they name if
  and only if every insertion of the pass fits where its searches land and the linear
  sequence has a label for each jump; then the code runs as the graph. Examples show each
  way to fail.
- **Pattern matching** (`StarTypes`, `DecisionTree`, `TreeCompile`, `FirstMatch`,
  `Patterns`, `Positions`, `Flatten`, `JoinedSlots`, `EnumEncoding`, `EnumConstruct`,
  `Columns`, `FuncRun`, `MatchSpec`, `MatchCode`, `EnumBranch`, `MatchLeaf`, `Emission`, `MatchEmit`,
  `TreeEmit`, `CompiledFits`, `VisitMatch`, `VisitLet`). A clause matrix becomes a
  decision tree, values become Wasm slots with enum payloads in joined slots, and the
  tree becomes a cascade of branches. The end-to-end theorems are the contracts of
  `VisitMatchDrop` and `VisitLet`: running the emitted instructions enters the first
  arm that matches, with its variables' slots in locals.
- **Suspension** (`Suspension`, `YieldPoints`): what a `yield` saves is what resuming
  restores, also on another instance after `get-storage` and `set-storage`.
- **Component types and memory** (`TypeTable`, `TypeBuilders`, `AbiLayout`, `LayoutExact`,
  `AbiMemory`, `ComponentTypes`, `ComponentShapes`, `ExportWrapper`): the memoised type
  table means what was asked for, layouts are sound and the tightest that alignment
  allows, and the host reads back the value that an exported function returned.
- **Arithmetic** (`IntMachine`, `Intrinsics`, `ArithCode`): overflow checks are exact on
  signed numbers, and narrow integers stay canonical through any nesting of operators.
- **Module graph** (`ModuleOrder`, `ModuleFiles`, `ModuleReach`, `ModuleLoader`): which
  programs load over a finite file map, topological order or a real cycle, and the order
  in which a contract's modules are compiled.
- **Printer** (`Grammar`, `Printer`, `Precedence`, `Groupings`): operator expressions print and
  parse back, and operators bind as their classes say.

Code that changes state is modelled by methods and classes over the same fields; each is
proved against a specification function, and the properties are lemmas about those
functions. The modules `Wasm`, `FuncRun`, `IntMachine`, `LoopRun` and `ExportWrapper` hold
small step semantics for the instructions that are emitted. Integers are unbounded unless
a width is written out.

Where the code does not do what one might expect, the model follows the code and states
exactly when the property holds:

- An arm loses a variable exactly when the variable's position is tested on the way to
  the arm (`Positions.BoundUnlessTested`); one that binds the whole value loses it unless
  it is the first arm (`FirstMatch.WholeBindingIff`). A `let` and a first arm never lose
  any.
- A comparison with an integer literal is exact if and only if the literal is represented
  by its own slot only (`MatchCode.TestExact`).
- A two-way exit to a single block that nothing else leads to has no label to name, and
  this is the only way in which structured code for an acyclic graph can fail
  (`Stackify.StackifyAcyclic`, `Stackify.BranchesAlike`).
- With loops, some jump of the emitted code goes astray or has no label exactly when the
  search for a block's start lands in a region that is closed by then or outside the loop
  of a header (`TwoLoops.TwoLoopsFail`), when a block without a loop of its own names
  itself (`LoopStackify.SelfNamed`), or when both branches of a block lead to the next one
  and no earlier block leads there (`LoopStackify.StructuredExactly`).
- The discriminant of a variant is one size wider than it need be, and than the Canonical
  ABI takes, exactly for 256 and 65536 cases (`LayoutExact.TagNarrowest`).
- Stores of handles declare more alignment than their width, which Wasm validation
  rejects (`AbiMemory.ValidUnlessHandle`).
- Unsigned 64-bit operations use the signed checks (`Intrinsics.UnsignedSumExactWhen`,
  `Intrinsics.UnsignedDifferenceExactWhen`, `Intrinsics.UnsignedProductExactWhen`,
  `ArithCode.UnsignedWhenRight`); 64-bit negation is not checked
  (`ArithCode.ExactUnlessMin`).
- A field access whose target is an operator expression is printed without parentheses;
  only postfix targets survive (`Groupings.SurvivesExactlyWhen`,
  `Groupings.NegatedTarget`).

## Model

| member | source | states |
|---|---|---|
| `ControlFlow.ReachableIsLeast` | starstream-to-wasm/src/stackifier.rs:382-437 | the blocks reachable from the entry are the least set that holds the entry and is closed under successors |
| `ControlFlow.MutualReachIsCycle` | starstream-to-wasm/src/stackifier.rs:382-437 | in an acyclic graph two different blocks never reach each other |
| `Ir.ControlFlowGraph.AddBlock` | starstream-to-wasm/src/ir.rs:103-107 | a new unfilled, unsealed block at the end; all others stay |
| `Ir.ControlFlowGraph.Write` | starstream-to-wasm/src/ir.rs:109-112 | code is appended to one block that is not filled yet; nothing else changes |
| `Ir.ControlFlowGraph.Seal` | starstream-to-wasm/src/ir.rs:114-117 | one unsealed block is sealed; nothing else changes |
| `Ir.ControlFlowGraph.Fill` | starstream-to-wasm/src/ir.rs:119-130 | the exit is set once, only towards unsealed blocks, and the predecessor lists keep holding exactly the edges of the filled blocks |
| `Ir.DoneIsComplete` | starstream-to-wasm/src/ir.rs:132-138 | a graph built by this protocol with every block filled is one the stackifier accepts |
| `TarjanState.BackEdgeKeeps` | starstream-to-wasm/src/stackifier.rs:399-413 | the invariant of a call survives a successor that is on the stack: its number lowers the lowlink |
| `TarjanState.SkipKeeps` | starstream-to-wasm/src/stackifier.rs:391-413 | the invariant survives a successor outside the limit, or visited and already gone from the stack |
| `TarjanState.CallKeeps` | starstream-to-wasm/src/stackifier.rs:391-413 | the invariant survives a successor that was visited by a recursive call, whether that call popped a component or left its blocks on the stack |
| `TarjanState.StayReturns` | starstream-to-wasm/src/stackifier.rs:415-437 | a block whose lowlink is below its own number returns settled: it reaches something below it on the stack |
| `TarjanState.PopReturns` | starstream-to-wasm/src/stackifier.rs:415-437 | popping a root with everything above it leaves a stack that satisfies the invariant again |
| `TarjanState.PoppedIsCycle` | starstream-to-wasm/src/stackifier.rs:415-437 | what is popped as one component is a set of mutually reachable blocks |
| `TarjanState.PoppedCloses` | starstream-to-wasm/src/stackifier.rs:415-437 | no popped block has a looked-at successor left on the stack |
| `TarjanState.RootPopsAlone` | starstream-to-wasm/src/stackifier.rs:439-451 | in a nested run the header is popped alone, because edges back to it are not looked at |
| `TarjanRun.Tarjan.StrongConnect` | starstream-to-wasm/src/stackifier.rs:382-437 | after a call for v, v and all blocks stacked above it have been emitted as one component, or v is settled on the stack; everything emitted before is kept |
| `TarjanRun.Tarjan.Enter` | starstream-to-wasm/src/stackifier.rs:382-390 | v gets the next number, and the new state satisfies the invariant of a call that has looked at no successor |
| `TarjanRun.Tarjan.Consider` | starstream-to-wasm/src/stackifier.rs:391-413 | one more successor has been looked at and the invariant of the call still holds |
| `TarjanRun.Tarjan.EmitComponent` | starstream-to-wasm/src/stackifier.rs:415-437 | the component rooted at v leaves the stack and is emitted as a whole |
| `TarjanRun.Tarjan.OnScc` | starstream-to-wasm/src/stackifier.rs:439-451 | a single block is emitted as it is; several are emitted as a loop around a linearisation of all of them that starts at the header |
| `TarjanRun.ComponentSize` | starstream-to-wasm/src/stackifier.rs:439-451 | a component of a nested run is strictly smaller than the run's own, so the nesting ends |
| `TarjanRun.NestedSplits` | starstream-to-wasm/src/stackifier.rs:439-451 | a finished nested run has emitted every block of the component, header first |
| `TarjanRun.BlockSole` | starstream-to-wasm/src/stackifier.rs:391-437 | a block whose two branches lead to one block that nothing else leads to is emitted directly before that block |
| `TarjanRun.ComponentEntered` | starstream-to-wasm/src/stackifier.rs:415-451 | the header of a loop, unless it is the entry, is led to from outside the loop |
| `TarjanRun.Linearise` | starstream-to-wasm/src/stackifier.rs:87-91 | the emitted sequence is the flattening of a forest that holds each reachable block once, whose edges are all placed, and whose loops are genuine cycles by edges that do not lead to the headers around them, entered at their own headers |
| `TarjanRun.LinearisedPlaces` | starstream-to-wasm/src/stackifier.rs:353-452 | for every graph: each reachable block, and no other, has exactly one place; every edge goes to a later place, to the header of a loop around its source, or from a block that has no loop to itself |
| `TarjanRun.AcyclicPlaces` | starstream-to-wasm/src/stackifier.rs:353-452 | for an acyclic graph there are no loops and every edge goes strictly forward |
| `Linear.AcyclicIsLoopFree` | starstream-to-wasm/src/stackifier.rs:439-451 | an acyclic graph gets no loop items |
| `Linear.NoRepeatOnePlace` | starstream-to-wasm/src/stackifier.rs:439-451 | a block of the forest has exactly one position in the flat sequence |
| `BlockInsertion.NextBlockIs` | starstream-to-wasm/src/stackifier.rs:308-315 | true exactly when the first basic block that follows is the given one |
| `BlockInsertion.FindNodeBackwards` | starstream-to-wasm/src/stackifier.rs:317-331 | the last place of the block, with the number of closings minus openings from there on |
| `BlockInsertion.NodeBackwardsDepth` | starstream-to-wasm/src/stackifier.rs:317-331 | the reported number is the nesting depth of the place found |
| `BlockInsertion.FindDepthForwards` | starstream-to-wasm/src/stackifier.rs:333-349 | the place after the last opening that stands at the target depth, as the loop finds it |
| `BlockInsertion.LastStartAmongStarts` | starstream-to-wasm/src/stackifier.rs:333-349 | where only openings stand, the search finds the one with exactly the target number of openings before it, and none if fewer are open |
| `BlockInsertion.LastStartBeforeEnds` | starstream-to-wasm/src/stackifier.rs:333-349 | closings after those openings do not change what the search finds |
| `BlockInsertion.ChainInsert` | starstream-to-wasm/src/stackifier.rs:93-120 | a pair inserted with as many openings before it as closings after it keeps a nest a nest |
| `BlockPlacing.InsertPairKeeps` | starstream-to-wasm/src/stackifier.rs:93-120 | one insertion on any sequence moves no basic block and goes after none of those before the source |
| `BlockPlacing.NextIsAdjacent` | starstream-to-wasm/src/stackifier.rs:308-315 | the test for the next block is adjacency in the order of blocks |
| `BlockPlacing.TargetLater` | starstream-to-wasm/src/stackifier.rs:93-120 | the target of a forward edge stands strictly later than its source |
| `BlockPlacing.ServeEdges` | starstream-to-wasm/src/stackifier.rs:93-120 | all edges of one block are served: the target comes next, or a block that ends just before it is open |
| `BlockPlacing.InsertBlocks` | starstream-to-wasm/src/stackifier.rs:93-120 | on any sequence closed under edges: no basic block moves, and the result is that of the pass as a function; on a forward sequence it is a single nest in which every edge is served and every placed block closes directly before its target and has a use |
| `LoopInsertion.PairNestsIff` | starstream-to-wasm/src/stackifier.rs:93-120 | with loops: a pair inserted into a properly nested sequence leaves it nested if and only if both places have the same depth and nothing open at the start is closed in between |
| `LoopPlacing.PairNestsExactly` | starstream-to-wasm/src/stackifier.rs:93-120 | telling loops from blocks: a pair for a new block leaves any sequence well nested if and only if the sequence was and the pair fits, that is, both places have the same depth and nothing open at the first is closed in between |
| `LoopPlacing.PassNests` | starstream-to-wasm/src/stackifier.rs:93-120 | the whole pass leaves a well-nested sequence well nested if and only if every insertion, at the places its two searches find, fits |
| `LoopLabels.FitsNoHeader` | starstream-to-wasm/src/stackifier.rs:93-120 | a block for the header of a loop never fits, so in a well-nested result a label means a loop or a block, not both |
| `LoopLabels.PassKeeps` | starstream-to-wasm/src/stackifier.rs:93-120 | whatever the nesting, after the pass every edge leads back into a loop that is open, or to the next block, or its block has been opened before |
| `LoopLabels.SettledRunnable` | starstream-to-wasm/src/stackifier.rs:122-186 | in a well-nested result every exit finds the labels it needs, if both branches of a block lead to the next one only where an earlier block leads there too |
| `StructuredCode.DepthTracker.Diff` | starstream-to-wasm/src/stackifier.rs:285-287 | the branch label for the block after all items seen so far |
| `StructuredCode.DepthTracker.Push` | starstream-to-wasm/src/stackifier.rs:289-292 | depth and map describe the items seen with one more opening |
| `StructuredCode.DepthTracker.Pop` | starstream-to-wasm/src/stackifier.rs:294-297 | an outer label of the same block counts again; fails exactly when no label of the block is open, where the original panics |
| `StructuredCode.DepthTracker.Track` | starstream-to-wasm/src/stackifier.rs:299-305 | depth and map describe the items seen with this one, on any sequence; fails exactly when it closes what is not open |
| `StructuredCode.LabelIsOpen` | starstream-to-wasm/src/stackifier.rs:272-306 | where the ends of a sequence match, the label that the tracker gives for a block is the number of open labels inside the innermost one for it, and there is none if no label for it is open |
| `StructuredCode.EmitExit` | starstream-to-wasm/src/stackifier.rs:130-170 | the jumps of a block's exit, with fall-through for the next block; fails exactly when the tracker has no label for a jump |
| `StructuredCode.EmitItem` | starstream-to-wasm/src/stackifier.rs:122-185 | the code of one item that has been tracked; fails exactly when its exit lacks a label |
| `StructuredCode.Emit` | starstream-to-wasm/src/stackifier.rs:123-186 | the code of any sequence, well nested or not; fails exactly when some jump lacks a label or some end closes what is not open |
| `StructuredRun.BranchLands` | starstream-to-wasm/src/stackifier.rs:285-287 | a branch to the l-th open label leads behind the closing of exactly that label |
| `StructuredRun.JumpLands` | starstream-to-wasm/src/stackifier.rs:130-185 | a branch with the tracker's label for w reaches block w |
| `StructuredRun.ServedIsOpen` | starstream-to-wasm/src/stackifier.rs:93-120 | at the source of a served edge whose target is not next, the target's block is open |
| `StructuredRun.IsRunUnique` | starstream-to-wasm/src/ir.rs:31-48 | a graph runs in one way only |
| `StructuredRun.RunsAs` | starstream-to-wasm/src/stackifier.rs:122-186 | from the place of a block the structured code runs as the graph does from that block, on any state of any machine |
| `Stackify.EmittableWhen` | starstream-to-wasm/src/stackifier.rs:130-185 | emission fails exactly for a two-way exit to one block that stands next and has no open block |
| `Stackify.LoneIsAdjacent` | starstream-to-wasm/src/stackifier.rs:353-437 | such a target comes directly after its block in the linearisation |
| `Stackify.BranchesAlike` | starstream-to-wasm/src/stackifier.rs:150-170 | the smallest graph with such a target is complete and acyclic |
| `Stackify.LacksIsLone` | starstream-to-wasm/src/stackifier.rs:93-186 | an exit that lacks its label leads to a block that nothing else reachable leads to |
| `Stackify.LoneLacks` | starstream-to-wasm/src/stackifier.rs:93-186 | and an exit to such a block lacks its label |
| `Stackify.StackifyAcyclic` | starstream-to-wasm/src/stackifier.rs:60-186 | for every acyclic graph: structured code for exactly the reachable blocks, or none exactly when some reachable block has a two-way exit to a single block that nothing else reachable leads to; so a graph whose two-way exits name two blocks always compiles |
| `Stackify.StackifiedRuns` | starstream-to-wasm/src/stackifier.rs:60-186 | running the structured code visits the blocks that running the graph visits, in the same order on the same states, and ends the same way |
| `Stackify.StackifiedExact` | starstream-to-wasm/src/stackifier.rs:60-186 | a run of the graph is the structured code's run, and there is no other |
| `LoopRun.Visits` | starstream-to-wasm/src/stackifier.rs:122-186 | with loops: from the place of a block the code runs that block and arrives at the place of the block that the graph goes to, or leaves the function as the graph does |
| `LoopRun.CodeRunsAsGraph` | starstream-to-wasm/src/stackifier.rs:122-186 | the code's finished runs are exactly the graph's |
| `LoopRun.CodeTraces` | starstream-to-wasm/src/stackifier.rs:122-186 | finished or not, the code visits the blocks that the graph visits, in the same order |
| `Landing.RunnableReaches` | starstream-to-wasm/src/stackifier.rs:122-186 | in a well-nested sequence with all its labels, each jump reaches the block it names: an `end` really closes what it is meant for |
| `LoopFacts.OpenCount` | starstream-to-wasm/src/stackifier.rs:93-120 | where each loop and block is started and ended once, the depth at a place counts exactly those that are started and not ended there |
| `LoopLinear.LoopsLeadBack` | starstream-to-wasm/src/stackifier.rs:439-451 | in every loop that the linearisation makes, some block other than the header leads back to the header |
| `LoopKeeping.SomethingOpened` | starstream-to-wasm/src/stackifier.rs:111-116 | where the search puts a block inside a loop although its target is the first block behind that loop, some other block has been started since that ends behind the target, or the target is a header |
| `LoopKeeping.PassDeep` | starstream-to-wasm/src/stackifier.rs:93-120 | what the pass leaves of any graph, nested or not: every start has one end, loops nest, each block has a source that jumps, ends directly before its target, and leaves a loop early only if another block does so later |
| `LoopConverse.RightlyClosed` | starstream-to-wasm/src/stackifier.rs:93-186 | if all jumps of the emitted code reach their blocks, then what a block opens is really closed in front of its target |
| `LoopConverse.HeaderHasNone` | starstream-to-wasm/src/stackifier.rs:93-186 | and the header of a loop has no block |
| `LoopConverse.EndMatches` | starstream-to-wasm/src/stackifier.rs:93-186 | and, as far as the ends before it match, each end closes what it is meant for |
| `LoopConverse.ReachingNested` | starstream-to-wasm/src/stackifier.rs:93-186 | so code whose jumps all reach their blocks comes from a well-nested sequence only |
| `LoopConverse.ReachingLabelled` | starstream-to-wasm/src/stackifier.rs:93-186 | and only if each block that names itself heads a loop, and both branches of a block lead to the next one only where an earlier block leads there too |
| `LoopStackify.StructuredExactly` | starstream-to-wasm/src/stackifier.rs:60-186 | for every graph: the result of the pass is well nested if and only if every insertion fits; the jumps of the emitted code all reach their blocks if and only if it is well nested and the linear sequence has a label for each jump; then the code starts with the entry and every label is found |
| `LoopStackify.StructuredRuns` | starstream-to-wasm/src/stackifier.rs:60-186 | and then running the code is running the graph from the entry: the same finished runs, and the same blocks visited as far as any run gets |
| `LoopStackify.SelfNamed` | starstream-to-wasm/src/stackifier.rs:150-170 | a block without a loop of its own that names itself has an exit that does not reach its block |
| `LoopStackify.StackifyLoops` | starstream-to-wasm/src/stackifier.rs:60-186 | for every graph: the linear sequence, the sequence with its pairs, and the code, which is missing only for want of a label; its exits all reach their blocks if and only if every insertion into the linear sequence fits and that sequence has a label for each jump |
| `TwoLoops.OneLinearisation` | starstream-to-wasm/src/stackifier.rs:353-452 | two loops in a row, each with a branch inside, have one linearisation |
| `TwoLoops.TwoLoopsFail` | starstream-to-wasm/src/stackifier.rs:93-120 | on it the pass reaches the second branch, where the block would be opened inside the first loop, which is closed by then; the result is not well nested, and some exit of the emitted code does not reach its block |
| `StarTypes.HeadFits` | starstream-to-wasm/src/decision_tree.rs:36-85 | the constructor of a value belongs to its type, and its arguments have the constructor's field types |
| `DecisionTree.Specialize` | starstream-to-wasm/src/decision_tree.rs:194-237 | the rows that can match the constructor, with its arguments in place of the column |
| `DecisionTree.DefaultMatrix` | starstream-to-wasm/src/decision_tree.rs:239-253 | the wildcard rows, without the column |
| `DecisionTree.SelectColumnImp` | starstream-to-wasm/src/decision_tree.rs:275-306 | the selected column, in which the first row has a constructor |
| `DecisionTree.BestColumnIsBest` | starstream-to-wasm/src/decision_tree.rs:275-306 | it is the leftmost column with the longest prefix of constructor rows |
| `DecisionTree.HeadConstructors` | starstream-to-wasm/src/decision_tree.rs:309-320 | the constructors of the column in order of first appearance |
| `DecisionTree.HeadCtorsAre` | starstream-to-wasm/src/decision_tree.rs:309-320 | each constructor of the column is listed, once, and no other |
| `DecisionTree.HeadCtorsInOrder` | starstream-to-wasm/src/decision_tree.rs:309-320 | of two listed constructors the earlier one has a row above every row of the later one |
| `DecisionTree.ExtractLeafBindings` | starstream-to-wasm/src/decision_tree.rs:127-142 | one binding per binding wildcard of the row, with its column |
| `TreeCompile.SelectSplits` | starstream-to-wasm/src/decision_tree.rs:275-306 | whenever the first row is not all wildcards the selected column splits the matrix: the fallback is dead |
| `TreeCompile.SpecSmaller` | starstream-to-wasm/src/decision_tree.rs:162-183 | each specialisation keeps the matrix typed and has strictly fewer constructor nodes, although it may be wider |
| `TreeCompile.DefaultSmaller` | starstream-to-wasm/src/decision_tree.rs:162-183 | each default matrix keeps the matrix typed and has strictly fewer constructor nodes |
| `TreeCompile.CompileMatrix` | starstream-to-wasm/src/decision_tree.rs:145-190 | compilation terminates for every typed matrix and yields the specified tree |
| `TreeCompile.CompileSigma` | starstream-to-wasm/src/decision_tree.rs:162-183 | one case per head constructor, in order, each the tree of its specialised matrix |
| `FirstMatch.SpecRowMatches` | starstream-to-wasm/src/decision_tree.rs:194-237 | a row matches a value exactly when its specialised form is kept and matches the expanded values |
| `FirstMatch.SpecRowBinds` | starstream-to-wasm/src/decision_tree.rs:194-237 | specialising invents no binding, and loses none of a constructor pattern |
| `FirstMatch.DefaultFirst` | starstream-to-wasm/src/decision_tree.rs:239-253 | for a value whose constructor heads no row, the first matching row is the first of the default matrix, and is kept there |
| `FirstMatch.CompleteExactly` | starstream-to-wasm/src/decision_tree.rs:322-335 | a signature is complete, and so gets no default case, exactly if it has every constructor of the column's type; integers never are |
| `FirstMatch.CompleteCovers` | starstream-to-wasm/src/decision_tree.rs:322-335 | a complete signature has a case for every value of the type, so a switch without default never falls off |
| `FirstMatch.CompileAgrees` | starstream-to-wasm/src/decision_tree.rs:145-190 | for every typed matrix and values: walking the tree reaches the action of the first matching row, fails exactly when none matches, never gets stuck, and binds only what that row binds |
| `FirstMatch.SingleRowBindsAll` | starstream-to-wasm/src/decision_tree.rs:127-142 | with one row, every binding of the row is made at the leaf reached |
| `FirstMatch.WholeBindingIff` | starstream-to-wasm/src/decision_tree.rs:194-253 | in a one-column matrix, an arm that binds the whole value keeps its variable if and only if it is the first arm |
| `FirstMatch.WholeBindingLost` | starstream-to-wasm/src/decision_tree.rs:194-253 | once the only column has been tested no leaf below binds the whole value |
| `Positions.BoundUnlessTested` | starstream-to-wasm/src/decision_tree.rs:145-306 | for every typed matrix: a variable of the first matching row is bound at the leaf if and only if its position is not tested on the way there; it is not tested when no row up to that one has a constructor at the position |
| `Positions.BoundIsPlaced` | starstream-to-wasm/src/decision_tree.rs:127-253 | and whatever the leaf binds is a variable of that row, at its position |
| `Positions.MatchBindsExactly` | starstream-to-wasm/src/lib.rs:3473-3590 | for a whole match: the arm entered has a variable bound exactly when the variable stands at some untested position |
| `Positions.FirstArmKeepsAll` | starstream-to-wasm/src/lib.rs:3473-3590 | in the first arm, and so in a match with one arm, no variable is lost |
| `Patterns.CompileMatch` | starstream-to-wasm/src/lib.rs:3473-3590 | lowers the arms to a typed one-column matrix and compiles it |
| `Patterns.LowerBinds` | starstream-to-wasm/src/lib.rs:3473-3590 | the lowered pattern of an arm binds exactly what the source pattern binds, for that arm |
| `Patterns.MatchIsFirstArm` | starstream-to-wasm/src/lib.rs:3422-3471 | the compiled match selects the first source pattern that matches, or none, and binds only variables of that arm to what its pattern binds them to |
| `Patterns.LetBindsAll` | starstream-to-wasm/src/lib.rs:2003-2061 | for a single pattern a variable is bound to a value at the leaf if and only if the pattern binds it to that value |
| `Flatten.StarToCoreTypes` | starstream-to-wasm/src/lib.rs:860-927 | appends the flattened type |
| `Flatten.FlattenVariants` | starstream-to-wasm/src/lib.rs:880-919 | the joined slots of all variants |
| `Flatten.JoinCase` | starstream-to-wasm/src/lib.rs:904-910 | slot by slot joined, the longer one's tail kept |
| `Flatten.CoreTypesNoFloat` | starstream-to-wasm/src/lib.rs:860-1002 | no source type flattens to a float slot |
| `Flatten.JoinBounds` | starstream-to-wasm/src/lib.rs:884-1002 | every joined slot is the case's own type or a wider integer, so the error branch of promotion is dead |
| `JoinedSlots.JoinedLeast` | starstream-to-wasm/src/lib.rs:996-1002 | joining any slots one after the other gives the least type that holds them: their own if there is one only, 32 bits for 32-bit integers with floats of that width, 64 bits otherwise |
| `JoinedSlots.EnumSlotExact` | starstream-to-wasm/src/lib.rs:884-1002 | a slot of an enum is there exactly if some variant reaches it, is 32 bits wide exactly if every variant that reaches it has 32 bits there, and 64 bits wide exactly if some variant has |
| `JoinedSlots.VariantSlotExact` | starstream-to-wasm/src/lib.rs:984-1002 | the same of the slots of a component variant, floats included |
| `Flatten.CountIsLength` | starstream-to-wasm/src/lib.rs:1004-1042 | counting slots agrees with flattening for every type |
| `EnumEncoding.FlatTyped` | starstream-to-wasm/src/lib.rs:860-927 | a flattened value has the flattened type |
| `EnumEncoding.DemotePromoted` | starstream-to-wasm/src/lib.rs:3307-3352 | demoting promoted slots gives them back, whatever the other variants need |
| `EnumEncoding.DecodeFlat` | starstream-to-wasm/src/lib.rs:884-927 | flattening is lossless for every type, with enums nested in tuples, records and enums |
| `EnumConstruct.EnumPromote` | starstream-to-wasm/src/lib.rs:3307-3352 | the code that promotes one argument, and the locals it declares |
| `EnumConstruct.PromoteRuns` | starstream-to-wasm/src/lib.rs:3307-3352 | running it replaces the argument's slots on the stack by the promoted ones, keeps what is below, and writes only its own locals |
| `EnumConstruct.ConstructVariant` | starstream-to-wasm/src/lib.rs:3160-3194 | the code of a constructor call: discriminant, promoted arguments, zeros |
| `EnumConstruct.ConstructorBuilds` | starstream-to-wasm/src/lib.rs:3160-3194 | running it leaves exactly the slots of the enum value, whatever the variant and arguments, and keeps all earlier locals |
| `Columns.CopyRuns` | starstream-to-wasm/src/lib.rs:3971-4013 | copying n joined slots leaves the demoted slots in the destination and changes nothing else |
| `Columns.SpillRuns` | starstream-to-wasm/src/lib.rs:3422-3471 | storing slots from the stack, last first, leaves them in order in the locals |
| `Columns.FieldsLaid` | starstream-to-wasm/src/lib.rs:4091-4109 | the slots of all fields in a row are the columns of the fields |
| `MatchCode.TestExact` | starstream-to-wasm/src/lib.rs:4017-4089 | comparing slots with a literal decides equality for all values of the type if and only if the literal is represented by its own slot only |
| `MatchCode.TestRuns` | starstream-to-wasm/src/lib.rs:3869-4089 | the emitted test pushes whether the value has the constructor |
| `MatchCode.StructColumn` | starstream-to-wasm/src/lib.rs:4091-4109 | the columns of a struct's fields are laid out inside the struct's column |
| `EnumBranch.PayloadCopied` | starstream-to-wasm/src/lib.rs:3971-4013 | after demotion the payload's own slots are in the new locals |
| `EnumBranch.EnumCase` | starstream-to-wasm/src/lib.rs:3869-3970 | a block that demotes the payload and then decides on the fields is right for its case |
| `MatchLeaf.ResolvedSlots` | starstream-to-wasm/src/lib.rs:3674-3717 | the k-th binding of a leaf is where its column's slots are |
| `MatchLeaf.VarsRun` | starstream-to-wasm/src/lib.rs:3674-3690 | the copies at a leaf put every variable's slots into its own locals and disturb no other |
| `MatchEmit.StFunction.AddLocals` | starstream-to-wasm/src/lib.rs:4192-4199 | new locals after all earlier ones |
| `MatchEmit.Fork` | starstream-to-wasm/src/lib.rs:4017-4089 | a test and two new blocks; nothing else changes |
| `MatchEmit.DemoteEnumFields` | starstream-to-wasm/src/lib.rs:3971-4013 | declares locals for all fields of a payload and emits the copies; the new columns are apart from all old ones |
| `MatchEmit.ExpandColLocalsForStruct` | starstream-to-wasm/src/lib.rs:4091-4109 | replaces a struct's column by those of its fields, in place |
| `TreeEmit.EmitSimpleSwitch` | starstream-to-wasm/src/lib.rs:4017-4089 | the cascade of a bool or integer switch does what the tree says for all values, and all new blocks are finished |
| `TreeEmit.EmitEnumSwitch` | starstream-to-wasm/src/lib.rs:3869-3970 | the cascade of an enum switch does what the tree says for all values |
| `TreeEmit.EmitLeaf` | starstream-to-wasm/src/lib.rs:3674-3717 | the leaf enters its arm with every bound variable in locals that hold its slots |
| `TreeEmit.EmitDecisionTree` | starstream-to-wasm/src/lib.rs:3659-3867 | for all values laid out in the columns: control enters the arm that walking the tree selects with every variable bound, or traps; earlier locals and globals are kept |
| `CompiledFits.CompileFits` | starstream-to-wasm/src/decision_tree.rs:145-190 | a compiled tree fits its columns: every test is on a constructor of the column's type and every binding on an existing column |
| `CompiledFits.ArmsFit` | starstream-to-wasm/src/lib.rs:3473-3590 | the tree of any match that the type checker accepts fits |
| `VisitMatch.VisitMatchDrop` | starstream-to-wasm/src/lib.rs:3422-3471 | end to end: for every value of the type, the emitted code enters the first arm whose pattern matches; bound are exactly its variables at untested positions, among them all those where no earlier arm has a constructor, each in locals that hold the slots of the sub-value it is bound to; it traps when no arm matches; globals and earlier locals are kept |
| `VisitLet.PlaceVariables` | starstream-to-wasm/src/lib.rs:3592-3657 | every variable of the pattern gets locals of its own, apart from all others |
| `VisitLet.BindsCollected` | starstream-to-wasm/src/lib.rs:3592-3657 | whatever a pattern binds has been collected, at its type |
| `VisitLet.VisitLet` | starstream-to-wasm/src/lib.rs:2003-2061 | end to end for `let` and `let else`: if the pattern matches, every variable of it ends in its own locals; otherwise the else code runs |
| `ModuleOrder.OrderMeansAcyclic` | starstream-compiler/src/module_graph.rs:470-487 | a graph that has a topological order has no closed walk |
| `ModuleOrder.ChainIsCycle` | starstream-compiler/src/module_graph.rs:523-540 | the reported chain is a closed walk of real import edges |
| `ModuleOrder.CycleChain` | starstream-compiler/src/module_graph.rs:523-540 | the chain runs from the repeated module along the current path back to it |
| `ModuleOrder.DfsVisit` | starstream-compiler/src/module_graph.rs:489-546 | everything reachable from the start is finished and placed after its imports, or a chain that closes is returned |
| `ModuleOrder.DfsStep` | starstream-compiler/src/module_graph.rs:489-546 | one round keeps the invariant of the three colours and comes closer to the end |
| `ModuleOrder.TopoOrder` | starstream-compiler/src/module_graph.rs:470-487 | succeeds exactly when the graph is acyclic; the order then holds every module once, imports first; otherwise the chain is a genuine cycle |
| `ModuleReach.ReachableFrom` | starstream-compiler/src/module_graph.rs:109-126 | exactly the modules reachable from the start, each once |
| `ModuleReach.ReachableSet` | starstream-to-wasm/src/lib.rs:149-158 | exactly the modules reachable from the entry |
| `ModuleReach.CompileContract` | starstream-to-wasm/src/lib.rs:139-169 | visits exactly the modules reachable from the entry, each once and after all it imports |
| `ModuleReach.EntryIsLast` | starstream-to-wasm/src/lib.rs:139-169 | the entry is visited last |
| `ModuleLoader.Builder.ParseModule` | starstream-compiler/src/module_graph.rs:338-365 | one module per canonical path: a known one is returned, a new one read once and appended; `byPath` and `modules` stay inverse, and every module is needed from the roots |
| `ModuleLoader.Builder.ResolveImports` | starstream-compiler/src/module_graph.rs:367-434 | every import of the module becomes an edge to the module at the resolved path, in order; the error is that of the first import statement that has one |
| `ModuleLoader.ValidateCrossContract` | starstream-compiler/src/module_graph.rs:442-464 | fails exactly when some edge leads to a contract other than the allowed one, and then names such an edge |
| `ModuleLoader.ResolveAll` | starstream-compiler/src/module_graph.rs:180-227 | the worklist ends, with every module fully resolved, or reports a real problem of some module |
| `ModuleLoader.ResolveAndCheck` | starstream-compiler/src/module_graph.rs:180-284 | a graph that passes is fully resolved and free of broken files and of imports of other contracts; an error is real |
| `ModuleLoader.LoadFromEntry` | starstream-compiler/src/module_graph.rs:180-227 | over any finite file map: succeeds if and only if every file needed from the entry is readable and not broken, its imports resolve and lead to no other contract, and no needed file imports itself, directly or not; the graph then holds exactly the entry and what it imports, in order; an error is real, about modules that the entry needs and edges that are their imports |
| `ModuleLoader.LoadWorkspace` | starstream-compiler/src/module_graph.rs:229-284 | the same for all files scanned, of which the first that cannot be read is reported |
| `ModuleFiles.ImportChecks` | starstream-compiler/src/module_graph.rs:388-420 | an import has no problem if and only if its text begins with ./ or ../, ends in .star and names a file; each other text gets the error of the first check that it fails |
| `ModuleFiles.AcceptedLoads` | starstream-compiler/src/module_graph.rs:180-284 | an accepted graph means that every needed file is good and none imports itself |
| `ModuleFiles.RejectedDoesNotLoad` | starstream-compiler/src/module_graph.rs:180-284 | each kind of error means that some needed file is not good, or imports itself |
| `ModuleLoader.EntryIsOnlyContract` | starstream-compiler/src/module_graph.rs:442-464 | in an accepted single-file graph no module but the entry is a contract, and nothing imports it |
| `ModuleLoader.NeededNotContract` | starstream-compiler/src/module_graph.rs:442-464 | whatever a module needs besides itself is no contract |
| `Suspension.SaveRuns` | starstream-to-wasm/src/lib.rs:3209-3217 | saving puts every local into its global and changes nothing else |
| `Suspension.RestoreRuns` | starstream-to-wasm/src/lib.rs:3238-3252 | restoring gives every local back and zeroes the globals |
| `Suspension.GenerateResumeFn` | starstream-to-wasm/src/lib.rs:1950-1974 | the code that tells the host and dispatches over a range of yields |
| `Suspension.ResumeCallsHost` | starstream-to-wasm/src/lib.rs:1950-1974 | it tells the host which resource resumes and calls the function of the stored yield number if that is in the range; otherwise it traps |
| `Suspension.GetStorageRuns` | starstream-to-wasm/src/lib.rs:394-513 | `get-storage` pushes the values of all fields in order |
| `Suspension.GenerateStorageExports` | starstream-to-wasm/src/lib.rs:394-513 | the code of `get-storage` and `set-storage` |
| `Suspension.SetExportRuns` | starstream-to-wasm/src/lib.rs:456-513 | `set-storage` writes every field, and the context it is given to the context global, and no other global |
| `YieldPoints.Compiler.AddGlobals` | starstream-to-wasm/src/lib.rs:550-573 | new globals after all earlier ones |
| `YieldPoints.Compiler.VisitYield` | starstream-to-wasm/src/lib.rs:3201-3255 | a new yield gets the next number, globals of its own for all locals, code that saves, announces the resume methods to the host and suspends, and a resume block that restores first; earlier yields are untouched |
| `YieldPoints.Compiler.FinishFunction` | starstream-to-wasm/src/lib.rs:1279-1308 | one continuation per yield, in the order of the yields, each starting at that yield's resume block |
| `YieldPoints.AllResumeKept` | starstream-to-wasm/src/lib.rs:3201-3255 | whatever code is emitted later, the resume blocks still start by restoring |
| `YieldPoints.YieldSuspends` | starstream-to-wasm/src/lib.rs:3201-3217 | the code at a yield leaves its number and all locals in the globals, and tells the host each method that the yield exposes, in order; other globals stay |
| `YieldPoints.SuspendedResumes` | starstream-to-wasm/src/lib.rs:1950-1974 | resuming after yield k tells the host and calls the continuation built from yield k's resume block, which restores every local that existed at the yield |
| `YieldPoints.StorageMoves` | starstream-to-wasm/src/lib.rs:394-513 | `get-storage` then `set-storage` on another instance moves exactly the fields, and sets the other instance's context |
| `YieldPoints.TransferKeepsSuspended` | starstream-to-wasm/src/lib.rs:394-513 | a suspended resource moved that way is suspended at the same yield with the same locals; nothing but fields and context changes |
| `TypeTable.DecodeStable` | starstream-to-wasm/src/component_encoder.rs:60-145 | what an index means never changes as the table grows |
| `TypeTable.MeaningStable` | starstream-to-wasm/src/component_encoder.rs:60-145 | an entry means what it meant, because it refers to smaller entries only |
| `TypeBuilders.TypeBuilder.RegisterResource` | starstream-to-wasm/src/component_encoder.rs:209-234 | borrow and own entries that mean handles of the resource |
| `TypeBuilders.TypeBuilder.FreshResource` | starstream-to-wasm/src/component_encoder.rs:175-186 | a new resource with its two handle types, in the list of resources at its own entry; all earlier meanings are kept |
| `TypeBuilders.TypeBuilder.InheritResource` | starstream-to-wasm/src/component_encoder.rs:188-207 | an alias and an equality bound through which the handles mean the outer resource |
| `TypeBuilders.TypeBuilder.EncodeValue` | starstream-to-wasm/src/component_encoder.rs:60-145 | the index decodes, through equality bounds, to exactly the requested type; a type once encoded keeps its index; the table only grows |
| `TypeBuilders.TypeBuilder.EncodeFields` | starstream-to-wasm/src/component_encoder.rs:83-91 | every field's index decodes to its type |
| `TypeBuilders.TypeBuilder.EncodeCases` | starstream-to-wasm/src/component_encoder.rs:98-106 | every payload's index decodes to its type |
| `TypeBuilders.TypeBuilder.ExportTy` | starstream-to-wasm/src/component_encoder.rs:147-158 | a named entry is bound to the type and is the one later uses get; all other types keep theirs |
| `TypeBuilders.TypeBuilder.EncodeFunc` | starstream-to-wasm/src/component_encoder.rs:32-58 | a function entry whose parameters and result decode to the signature's types |
| `TypeBuilders.TypeBuilder.ImportInterface` | starstream-to-wasm/src/component_encoder.rs:248-262 | a type entry that holds the interface's table, a new instance of it with the next number, and the interface's resources lifted from that instance |
| `TypeBuilders.TypeBuilder.LiftResources` | starstream-to-wasm/src/component_encoder.rs:264-287 | for each resource in order: an alias of that name in the given instance, an equality bound to it under the full name, and handles that mean the instance's resource; the list of resources grows by exactly these, at their aliases |
| `TypeBuilders.TypeBuilder.LiftOne` | starstream-to-wasm/src/component_encoder.rs:267-285 | the four entries of one lifted resource, and the meanings they get |
| `TypeBuilders.RenameStable` | starstream-to-wasm/src/component_encoder.rs:60-145 | knowing more resources changes no meaning |
| `AbiLayout.Alignment` | starstream-to-wasm/src/component_abi.rs:104-136 | the alignment of every type that has a layout |
| `LayoutExact.RecordAlign` | starstream-to-wasm/src/component_abi.rs:139-145 | a record's alignment is 1 or some field's, and at least every field's |
| `LayoutExact.FieldLeast` | starstream-to-wasm/src/component_abi.rs:211-219 | a field stands at the least multiple of its alignment at which the field before it has ended, and the first one at 0 |
| `LayoutExact.RecordSize` | starstream-to-wasm/src/component_abi.rs:211-219 | a record's size is the least multiple of its alignment at which its last field has ended |
| `LayoutExact.VariantPayload` | starstream-to-wasm/src/component_abi.rs:147-232 | a variant is aligned as its discriminant of 1, 2 or 4 bytes or as a payload, whichever is more, and its payloads start at the least multiple of their largest alignment behind the discriminant |
| `LayoutExact.TagNarrowest` | starstream-to-wasm/src/component_abi.rs:152-164 | a discriminant holds every case index, and no narrower one would, exactly unless there are 256 or 65536 cases |
| `LayoutExact.VariantSizeLeast` | starstream-to-wasm/src/component_abi.rs:221-232 | a variant's size is the least multiple of its alignment at which its largest payload has ended |
| `LayoutExact.TupleIsRecord` | starstream-to-wasm/src/component_abi.rs:121-126 | a tuple has the alignment, size, offsets and slots of a record of the same types |
| `LayoutExact.OptionIsVariant` | starstream-to-wasm/src/component_abi.rs:128-131 | an option is laid out as the variant of no payload and its own |
| `LayoutExact.ResultIsVariant` | starstream-to-wasm/src/component_abi.rs:132-135 | a result is laid out as the variant of its two payloads |
| `LayoutExact.LeafExact` | starstream-to-wasm/src/component_abi.rs:104-209 | a scalar or handle takes its bits in whole bytes, is aligned to its size, and has the narrowest slot that holds it, floats their own; a string is two pointers |
| `LayoutExact.StoreExact` | starstream-to-wasm/src/component_abi.rs:235-300 | the one store of a scalar writes exactly its bits at its offset and declares its alignment; that of a handle writes 16 bits only |
| `LayoutExact.LittleEndian` | starstream-to-wasm/src/component_abi.rs:235-300 | byte i of what a store writes is digit i of the number to base 256 |
| `AbiLayout.AlignIsPower` | starstream-to-wasm/src/component_abi.rs:104-175 | alignments are 1, 2, 4 or 8, so taking the logarithm never fails |
| `AbiLayout.ElemSize` | starstream-to-wasm/src/component_abi.rs:177-209 | the size of every type that has a layout |
| `AbiLayout.ElemSizeRecord` | starstream-to-wasm/src/component_abi.rs:211-219 | a record's size, which is positive: the assertion holds |
| `AbiLayout.ElemSizeVariant` | starstream-to-wasm/src/component_abi.rs:221-232 | a variant's size |
| `AbiLayout.SizeIsMultiple` | starstream-to-wasm/src/component_abi.rs:177-232 | sizes are positive multiples of the alignment |
| `AbiLayout.FieldInside` | starstream-to-wasm/src/component_abi.rs:211-219 | a field is aligned, comes after all earlier ones and lies inside the record |
| `AbiLayout.FieldsApart` | starstream-to-wasm/src/component_abi.rs:211-219 | fields do not overlap |
| `AbiLayout.PayloadFits` | starstream-to-wasm/src/component_abi.rs:221-232 | a payload comes after the discriminant, is aligned, and lies inside the variant |
| `AbiLayout.DiscriminantHolds` | starstream-to-wasm/src/component_abi.rs:152-164 | every case index fits the discriminant |
| `AbiMemory.GetStoreFns` | starstream-to-wasm/src/component_abi.rs:235-304 | one store per leaf, at its offset |
| `AbiMemory.StoresMatchFlat` | starstream-to-wasm/src/lib.rs:683-697 | stores and flattened slots agree in number and operand type, so the assertion in `component_store` holds |
| `AbiMemory.StoresBetween` | starstream-to-wasm/src/component_abi.rs:235-304 | the stores are in increasing order, pairwise disjoint and inside the element |
| `AbiMemory.StoresAligned` | starstream-to-wasm/src/component_abi.rs:235-304 | every store is aligned as it declares, when the element is |
| `AbiMemory.ValidUnlessHandle` | starstream-to-wasm/src/component_abi.rs:252-258 | the stores are valid Wasm if and only if the type holds no handle: a handle is stored 16 bits wide but declared 32-bit aligned |
| `AbiMemory.PtrIsOffset` | starstream-to-wasm/src/component_abi.rs:211-219 | the specification's running pointer is the base plus the code's offset |
| `AbiMemory.StoreThenLoad` | starstream-to-wasm/src/component_abi.rs:235-304 | bools and integers in nested records and tuples are loaded back as stored, and no byte outside the element changes |
| `ComponentShapes.TupleBecomes` | starstream-to-wasm/src/lib.rs:722-858 | a tuple becomes the tuple of its members that have values to pass, in order, or nothing if none has |
| `ComponentShapes.RecordBecomes` | starstream-to-wasm/src/lib.rs:722-858 | a record becomes the record of those members, under the same names |
| `ComponentShapes.EnumBecomes` | starstream-to-wasm/src/lib.rs:722-858 | an enum becomes the variant of all its cases, in order and under the same names; a payload becomes what the tuple of its types becomes |
| `ComponentShapes.StorableExactly` | starstream-to-wasm/src/component_abi.rs:234-306 | a result type can be stored, field by field, exactly if it holds no enum and no record of which nothing is left to pass; the original stops on the others |
| `ComponentTypes.FlatAgrees` | starstream-to-wasm/src/lib.rs:722-994 | a source type and its component type flatten to the same slots |
| `ComponentTypes.RangeAgrees` | starstream-to-wasm/src/lib.rs:722-994 | the component integer of a width has just the numbers that fit the width, and the slot is wide exactly if some number needs more than 32 bits |
| `ComponentTypes.LoweringAgrees` | starstream-to-wasm/src/lib.rs:722-858 | the slots of a source value, enums included, are the lowered component value, units dropped |
| `ComponentTypes.EnumLowers` | starstream-to-wasm/src/lib.rs:722-858 | an enum value's slots are those that the canonical ABI's 'Flat Lowering' gives for the variant: discriminant, coerced payload, zeros |
| `ExportWrapper.StaticMemory.AllocStatic` | starstream-to-wasm/src/lib.rs:674-679 | an aligned slot at a non-null address, after all earlier slots |
| `ExportWrapper.ComponentStore` | starstream-to-wasm/src/lib.rs:683-717 | the code that stores a value from the stack, through locals when there is more than one slot |
| `ExportWrapper.StoreCodeRuns` | starstream-to-wasm/src/lib.rs:683-717 | running it performs exactly the stores, pops address and values, and keeps earlier locals |
| `ExportWrapper.MakeExportWrapper` | starstream-to-wasm/src/lib.rs:606-649 | direct export for at most 16 parameters and one result, an error for more than 16 parameters, otherwise a wrapper with a new static slot of the result's size and alignment |
| `ExportWrapper.WrapperReturns` | starstream-to-wasm/src/lib.rs:616-642 | end to end: the host loads from the returned address exactly the value that the core function returned |
| `Intrinsics.AddSubChecks` | starstream-to-wasm/src/intrinsics.rs:17-121 | the generated sum and difference trap exactly when the signed result does not fit 64 bits and are exact otherwise |
| `Intrinsics.DivideBack` | starstream-to-wasm/src/intrinsics.rs:181-193 | for operands past the special cases the division is defined, and gives the factor back exactly when the product did not wrap |
| `Intrinsics.MulChecks` | starstream-to-wasm/src/intrinsics.rs:124-200 | the generated product traps exactly when the signed product does not fit |
| `Intrinsics.CheckedIsExact` | starstream-to-wasm/src/intrinsics.rs:17-200 | all three, called on any two 64-bit patterns: exact, or stopped at `unreachable`; the inner division never traps by itself |
| `Intrinsics.UnsignedSumExactWhen` | starstream-to-wasm/src/lib.rs:2466-2470 | on unsigned operands the same check of a sum is right exactly under a stated condition on operands and sum |
| `Intrinsics.UnsignedDifferenceExactWhen` | starstream-to-wasm/src/lib.rs:2495-2499 | on unsigned operands the same check of a difference is right exactly under a stated condition |
| `Intrinsics.UnsignedProductExactWhen` | starstream-to-wasm/src/lib.rs:2531-2534 | on unsigned operands the same check of a product is right exactly under a stated condition, by cases on which operands are 2^63 or more |
| `Intrinsics.UnsignedSumTraps` | starstream-to-wasm/src/lib.rs:2466-2470 | 2^63 - 1 plus 1 fits 64 unsigned bits, but traps |
| `ArithCode.WrapIsUnique` | starstream-to-wasm/src/intrinsics.rs:203-227 | exactly one value of a width is congruent to a given integer |
| `ArithCode.TruncateIsCanonical` | starstream-to-wasm/src/intrinsics.rs:203-227 | after any 32-bit operation, truncation leaves the canonical form of that value |
| `ArithCode.WrapCongruent` | starstream-to-wasm/src/lib.rs:2456-2541 | wrapping operands first does not change the wrapped result |
| `ArithCode.Compiler.GetOrCreateChecked` | starstream-to-wasm/src/intrinsics.rs:17-20 | each checked function is generated at most once, and the index is that of its body |
| `ArithCode.Compiler.EmitTruncate` | starstream-to-wasm/src/intrinsics.rs:203-227 | the truncation code of the width |
| `ArithCode.Compiler.VisitArith` | starstream-to-wasm/src/lib.rs:2456-2620 | for any nesting of sums, differences, products and negations: narrow widths give the canonical form of the exact result modulo the width; 64 bits give every step exactly as signed numbers or trap when checked, and wrap when not |
| `ArithCode.CheckedResultIsExact` | starstream-to-wasm/src/lib.rs:2601-2612 | a checked signed 64-bit result that is reached is the exact one, unless a negation met the least number |
| `ArithCode.ExactUnlessMin` | starstream-to-wasm/src/lib.rs:2601-2612 | when a checked signed 64-bit result is reached, everything in the expression has its exact value if and only if no negation met the least number |
| `ArithCode.UnsignedWhenRight` | starstream-to-wasm/src/lib.rs:2456-2612 | for unsigned 64-bit expressions: the code gives what unsigned checks should give, everywhere in the expression, if and only if at each operator reached the signed check is right for its operands |
| `ArithCode.NegatedMin` | starstream-to-wasm/src/lib.rs:2601-2612 | negating the least 64-bit number gives it back: negation is not checked |
| `Grammar.ParsedIsDerivable` | tree-sitter-starstream/grammar.js:287-327 | whatever the tokens, a parsed tree respects the precedence table: left association, unary and postfix levels, tuples of two or more; and it holds exactly those tokens, but for commas before a closing parenthesis |
| `Grammar.YieldIsParsed` | tree-sitter-starstream/grammar.js:287-327 | a tree that respects the table is the one parse of its tokens |
| `Grammar.ParseExactly` | tree-sitter-starstream/grammar.js:287-327 | tokens without such commas parse to a tree if and only if the tree respects the table and derives them |
| `Precedence.OperandsParse` | tree-sitter-starstream/grammar.js:287-321 | with the operators in the order: or, and, equalities, comparisons, sums, products; in a chain of two binary operators over any other expressions the right one takes the middle exactly if its class binds tighter |
| `Precedence.ChainParses` | tree-sitter-starstream/grammar.js:287-321 | the same on names, token by token |
| `Precedence.PrefixParses` | tree-sitter-starstream/grammar.js:287-321 | a prefix operator takes less than any binary operator, on either side |
| `Precedence.SuffixParses` | tree-sitter-starstream/grammar.js:287-321 | fields and calls are taken before a prefix operator |
| `Precedence.BracketsParse` | tree-sitter-starstream/grammar.js:287-327 | brackets around nothing are the unit literal, around one expression a grouping, around two a tuple, and behind an expression its arguments |
| `Precedence.ChainPrints` | starstream-compiler/src/formatter.rs:1314-1361 | two nested binary operators over names are printed with parentheses exactly where the order of the classes demands them |
| `Printer.SameTable` | starstream-compiler/src/formatter.rs:1314-1345 | the printer's precedences are the grammar's |
| `Printer.PrintsExplicit` | starstream-compiler/src/formatter.rs:1108-1293 | what is printed is what the tree with explicit groupings derives |
| `Printer.ExplicitDerivable` | starstream-compiler/src/formatter.rs:1347-1361 | parentheses are printed wherever the table demands them |
| `Printer.ExplicitStrips` | starstream-compiler/src/formatter.rs:1347-1361 | they change nothing but groupings |
| `Printer.PrintThenParse` | starstream-compiler/src/formatter.rs:1108-1361 | for every operator expression: the printed tokens parse to the same tree up to groupings, and printing that tree gives the same tokens |
| `Printer.ParseThenPrint` | starstream-compiler/src/formatter.rs:1108-1361 | formatting a parsed expression keeps its tree exactly, groupings included, and its tokens but for trailing commas |
| `Printer.PrintIsInjective` | starstream-compiler/src/formatter.rs:1108-1361 | trees that print alike differ only in groupings |
| `Groupings.SurvivesExactlyWhen` | starstream-compiler/src/formatter.rs:1166-1174 | every tree whose tuples have two items or more survives printing and parsing, up to groupings, if and only if every field access in it has a postfix target |
| `Groupings.NegatedTarget` | starstream-compiler/src/formatter.rs:1166-1174 | a field of a negated name is printed as the negation of a field, and is parsed as that |

## Left out

- LoopStackify.StackifyLoops: a label that the original would compute below zero counts as missing, like one that it cannot find.
- TarjanRun.LinearisedPlaces: an edge to itself of a block without a loop stays an edge to its own place, because the code makes no loop for it.
- VisitMatch.VisitMatchDrop: variables at tested positions are not bound, because the code drops them (`Positions.BoundUnlessTested`); literals are assumed representable and enums to have at most 2^32 variants; the bodies of arms are single opaque instructions, and the result locals of a match in value position are not modelled.
- VisitLet.VisitLet: a name that a pattern binds twice is assumed to have one type.
- EnumConstruct.ConstructorBuilds: the code of each argument is any code that pushes the argument's slots and keeps earlier locals.
- ModuleLoader.LoadFromEntry: reading and canonicalising files is a finite map from paths; parse errors are a flag of the file.
- ModuleLoader.LoadWorkspace: the directory scan is a given list of paths; the order in which a hash map yields edges is arbitrary.
- YieldPoints.Compiler.VisitYield: calls to the host are events that return without changing globals; values on the operand stack across a yield are left out.
- YieldPoints.SuspendedResumes: assumes fewer than 2^32 yields.
- Suspension.GenerateStorageExports: the new resource handle that `set-storage` returns at its end is left out.
- TypeBuilders.TypeBuilder.EncodeValue: lists, flags, streams and futures, which the original refuses here, are outside its precondition, as are resources that are not known.
- TypeBuilders.TypeBuilder.ExportTy: primitive types are excluded; the original marks them unreachable.
- AbiLayout.ElemSize: sizes are unbounded; empty records, which the original stops on, and streams and futures are excluded.
- AbiMemory.StoreThenLoad: strings, floats, characters and variants are excluded, because the original does not store them; handles, because their stores do not validate.
- ComponentTypes.FlatAgrees: the special component types for the built-in `Option` and `Result`, the renaming of fields to kebab case, and the cache of converted types are left out.
- ExportWrapper.WrapperReturns: the core function is any function that takes the parameters and leaves the slots of the result; addresses are unsigned 32-bit.
- ArithCode.Compiler.VisitArith: division, remainder and comparisons are left out; division of narrow integers is not truncated by the original.
- Printer.PrintThenParse: blocks, `if`, `match`, `yield`, struct literals, `disclose`, `emit`, `raise` and `runtime` are outside the fragment; scoped names and integer literals are single tokens; white space and comments are left out.
- Branch depths and block indices are unbounded; the Mermaid and Graphviz output is left out.
- Binary encoding of Wasm and the assembly of component sections are left out.
- The type checker and the real parser are not modelled: well-typed programs are preconditions.
- Effect handlers, ABI and function types, and the Poseidon gadgets are left out.
- The command line, language server, sandbox, ledger node, client and editor extensions are left out.
