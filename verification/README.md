# Concept Stage 0 compiler: verified model

The Concept Stage 0 compiler translates Concept to strict C11.  This project models the parts of it
whose correctness is not visible in any one function, and proves what those parts are for.  Every model
is an abstract syntax with a semantics: the emitted C is represented by what it does, not by its text.
Code that the compiler runs by updating objects in place (builders, lowerers, walkers, the evaluator,
the runtime's stack) is a class whose methods are proved against functions, and the theorems are about
those functions.

The parts, with their modules:

- **Async lowering and its runtime** (`Async*`, `RangeCursor`).  `AsyncDirect` gives async code its
  reference meaning: `await f(x)` is a call.  `AsyncGraph` is the builder of state graphs, `AsyncEmit`
  the numbering of states, `AsyncPersist` the choice of frame fields, `AsyncLiveness` what that choice
  keeps, by positions in the source, `AsyncMachine` one dispatched state
  of the generated step function over the bounded stack of frames, `AsyncDriver` the call
  `concept_async_step`.  `AsyncSimulation` and `AsyncStuck` prove the continuation law and its converse,
  `AsyncFrame` and `AsyncCoverage` when the frame holds enough, `AsyncEndToEnd` that the whole pipeline
  completes with a value exactly when direct evaluation yields it.  `AsyncReturns` and `AsyncLimits` are
  about where the lowering departs from direct evaluation, and exactly when; `AsyncKept` has a program on
  which the fields kept for awaits are what lets it complete.  `AsyncValidate` to
  `AsyncAccepted` are about the graph validator, `AsyncAdopt` about adopted operations, `AsyncBuilder` and
  `AsyncRuntime` are the builder and the C runtime in their imperative form.
- **Shared-access analysis** (`Access*`).  The walk over function bodies, the summary fixpoint that
  substitutes argument paths, the propagation of execution contexts and the pairwise verdict; then a
  semantics in which contexts interleave freely, and the theorem that a type proven synchronised is free
  of data races as C11 defines them in section 5.1.2.4.
- **Ownership** (`Ownership*`).  The lowerer's map of live owners, where it emits drops, what the emitted
  drops do on every path, and a source semantics in which every declaration makes an owner of its own, with
  which the owners that the emitted code hands over are compared.
- **Expression lowering** (`ExpressionLowering`, `StringEquality`).  Preludes and values of short-circuit
  operators, comparisons, `if` expressions and bounds-checked indexing, and what a comparison of strings
  means on either side.
- **The compile-time evaluator** (`Comptime*`, `Division`), bounded by fuel, depth, recursion bounds and loop
  bounds, with memoised globals, and what its `return` without a value does.  `ComptimeMeaning` states what
  compile-time code means by inductive rules without fuel, stack or cache; `ComptimeAdequacy` and
  `ComptimeFailures` prove that evaluation yields that and fails otherwise only at a limit.
- **Bounded loops** (`BoundedLoops`, `LoopMeanings`, `LoopExample`): what `while ... bounded(n) else` means,
  its lowering to C, and exactly when the evaluator, ordinary C and async code agree on it.
- **The allocation proof search** (`NoAllocation`) and the collection of the calls it is about
  (`AllocationCalls`), **bit fields** (`Words`, `Bits`) and **header order** (`HeaderOrder`).

## How to read the main results

A few conditions appear in the theorems.

- `WellFormed` programs are in the async fragment: conditions, subjects and sources await nothing; a
  simple statement holds at most one await, reached through operators and not behind `and` or `or`; a
  nested block, or a loop that awaits nothing, does not return; names are introduced once and used in
  scope, and what a state reads of another is seen by the name analysis or kept anyway.  Three of these
  restrictions are the lowering's own, and for each the exact condition is proved, with a program in
  `AsyncLimits` that fails it.  Splitting off an await is right, whatever the call does, if and only if
  left-to-right evaluation reaches it (`SplitIsRightIffReached`).  A node's own statements do what direct
  evaluation does if and only if no `return` nested in one of them is reached (`NodeAgreesIff`); where one
  is, the state is entered again with the locals that survive, so the operation is caught for ever if and
  only if every entry reaches one (`CaughtIff`), and may otherwise go on behind it
  (`SecondEntryExample`).  The chosen fields cover every state if and only if `ReadsAreSeen`
  (`FieldsCoverIff`), stated by positions in the source: a name that a state reads of another
  is used visibly elsewhere, kept for a split statement (`KeptBySplit`), or live across an await, that is
  declared no later than one and named after it (`LivesAcross`).  It holds wherever the analysis sees every
  name (`SeenBodiesAreSeen`), and wherever each name it does not see is read after an await that follows the
  declaration (`HiddenReadsAfterAwaitsAreCovered`).
- `Reducible` and `Numbered` bodies have the shape that `evt1ValidateAsyncShape` demands, no await in a
  nested block, non-empty matches, and awaits numbered in source order.
- `Analyzable` programs resolve each call by name and arity to one function, pass parts of parameters at
  the parameter's type, do not redeclare parameters, have structs that do not hold themselves and layout
  regions that each name one field (`internal/concept/layout.go`, line 235, builds the name from both),
  and stay out of four families on which the verdict is wrong.  One applies a literal index above a
  dynamic one (`p[i].x[2].y`), which makes the subject resolved again; `OpaqueUnlessReset` gives the exact
  condition.  The second reads or calls inside an index below a projection (`p[q.k].x`), which the walk does
  not visit; `BodySeen` is the exact condition (`WalkIsCompleteIff`), and for a field projection it is that
  the indices below only read the projection itself again (`FieldMissesNothingIff`).  The third selects an element of
  an element of a layout region (`p.f[2].g[3]`): the resolver adds both indices to one offset, so the part
  seems to lie outside the whole; `NestedElementOverlapsIff` gives the exact condition.  The
  fourth accesses or calls below a form that the walk has no case for (a cast, `interpret`, `?`, `!`), which
  hides everything under it; `BodySeen` is the exact condition here too, and for one such form it is that its
  operands touch no part of a parameter and call nothing (`SkippedMissesNothingIff`).  A body without the
  forms of the second and fourth family is seen as a whole (`WalkableBodiesAreSeen`).
  `AccessLimits` has a racing program with verdict Proven for each.
- `Unrepeated` bodies declare no name twice in one scope, and `BlockFits` bodies move owners the lowerer
  takes for live; the language's validator rejects others.  That branches agree (`BlockAgrees`) and that no
  failure is tested between a move and the call it is for (`BlockPrompt`) is not assumed: it is proved to be
  exactly what releasing every owner once requires.  `Consume(move x, F()?)` is the input that fails the
  second: `x` is dead for the lowerer where it is named, and handed over only after the test of `F()`.
- Expressions are compared on two readings of `==` on strings, by text as the language and its evaluator have
  it, and by address as the emitted C does.  The lowering always follows the second; it is right about all
  that is evaluated if and only if nothing evaluated compares equal strings at different addresses
  (`LoweringIsRightIff`), so always where no operand of `==` has string type.
- Adopted frames are copied byte by byte, so a `foreach` over a named array, which keeps the array's address,
  keeps one in the storage of the child.  A read through it has no meaning.  `KeepsPlace` says that no such
  read is reached; frames without an open iteration of that kind meet it (`NoneInPlaceKeeps`).
- The atomic intrinsics have a meaning on a memory cell, and what they do in the race semantics is taken from
  it: a store where the cell can change, a load where the result depends on it (`AtomicKindsMean`).
- An evaluation at compile time starts from a cache whose entries are right (`Fair`), such as an empty one, and
  from scopes that hold the source's bindings and seeded globals (`Stands`).  A `return` without a value ends
  the block it stands in, there and in the rules; `ComptimeReturns` says when that differs from leaving the
  function.
- A proof of `NoAllocation` is about the calls collected; a call is resolved by the tables of candidates and
  instances, and unresolved where they have no entry.  An operation really never reaches an unknown or
  allocating one if and only if it is proven and the calls that the collection passes over are harmless
  (`NeverAllocatesIff`), so exactly if it is proven where no such call is (`ProvenIsReal`).

Where a comment or a note in the repository and its code differ, the model follows the code.  The comment
on the summary fixpoint (`internal/concept/access_summary.go`, line 269) has the resolver cap subject
paths; the resolver has no cap, the substitution does, and only when caller's and callee's path together
pass 16 elements.  The design notes give 256 items as the limit of a compile-time loop; the loop over a
range stops collecting at 257 so that its caller can refuse them, and its 64-bit additions may wrap before
that, in which case the evaluator yields items that the generated loop does not visit
(`RangeCursor.ComptimeOverflowExample`).

## Model

| member | source | states |
|---|---|---|
| AsyncEndToEnd.GeneratedCodeIsCorrect | internal/concept/async_control_flow.go:671-759 | for any well-formed set of mutually recursive async functions: some number of `concept_async_step` calls on the generated, numbered, frame-trimmed machine completes with `v` if and only if direct evaluation within eight frames yields `v` |
| AsyncTheorem.LoweringPreservesMeaning | internal/concept/async_control_flow.go:132-254 | the machine over the graphs as built completes with a value exactly when direct evaluation yields it |
| AsyncTheorem.CompletionIsUnique | internal/concept/async_control_flow.go:132-254 | whatever bounds a completed run had, its value is the one of direct evaluation |
| AsyncSimulation.SimBlock | internal/concept/async_control_flow.go:132-254 | continuation law: from the entry of `compile(statements, next)`, above any stack, the machine reaches `next` with the store the statements leave, or pops the frame with the returned value; generated fields of other nodes are unchanged |
| AsyncSimulation.SimAwait | internal/concept/async_control_flow.go:138-146 | an awaiting statement suspends, runs the callee's frame above its own, and finishes with the delivered result |
| AsyncSimulation.SimWhile | internal/concept/async_control_flow.go:187-207 | a compiled loop runs condition, bound, body and exhaustion `else` as the loop does, whatever its counter held before |
| AsyncSimulation.SimEach | internal/concept/async_control_flow.go:208-224 | the states of a `foreach` visit the remaining items of its cursor, as direct iteration does |
| AsyncSimulation.SimCall | internal/concept/async.go:379-444 | a pushed child frame runs to completion above the caller's frames and pops with the call's value |
| AsyncStuck.StuckBlock | internal/concept/async_control_flow.go:132-254 | where direct execution of the statements has no answer, the machine neither completes nor falls back to the frames below |
| AsyncStuck.StuckCall | internal/concept/async.go:379-444 | a call without an answer (a panic, or a ninth frame) never pops |
| AsyncDriver.DrivenIffRun | internal/concept/async.go:86-91 | calling `concept_async_step` repeatedly completes an operation exactly when running its states one by one does |
| AsyncEmit.OrderIsReachable | internal/concept/async_control_flow.go:341-370 | the numbering visits each node once, starts at the entry, and visits exactly what the entry reaches |
| AsyncEmit.EmissionPreservesRuns | internal/concept/async_control_flow.go:341-377 | renumbering the visited nodes, and keying generated fields by the new numbers, changes no run |
| AsyncFrame.DiscardingPreservesRuns | internal/concept/async_control_flow.go:443-536 | discarding all locals outside a covering choice of frame fields at every state change alters no run |
| AsyncCoverage.FieldsCoverIff | internal/concept/async_control_flow.go:443-536 | for scoped bodies with unique names the persistent fields cover every emitted state if and only if each name a state reads of another is used visibly outside the state that introduces it, or is a parameter, a used binding, an item or source of an iteration, or kept for an await |
| AsyncCoverage.SeenBodiesAreSeen | internal/concept/async.go:937-997 | that holds wherever the name analysis visits every expression form of the body |
| AsyncCoverage.RequiredCovers | internal/concept/async_control_flow.go:443-476 | for such bodies the fields cover every state even without those kept for awaits |
| AsyncCoverage.RegionBlock | internal/concept/async_control_flow.go:538-652 | every state compiled from a scoped list reads only names in scope or offered by the list, uses only what the list uses, and declares nothing it reads |
| AsyncCoverage.HiddenReadsAfterAwaitsAreCovered | internal/concept/async_control_flow.go:443-536 | where every read that the name analysis does not see, of a name of another state, comes after an await that follows the declaration, the fields cover every state |
| AsyncLiveness.LiveAcrossIff | internal/concept/async.go:887-899 | a name is kept as live across an await if and only if it is a parameter or declared at or before a statement that awaits and named in a later one |
| AsyncLiveness.AwaitedDeclarationsIff | internal/concept/async_control_flow.go:455-459 | a name is kept as awaited if and only if a top-level declaration of it awaits |
| AsyncLiveness.KeptBySplitIff | internal/concept/async_control_flow.go:466-476 | the bindings, items and sources that are kept are those of some split statement that stands in split statements only |
| AsyncKept.KeptLocalExample | internal/concept/async.go:887-899 | `int x = 7; await g(); return if true { x } else { 0 };` keeps `x` and completes with 7 |
| AsyncPersist.SeenNames | internal/concept/async.go:937-997 | on the expression forms it visits the name analysis finds exactly the names mentioned |
| AsyncLimits.SplitIsRightIffReached | internal/concept/async.go:620-661 | hoisting the direct await out of its expression is right for every outcome of the call if and only if left-to-right evaluation reaches the await |
| AsyncLimits.GuardedAwaitExample | internal/concept/async.go:642-646 | `return false and await loop()` is false, but its machine calls `loop` and never completes |
| AsyncReturns.NodeAgreesIff | internal/concept/async.go:551-568 | the statements of a node, awaiting nothing, do what direct evaluation does from any store if and only if, following the guards, no `return` nested in one of them is reached |
| AsyncReturns.LeavesIff | internal/concept/async.go:559-567 | the step function is left with the state and its generated fields as they were if and only if a nested `return` is reached |
| AsyncReturns.CaughtIff | internal/concept/async_control_flow.go:671-759 | an operation is caught in such a state if and only if every entry, with the locals the last one left, reaches a nested `return` |
| AsyncReturns.CaughtNeverCompletes | internal/concept/async_control_flow.go:671-759 | a caught operation never completes |
| AsyncLimits.RawReturnExample | internal/concept/async_control_flow.go:98-121 | a `return` inside a loop that awaits nothing leaves the step function and never completes the operation |
| AsyncLimits.SecondEntryExample | internal/concept/async.go:559-567 | a nested `return` that changed a kept local first: the second entry passes it and aborts on what follows, although direct evaluation returns |
| AsyncLimits.HidingIsNotSeen | internal/concept/async.go:937-997 | a body whose local is read only inside an `if` expression of another state fails the condition of `FieldsCoverIff` |
| AsyncLimits.HiddenLocalExample | internal/concept/async.go:937-997 | in its machine that read has no meaning, while direct evaluation returns 7 |
| AsyncBuilder.GraphBuilder.Append | internal/concept/async_control_flow.go:92-96 | a node is appended and no other node changes |
| AsyncBuilder.GraphBuilder.CompileBlock | internal/concept/async_control_flow.go:132-254 | the in-place builder produces the graph and entry the theorems are about |
| AsyncBuilder.GraphBuilder.CompileStatement | internal/concept/async_control_flow.go:138-248 | the nodes of one split statement, whatever was created before |
| AsyncBuilder.GraphBuilder.CompileLoop | internal/concept/async_control_flow.go:187-207 | a loop header filled in after its body and its `else` |
| AsyncBuilder.GraphBuilder.VisitNode | internal/concept/async_control_flow.go:341-370 | the recursive visit extends the order as the specified depth-first order does |
| AsyncBuilder.GraphBuilder.Build | internal/concept/async_control_flow.go:76-90 | normalisation: graph, entry and visiting order of a whole body |
| AsyncNormalize.AllNodesAreNumbered | internal/concept/async_control_flow.go:341-370 | for reducible bodies every created node is reachable, so every node becomes a state |
| AsyncPairs.OnePairPerAwait | internal/concept/async_control_flow.go:138-146 | each await has exactly one suspension and one continuation, and there are no others |
| AsyncValidate.IdsDiffer | internal/concept/async_control_flow.go:371-377 | identities made of kind and ordinal are unique |
| AsyncAccepted.DegreeIsTargets | internal/concept/async_control_flow.go:379-430 | the published edges leaving a state are as many as its targets |
| AsyncAccepted.NormalizedGraphIsAccepted | internal/concept/async_control_flow.go:1006-1083 | the graph published for a reducible body is accepted by the validator |
| AsyncAccepted.AcceptanceMeans | internal/concept/async_control_flow.go:1006-1083 | in any accepted graph a walk leads from the entry to every state, and a state has no outgoing edge if and only if it is `Complete` |
| AsyncValidate.ReachableStates | internal/concept/async_control_flow.go:1022-1049 | the `changed` loop computes the least set closed under the edges that holds the entry |
| AsyncValidate.ValidateGraph | internal/concept/async_control_flow.go:1006-1083 | the validator reports no error exactly for graphs with unique generated states, fitting edges, full reachability, fitting degrees and one edge per await; otherwise its error names the first demand that fails |
| AsyncAdopt.GeneratedIsDisciplined | internal/concept/async_control_flow.go:139-145 | in generated code only a suspension leads to a state that reads an awaited result |
| AsyncAdopt.AdoptedStep | internal/concept/async.go:67-73 | one state of an operation alone and of the stack that adopted it: the frames stay copies of one another above the parent's own, which are untouched, unless there is no room or the copy reads an element through an address from before the adoption, which ends it |
| AsyncAdopt.StepCopies | internal/concept/async_control_flow.go:912-990 | a state of a frame and of its moved copy does the same, unless it is the header of a `foreach` that would read its array at the address from before the move |
| AsyncAdopt.AdoptedRuns | internal/concept/async.go:67-92 | with room and no read through an address from before the adoption: while the child alone would run, the parent that adopted it holds copies of its frames above its own; when the child would complete, the parent's frames are left with the result delivered |
| AsyncAdopt.AdoptedCompletes | internal/concept/async.go:67-92 | a child that alone completes with `v` leaves the parent's own frames with `v` as the outcome exactly if the stack has room for it and no frame reads through an address from before the adoption, and ends the parent otherwise |
| AsyncAdopt.AdoptedAborts | internal/concept/async.go:60-73 | without room for the child's frames, or with such a read, the adopting operation does not go on |
| AsyncAdopt.NoneInPlaceKeeps | internal/concept/async_control_flow.go:916-917 | frames that hold no address of an array of their own when they are moved never read a lost one later |
| AsyncAdopt.InStepIffRead | internal/concept/async.go:67-84 | for every kind of step: adopted and lone frames take it alike if and only if there is room, the top frame does not read an in-place cursor opened before the adoption, and the outcomes agree, the top frame does not wait to read one, or it aborts or finishes alike under both |
| AsyncAdopt.UnreadResultExample | internal/concept/async.go:67-73 | a child adopted with a delivered but unread result delivers the parent's last outcome instead |
| AsyncAdopt.StrandedCursorExample | internal/concept/async_control_flow.go:916-917 | `foreach x in xs` with an await inside, stepped once and then adopted: alone it reads the second element, adopted it reads through the old address |
| AsyncRuntime.Operation.constructor | internal/concept/async.go:28-52 | a zeroed operation has no active frame, is not complete and has no outcome |
| AsyncRuntime.Operation.Push | internal/concept/async.go:60-65 | push adds one frame on top, or refuses at capacity and changes nothing |
| AsyncRuntime.Operation.Adopt | internal/concept/async.go:67-73 | adopt moves all frames of a live child above the parent's and empties the child, which is where the theorems on adopted runs start; it refuses a completed or empty child and an overflow, changing nothing |
| AsyncRuntime.Operation.Finish | internal/concept/async.go:75-84 | finish pops one frame and delivers the value; the last frame completes the operation with it |
| AsyncRuntime.Operation.StepOnce | internal/concept/async_control_flow.go:671-759 | one dispatched state over the frame array is the machine's step |
| AsyncRuntime.Operation.Step | internal/concept/async.go:86-91 | a call of `concept_async_step` on the array does what the modelled call does, and nothing on a completed operation |
| RangeCursor.AdvanceIsExact | internal/concept/async_control_flow.go:736-740 | for signed or unsigned 64-bit values the cursor update never overflows or passes `end`, and moves by one step or stops at `end` |
| RangeCursor.ValidIff | internal/concept/range.go:206 | a range of positive steps is accepted if and only if it visits something or starts at its end |
| RangeCursor.RemainingIsDistance | internal/concept/async_control_flow.go:736-739 | the unsigned subtraction yields the mathematical distance (C11, section 6.3.1.3) |
| RangeCursor.ItemsAreMultiples | internal/concept/async_control_flow.go:963-1004 | the visited items are exactly `start` plus or minus `k` steps strictly before `end` |
| RangeCursor.Visit | internal/concept/async_control_flow.go:736-740 | the generated loop visits exactly those items, in order, within the element type |
| RangeCursor.ComptimeRangeValues | internal/concept/comptime.go:1285-1328 | the evaluator's loop, with wrapping additions and its limit |
| RangeCursor.ComptimeAgreesWithRuntime | internal/concept/comptime.go:1285-1328 | evaluator and generated loop agree if and only if no addition of the evaluator overflows and at most 256 items are visited |
| RangeCursor.ComptimeOverflowExample | internal/concept/comptime.go:1309-1326 | a range of one item for which the evaluator yields three |
| AccessWalker.FunctionState.VisitExpr | internal/concept/access_summary.go:622-726 | the in-place walk of an expression records the entries, calls and sequence numbers of the specified walk |
| AccessWalker.FunctionState.VisitOperands | internal/concept/access_summary.go:612-620 | the walk of an assignment target's operands |
| AccessWalker.FunctionState.VisitBlock | internal/concept/access_summary.go:533-610 | the in-place walk of a block |
| AccessWalker.WalkProgram | internal/concept/access_summary.go:163-200 | the walks of all functions, in order |
| AccessCoverage.WalkIsCompleteIff | internal/concept/access_summary.go:533-726 | everything a function does to storage reachable from its parameters, and every call it makes, is recorded under the subject it resolves to, if and only if each such action leaves the record of one the walk visits |
| AccessCoverage.WalkAdds | internal/concept/access_summary.go:612-726 | the walk of an expression adds exactly the records of the actions it visits: nothing below the outermost projection |
| AccessCoverage.WalkableBodiesAreSeen | internal/concept/access_summary.go:533-726 | a body without passed-over forms and without reads or calls in an index below a projection is recorded as a whole |
| AccessSemantics.AtomicKindsMean | internal/concept/access_summary.go:639-642 | an atomic intrinsic is recorded as a write if and only if it can change its cell, and as a read if and only if its result depends on it |
| AccessPlaces.OpaqueUnlessReset | internal/concept/access_summary.go:735-782 | a subject with a dynamic index is Opaque if and only if nothing above that index resets it |
| AccessRegions.ResolveCovers | internal/concept/access_summary.go:735-782 | a resolved subject covers every place its expression can denote, by its path and by its interval of a layout region |
| AccessRegions.OverlapIsSound | internal/concept/access_summary.go:1039-1060 | subjects covering overlapping parts of one object are found to overlap |
| AccessVerdict.OverlapIsSymmetric | internal/concept/access_summary.go:1039-1060 | overlap does not depend on the order of its arguments |
| AccessVerdict.OverlapIff | internal/concept/access_summary.go:1039-1060 | subjects are taken to overlap if and only if one is opaque, or they part nowhere on their paths and, as intervals of one region, have a unit in common |
| AccessRegions.ExtendedCovers | internal/concept/access_summary.go:303-318 | a callee's subject extended by its argument covers the same place as seen from the caller, the cap of 16 included |
| AccessRegions.RegionsMeet | internal/concept/access_summary.go:1056-1058 | intervals of one region, for places of which one contains the other, intersect |
| AccessRegions.NestedElementOverlapsIff | internal/concept/access_summary.go:757-778 | inside a region, element `j` of any field below element `i` is found to overlap element `i` if and only if `j` is 0 |
| AccessSummary.SubstituteStaysInUniverse | internal/concept/access_summary.go:299-319 | substitution stays within a finite universe of entries |
| AccessSummary.ImprovementDescends | internal/concept/access_summary.go:269-338 | each changing step adds a key or lowers a sequence number, and the measure falls |
| AccessSummary.Merge | internal/concept/access_summary.go:319-334 | an incoming entry is kept at the earlier of two positions, or appended |
| AccessSummary.DeriveSummaries | internal/concept/access_summary.go:269-338 | the loop ends on every call graph and yields summaries that are closed, hold all base entries and nothing underivable |
| AccessSummary.ClosedHasDerived | internal/concept/access_summary.go:269-338 | a closed summary holds every entry derivable through call chains of any length, no later than derived |
| AccessSummary.Canonicalize | internal/concept/access_summary.go:819-838 | one entry per key, at its earliest sequence |
| AccessSummary.CanonicalIsEarliest | internal/concept/access_summary.go:819-838 | the canonical result is the least closed summary with the earliest sequence of each key |
| AccessSummary.OrderDoesNotMatter | internal/concept/access_summary.go:269-338 | two runs that visit functions in any orders have equal canonical results |
| AccessVerdict.AccessContexts | internal/concept/access_summary.go:490-531 | context propagation ends with exactly the contexts from which a chain of calls reaches each function |
| AccessVerdict.Select | internal/concept/access_summary.go:926-941 | the matching accesses, their contexts and whether all are atomic, or a refusal for an unresolved one |
| AccessVerdict.DerivedSynchronizedAccess | internal/concept/access_summary.go:926-967 | Proven exactly when accesses exist, are resolved, and are confined, all atomic or free of conflicts; Disproven exactly when they are resolved and some pair conflicts |
| AccessRaces.RefutedIff | internal/concept/access_summary.go:952-965 | a type is refuted if and only if all its accesses are resolved and two of them, from different contexts and overlapping, hold one that stores and one that is not atomic |
| AccessRaces.SynchronizedAccess | internal/concept/access_summary.go:926-967 | derivation, contexts and verdict together: a Proven type of an analysable program is free of data races |
| AccessRaces.ProvenIsRaceFree | internal/concept/access_summary.go:926-967 | in every interleaving of the contexts, through call chains of any length, two overlapping accesses to the type from different contexts, one a write, are both atomic |
| AccessLimits.ResetIndexRaces | internal/concept/access_summary.go:745-781 | two contexts write one field through `p[i].x[2].y` and `p[0].x[2].y`, and the verdict is Proven |
| AccessLimits.HiddenOperandRaces | internal/concept/access_summary.go:612-726 | one context reads `q.k` inside `p[q.k].x`, another writes it, and the verdict is Proven |
| AccessLimits.NestedElementRaces | internal/concept/access_summary.go:1039-1060 | one context writes `p.f[2]`, the other its part `p.f[2].g[3]`, and the verdict is Proven |
| AccessLimits.SkippedOperandRaces | internal/concept/access_summary.go:622-726 | one context reads `s.x` under a cast, another writes it, and the verdict is Proven |
| AccessLimits.SkippedMissesNothingIff | internal/concept/access_summary.go:622-726 | the walk of a form that it has no case for misses nothing if and only if its operands call nothing and touch no part of a parameter |
| AccessLimits.FieldMissesNothingIff | internal/concept/access_summary.go:622-726 | the walk of a field projection records everything its evaluation does if and only if the indices below it call nothing and read only what the projection itself denotes |
| OwnershipSafety.NothingIsDroppedTwice | internal/concept/generate.go:5240-5275 | over declarations, moves, blocks, `if`, `return` and nested `?`, on every path no owner is dropped that is not owned |
| OwnershipSafety.BlockSafe | internal/concept/generate.go:3247-3256 | a statically live owner is owned at run time wherever a block leaves control |
| OwnershipExact.EveryOwnerIsReleasedOnce | internal/concept/generate.go:3545-3596 | if branches agree and no failure is tested between a move and its hand-over, every named owner is handed over or dropped exactly once on every path, each drop being of the latest initialised owner left |
| OwnershipLeaks.ReleasedOnceIff | internal/concept/generate.go:3572-3593 | every named owner is released exactly once, in reverse order, on every path if and only if branches that do not end in a return agree on what they move and no reachable `?` is tested between a move and its hand-over |
| OwnershipLeaks.LateHandOverLeaks | internal/concept/generate.go:4654-4698 | for any reachable `?` tested between a move and the call it is for there is a path that leaks or releases out of order |
| OwnershipLeaks.LateHandOverExample | internal/concept/generate.go:4286-4294 | `Consume(move x, F()?)`: no branches, and when `F` fails the function returns with `x` neither dropped nor handed over |
| OwnershipLeaks.DisagreementLeaks | internal/concept/generate.go:3572-3593 | for any disagreement that can be reached there is a path that leaks or releases out of order |
| OwnershipExact.AllDropsInOrder | internal/concept/generate.go:5240-5275 | the drops before a return release all live owners, latest first, and leave nothing |
| OwnershipMoves.TakesAreMoves | internal/concept/generate.go:4288-4293 | on every path the owners that the emitted code hands over are those the source moves, in order, where a name means its innermost visible declaration and every declaration makes an owner of its own |
| OwnershipMoves.ShadowExample | internal/concept/generate.go:5444-5451 | `{ Own x = A(); { Own x = B(); Consume(move x); } }` hands over the inner owner |
| OwnershipNames.OwnedParamsAre | internal/concept/generate.go:3160-3184 | the owners at the start are the owning parameters |
| OwnershipNames.NameIsFresh | internal/concept/generate.go:5164-5193 | storage chosen for a name new to its scope is used by no owner in scope |
| OwnershipLowerer.FreshUnlessHidden | internal/concept/generate.go:5164-5193 | in any state binding an owner keeps all owners' storages apart if and only if no owner hidden by a redeclaration in its scope has that name |
| OwnershipLowerer.FunctionLowerer.BindName | internal/concept/generate.go:5164-5217 | binding a name extends the scope, the order and the live map |
| OwnershipLowerer.FunctionLowerer.PopScope | internal/concept/generate.go:5152-5158 | leaving a scope forgets its bindings and its owners' liveness |
| OwnershipLowerer.FunctionLowerer.EmitScopeDrops | internal/concept/generate.go:5248-5275 | the drops of one scope, latest first, and the live map after them |
| OwnershipLowerer.FunctionLowerer.EmitAllDrops | internal/concept/generate.go:5240-5246 | the drops of all scopes, innermost first |
| OwnershipLowerer.FunctionLowerer.Effects | internal/concept/generate.go:4286-4378 | moves clear liveness where they are named and are handed over after all preludes of their expression; `?` completes its operand, emits cleanup on its failure path and keeps liveness |
| OwnershipLowerer.FunctionLowerer.Conditional | internal/concept/generate.go:3545-3596 | the live map joined after an `if` |
| OwnershipLowerer.LowerWhole | internal/concept/generate.go:3160-3184 | a whole function is lowered to the code the theorems are about |
| StringEquality.LoweringIsCorrect | internal/concept/generate.go:4171-4228 | where nothing evaluated compares equal strings at different addresses, running the prelude and then reading the value gives the source's value or the source's panic |
| StringEquality.LoweringIsRightIff | internal/concept/generate.go:4219-4228 | the lowering is right about everything that is evaluated if and only if nothing evaluated compares equal strings at different addresses |
| StringEquality.ComparisonIsRightIff | internal/concept/generate.go:4219-4228 | one `==` is right if and only if its operands are not equal strings at different addresses |
| StringEquality.LoweringWithoutTextsIsCorrect | internal/concept/generate.go:4171-4228 | where no operand of `==` has string type the lowering is right for all values of the variables |
| StringEquality.EqualTextsExample | internal/concept/comptime.go:930 | two variables of one text: `true` for the language, false in C |
| ExpressionLowering.LoweringFollowsAddresses | internal/concept/generate.go:4171-4228 | whatever is compared, prelude and value do what evaluation with strings compared by address does, panics included |
| StringEquality.FalseGuardRunsNothing | internal/concept/generate.go:4179-4193 | under a false guard that compares no such strings no check of the right operand runs |
| ExpressionLowering.IfIsCorrect | internal/concept/generate.go:4984-5001 | only the chosen branch of an `if` expression runs |
| ExpressionLowering.AtIsCorrect | internal/concept/generate.go:4139-4150 | an index is fixed, checked and only then used |
| ExpressionLowering.GuardIsExact | internal/concept/index_integer.go:24-30 | the guard is true exactly for indices outside the string, signed or unsigned |
| ExpressionLowering.ExpressionLowerer.LowerExpr | internal/concept/generate.go:3995-4210 | the lowerer with its counter of temporaries yields the specified prelude and value |
| ExpressionLowering.ExpressionLowerer.LowerLogical | internal/concept/generate.go:4171-4194 | the lowering of `and` and `or` |
| ComptimeFuel.MoreFuelSameValue | internal/concept/comptime.go:100-113 | an evaluation that succeeds gives the same value with any larger fuel |
| ComptimeFuel.EvalRicher | internal/concept/comptime.go:265-335 | stack, cache and value are the same with more fuel, and the surplus is left |
| ComptimeMemo.CachingChangesNothing | internal/concept/comptime.go:193-227 | from any consistent cache, a cached global is what uncached evaluation yields whenever that succeeds, and the cache stays consistent whether it does or not |
| ComptimeMemo.ModuleIsUncached | internal/concept/comptime.go:178-191 | every global of a module, evaluated in order over one cache, has the value of its own uncached evaluation |
| ComptimeStack.EvaluationStaysWithinLimits | internal/concept/comptime.go:83-113 | a successful evaluation leaves the stack as it found it, never passed depth 32, and never had more active frames of a function than its bound |
| ComptimeStack.CallKeeps | internal/concept/comptime.go:993-1043 | the same for one call, from any state |
| ComptimeReturns.ReturnsLeaveIff | internal/concept/comptime.go:1045-1259 | the evaluator runs a block as if a `return` without a value left the function if and only if none is reached in a nested block or a loop with something still to run after it |
| ComptimeReturns.BareReturnContinues | internal/concept/comptime.go:1045-1060 | after a nested `return` without a value the evaluator runs the statements that follow |
| ComptimeFailures.SucceedsIffMeant | internal/concept/comptime.go:265-632 | an evaluation that neither fuel, depth nor a recursion bound cuts off succeeds if and only if the inductive rules give the expression a value, and a success yields the only value they give |
| ComptimeFailures.BlockSucceedsIffMeant | internal/concept/comptime.go:1045-1259 | the same for a block and what it returns: branches, loops with bound and `else`, iterations, assignments to the innermost binding |
| ComptimeAdequacy.ValueIsTheMeaning | internal/concept/comptime.go:265-632 | from any fair cache, what an evaluation yields is what the expression means and the only thing it means, and the cache stays fair |
| ComptimeAdequacy.OutcomeIsTheMeaning | internal/concept/comptime.go:1045-1259 | a block that succeeds returns what it means and leaves the bindings it means |
| ComptimeAdequacy.ModuleIsMeant | internal/concept/comptime.go:178-227 | every global of a module, evaluated over one cache, has the one value its initialiser means |
| ComptimeDerivations.MeansOnce | internal/concept/comptime.go:265-632 | no expression means two values, however they are derived |
| ComptimeAdequacy.OpMeansIff | internal/concept/comptime.go:633-799 | operators yield truth values, and the 64-bit integer congruent to the sum, difference, product or truncated quotient, and fail exactly on other operands or a zero divisor |
| ComptimeAdequacy.UnaryMeansIff | internal/concept/comptime.go:336-352 | negation and `not` likewise |
| ComptimeAdequacy.RangeMeansIff | internal/concept/comptime.go:1285-1328 | the values of a range are those that follow one another by one wrapping step from the start while before the end, and it fails exactly where the direction is wrong or they are more than 256 |
| ComptimeAdequacy.BranchExample | internal/concept/comptime.go:517-528 | `if true { 1 } else { 2 }` is 1 |
| Division.QuotientIff | internal/concept/comptime.go:751-760 | the quotient is the one number whose remainder is smaller than the divisor and not of the other sign than the dividend |
| ComptimeEvaluator.ComptimeState.Push | internal/concept/comptime.go:83-92 | push records the frame and fails past the limit |
| ComptimeEvaluator.ComptimeState.EvalExpr | internal/concept/comptime.go:265-335 | the in-place evaluator's value and state are those of the functional one |
| ComptimeEvaluator.ComptimeState.Declaration | internal/concept/comptime.go:193-227 | evaluation of a global with cycle check and cache |
| ComptimeEvaluator.ComptimeState.CallFunction | internal/concept/comptime.go:993-1043 | calls with recursion bound and argument evaluation under the pushed frame |
| ComptimeEvaluator.ComptimeState.RunWhile | internal/concept/comptime.go:1094-1151 | bounded loops at compile time |
| ComptimeEvaluator.ComptimeState.RunFor | internal/concept/comptime.go:1231-1259 | iteration at compile time |
| BoundedLoops.ExhaustedIff | internal/concept/generate.go:3471-3495 | a bounded loop is exhausted exactly when the condition still holds after `n` bodies |
| BoundedLoops.EndedIff | internal/concept/generate.go:3471-3495 | it ends exactly when the condition turns false after at most `n` bodies |
| BoundedLoops.ReturnedIff | internal/concept/generate.go:3471-3495 | it is left by a `return` exactly when the body reaches one in one of the first `n` turns |
| BoundedLoops.LoweredMeans | internal/concept/generate.go:3471-3495 | the C emitted for nested bounded loops, with a fresh counter each, ends as the loops mean and leaves the counters of enclosing loops alone |
| LoopMeanings.LoopsAgreeIff | internal/concept/generate.go:3471-3495 | evaluator, ordinary C and async code agree on a loop with the same parts if and only if no `return` without a value is reached and the loop has an `else`, is not exhausted, or is not built for verification |
| LoopMeanings.EvaluatorAgreesWithCIff | internal/concept/comptime.go:1094-1151 | the same for the evaluator and the C lowering of its own loop, whatever its condition and body are |
| LoopMeanings.AsyncAgreesWithC | internal/concept/async_control_flow.go:701-728 | an async loop ends as the C lowering of its parts does |
| LoopExample.CountingAgreesIff | internal/concept/generate.go:3471-3495 | a loop that counts to a global: the three agree if and only if its bound lets it finish or nothing is verified |
| LoopMeanings.AsyncLoopMeans | internal/concept/async_control_flow.go:701-728 | a loop of the async semantics is the bounded loop of its condition and body, with `else`, panic or end on exhaustion |
| LoopMeanings.ComptimeLoopMeans | internal/concept/comptime.go:1094-1151 | if every `return` leaves the function, a loop of the evaluator is the bounded loop of its condition and body, fuel and cache included |
| AllocationCalls.CollectionIsCompleteIff | internal/concept/concept_assert.go:908-1022 | the collection has every call of a body if and only if none lies below a form that it passes over: `foreach`, `match`, `try` and assertion statements, member calls and receivers, field bases, `match` and `with` expressions, assignment targets |
| AllocationCalls.CallCollector.VisitBlock | internal/concept/concept_assert.go:984-1010 | the walk over a block notes exactly the calls and template instances of the specification, instances in the order first met |
| AllocationCalls.CollectItems | internal/concept/concept_assert.go:685-735 | names sorted, then instances, each resolved: the items that the search looks at |
| AllocationCalls.NeverAllocatesIff | internal/concept/concept_assert.go:641-765 | every path of calls, whatever form they are under, is resolved, meets no unknown or allocating operation and returns to no function on it, if and only if the operation is Proven and the calls passed over on the way are harmless |
| AllocationCalls.ProvenIsReal | internal/concept/concept_assert.go:641-765 | where no reachable body has a call below a form passed over, Proven holds exactly when every path of calls is as above |
| AllocationCalls.MissingIsNotProven | internal/concept/concept_assert.go:716-721 | an operation is not Proven where collected calls lead to a body that calls a name without candidate |
| AllocationCalls.AllocatingTemplateLast | internal/concept/concept_assert.go:735-748 | templates are looked at after calls: a template met last that may allocate refutes, whatever calls are missing |
| AllocationCalls.MissingCallExample | internal/concept/concept_assert.go:716-721 | `void F() { Missing(); }` is not Proven |
| AllocationCalls.DisprovenIsRealCall | internal/concept/concept_assert.go:652-673 | Disproven implies a path of calls to an allocating contract |
| AllocationCalls.HiddenCallExample | internal/concept/concept_assert.go:984-1010 | `void F() { foreach (...) { Allocate(); } }` is Proven and calls an allocating contract |
| NoAllocation.SearchIsExact | internal/concept/concept_assert.go:641-765 | over the calls collected: Proven exactly when every path of them, expanded only through bodies, is resolved, meets only bodies, primitives and NoAllocation summaries, and never returns to a function on it |
| NoAllocation.DisprovenIsReal | internal/concept/concept_assert.go:652-673 | Disproven implies a reachable contract that allocates |
| NoAllocation.DisprovenIff | internal/concept/concept_assert.go:685-749 | over the calls collected: Disproven exactly when a path that returns to no function on it leads to an allocating contract, and in each body on the way nothing later is an unresolved call or a template instance neither proven nor refuted |
| NoAllocation.UnresolvedHides | internal/concept/concept_assert.go:716-721 | an unresolved call seen later hides an allocating contract |
| NoAllocation.InstanceHides | internal/concept/concept_assert.go:743-748 | so does a template instance about which nothing is known |
| NoAllocation.ProofSearch.Project | internal/concept/concept_assert.go:675-765 | the search that marks and unmarks functions in place has the specified outcome and leaves no mark |
| Bits.ParseFields | internal/concept/bits.go:38-79 | a declaration is accepted exactly when names differ from each other and from `raw` and ranges lie in the width and are pairwise disjoint; otherwise the error describes the first field at fault |
| Bits.MaskBit | internal/concept/bits.go:81-86 | the mask of a range has exactly its bits |
| Bits.UpdatePanicsIff | internal/concept/generate.go:4919-4922 | a `with` update panics exactly for values that do not fit the field |
| Bits.UpdateReadsBack | internal/concept/generate.go:4087-4098 | an accepted value reads back exactly |
| Bits.UpdateKeepsOthers | internal/concept/generate.go:4923-4924 | an update leaves every disjoint field unchanged |
| Bits.UpdateFits | internal/concept/generate.go:4923-4924 | `raw` stays within its representation |
| Bits.UpdatesCommute | internal/concept/generate.go:4906-4925 | updates of disjoint fields commute |
| Bits.AcceptedFieldsAreIndependent | internal/concept/generate.go:4906-4925 | all of this for the fields of any accepted declaration |
| HeaderOrder.Pass | internal/concept/generate.go:2442-2460 | a pass emits only declarations whose dependencies are out, and without progress every remaining one waits |
| HeaderOrder.Emit | internal/concept/generate.go:2440-2471 | emission succeeds exactly for distinct keys with known, acyclic dependencies, and then emits each declaration once, after all it depends on |

## Left out

- Async `try`/`except`, `?` and other failure expressions around an await, casts and parentheses: handlers of an inner `try` replace the outer ones in the builder, unlike the ordinary lowering.
- Nested blocks that hold awaits, and the older path `lowerAsyncStep`, which `lowerAsyncFunction` does not call.
- Promotion of the storage behind a persistent `Span` (the last loop of `evt1AsyncPersistentMap`): the model has no views, and promotion only adds fields.
- Drops of owners held in async frames, byte sizes of frames and results, and the C width of loop counters and state numbers.
- Async operations as values inside the compiled programs: the adoption theorems are about operations of the runtime, the end-to-end theorem about direct calls.
- AsyncAccepted.NormalizedGraphIsAccepted: the persistent-field lists carried by states and the MIR node payloads are not part of the published graph here.
- Streams in the race theorem: a stream's field carries the region of its layout's field, so two types share it.
- AsyncReturns.CaughtIff: gives a nested `return` with a value the meaning of one without, because the C emitted for it is not valid in a void function (section 6.8.6.4 of C11).
- AsyncRuntime.Operation.Finish: does not model the refusal of results larger than the result storage, because values have no sizes here.
- LoopMeanings.LoopsAgreeIff: relates an evaluator's and an async loop by what their parts do, because the two languages differ in their integers.
- AccessRaces.ProvenIsRaceFree: one direction, because race freedom of an arbitrary program is not a property of its summaries; the four families outside it are characterised expression by expression.
- Memory orders, mechanisms and origins of access entries, semantic access attributes, imported, generic, template and extern summaries, `PublishedBefore` and `ExactlyOnce`.
- By-value arguments of shared types: the race semantics lets a callee reach the argument itself, which only adds runs.
- Member calls with their receivers and the statements of automata in the shared-access walk.
- AsyncPersist.MatchFields: keeps every used binding of a split match, where the source keeps those of enums it finds by name; bindings of built-in failure types are not modelled.
- Named arrays in async code keep their length, as their C type says; after a move the end test of a `foreach` still uses it.
- Owners without a name, such as the payload of `F()?` passed on in the same expression: ownership here is that of named values.
- Ownership across `match`, loops, `try` and reassignment, copyable types that are not dropped, generated names for C keywords, and the closed-template shortcut of `lowerIfStmt`.
- Temporaries that hold a returned or failing value while drops run: they change no liveness.
- Arithmetic, spans, tensors, storage indexing and calls in expression lowering; the modelled expressions are pure.
- Compile-time `match`, structs, strings, floats, wide and quantity integers, static asserts, observations, usage counters, and the operators `%`, bitwise ones and shifts.
- Calls of compiler-defined templates and intrinsics in `evt1DirectCallTargets`, which obtain no storage, and statements of automata.
- Rendering of proof graphs in `evt1ProjectNoAllocation`: only outcomes are modelled.
- Bits.ParseFields: the representation type is one of the four unsigned widths, as the parser checks before it reads fields; syntax errors are not modelled.
- The text of header declarations, and the choice of which types need one.
- C text formatting, names, JSON maps, digests, generics, templates, type checking, the formatter, commands, bridge code and foreign bindings.
- All integers of the async value model are 32-bit with checked arithmetic; other widths, floats and strings are not modelled there.
