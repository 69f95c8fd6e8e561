# The rir analysis framework, modelled in Dafny

This project models the generic dataflow framework of the rir compiler
(`rir/src/analysis_framework`). It covers four parts:

- **The abstract states of `State.h`.**
  - A stack of domain values whose top is index 0.
  - An environment from variable names to values, with an owned chain of
    parent scopes.
  - The composite state that merges a global part, a stack and an
    environment.
- **The dispatcher of `framework.h`.** It has a success flag that
  `dispatch` resets, that the hook can clear through `fail`, and that
  `dispatch` returns.
- **The opcode visitor of `dispatchers.h`.** Every receiver handler
  defaults to `any`, and so does `label`.
- **The forward and backward worklist drivers of `analysis.h`.** This
  includes their indexed variants, which rebuild the state at any
  instruction from the stored merge-point fixpoints, and `isSafeBuiltin`.

## Modules

| module | what it holds |
|---|---|
| `Wrappers` | `Option` |
| `Lattice` | the domain value |
| `Stacks` | `AbstractStack` |
| `Environments` | `AbstractEnvironment` |
| `States` | `AbstractState`, `DummyState` |
| `Code` | the instruction sequence |
| `Analyses` | the context shared by both drivers |
| `Samples` | two small loops used as witnesses |
| `Framework` | `Dispatcher` |
| `Dispatchers` | `InstructionDispatcher` and `Receiver` |
| `ForwardWalks`, `ForwardAnalyses` | the forward driver |
| `BackwardWalks`, `BackwardAnalyses` | the backward driver |
| `Builtins` | `isSafeBuiltin` |

### The domain value and the states

The domain value is a small lattice: `Bottom`, `Absent`, `Constant(n)` and
`Top`.

- Its `mergeWith` is `Join`.
- A value merge reports a change exactly when the join differs from the
  old value.

States are values. A parent environment is an owned deep copy, held as an
`Option<Env>`.

The objects the source updates in place are classes whose methods are
proved against the functional merges:

- `AbstractStack`: push, pop, pop(n), indexed update, `mergeWith`.
- `AbstractEnvironment`: the mutable `operator[]`, `mergeAll`, and
  `mergeWith` with its two loops over the bindings and the parent adoption.

### The drivers

Each driver is a class with the source's fields:

- the code, the initial, current and final states, and the cursor;
- the merge-point table `map<nat, AbstractState>`;
- the jump-origin table (backward driver only);
- the worklist, a `seq<nat>` used as a LIFO.

The analysis' dispatcher is a transfer function `(Instr, AbstractState) ->
AbstractState`.

**Semantics of a branch.** `ForwardWalks.Walk` and `BackwardWalks.Walk`
give the list of flows (`Edge`s) a branch of the worklist walk produces
from a position. A flow goes either into a merge point or into the final
state.

**Post-fixpoint.** The tables are a post-fixpoint when every flow of every
walk that starts at an entry, exit or stored merge point is covered:

- a flow into a merge point is below the state stored there;
- a flow into the final state is below the final state.

**Main theorem.** The main theorem is the `converged ==> PostFixpoint`
clause of each driver's `Analyze`. It is proved through an invariant of
the worklist loop. The invariant records:

- which flows of the current branch are already covered;
- that every stored merge point is queued, settled, or the start of the
  branch being walked.

**Retrieval.** The state the indexed variants compute at an instruction is
the function `Replay`. `Lookup` returns it, and the lemmas `ReplayIsCovered`
show that at a post-fixpoint the walk from every reached position with the
replayed state is covered by the tables.

## Model

| member | source | states |
|---|---|---|
| `Lattice.JoinCommutes` | rir/src/analysis_framework/State.h:22-31 | the domain merge is commutative |
| `Lattice.JoinIdempotent` | rir/src/analysis_framework/State.h:22-31 | merging a value with itself keeps it and reports no change |
| `Lattice.JoinAssociates` | rir/src/analysis_framework/State.h:22-31 | the domain merge is associative |
| `Lattice.JoinIsLeastUpperBound` | rir/src/analysis_framework/State.h:22-31 | the merge is above both operands and below every common upper bound |
| `Lattice.LeqReflexive` | rir/src/analysis_framework/State.h:22-31 | the order the merge induces is reflexive |
| `Lattice.LeqTransitive` | rir/src/analysis_framework/State.h:22-31 | that order is transitive |
| `Lattice.LeqAntisymmetric` | rir/src/analysis_framework/State.h:22-31 | that order is antisymmetric |
| `Lattice.NoChangeIffBelow` | rir/src/analysis_framework/State.h:22-31 | a merge reports no change exactly when the incoming value is below the own one |
| `Lattice.ChangeRaisesHeight` | rir/src/analysis_framework/State.h:22-31 | a reported change strictly raises the height, which is at most 2 |
| `Lattice.StrictChainIsShort` | rir/src/analysis_framework/State.h:22-31 | a chain of merges that each report a change has at most 2 steps |
| `Stacks.StackMerge` | rir/src/analysis_framework/State.h:91-98 | on equal depths the merged stack has the same depth, is above both stacks slot by slot, and is reported changed exactly when it differs |
| `Stacks.StackLeqReflexive` | rir/src/analysis_framework/State.h:91-98 | the slotwise order is reflexive |
| `Stacks.StackLeqTransitive` | rir/src/analysis_framework/State.h:91-98 | the slotwise order is transitive |
| `Stacks.StackNoChangeIffBelow` | rir/src/analysis_framework/State.h:91-98 | the stack merge reports no change exactly when the other stack is below slot by slot |
| `Stacks.AbstractStack.constructor` | rir/src/analysis_framework/State.h:73 | a new stack is empty |
| `Stacks.AbstractStack.Copy` | rir/src/analysis_framework/State.h:74-78 | a copy holds the same values |
| `Stacks.AbstractStack.Update` | rir/src/analysis_framework/State.h:141-144 | writing slot `idx` below the depth changes that slot only |
| `Stacks.AbstractStack.Push` | rir/src/analysis_framework/State.h:100-124 | `push` puts the value at the front, where `top()` and index 0 read it |
| `Stacks.AbstractStack.Pop` | rir/src/analysis_framework/State.h:108-112 | `pop` on a non-empty stack returns the front value and removes exactly it |
| `Stacks.AbstractStack.PopN` | rir/src/analysis_framework/State.h:116-120 | `pop(num)` with depth at least `num` removes exactly the top `num` values, keeping the rest in order |
| `Stacks.AbstractStack.MergeWith` | rir/src/analysis_framework/State.h:82-98 | the in-place loop computes `StackMerge`: new values and the accumulated change flag |
| `Stacks.PushThenPop` | rir/src/analysis_framework/State.h:108-124 | `push(v)` then `pop()` returns `v` and restores the stack |
| `Environments.Scopes` | rir/src/analysis_framework/State.h:276-285 | the scopes `find` searches: at least one, and the first is the local bindings |
| `Environments.FindIsInnermost` | rir/src/analysis_framework/State.h:276-285 | `find` returns the binding of the innermost scope that has the key |
| `Environments.FindUnboundIsTop` | rir/src/analysis_framework/State.h:276-285 | `find` returns top when no scope of the chain has the key |
| `Environments.Get` | rir/src/analysis_framework/State.h:289-295 | the const `operator[]` returns the local binding, or top on a local miss without consulting the parent |
| `Environments.LocalChangedIffDifferent` | rir/src/analysis_framework/State.h:226-247 | the flag the two binding loops accumulate is true exactly when the local bindings change |
| `Environments.EnvMerge` | rir/src/analysis_framework/State.h:223-259 | the merged key set is the union of both key sets, and the result reports a change exactly when the environment (parents included) changes |
| `Environments.EnvLeqReflexive` | rir/src/analysis_framework/State.h:223-259 | the environment order is reflexive |
| `Environments.EnvLeqTransitive` | rir/src/analysis_framework/State.h:223-259 | the environment order is transitive |
| `Environments.EnvMergeIsUpperBound` | rir/src/analysis_framework/State.h:223-259 | the merged environment is above both operands, parent chains included |
| `Environments.EnvNoChangeIffBelow` | rir/src/analysis_framework/State.h:223-259 | the environment merge reports no change exactly when the other environment is below |
| `Environments.EnvMergeCommutes` | rir/src/analysis_framework/State.h:223-259 | merging `o` into `e` and `e` into `o` give the same environment |
| `Environments.OneSidedKeyMergedWithAbsent` | rir/src/analysis_framework/State.h:226-247 | a key bound on one side only is kept and merged with Absent; a key only in the other environment forces a change |
| `Environments.AbstractEnvironment.constructor` | rir/src/analysis_framework/State.h:190 | a new environment has no bindings and no parent |
| `Environments.AbstractEnvironment.Copy` | rir/src/analysis_framework/State.h:196-198 | a copy has the same bindings and a copy of the whole parent chain |
| `Environments.AbstractEnvironment.At` | rir/src/analysis_framework/State.h:297-307 | the mutable `operator[]` binds a missing key to top, changes no other binding, and returns the key's binding |
| `Environments.AbstractEnvironment.Assign` | rir/src/analysis_framework/State.h:297-307 | assigning through the mutable `operator[]` rebinds that key only |
| `Environments.AbstractEnvironment.MergeAll` | rir/src/analysis_framework/State.h:339-342 | `mergeAll(v)` merges `v` into every local binding and keeps the key set and the parent |
| `Environments.AbstractEnvironment.MergeWith` | rir/src/analysis_framework/State.h:223-259 | the in-place merge, parent adoption and recursive parent merge included, computes `EnvMerge` |
| `Environments.AbstractEnvironment.MergeBindingsOf` | rir/src/analysis_framework/State.h:226-239 | the first loop inserts each key of the other environment merged with Absent, or merges it into the own binding |
| `Environments.AbstractEnvironment.MergeMissingWithAbsent` | rir/src/analysis_framework/State.h:240-247 | the second loop merges Absent into every binding the other environment lacks |
| `Environments.MissingStep` | rir/src/analysis_framework/State.h:240-247 | one iteration of the second loop keeps its invariant |
| `Environments.LoopsComputeLocalMerge` | rir/src/analysis_framework/State.h:226-247 | after both loops the bindings and the flag are those of the local merge |
| `States.StateMergeFlagIsComponentOr` | rir/src/analysis_framework/State.h:415-421 | the reported change is the OR of the stack and environment merges' flags, the dummy global part never adding one, so it is true exactly when the other stack or environment is not below |
| `States.StateMerge` | rir/src/analysis_framework/State.h:415-421 | all three parts are merged, the result is above both states, and it reports a change exactly when it differs, which is exactly when the other state is not below |
| `States.StateLeqReflexive` | rir/src/analysis_framework/State.h:415-421 | the state order is reflexive |
| `States.StateLeqTransitive` | rir/src/analysis_framework/State.h:415-421 | the state order is transitive |
| `States.SelfMergeReportsNoChange` | rir/src/analysis_framework/State.h:415-421 | merging a state with itself reports no change |
| `States.StateMergeCommutes` | rir/src/analysis_framework/State.h:415-421 | the merged state does not depend on the order of the operands |
| `Code.Next` | rir/src/analysis_framework/analysis.h:442-443 | the successor set of an instruction is empty exactly at an exit |
| `Analyses.GrowsReflexive` | rir/src/analysis_framework/analysis.h:188-195 | a table and a final state grow into themselves |
| `Analyses.CoverageIsMonotone` | rir/src/analysis_framework/analysis.h:188-195 | flows covered by tables stay covered when the tables grow |
| `Analyses.GrowsTransitive` | rir/src/analysis_framework/analysis.h:188-195 | growth of the tables is transitive |
| `Analyses.StoreOrMerge` | rir/src/analysis_framework/analysis.h:188-195 | a first visit stores the state and reports true; later the state is merged in and the flag is the merge's; the table only grows, covers the state, and no other entry changes |
| `Analyses.FoldFinal` | rir/src/analysis_framework/analysis.h:157-166 | the first exit sets the summary, later ones merge into it; the summary only grows and covers the state |
| `Analyses.MergePointRule` | rir/src/analysis_framework/analysis.h:121-142 | the merge-point rule: the key set gains the position and only it may change; an incoming state is covered there (`StoreOrMerge`); without one the stored state is taken over; the branch ends exactly when a stored state already covers the incoming one, the table then unchanged |
| `Analyses.Enqueue` | rir/src/analysis_framework/analysis.h:147-151 | `shouldJump` then `push_front`: the table is `StoreOrMerge`'s, and the worklist is unchanged exactly when a stored state already covers the state, and otherwise gains the target at the front |
| `Framework.Dispatcher.constructor` | rir/src/analysis_framework/framework.h:48 | a new dispatcher holds its hook and has run nothing |
| `Framework.Dispatcher.Fail` | rir/src/analysis_framework/framework.h:56 | `fail` clears the success flag and nothing else |
| `Framework.Dispatcher.DoDispatch` | rir/src/analysis_framework/framework.h:59-66 | the hook runs once, and the flag is cleared exactly when it calls `fail` |
| `Framework.Dispatcher.Dispatch` | rir/src/analysis_framework/framework.h:36-41 | the hook runs exactly once, and the result is false exactly when this run called `fail`, whatever an earlier call left in the flag |
| `Framework.CountingDispatcherSucceeds` | rir/src/tests/dispatchers.cpp:47-72 | a hook that does not fail runs once and dispatch returns true |
| `Framework.FailingDispatcherFails` | rir/src/tests/dispatchers.cpp:74-80 | a hook that calls `fail` makes dispatch return false |
| `Framework.FailureDoesNotLeak` | rir/src/analysis_framework/framework.h:36-41 | after a failed dispatch the next one succeeds again |
| `Dispatchers.DefaultReceiverDispatch` | rir/src/analysis_framework/dispatchers.h:35-83 | with the base receiver every instruction, the label included, reaches `any` once at the cursor, and dispatch returns true |
| `Dispatchers.OverriddenDispatch` | rir/src/analysis_framework/dispatchers.h:73-83 | an overridden handler runs instead of `any`, and dispatch fails only if that handler calls `fail` |
| `ForwardWalks.SettledIsMonotone` | rir/src/analysis_framework/analysis.h:121-142 | a settled label stays settled while the tables grow and its own entry is kept |
| `ForwardWalks.PendingKept` | rir/src/analysis_framework/analysis.h:116-171 | every stored label stays queued, settled or walked across a step that grows the tables |
| `ForwardWalks.OriginSettles` | rir/src/analysis_framework/analysis.h:116-171 | when a branch ends, its origin label is settled or queued again |
| `ForwardWalks.StartWalk` | rir/src/analysis_framework/analysis.h:111-114 | the driver starts at the entry with the initial state and empty tables |
| `ForwardWalks.TakeFromQueue` | rir/src/analysis_framework/analysis.h:117-118 | taking the front of the queue resumes at a stored label |
| `ForwardWalks.AdoptStored` | rir/src/analysis_framework/analysis.h:129-130 | a label resumed without a current state continues from its stored state |
| `ForwardWalks.StoreKeepsTables` | rir/src/analysis_framework/analysis.h:124-126 | storing a state of the label's depth keeps the tables well shaped |
| `ForwardWalks.BranchEnds` | rir/src/analysis_framework/analysis.h:152-165 | a branch whose last flow is covered ends with the walk invariant restored |
| `ForwardWalks.BranchGoesOn` | rir/src/analysis_framework/analysis.h:145-169 | a branch whose next flow is covered goes on to the next position |
| `ForwardWalks.EnterLabel` | rir/src/analysis_framework/analysis.h:121-142 | a branch falling into a label ends its flow there and starts the label's walk |
| `ForwardWalks.BranchEndsAtLabel` | rir/src/analysis_framework/analysis.h:137-141 | a branch whose flow into a label is already covered ends |
| `ForwardWalks.BeginAtLabel` | rir/src/analysis_framework/analysis.h:121-134 | the walk from a label starts with the state stored there |
| `ForwardWalks.AbandonAtLabel` | rir/src/analysis_framework/analysis.h:137-141 | a merge that reports no change abandons the branch |
| `ForwardWalks.Balanced` | rir/src/analysis_framework/State.h:91-93 | the transferred state has the depth its successors expect |
| `ForwardWalks.StepToNext` | rir/src/analysis_framework/analysis.h:145-169 | an instruction that falls through moves the walk to the next position |
| `ForwardWalks.JumpKeepsTables` | rir/src/analysis_framework/analysis.h:147-151 | `shouldJump` keeps the tables well shaped and queues the target only when its stored state is new or changed |
| `ForwardWalks.JumpTargetDepth` | rir/src/analysis_framework/analysis.h:147-149 | the state stored at a jump's target has the depth the jump flows in |
| `ForwardWalks.StepUncondJump` | rir/src/analysis_framework/analysis.h:147-156 | an unconditional jump covers its flow and ends the branch |
| `ForwardWalks.StepCondJump` | rir/src/analysis_framework/analysis.h:147-169 | a conditional jump covers its flow to the target and goes on with the next instruction |
| `ForwardWalks.StepExit` | rir/src/analysis_framework/analysis.h:157-166 | an exit folds the state into the final state and ends the branch |
| `ForwardWalks.StoreAtLabel` | rir/src/analysis_framework/analysis.h:124-126 | at a label with no stored state the incoming state is stored and the walk goes on |
| `ForwardWalks.MergeAtLabel` | rir/src/analysis_framework/analysis.h:132-141 | at a label with a stored state the merged state is stored; a change continues, no change abandons the branch |
| `ForwardWalks.IdleAtEmptyQueue` | rir/src/analysis_framework/analysis.h:116 | an empty queue between branches means the tables are a post-fixpoint |
| `ForwardWalks.ReplayAtStoredLabel` | rir/src/analysis_framework/analysis.h:283-290 | at a stored label the replayed state is the stored fixpoint |
| `ForwardWalks.FallThroughCovered` | rir/src/analysis_framework/analysis.h:278-291 | the flows of a walk include those of the walk it falls through into |
| `ForwardWalks.ReplayIsCovered` | rir/src/analysis_framework/analysis.h:270-291 | at a post-fixpoint, the walk from every reached position with the replayed state is covered |
| `ForwardWalks.ReplayIntoLabelIsBelowFixpoint` | rir/src/analysis_framework/analysis.h:278-291 | at a post-fixpoint, the state replayed into a label is below the fixpoint the cache continues from |
| `ForwardWalks.SeedAsWrittenMissesTheLoop` | rir/src/analysis_framework/analysis.h:270-274 | on a loop at the entry, the state the cache starts from as written is not above the stored fixpoint there, while `Seed` is that fixpoint |
| `ForwardAnalyses.ForwardAnalysis.constructor` | rir/src/analysis_framework/analysis.h:91-107 | a new driver holds no code, no states and empty tables |
| `ForwardAnalyses.ForwardAnalysis.Invalidate` | rir/src/analysis_framework/analysis.h:71-82 | `invalidate` drops the code, all states and the merge points; a repeat is harmless |
| `ForwardAnalyses.ForwardAnalysis.Analyze` | rir/src/analysis_framework/analysis.h:23-28 | earlier results are dropped; on convergence the tables are a post-fixpoint; the indexed variant's cursor is at the entry |
| `ForwardAnalyses.ForwardAnalysis.DoAnalyze` | rir/src/analysis_framework/analysis.h:263-266 | the driver, then in the indexed variant the cache at the entry |
| `ForwardAnalyses.ForwardAnalysis.Drive` | rir/src/analysis_framework/analysis.h:111-172 | the worklist driver leaves an empty queue and well-shaped tables, and a post-fixpoint when it converges |
| `ForwardAnalyses.ForwardAnalysis.WalkBranch` | rir/src/analysis_framework/analysis.h:119-170 | one branch from a queued label ends with the walk invariant restored |
| `ForwardAnalyses.ForwardAnalysis.MeetLabel` | rir/src/analysis_framework/analysis.h:121-142 | the new table and current state are `MergePointRule` of the old ones at the label: stored on a first visit, adopted, or merged; the branch goes on exactly when a state remains, with the walk invariant, and otherwise ends with the invariant between branches |
| `ForwardAnalyses.ForwardAnalysis.Step` | rir/src/analysis_framework/analysis.h:145-169 | dispatch, then at a jump the table and worklist become `Enqueue` of the target with the transferred state, at an exit the final state becomes `FoldFinal` of it, and nothing else changes them; the branch goes on, at the next position with the transferred state, exactly when the instruction is neither an unconditional jump nor an exit |
| `ForwardAnalyses.ForwardAnalysis.StepJump` | rir/src/analysis_framework/analysis.h:145-156 | table and worklist become `Enqueue` of the target with the transferred state; the branch goes on at the next position exactly at a conditional jump, the cursor staying put otherwise |
| `ForwardAnalyses.ForwardAnalysis.JumpRule` | rir/src/analysis_framework/analysis.h:145-151 | the transferred state, and the target queued exactly when `shouldJump` says so |
| `ForwardAnalyses.ForwardAnalysis.StepAtUncondJump` | rir/src/analysis_framework/analysis.h:147-156 | table and worklist become `Enqueue` of the target with the transferred state, the current state is dropped and the invariant between branches holds |
| `ForwardAnalyses.ForwardAnalysis.StepAtCondJump` | rir/src/analysis_framework/analysis.h:147-169 | table and worklist become `Enqueue` of the target, and the walk goes on at the next position with the transferred state, the flow into the target counted as covered |
| `ForwardAnalyses.ForwardAnalysis.StepAtExit` | rir/src/analysis_framework/analysis.h:157-166 | the final state becomes `FoldFinal` of the transferred state, the current state is dropped and the invariant between branches holds |
| `ForwardAnalyses.ForwardAnalysis.ShouldJump` | rir/src/analysis_framework/analysis.h:188-195 | `shouldJump` is `StoreOrMerge` on the table |
| `ForwardAnalyses.ForwardAnalysis.InitializeCache` | rir/src/analysis_framework/analysis.h:270-274 | the cursor at the entry holding `Replay` there (the corrected seed) |
| `ForwardAnalyses.ForwardAnalysis.Advance` | rir/src/analysis_framework/analysis.h:278-291 | dispatch and step: the cache holds `Replay` at the next position, a stored fixpoint at a stored label |
| `ForwardAnalyses.ForwardAnalysis.Seek` | rir/src/analysis_framework/analysis.h:297-314 | `seek` ends at the target holding `Replay` there, restarting from the entry when needed |
| `ForwardAnalyses.ForwardAnalysis.Lookup` | rir/src/analysis_framework/analysis.h:244-257 | `operator[]` returns `Replay` at the instruction, and does no replay at the cached position |
| `ForwardAnalyses.ForwardAnalysis.FinalState` | rir/src/analysis_framework/analysis.h:216-218 | `finalState()` is the summary state |
| `BackwardWalks.OriginsBelowAreTheJumps` | rir/src/analysis_framework/analysis.h:375-378 | the origins collected for a label are exactly the jumps to it, each once, in code order |
| `BackwardWalks.MergePointsAreOrigins` | rir/src/analysis_framework/analysis.h:458-460 | a position is a jump exactly when it is an origin of some label, so the backward merge points are the positions the label rule follows |
| `BackwardWalks.CollectStep` | rir/src/analysis_framework/analysis.h:375-378 | one step of the pre-pass appends a jump to its target's origins |
| `BackwardWalks.ExitsBelowAreTheExits` | rir/src/analysis_framework/analysis.h:379-381 | the pre-pass queues exactly the exits, each once, in strictly decreasing order so the last one is at the front |
| `BackwardWalks.SettledIsMonotone` | rir/src/analysis_framework/analysis.h:396-417 | a settled jump stays settled while the tables grow and its own entry is kept |
| `BackwardWalks.ExitSettledIsMonotone` | rir/src/analysis_framework/analysis.h:392-395 | a settled exit stays settled while the tables grow |
| `BackwardWalks.PendingKept` | rir/src/analysis_framework/analysis.h:387-453 | every stored jump and exit stays queued, settled or walked across a step that grows the tables |
| `BackwardWalks.StartIdle` | rir/src/analysis_framework/analysis.h:375-385 | after the pre-pass nothing is stored and every exit is queued |
| `BackwardWalks.TakeFromQueue` | rir/src/analysis_framework/analysis.h:388-389 | taking the front of the queue resumes at an exit or a stored jump |
| `BackwardWalks.BeginAtExit` | rir/src/analysis_framework/analysis.h:392-395 | an exit starts from the initial state |
| `BackwardWalks.AdoptStored` | rir/src/analysis_framework/analysis.h:404-405 | a jump resumed without a current state continues from its stored state |
| `BackwardWalks.Cover` | rir/src/analysis_framework/analysis.h:387-453 | a branch goes on past a flow the grown tables cover |
| `BackwardWalks.Finish` | rir/src/analysis_framework/analysis.h:430-446 | a branch whose flows are all covered ends with the invariant restored |
| `BackwardWalks.StoreKeepsTables` | rir/src/analysis_framework/analysis.h:398-401 | storing a state of the jump's depth keeps the tables well shaped |
| `BackwardWalks.EnterJump` | rir/src/analysis_framework/analysis.h:396-409 | arriving at a jump whose stored state is new or changed starts that jump's walk |
| `BackwardWalks.StoreAtJump` | rir/src/analysis_framework/analysis.h:398-401 | at a jump with no stored state the incoming state is stored and the walk goes on |
| `BackwardWalks.MergeAtJump` | rir/src/analysis_framework/analysis.h:407-415 | at a jump with a stored state the merged state is stored; a change continues, no change abandons the branch |
| `BackwardWalks.Abandon` | rir/src/analysis_framework/analysis.h:411-415 | a merge that reports no change abandons the branch |
| `BackwardWalks.FollowOrigin` | rir/src/analysis_framework/analysis.h:436-439 | following one jump origin covers the flow into it, and queues it when its stored state is new or changed |
| `BackwardWalks.EnqueueAllGrows` | rir/src/analysis_framework/analysis.h:436-439 | the label rule adds exactly the origins to the key set of the table, and the table only grows |
| `BackwardWalks.EnqueueAllCovers` | rir/src/analysis_framework/analysis.h:436-439 | after the label rule every origin holds a state above the label's state |
| `BackwardWalks.EnqueueAllStep` | rir/src/analysis_framework/analysis.h:436-439 | the label rule is the first origin's `Enqueue` followed by the rule on the remaining origins |
| `BackwardWalks.FollowAllOrigins` | rir/src/analysis_framework/analysis.h:436-439 | following all origins covers the flow into each, keeping the walk invariant |
| `BackwardWalks.OriginsAgreeInDepth` | rir/src/analysis_framework/analysis.h:436 | the states stored at a label's origins have the depth of the state flowing into them |
| `BackwardWalks.OriginsFollowed` | rir/src/analysis_framework/analysis.h:436 | the label's origins are jumps whose depth is that of the label's state |
| `BackwardWalks.ReachEntry` | rir/src/analysis_framework/analysis.h:422-432 | at the entry point the state is folded into the final state and the branch ends |
| `BackwardWalks.Balanced` | rir/src/analysis_framework/State.h:91-93 | the transferred state has the depth its predecessors expect |
| `BackwardWalks.Dispatched` | rir/src/analysis_framework/analysis.h:420-448 | after dispatch the flows still to come are those into a label's origins, then the walk onward |
| `BackwardWalks.OriginFacts` | rir/src/analysis_framework/analysis.h:436 | each origin of a label is a jump whose stored state has the label's depth |
| `BackwardWalks.StepBack` | rir/src/analysis_framework/analysis.h:442-451 | going on to the previous instruction never lands on an exit, and keeps the invariant |
| `BackwardWalks.IdleAtEmptyQueue` | rir/src/analysis_framework/analysis.h:387 | an empty queue between branches means the tables are a post-fixpoint |
| `BackwardWalks.FlowBackCovered` | rir/src/analysis_framework/analysis.h:569-584 | the flows of a walk include those of the walk it goes back to |
| `BackwardWalks.ReplayIsCovered` | rir/src/analysis_framework/analysis.h:560-584 | at a post-fixpoint, the walk from every reached position with the state the cache dispatches there is covered |
| `BackwardWalks.LastSeedAsWrittenMissesTheLoop` | rir/src/analysis_framework/analysis.h:560-565 | on a loop closed by the last instruction, the state the cache starts from as written is not above the fixpoint stored there, while the corrected one is that fixpoint |
| `BackwardWalks.LoopAtEndOrigins` | rir/src/analysis_framework/analysis.h:375-378 | the one jump to the head of the sample loop is its last instruction |
| `BackwardWalks.LoopAtEntryOrigins` | rir/src/analysis_framework/analysis.h:375-378 | the one jump to the head of the entry loop is its conditional jump |
| `BackwardWalks.LoopAtEndExitWalk` | rir/src/analysis_framework/analysis.h:392-420 | the walk from the sample loop's exit ends at its conditional jump |
| `BackwardWalks.LoopAtEndJumpWalk` | rir/src/analysis_framework/analysis.h:420-451 | the walk from that jump goes round the loop to the closing jump and to the entry |
| `BackwardWalks.LoopAtEntryExitWalk` | rir/src/analysis_framework/analysis.h:392-420 | the walk from the entry loop's exit ends at its jump |
| `BackwardWalks.LoopAtEntryJumpWalk` | rir/src/analysis_framework/analysis.h:420-451 | the walk from that jump flows back into it through the label at the entry |
| `BackwardWalks.EntryLabelOriginsDropped` | rir/src/analysis_framework/analysis.h:422-448 | with the entry rule before the label rule, a table that misses the loop's binding is a fixpoint, which is not one with the label rule first |
| `BackwardWalks.SettlesAsWritten` | rir/src/analysis_framework/analysis.h:422-448 | that table covers every walk in the written rule order |
| `BackwardWalks.NotSettledWithLabelFirst` | rir/src/analysis_framework/analysis.h:434-440 | with the label rule first, the walk from the jump flows a state the table does not cover |
| `BackwardWalks.EntryLabelOriginsFollowed` | rir/src/analysis_framework/analysis.h:434-440 | with the label rule first, every post-fixpoint of the entry loop carries the binding back to the jump |
| `BackwardAnalyses.BackwardAnalysis.constructor` | rir/src/analysis_framework/analysis.h:352-368 | a new driver holds no code, no states and empty tables |
| `BackwardAnalyses.BackwardAnalysis.IsMergePoint` | rir/src/analysis_framework/analysis.h:458-460 | `isMergePoint` holds exactly at the positions that are jump origins of some label |
| `BackwardAnalyses.BackwardAnalysis.Invalidate` | rir/src/analysis_framework/analysis.h:331-343 | `invalidate` drops the code, all states, the merge points and the jump origins |
| `BackwardAnalyses.BackwardAnalysis.Analyze` | rir/src/analysis_framework/analysis.h:23-28 | earlier results are dropped; the origins are collected; on convergence the tables are a post-fixpoint; the indexed variant's cursor is at the last position |
| `BackwardAnalyses.BackwardAnalysis.DoAnalyze` | rir/src/analysis_framework/analysis.h:553-556 | the pre-pass, the driver, then in the indexed variant the cache |
| `BackwardAnalyses.BackwardAnalysis.CollectOrigins` | rir/src/analysis_framework/analysis.h:375-382 | the pre-pass leaves every label's jump origins and every exit queued |
| `BackwardAnalyses.BackwardAnalysis.Drive` | rir/src/analysis_framework/analysis.h:384-453 | the worklist driver leaves an empty queue and well-shaped tables, and a post-fixpoint when it converges |
| `BackwardAnalyses.BackwardAnalysis.WalkBranch` | rir/src/analysis_framework/analysis.h:391-452 | one branch from a queued exit or jump ends with the walk invariant restored |
| `BackwardAnalyses.BackwardAnalysis.Visit` | rir/src/analysis_framework/analysis.h:391-451 | one round of the branch loop keeps the walk invariant: the cursor steps back by one exactly when the branch goes on, and otherwise stays put with the invariant between branches |
| `BackwardAnalyses.BackwardAnalysis.Arrive` | rir/src/analysis_framework/analysis.h:392-417 | at an exit the current state becomes the initial state; at a merge point table and current state become `MergePointRule` of the old ones; elsewhere nothing changes; the branch goes on exactly when a state remains, with the walk invariant, otherwise the invariant between branches holds |
| `BackwardAnalyses.BackwardAnalysis.ArriveAtExit` | rir/src/analysis_framework/analysis.h:392-395 | an exit starts from the initial state |
| `BackwardAnalyses.BackwardAnalysis.ArriveAtJump` | rir/src/analysis_framework/analysis.h:396-417 | table and current state become `MergePointRule` of the old ones at the jump, with the walk invariant when the branch goes on |
| `BackwardAnalyses.BackwardAnalysis.MergeIn` | rir/src/analysis_framework/analysis.h:407-415 | table and current state become `MergePointRule` of the old ones: merged in; the branch goes on from the merged state exactly when it changed, otherwise it is abandoned |
| `BackwardAnalyses.BackwardAnalysis.Leave` | rir/src/analysis_framework/analysis.h:420-451 | in the corrected rule order of "## Findings" (label rule before entry rule): dispatch; at a label table and worklist become `EnqueueAll` of its jump origins with the transferred state, elsewhere they are unchanged; at the entry the final state becomes `FoldFinal` of the transferred state, elsewhere it is unchanged; the walk steps back with the transferred state exactly when `FlowsBack`, the cursor staying put otherwise |
| `BackwardAnalyses.BackwardAnalysis.LeaveLabel` | rir/src/analysis_framework/analysis.h:434-451 | `Leave` at a label: table and worklist become `EnqueueAll` of the origins, then the entry rule or the step back |
| `BackwardAnalyses.BackwardAnalysis.LeavePlain` | rir/src/analysis_framework/analysis.h:420-451 | `Leave` elsewhere: table and worklist unchanged, then the entry rule or the step back |
| `BackwardAnalyses.BackwardAnalysis.GoOnward` | rir/src/analysis_framework/analysis.h:422-451 | at the entry the final state becomes `FoldFinal` of the current state and the branch ends; otherwise the final state is unchanged and the cursor steps back, keeping the state, exactly when `FlowsBack`, the branch ending otherwise |
| `BackwardAnalyses.BackwardAnalysis.FollowOrigins` | rir/src/analysis_framework/analysis.h:434-440 | table and worklist become `EnqueueAll` of the label's jump origins, in code order, with the current state; the cursor and the current state are unchanged; the flows into the origins are covered |
| `BackwardAnalyses.BackwardAnalysis.FollowEach` | rir/src/analysis_framework/analysis.h:436-439 | the loop over the origins computes `EnqueueAll` |
| `BackwardAnalyses.BackwardAnalysis.FollowJump` | rir/src/analysis_framework/analysis.h:437-439 | table and worklist become `Enqueue` of the origin: queued at the front exactly when `shouldFollowJumpFrom` admits it |
| `BackwardAnalyses.BackwardAnalysis.ShouldFollowJumpFrom` | rir/src/analysis_framework/analysis.h:481-488 | `shouldFollowJumpFrom` is `StoreOrMerge` on the table |
| `BackwardAnalyses.BackwardAnalysis.ReachEntryPoint` | rir/src/analysis_framework/analysis.h:422-432 | the final state is set to, or merged with, the current state (`FoldFinal`), the current state is dropped and the branch ends with the invariant between branches |
| `BackwardAnalyses.BackwardAnalysis.InitializeCache` | rir/src/analysis_framework/analysis.h:560-565 | the cursor at the last position holding `Replay` there (the corrected seed) |
| `BackwardAnalyses.BackwardAnalysis.Advance` | rir/src/analysis_framework/analysis.h:569-584 | step back and dispatch: the initial state at an exit, the stored fixpoint at a stored jump, the carried state otherwise |
| `BackwardAnalyses.BackwardAnalysis.Seek` | rir/src/analysis_framework/analysis.h:590-605 | `seek` ends at the target holding `Replay` there, restarting from the last position when needed |
| `BackwardAnalyses.BackwardAnalysis.Lookup` | rir/src/analysis_framework/analysis.h:535-547 | `operator[]` returns `Replay` at the instruction, and does no replay at the cached position |
| `BackwardAnalyses.BackwardAnalysis.FinalState` | rir/src/analysis_framework/analysis.h:509-511 | `finalState()` is the summary state |
| `Builtins.SafeBuiltinsEnumerated` | rir/src/analysis_framework/analysis.h:609-628 | `isSafeBuiltin(i)` holds exactly for i in [362,376), [379,389] and {62, 88, 91, 107, 397, 555} |

## Left out

- The domain value is one concrete flat lattice (`Bottom`, `Absent`,
  `Constant(n)`, `Top`), not a generic parameter. Only `mergeWith`, `top()`
  and `Absent()` of it are used. Outside `Lattice`, every proof over all
  inputs (the concrete counterexamples of "## Findings" apart) uses only
  the order and join laws proved there (a partial order; the join is its
  least upper bound, reports a change exactly when it differs) and the
  constants `Absent` and `Top`, so the results carry over to any domain
  with those laws.
- Allocation and freeing of states (`new`, `clone`, `delete`) are not
  modelled. States are values and a null pointer is `None`.
- `print`, the `has_mergeWith` compile-time check and the
  `dynamic_cast`/`reinterpret_cast` plumbing are left out, and so are the
  `AbstractState` shorthands that only forward to the stack and the
  environment.
- `CodeEditor` is not part of this model.
  - The code is a sequence of instructions whose first position is the
    entry point.
  - Its `next` is `Code.Next`.
  - The opcode table `ir/insns.h` is reduced to a few opcodes.
- Each analysis' dispatcher is a transfer function on the current state.
  The drivers therefore do not model receiver side effects other than on
  the state, or a dispatch that fails.
- The drivers run for at most `fuel` branches. When that runs out the
  result is reported as not converged. Termination is not proved. The
  finite-height fact such a proof would use is `Lattice.StrictChainIsShort`:
  at most two merges into one value report a change.
- A stack depth for every position (`h`) is a ghost precondition of the
  drivers. It stands for the source's assertion that merged stacks have
  equal depth.
- An unknown opcode is a precondition of dispatch (`Decode(...).Some?`),
  not a false return. The source fails an assertion there.
- The sentinel dispatch the backward `advance` does at `rend()` dereferences
  past the code. The model's `Advance` at position 0 moves to -1 and
  dispatches nothing.
- `mergePoints_[x]` inserts a null entry on a lookup miss. Such entries
  are not modelled; they are never observed.
- `ForwardAnalyses.ForwardAnalysis.Good` and
  `BackwardAnalyses.BackwardAnalysis.Good`: `good()` is a plain predicate
  on the code field and has no contract of its own.
- The comment on the const `operator[]` of the environment (State.h:287-288)
  calls it a shorthand for `find`. The code never consults the parent: it
  returns the local binding, or top on a local miss. The model follows the
  code (`Environments.Get`).
- The comment on the forward `operator[]` (analysis.h:242) says it returns
  the state after the instruction. The code returns the state on entry to
  it: the cache starts at `begin` and dispatches before stepping. The model
  follows the code (`ForwardWalks.Replay`), except that `Replay` starts
  from the corrected seed (`ForwardWalks.Seed`), see "## Findings".
- `BackwardAnalyses.BackwardAnalysis.Leave`, `ForwardAnalyses.ForwardAnalysis.InitializeCache`
  and `BackwardAnalyses.BackwardAnalysis.InitializeCache` run the corrected
  rule order and the corrected cache seeds of "## Findings", not the code
  as written. The behaviour as written exists only as ghost functions
  (`BackwardWalks.WalkAsWritten`, `ForwardWalks.SeedAsWritten`,
  `BackwardWalks.LastSeedAsWritten`) with the lemmas that exhibit the
  difference; no class method runs it.
- `Code.JumpsToLabels`, `Code.NoFallOffEnd` and `Code.ExitsFollowedByLabels`
  are preconditions the drivers place on the code. The source neither
  checks nor establishes them; `ir/CodeEditor.h` is not part of this model.
  - `JumpsToLabels`: every jump targets a label.
  - `NoFallOffEnd`: the last instruction does not fall through.
  - `ExitsFollowedByLabels` (backward driver only): an instruction following
    an exit is a label. It is the condition under which the backward walk
    never steps back onto an exit, so the assertion at analysis.h:394 that
    no state is held there holds.

## Findings

| source | as written | input that shows it | evidently intended | confidence | as-written member | corrected member |
|---|---|---|---|---|---|---|
| rir/src/analysis_framework/analysis.h:270-274 | the forward cache starts at the entry from the initial state even when the entry is a label with a stored fixpoint | `[label, bind x, condjmp 0, exit]`: the fixpoint at the label binds `x`, the state replayed there does not | start from the stored fixpoint, as `advance` does at every other stored label | medium, not executed | `ForwardWalks.SeedAsWrittenMissesTheLoop` | `ForwardWalks.ReplayIsCovered` |
| rir/src/analysis_framework/analysis.h:560-565 | the backward cache dispatches the last instruction on the initial state even when it is a jump with a stored fixpoint | `[bind x, label, bind x, condjmp 5, exit, label, jmp 1]`: the fixpoint at the last jump binds `x`, the state the cache starts from does not | start from the stored fixpoint, as `advance` does at every other stored jump | medium, not executed | `BackwardWalks.LastSeedAsWrittenMissesTheLoop` | `BackwardWalks.ReplayIsCovered` |
| rir/src/analysis_framework/analysis.h:422-448 | the backward driver's entry-point rule ends the branch before the label rule runs, so a label at the entry never flows into its jumps | `[label, bind x, condjmp 0, exit]`: a table whose state at the jump does not bind `x` is a fixpoint of the walk as written, although every path from the jump round the loop back to it binds `x` | follow the jump origins of a label at the entry before ending the branch | medium, not executed | `BackwardWalks.EntryLabelOriginsDropped` | `BackwardWalks.EntryLabelOriginsFollowed` |
