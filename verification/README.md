# A verified model of the bonsai-ninja analysis core

bonsai-ninja indexes source code, lowers every function to language-neutral flow
events and a control-flow graph, and answers questions about them.  This project
models the parts of it whose correctness is not visible from any single
function, and proves what they promise.

**The bounded abstract interpreter** (`AbstractValues`, `Facets`, `ExecStates`,
`ControlFlow`, `Recording`, `Arrivals`, `Interpreter`).  A worklist explores a
control-flow graph under four budgets: steps, visits per block and path,
branches, and path ids.  It carries abstract values that are joined, and states
that are merged in place.  The model gives abstract values a meaning
(`Describes`), gives the graph a concrete semantics (`Arrives`: the stores and
fork choices a real execution can have at the end of a path), and gives the loop
a reference (`Recording`): the depth-first order of paths, what entering them in
that order records, the path ids it mints and the steps it takes.
`Interpreter.RunEntry` states the result, in terms of the paths entered: the run
ends on every graph and for all limits; it is untruncated if and only if no cycle
is reachable and the replay of all paths fits the budgets, and every budget it
reports is really exceeded; the states recorded are exactly those of the
reference, which are the merges of what arrived (`Arrivals`), and an untruncated
run's stand for every execution; a run capped by nothing but the loop budget has
entered exactly the paths that budget admits and visited every reachable block;
forks never share a path id; and the trace is exactly the replay of the paths
entered.

**Tables, graphs and indexes of the browser** (`EventTable`, `ModuleEdges`,
`Connections`, `FlowGraph`, `ModulePaths`, `CallRows`, `Ancestors`). Flattening
a forest of nested events with an explicit stack gives the recursive preorder,
and the table determines the forest, with every region under its own label.
Reports read from persisted partitions and from the resident graph agree. An
index keyed by the last path segment answers as a plain scan does. The call
listing loses no call site. A bounded climb through a parent map that may be
cyclic is exact.

**Self-contained algorithms** (`Licenses`, `Archive`, `Rulepacks`,
`Publication`, `Escaping`). The SPDX parser accepts exactly its grammar, the
rulepack archive has exactly one reading, publication order exists exactly when
dependencies have no cycle, and escaped text reads back.

`Prelude` and `Ordering` hold the shared vocabulary: options and results,
duplicate-free sequences, the pigeonhole argument, and stable sorting.

## Model

| member | source | states |
|---|---|---|
| `AbstractValues.ComputeJoin` | crates/abstract_interp/src/value.rs:242-309 | The join with its recursion under `Nullable` and its push loop for sets computes the specification `Join`, about which the next rows speak |
| `AbstractValues.JoinIsUpperBound` | crates/abstract_interp/src/value.rs:242-309 | For all values, nested `Nullable` and collapsing sets included, the join describes every run-time value that either operand describes |
| `AbstractValues.JoinKeepsNormalForm` | crates/abstract_interp/src/value.rs:242-309 | Joining keeps the normal form: flat duplicate-free sets of two to eight atoms, no `Nullable` of null or of `Nullable` |
| `AbstractValues.JoinAbsorbs` | crates/abstract_interp/src/value.rs:242-309 | `(a ⊔ b) ⊔ a` and `(a ⊔ b) ⊔ b` equal `a ⊔ b`, for all values and without a normal form |
| `AbstractValues.JoinIsTight` | crates/abstract_interp/src/value.rs:242-301 | The join invents nothing: unless the proof is lost, a described value is described by an operand or lies in the interval hull of their integers or string lengths |
| `AbstractValues.JoinLosesExactlyWhen` | crates/abstract_interp/src/value.rs:237-301 | The proof is lost if and only if an operand had none or a set is involved and more than eight distinct members meet |
| `AbstractValues.ComputeIntRange` | crates/abstract_interp/src/value.rs:164-179 | The accumulator loop with its early exit computes the integer facet |
| `AbstractValues.IntRangeIsSound` | crates/abstract_interp/src/value.rs:164-179 | Every value described is an integer inside the range answered |
| `AbstractValues.IntRangeOfJoin` | crates/abstract_interp/src/value.rs:164-179 | The integer facet commutes with the join: the range of a join is the hull of the two ranges, no wider |
| `AbstractValues.ComputeBoolDomain` | crates/abstract_interp/src/value.rs:181-196 | The accumulator loop computes the boolean facet |
| `AbstractValues.BoolDomainIsSound` | crates/abstract_interp/src/value.rs:181-196 | Every value described is a boolean the answered domain admits |
| `AbstractValues.NullnessIsSound` | crates/abstract_interp/src/value.rs:198-218 | A definite nullness answer holds of every value described |
| `AbstractValues.ComputeStringLength` | crates/abstract_interp/src/value.rs:220-235 | The accumulator loop computes the string-length facet |
| `AbstractValues.StringLengthIsSound` | crates/abstract_interp/src/value.rs:220-235 | Every non-null value described is a string whose length lies in the range answered |
| `Facets.IntRangeAnswersExactlyWhen` | crates/abstract_interp/src/value.rs:164-179 | On flat values with describable members, the integer facet answers if and only if every value described is an integer |
| `Facets.BoolDomainAnswersExactlyWhen` | crates/abstract_interp/src/value.rs:181-196 | The boolean facet answers if and only if every value described is a boolean |
| `Facets.StringLengthAnswersExactlyWhen` | crates/abstract_interp/src/value.rs:220-235 | The length facet answers if and only if every non-null value described is a string |
| `Facets.NullnessIsExact` | crates/abstract_interp/src/value.rs:198-218 | In normal form, nullness is definite if and only if everything described is null, and non-null if and only if nothing is |
| `Facets.BoolDomainOfJoin` | crates/abstract_interp/src/value.rs:181-196 | The boolean facet commutes with the join |
| `Facets.StringLengthOfJoin` | crates/abstract_interp/src/value.rs:220-235 | The length facet commutes with the join, under `Nullable` too |
| `Facets.NullnessOfJoin` | crates/abstract_interp/src/value.rs:198-218 | Nullness commutes with the join unless the proof collapses |
| `Facets.IntJoinIsHull` | crates/abstract_interp/src/value.rs:242-301 | Two integer atoms join to every integer of the hull of their ranges, and to nothing else |
| `Facets.BoolJoinIsHull` | crates/abstract_interp/src/value.rs:242-301 | Two boolean atoms join to exactly the booleans either admits |
| `Facets.LengthJoinIsHull` | crates/abstract_interp/src/value.rs:242-301 | Two string atoms, one known by its length alone, join to exactly the strings of a length in the hull |
| `Facets.JoinAllLosesExactlyWhen` | crates/abstract_interp/src/value.rs:237-301 | A join of many values loses the proof if and only if, at some position, the value has none or meets the join so far in more than eight members |
| `Facets.JoinAllIsTight` | crates/abstract_interp/src/value.rs:242-301 | While the proof is kept, a join of many values describes only what one of them describes or what lies between two of them |
| `ExecStates.ExecState.MergeFrom` | crates/abstract_interp/src/state.rs:39-74 | The in-place merge leaves the state `Merged(old, other)`, about which the next rows speak, and returns true exactly when locals, constraints or relations changed |
| `ExecStates.ExecState.DropMissing` | crates/abstract_interp/src/state.rs:43-48 | First pass: names the other side does not bind become unknown; the flag is exact |
| `ExecStates.ExecState.JoinBound` | crates/abstract_interp/src/state.rs:49-63 | Second pass: common names are joined, new names carry no proof; the flag is exact |
| `ExecStates.RetainLoop` | crates/abstract_interp/src/state.rs:64-72 | Retaining keeps, in order, exactly the facts the other state also holds |
| `ExecStates.ExecState.AssumeRelation` | crates/abstract_interp/src/state.rs:76-80 | A relation is added at most once and nothing else moves |
| `ExecStates.MergeStabilizes` | crates/abstract_interp/src/state.rs:39-74 | Merging either input a second time changes nothing |
| `ExecStates.MergeAdmits` | crates/abstract_interp/src/state.rs:39-74 | A merged state stands for every store and fork history that either input stands for |
| `ExecStates.MergeIsTight` | crates/abstract_interp/src/state.rs:43-63 | A name bound on both sides loses its proof if and only if a side had none or more than eight members meet, and otherwise describes only what a side describes or what lies between; a name bound on one side has no proof; no other name is bound |
| `ExecStates.MergeKeepsShared` | crates/abstract_interp/src/state.rs:64-72 | A constraint or relation is in the merge if and only if both sides hold it; the place stays |
| `ControlFlow.FactLookupIsExact` | crates/lang_api/src/types.rs:3326-3336 | On a sorted fact table the lookup succeeds if and only if some fact has that span, and returns such a fact |
| `ControlFlow.MayStoreMeans` | crates/abstract_interp/src/lib.rs:349-376 | What an assignment may store, told from the facts: the literal of a fact with this span and this target; without one, a copy of the bound source unless a call intervenes; otherwise anything |
| `ControlFlow.TerminatorsMean` | crates/abstract_interp/src/lib.rs:269-341 | A path goes on through every terminator but `Unreachable`, and parts exactly at `Branch` and `TryFork` |
| `ControlFlow.TransferFollows` | crates/abstract_interp/src/lib.rs:349-376 | If a state stands for a configuration and none of its relations names an assigned local, the state after a block's events stands for every store those events can produce from it |
| `ControlFlow.RelationGoesStale` | crates/abstract_interp/src/lib.rs:349-376 | Assignments never invalidate relations: `x < 5` is still held after 10 is stored in `x`, and the state no longer admits the store |
| `ControlFlow.OpaqueTransferIsSoundExactlyWhen` | crates/abstract_interp/src/lib.rs:349-376 | For an assignment of an unknown value, the transfer is sound if and only if every relation about the target says that it equals itself |
| `ControlFlow.TransferIsExact` | crates/abstract_interp/src/lib.rs:349-376 | Conversely, every value the new state describes for an assigned name is stored by some execution the old state stands for |
| `ControlFlow.CoversChild` | crates/abstract_interp/src/lib.rs:269-341 | The state queued for a successor, fork constraint included, stands for every execution that arrives along the extended path |
| `ControlFlow.CyclePumps` | crates/abstract_interp/src/lib.rs:220-226 | A reachable cycle makes paths of any length |
| `ControlFlow.FinitePathsMeanNoCycle` | crates/abstract_interp/src/lib.rs:220-226 | A graph all of whose paths lie in one finite set has no reachable cycle |
| `Recording.EnterOrdered` | crates/abstract_interp/src/lib.rs:220-343 | Entering the path on top of the stack and pushing its successors keeps the order: depth first, last successor first |
| `Recording.LogIsDetermined` | crates/abstract_interp/src/lib.rs:220-343 | The order leaves no freedom: the set of paths entered determines the sequence |
| `Recording.RecordedWhere` | crates/abstract_interp/src/lib.rs:231-248 | A block holds a recorded state if and only if the graph has it and a path entered ends there |
| `Recording.ArrivingMeans` | crates/abstract_interp/src/lib.rs:118-145 | Nothing is known at the entry; along an edge the state left behind moves to the successor, and takes the choice made exactly at a branch or a try fork |
| `Recording.EnteringMeans` | crates/abstract_interp/src/lib.rs:231-267 | Entering a path leaves the merge at its block, and runs the block from the merge if that differs from what the block held, otherwise from the state that arrived |
| `Recording.EnterCounted` | crates/abstract_interp/src/lib.rs:221-226 | Entering a path counts it for its block and path id, and leaves every earlier admission and refusal standing |
| `Recording.RunIsDetermined` | crates/abstract_interp/src/lib.rs:214-344 | The graph and the loop budget alone determine which paths are entered and in which order |
| `Recording.RunIsPrefix` | crates/abstract_interp/src/lib.rs:214-344 | However a run ended, the paths it entered are a prefix of the one complete run under the same loop budget |
| `Recording.PrefixTakesLess` | crates/abstract_interp/src/lib.rs:180-343 | A prefix needs no more steps, forks or path ids than the whole |
| `Recording.IdsMean` | crates/abstract_interp/src/lib.rs:118-145 | Entering a path hands its id to every successor, except that at a branch or a try fork each successor but the first gets the next id above all those in use |
| `Recording.AcyclicIsListed` | crates/abstract_interp/src/lib.rs:214-344 | A graph without a reachable cycle has one listing of all its paths in visiting order |
| `Arrivals.RecordedIsMerge` | crates/abstract_interp/src/lib.rs:231-248 | The state recorded at a block is the merge, in order, of the states that arrived there, and there is none where none arrived |
| `Arrivals.LocalsOfMerge` | crates/abstract_interp/src/state.rs:39-63 | In that merge a name has the join of its values if every state that arrived binds it, and otherwise no proof |
| `Arrivals.RecordedIsTight` | crates/abstract_interp/src/lib.rs:231-248 | What a run records about a name describes only values that arrived or lie between two that did, and its proof is lost if and only if some state did not bind it or the join of its values loses it |
| `Recording.RunsAreNormal` | crates/abstract_interp/src/lib.rs:231-343 | Every state recorded at a block, left behind on a path or queued has all its values in normal form |
| `Interpreter.RawTrace.MarkTruncated` | crates/abstract_interp/src/lib.rs:91-96 | The reasons become the old ones plus this one, still duplicate-free, and the trace counts as truncated |
| `Interpreter.RawTrace.MarkIncomplete` | crates/abstract_interp/src/lib.rs:98-106 | The same for incompleteness; an empty reason is ignored |
| `Interpreter.RawTrace.Emit` | crates/abstract_interp/src/lib.rs:180-200 | A step is appended with its position as id if and only if the step budget allows, otherwise the budget is reported |
| `Interpreter.PushSuccessors` | crates/abstract_interp/src/lib.rs:270-276 | Every successor is queued in order on the same path id |
| `Interpreter.PushBranchSuccessors` | crates/abstract_interp/src/lib.rs:118-145 | The first successor inherits the id, the others get consecutive fresh ids and their own constraint; it fails exactly when the ids would pass the 32-bit limit |
| `Interpreter.EnterBlock` | crates/abstract_interp/src/lib.rs:231-248 | The recorded state becomes the merge, and the walker continues from it exactly when the merge changed something |
| `Interpreter.RunEvents` | crates/abstract_interp/src/lib.rs:250-267 | One step per event in order, each owned by the function, and the composed transfer of the events; on a full trace, a prefix of those rows; it stops if and only if the step budget does not hold all of them |
| `Interpreter.KindsAreNamed` | crates/abstract_interp/src/lib.rs:384-424 | Which kind of step each kind of event lists, both ways |
| `Interpreter.RowsMean` | crates/abstract_interp/src/lib.rs:250-317 | Entering one more path adds to the replay one row per event of the block, with its kind and span on the path's id, and one row for the block exactly if it ends in a branch |
| `Interpreter.VisitBlock` | crates/abstract_interp/src/lib.rs:231-268 | Entering and running a block lists its events, preceded by one merge step at the block exactly when the arriving state weakened the recorded one; stopped only by a step budget that is used up |
| `Interpreter.LeaveBlock` | crates/abstract_interp/src/lib.rs:269-341 | Leaving a block queues its successors, on one id or on fresh ones at a branch or try fork, lists the branch, and counts the fork; it gives up only for the step, branch or path-id budget that is really used up |
| `Interpreter.ExpandBlock` | crates/abstract_interp/src/lib.rs:231-343 | One loop body: state, trace rows, branch budget, path ids and queued successors of a visit for each terminator; a visit gives up only when its steps pass the step budget, its fork is one too many, or its successors pass the last path id |
| `Interpreter.Expand` | crates/abstract_interp/src/lib.rs:220-344 | A visit keeps the whole search invariant: queued states cover their paths, entered paths are covered by the recorded states, no path is lost, ids stay apart, swept blocks stay swept |
| `Interpreter.FollowExpand` | crates/abstract_interp/src/lib.rs:220-344 | A visit keeps to the reference: order, recorded states, path ids, queued states and visit counts are those of the log |
| `Interpreter.LabelsExtend` | crates/abstract_interp/src/lib.rs:118-145 | Labelling a visited path's children keeps every path id within bounds and every pair of forked paths apart |
| `Interpreter.NothingLostStep` | crates/abstract_interp/src/lib.rs:269-341 | Replacing a path by its children loses no path of the graph: each is entered or extends a queued one |
| `Interpreter.SweptReachesAll` | crates/abstract_interp/src/lib.rs:220-248 | When the queue is empty, every block on every path has been swept, even if visits were dropped |
| `Interpreter.VisitUsesBudget` | crates/abstract_interp/src/lib.rs:221-226 | A counted visit strictly lowers the visits left over the path ids minted so far |
| `Interpreter.ExpandStep` | crates/abstract_interp/src/lib.rs:231-344 | A visit either keeps both loop invariants, the replay of the trace and the exact count of steps and forks, or stops with a budget the paths entered really exceed, the recorded states of the reference and a trace that is still a prefix of a replay |
| `Interpreter.DropStep` | crates/abstract_interp/src/lib.rs:221-225 | A capped visit is reported as truncation and leaves both loop invariants and the visits left as they were; the path refused is known and never entered |
| `Interpreter.AbandonIsEarned` | crates/abstract_interp/src/lib.rs:180-343 | Every reason reported by a visit that stops is earned: the paths entered need more steps, forks or ids than the budget named allows |
| `Interpreter.MissingStep` | crates/abstract_interp/src/lib.rs:226-230 | A missing block is reported by number and both loop invariants are kept |
| `Interpreter.ReportIncomplete` | crates/abstract_interp/src/lib.rs:166-172 | The reasons are exactly the non-empty ones of the graph, or the general one if the graph is incomplete and gives none |
| `Interpreter.MissingEntryIsAlone` | crates/abstract_interp/src/lib.rs:173-176 | Without an entry block nothing but the empty path exists, so no cycle is reachable |
| `Interpreter.Explore` | crates/abstract_interp/src/lib.rs:214-347 | The worklist loop ends by the measure (path ids left, visits left, queue length); the map of states it returns is the one the reference records for the paths entered, every reason it reports is earned, and soundness, coverage and truncation hold as below |
| `Interpreter.RunEntry` | crates/abstract_interp/src/lib.rs:160-347 | Every run: at most `max_steps` steps of this function with their positions as ids, the first one entering it; at most `max_branches` splits; paths entered depth first; forked paths never sharing an id; each entered path covered by the recorded states or reported missing; the incompleteness reasons are exactly those of the graph and the missing blocks met; every truncation reason is earned; the run is untruncated if and only if the paths of the graph are finitely many and fit all four budgets, and then every path was entered and the recorded states describe every execution; a reachable cycle means truncated; if only loop visits were capped, the paths entered are exactly those the loop budget admits, every reachable block is the end of one or reported missing, and the trace is their full replay, step for step |
| `Interpreter.TruncationIsExact` | crates/abstract_interp/src/lib.rs:160-347 | Earned reasons exclude a listing of all paths within the budgets, so a run reports none exactly when there is such a listing |
| `Interpreter.UncutExactlyWhen` | crates/abstract_interp/src/lib.rs:160-347 | There is such a listing if and only if no cycle is reachable and the replay of all paths fits every budget |
| `Interpreter.RunsAgree` | crates/abstract_interp/src/lib.rs:160-347 | Two runs that only the loop budget cut short entered the same paths, recorded the same states and list the same rows, whatever their other limits |
| `EventTable.FlattenFlowEvents` | crates/browse/src/native_export.rs:555-760 | For every forest and every starting table, the explicit-stack loop appends exactly the recursive preorder, about which the next rows speak, and returns the roots' row ids |
| `EventTable.PushFlowRegion` | crates/browse/src/native_export.rs:535-553 | A region is pushed in reverse with its ordinals |
| `EventTable.PushRegions` | crates/browse/src/native_export.rs:579-749 | The nested regions of each kind of event are pushed under their labels so that they pop in source order |
| `EventTable.RegionsOnStack` | crates/browse/src/native_export.rs:573-758 | One row plus what its pushed regions owe is the preorder of the event |
| `EventTable.EventParents` | crates/browse/src/native_export.rs:750-757 | Every nested row's parent is an earlier row of the same subtree, so subtrees are contiguous |
| `EventTable.TopRows` | crates/browse/src/native_export.rs:750-757 | Siblings carry their parent, their region, and their positions as ordinals, at the ids returned |
| `EventTable.FlattenRoundTrips` | crates/browse/src/native_export.rs:535-760 | Whatever table came before and whatever forests come after, rebuilding from root ids, parents and regions gives back the original forest |
| `EventTable.RootsStand` | crates/browse/src/native_export.rs:555-760 | In the table extended by a flattening, and whatever rows follow, each root stands at the id returned for it, with everything below it |
| `EventTable.RegionsAreNamed` | crates/browse/src/native_export.rs:596-749 | Where an event stands, its row carries its fields, and the rows with this parent and region `then` are exactly those of its then-events, in order, and stand in turn; likewise `else`, the condition, body and update of a loop, the body, catch and finally of a try, and the body of defer and using |
| `EventTable.FieldsAreShown` | crates/browse/src/native_export.rs:579-749 | The row of an event without regions carries every field of the event under its own name |
| `EventTable.LaterRowsPointForward` | crates/browse/src/native_export.rs:573-758 | A later flattening never names an earlier table's row as parent, which is what the round trip asks of later rows |
| `EventTable.CollectCallSites` | crates/browse/src/native_export.rs:3089-3136 | The stack of slices collects exactly the spans of the calls anywhere in the forest |
| `EventTable.ForestCallsListed` | crates/browse/src/native_export.rs:555-760 | The call rows of a flattened forest are exactly the forest's call spans |
| `EventTable.TableCallsAreCollected` | crates/browse/src/native_export.rs:3089-3136 | The call spans of the extended table are those of the old table and those `collect_call_sites_for_export` finds |
| `Connections.GatherBroad` | crates/browse/src/module_map.rs:409-417 | One pass over all partitions' outgoing lists yields exactly the graph's edges |
| `Connections.GatherScoped` | crates/browse/src/module_map.rs:430-442 | The outgoing and incoming lists of the requested files hold every edge that touches them; missing and used partitions are reported exactly |
| `Connections.SortEdges` | crates/browse/src/module_map.rs:456-459 | Sorting and dropping neighbours keeps the same edges, in order, with no two equal neighbours |
| `ModuleEdges.CloseGroup` | crates/browse/src/module_map.rs:655-673 | The stable sort by line, column and callee, then the removal of neighbours with one id |
| `ModuleEdges.ClosesOnce` | crates/browse/src/module_map.rs:655-673 | Equal rows in equal order close to the same group |
| `ModuleEdges.ClosingKeepsIds` | crates/browse/src/module_map.rs:655-673 | No edge id is lost and no row is invented |
| `ModuleEdges.ClosedIsListed` | crates/browse/src/module_map.rs:655-673 | A closed group is in order of line, column and callee, and no two neighbours share an id |
| `ModuleEdges.SurvivesExactlyWhen` | crates/browse/src/module_map.rs:655-673 | A row survives the closing stage if and only if, for one of its occurrences, the row that sorts directly before it has another id |
| `ModuleEdges.OrderIsIrrelevantExactlyWhen` | crates/browse/src/module_map.rs:655-673 | Unless ids collide across call sites, the rows shown are independent of the gathering order if and only if no two rows share an id |
| `Connections.Gather` | crates/browse/src/module_map.rs:407-489 | Whichever source is used, only edges of the graph are gathered, and every edge that touches a requested file with a partition; a gathering called complete holds every edge that touches the request; it is complete if and only if the index is, or something was requested and no requested partition is missing |
| `Connections.GroupEdges` | crates/browse/src/module_map.rs:490-555 | Both sides of a pair of files are grouped from the same rows, and completeness survives if and only if no edge was skipped for an unknown endpoint or position |
| `Connections.CloseAll` | crates/browse/src/module_map.rs:655-686 | Every group of every requested file is closed |
| `Connections.RenderedHolds` | crates/browse/src/module_map.rs:490-555 | A row is in the group from one file to another if and only if some edge between them is located there |
| `Connections.SourcesAgree` | crates/browse/src/module_map.rs:408-673 | Any two sources that serve a request show, in every closed group that touches a requested file, the same edge ids, and the same rows where no two rows share an id |
| `Connections.Report` | crates/browse/src/module_map.rs:400-686 | For two requested files A and B, A's closed outgoing group for B equals B's closed incoming group for A; every row is a call of the graph; every located cross-file call of a requested file with a partition is shown by its id on that file's side, complete or not; the report is complete if and only if the gathering is and no gathered edge was skipped, and then it shows the id of every cross-file call of a requested file |
| `Connections.EdgeIsShownExactlyWhen` | crates/browse/src/module_map.rs:490-673 | The row of a reported edge is itself shown if and only if an occurrence of it opens a run of its id, as it does where no other row of the group has that id |
| `Connections.CompleteReportMissesATarget` | crates/browse/src/edges.rs:54-65 | A virtual call with two targets of one name in one file: both edges get one id, the report stays complete, and one target is not shown |
| `FlowGraph.ExportFlowNode` | crates/browse/src/native_export.rs:295-325 | The row lists caller and callee ids sorted and once each, their display names sorted and once each, and is an entry point if and only if there are no callers |
| `FlowGraph.RowMeans` | crates/browse/src/native_export.rs:295-325 | A row told from the edges: its callers and callees are exactly those of the calls, strictly ascending, under their display names, and it is an entry point if and only if no call names it |
| `FlowGraph.SortFunctions` | crates/browse/src/native_export.rs:1585-1594 | The functions of a file in strict order of display name and id |
| `FlowGraph.IndexCallers` | crates/browse/src/native_export.rs:1595-1598 | Indexing incoming edges by callee gives each function's callers |
| `FlowGraph.IndexCallees` | crates/browse/src/native_export.rs:1599-1602 | Indexing outgoing edges by caller gives each function's callees |
| `FlowGraph.FileRowsFromPartition` | crates/browse/src/native_export.rs:1580-1614 | One file's rows read from its own partition are its rows of the whole graph |
| `FlowGraph.FileRowsFromGraph` | crates/browse/src/native_export.rs:1622-1645 | The same rows looked up in the resident graph |
| `FlowGraph.StreamFlowGraph` | crates/browse/src/native_export.rs:1564-1650 | From partitions in file order or from the resident graph, the stream is the export: every indexed function once, by file, name and id, each with its row; it fails if and only if the sidecar does or the serializer refuses a row of the export |
| `FlowGraph.ExportIsDetermined` | crates/browse/src/native_export.rs:1619-1646 | Cold equals warm: any two exports of one workspace are the same sequence of rows |
| `FlowGraph.ExportIsOrdered` | crates/browse/src/native_export.rs:1564-1650 | Two rows of an export are in strict order of file, then display name, then id |
| `FlowGraph.RowsAreDual` | crates/browse/src/native_export.rs:295-325 | g is among f's outgoing ids if and only if f is among g's caller ids |
| `ModulePaths.BuildIndex` | crates/browse/src/module_map.rs:124-136 | The bucket of a segment holds exactly the files whose path ends with it |
| `ModulePaths.Candidates` | crates/browse/src/module_map.rs:144-153 | Filtering one bucket finds exactly the files of the workspace whose path ends with the segments |
| `ModulePaths.KeepNearest` | crates/browse/src/module_map.rs:155-166 | Exactly the candidates with the longest common prefix with the importing file are kept |
| `ModulePaths.Resolve` | crates/browse/src/module_map.rs:141-176 | The result is the nearest files for the longest prefix of the module path that ends some file, in id order; empty if and only if no prefix does |
| `ModulePaths.NearestFiles` | crates/browse/src/module_map.rs:155-169 | The nearest of the candidates are the nearest of all matching files, and exist when any file matches |
| `ModulePaths.EndsWithMeans` | crates/browse/src/module_map.rs:144-153 | A path ends with a tail if and only if it is something followed by the tail |
| `ModulePaths.SharedMeans` | crates/browse/src/module_map.rs:155-166 | The common prefix has at least n segments if and only if the first n segments agree |
| `CallRows.DropShadowed` | crates/browse/src/calls.rs:258-268 | Exactly the rows no explicit call covers remain, every callee and line keeps a row, and an unshadowed listing is untouched |
| `CallRows.DedupKeys` | crates/browse/src/calls.rs:181-189 | After the sort, one row per callee, file, line and column remains, none of these keys is lost, a key with a known caller keeps one, and a listing without repeats is untouched |
| `CallRows.Collapse` | crates/browse/src/calls.rs:204-217 | Every row dropped is a bare suffix of a kept row at its site; no neighbouring pair can be collapsed again |
| `CallRows.StagesKeepCallers` | crates/browse/src/calls.rs:173-189 | A known caller is never displaced by an anonymous duplicate, through all stages |
| `CallRows.StagesSettle` | crates/browse/src/calls.rs:172-217 | The result is a selection of the input that the stages leave alone, and settled rows pass through whole |
| `CallRows.ReduceCalls` | crates/browse/src/calls.rs:172-248 | The pipeline returns a sub-multiset of its input with distinct callee, file, line and column, in which every input row has a row of its line that it is a bare suffix of; a kept row names its caller if any uncovered row of its key does; a second run drops nothing |
| `CallRows.BareSuffixMeans` | crates/browse/src/calls.rs:305-314 | A name is a bare suffix if and only if the names are equal or the qualified one is something, then `.`, `->` or `::`, then the bare one |
| `Ancestors.MatchIsNear` | crates/browse/src/common.rs:124-126 | Pigeonhole: a match anywhere up a possibly cyclic chain has a match within map-size steps |
| `Ancestors.MatchMeans` | crates/browse/src/common.rs:118-138 | Some ancestor matches if and only if some chain of parent links ends in a match |
| `Ancestors.DeclOrAncestorMatches` | crates/browse/src/common.rs:118-138 | The bounded loop answers true if and only if a chain of parent links starting at the declaration ends in a match, for every parent map, cyclic or dangling |
| `Licenses.ParseIsGrammar` | scripts/audit-dependency-licenses.py:88-140 | A token list parses to an expression if and only if it is the spelling of that well-formed expression, so the grammar is unambiguous |
| `Licenses.PrintParses` | scripts/audit-dependency-licenses.py:94-132 | The minimally parenthesized print of any formula parses, and its verdict is the formula's own meaning |
| `Licenses.OrRegroups` | scripts/audit-dependency-licenses.py:94-99 | Folding alternatives to the left gives the verdict of the right-nested list |
| `Licenses.AndRegroups` | scripts/audit-dependency-licenses.py:101-106 | The same for conjunctions |
| `Licenses.Parser.ParseAll` | scripts/audit-dependency-licenses.py:88-132 | The parser returns normally exactly on the grammar; it is satisfiable if and only if some choice of one alternative at every OR uses only allowed ids and Apache-2.0 with the LLVM exception, and unknown are exactly the ids in neither table and the other exceptions |
| `Licenses.VerdictMeans` | scripts/audit-dependency-licenses.py:52-132 | The same of every expression: Boolean evaluation of verdicts is the existence of an approved choice, and the unknowns are those of its leaves |
| `Licenses.LeafMeans` | scripts/audit-dependency-licenses.py:112-132 | A license or pair is satisfiable if and only if it is approved, and is unknown if and only if no table has it |
| `Licenses.PairIsUnique` | scripts/audit-dependency-licenses.py:117-126 | The combined text is the approved one if and only if both of its parts are |
| `Licenses.SpellingIsLiteral` | scripts/audit-dependency-licenses.py:94-132 | The words and brackets between the parts of an expression, as written |
| `Licenses.Parser.ParseOrList` | scripts/audit-dependency-licenses.py:94-99 | From any index: the verdict of the alternatives there and the index behind them, or an error exactly when there are none |
| `Licenses.Parser.ParseAndList` | scripts/audit-dependency-licenses.py:101-106 | The same for conjunctions |
| `Licenses.Parser.ParseOne` | scripts/audit-dependency-licenses.py:108-132 | The same for a license, a license with an exception, or a parenthesis |
| `Archive.BuildArchive` | security-patterns/build.rs:46-70 | The archive is built if and only if count, path and content lengths fit, and is then the encoding of the files with slashes normalized |
| `Archive.Cursor.ReadExact` | crates/security/src/bundled.rs:104-106 | A read succeeds if and only if enough bytes are left, and returns just those |
| `Archive.ReadRule` | crates/security/src/bundled.rs:111-120 | One record is read from the cursor or refused, as the format says |
| `Archive.Unpack` | crates/security/src/bundled.rs:104-130 | The reader loop computes `Decode`, trailing bytes refused |
| `Archive.DecodeIsInverse` | crates/security/src/bundled.rs:104-130 | Bytes decode to a rulepack if and only if they are the encoding of that rulepack, it fits, and its paths are acceptable |
| `Archive.LittleEndianReads` | security-patterns/build.rs:58-67 | A length written in little-endian bytes reads back |
| `Archive.LittleEndianWrites` | crates/security/src/bundled.rs:148-158 | Bytes read as a length are the bytes that length writes |
| `Archive.LittleEndianByte` | security-patterns/build.rs:58-67 | The least significant byte comes first: byte k of a length is its k-th digit to base 256 |
| `Archive.ArchiveLayout` | security-patterns/build.rs:46-70 | The archive is the eight magic bytes, the number of files in four bytes, and one record per file in order: path length in four bytes, content length in eight, path, content |
| `Archive.ArchiveIsIdentity` | security-patterns/src/lib.rs:15-16 | Equal archives mean equal rulepacks after slash normalization |
| `Archive.ArchiveDetermines` | security-patterns/build.rs:46-70 | Among rulepacks without backslashes in paths, equal archives mean equal rulepacks |
| `Rulepacks.PathsCompareByComponents` | security-patterns/build.rs:27-27 | Comparing paths component by component is comparing their bytes with the slash lowest |
| `Rulepacks.BackslashesCollide` | security-patterns/build.rs:52-55 | Two rulepacks the build collects have one archive: the rule `langs/a/b.yml`, and a file named `a\b.yml` in `langs` |
| `Rulepacks.ArchiveIsAmbiguousExactlyWhen` | security-patterns/build.rs:21-70 | Among collected rulepacks another one has the same archive if and only if a single path of this one has another spelling of its separators that would be collected at the same place |
| `Rulepacks.OrdinaryIsAmbiguousExactlyWhen` | security-patterns/build.rs:21-70 | For a rulepack without backslashes: if and only if, for some file in a subdirectory of `langs`, joining its last directory to its name keeps it before the next file |
| `Rulepacks.SiblingKeepsTheSpelling` | security-patterns/build.rs:27-27 | A subdirectory alone does not make an archive ambiguous: `langs/a/z.yml` directly before `langs/a.yml` has no other spelling |
| `Rulepacks.TwinIsRespelling` | security-patterns/build.rs:27-70 | Two collected rulepacks with one archive differ in a path whose other spelling fits between its neighbours |
| `Publication.PublicationOrder` | scripts/publish-crates.py:195-215 | It fails if and only if path dependencies of kind other than dev have a cycle; otherwise it returns every package once, each strictly after every such dependency of it, in sorted rounds of ready packages |
| `Publication.StuckMeansCycle` | scripts/publish-crates.py:209-212 | A set of packages none of which is ready holds a cycle |
| `Publication.OrderMeansNoCycle` | scripts/publish-crates.py:206-215 | Where a dependencies-first order exists there is no cycle |
| `Publication.CyclicMeans` | scripts/publish-crates.py:195-204 | A cycle is a closed walk of path dependencies that are not of kind dev |
| `Escaping.XmlText` | crates/browse/src/graph_export.rs:804-823 | It succeeds if and only if every character is an XML 1.0 Char, with the escaped text |
| `Escaping.XmlSpellings` | crates/browse/src/graph_export.rs:804-823 | Wherever it stands, each of the eight special characters is spelled by its own reference, and every other character by itself |
| `Escaping.XmlRoundTrips` | crates/browse/src/graph_export.rs:804-823 | Resolving references in escaped text restores the original |
| `Escaping.NothingRawRemains` | crates/browse/src/graph_export.rs:804-823 | No raw angle bracket, quote, CR, LF or TAB is left in escaped text |
| `Escaping.XmlSurvivesProcessor` | crates/browse/src/graph_export.rs:804-823 | The original is still restored after the line-end and attribute normalization of XML 1.0, sections 2.11 and 3.3.3 |
| `Escaping.StagedIsOnePass` | crates/browse/src/graph_export.rs:870-878 | The five staged replacements equal one pass, character by character |
| `Escaping.CypherSpellings` | crates/browse/src/graph_export.rs:870-878 | Wherever it stands, each of the five special characters is spelled with its backslash, and every other character by itself |
| `Escaping.CypherStringReads` | crates/browse/src/graph_export.rs:870-878 | A literal, whatever follows it, reads back as its value and ends where the value ends; no raw quote or line break is met |
| `Escaping.PropertyKeyReads` | crates/browse/src/graph_export.rs:852-863 | Every key, bare or quoted with doubled backticks, reads back, so keys stay distinct |

## Left out

- The concrete semantics lets only `Assign` events write locals, as `apply_event` does; aggregate assignments, catch parameters and calls that write through references leave the named locals alone.
- The call stack of a state and `max_call_depth` are not part of this model: the engine never uses them.
- The engine never puts a relation into a state, and `apply_event` never removes one; soundness of whole runs rests on the relations staying empty, and a state that held one could go stale (`ControlFlow.RelationGoesStale`).
- Step messages and the text of `classify_event` are presentation; a step keeps its kind, span, path and function.
- A comment on the join says that collapsing sets keeps the lattice bounded; the code has no such bound for integer ranges, whose hulls may keep growing, and the model follows the code.
- 64-bit integers are modelled as unbounded ones: the code only compares them and takes minima and maxima. String lengths are those of in-memory strings, which always fit.
- The branch counter is modelled as wrapping at 32 bits, as a release build does; termination is therefore measured by path ids and holds for all limits.
- Binary search in the fact table is modelled as the linear partition point it computes; soundness of a run does not need the table to be sorted.
- Library sorts are modelled as a stable insertion sort with the same contract.
- Worklist entries and recorded states are values, as the clones in the code are; the in-place update is modelled for `merge_from` and for the trace.
- `Workspace`, the file system, parallel scheduling, memory permits and the persisted sidecar are represented by a graph and its per-file partitions, with each partition holding exactly the edges that leave and enter its file.
- Connections.Report: the endpoints and the function that locates an edge are parameters, and the order of the groups of one file by display path is not modelled.  The original calls a report complete although rows that share an edge id are dropped; the contract therefore promises the id of every call, and `Connections.EdgeIsShownExactlyWhen` says when the row itself is shown.
- Edge kinds and provenance, and declarations and imports in the file report, are not modelled.
- FlowGraph.StreamFlowGraph: the text of errors is not modelled; that partition files are strictly ascending, which the sidecar reader checks, and that the index lists each function once are taken from the workspace.
- ModulePaths.Resolve: starts from path and module segments; splitting the strings in `path_segments` and `module_segments` is not modelled.
- CallRows.ReduceCalls: the display order is a parameter, and the collection of rows by parallel workers is not modelled.
- CallRows.Collapse: the code compares a row with the last kept row only, so freedom from suffixes between all pairs of one site is not promised.
- Licenses.Parser.ParseAll: starts from tokens; the regular expression and its consistency test are not modelled. As in the code, any token may follow WITH.
- Rulepacks.ArchiveIsAmbiguousExactlyWhen: reading directories is not modelled; a collected rulepack is any sorted list of acceptable paths that can be the files of one tree, with both fixed files present.
- Archive.Unpack: UTF-8 and path validation are one predicate parameter; compression, hashing and writing files are not modelled.
- Cypher numbers, booleans, arrays, objects and labels, and the JSON, GraphML and Cypher document framing, are not modelled: they would add only easy members.
- Whitespace normalization, truncation at character boundaries, the structural graph facts, the other inventory commands and the remaining scripts are not modelled for the same reason.
