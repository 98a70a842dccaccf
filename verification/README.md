# Verification model of egglog's hard core

This project models the parts of egglog whose correctness does not show from reading one function,
and proves what they promise. `dafny verify dfyconfig.toml` checks all of it.

## What is modelled

**Rule compiler.** A surface rule is a list of facts and a list of actions. `Flatten.dfy` turns nested
facts into atoms over fresh variables; `Lowering.dfy` (the functions) and `CoreActions.dfy` (the
context object that is updated as lowering runs) turn actions into core actions; `Canonicalize.dfy`
substitutes equalities away and prepends the bindings to the head; `RemoveDupVars.dfy` merges atoms
that a functional dependency makes equal, to a fixpoint; `Scoping.dfy` reads off the surface rule which names
are bound where. Meaning is stated over any database in
which every head is a partial function from inputs to output and `value-eq` is equality, and over
any machine on which actions act. `CompileRule` is the whole pass as a method that produces a rule or
the first error.

A union of a variable and a constructor call is lowered to a set of the constructor's row. The meaning
of the statement is still the union: both sides are evaluated and made equal. `UnionToSet.dfy` shows
that lowering keeps it up to a link between two runs, on every machine on which a set does what the
call and the union do, or on every machine and exactly when unions stay unions. `Batch.dfy` is such a
machine, the database during a batch: calls read the tables of before and remember the ids they make,
writes are staged. `BatchMeaning.dfy` says what a batch means once it is applied (which rows there are
before and after rebuilding, and the least congruence over rows and unions) and when both runs mean the
same; `BatchRuns.dfy` is about batches of any matches. The main theorems in `CompiledRule.dfy` are
`CompiledRuleIsFaithful` (matches of the compiled rule correspond one to one to the valuations of the
user's variables that make the facts hold, and firing a match does, up to the link, what evaluating the
user's actions under that valuation does), `CompiledBatchMeansTheSameIff` (for a whole batch of matches)
and `CompiledBatchMeansTheSame` (for rules that delete from no constructor that they unite with).

**Constraint solver.** `Solver.dfy` describes one update of each kind of constraint and whole solving;
`SolverLoop.dfy` is the code that does it in place, with rollback and pruning of alternatives.
`Grounded.dfy` is the groundedness check built on it.

**Extractor.** `Extraction.dfy` describes the relaxation, the chronological ranks, the saved edges and
the reconstruction; `Extractor.dfy` is the object that does them with its tables and its term DAG;
`Canonical.dfy` is the lookup of a value's representative;
`CostModels.dfy` is the default cost model with and without saturation, and `StrictnessNeeded.dfy` the
e-graphs on which a cost model that is not strict loses an edge.

**Concurrency.** `Lock.dfy`, `Notification.dfy`, `ConcurrentVec.dfy` and `NotificationList.dfy` are
transition systems with any number of threads and one atomic step at a time. `NotificationList.dfy`
is the list over flags that grow in one step, with a refinement by the vector, which grows slot by slot;
`NotifyOverVector.dfy` is the list over the vector itself, every step of it.

**Union-find merge.** `UnionFindMerge.dfy` runs the self-referential merge of the relational union-find
to quiescence.

**Term DAG.** `TermDag.dfy` holds the hash-consing arena and the printer with an explicit stack, whose text
the reader of `Sexp.dfy` reads back,
`TermStats.dfy` the counting of references and sizes, and `Render.dfy` printing with let bindings.

**Scheduler.** `Scheduler.dfy` has the split of a rule into a collecting query and an action, the
in-place removal of chosen matches from a flat vector, and the bookkeeping over steps.

A method that follows imperative code is tied by its `ensures` to a function or predicate of its
inputs and old state, and the theorems are about that.

## Where the code does not do what is said of it

- The documentation of the extractor asks of a cost model that a cheaper subterm never makes a superterm
  dearer (`src/extract.rs:126-131`) and that a term costs no less than its subterms (`src/extract.rs:12-18`).
  That is not enough for saved edges to exist: `EdgesExistIffStrict` shows that a model of the first kind
  has them on every e-graph exactly if it is strictly monotone. The saturating model is of both kinds
  (`AdditiveCoversSubterms`), and with it a class that ends at some cost has an edge in every e-graph
  exactly when that cost is below the maximum (`SaturatingMissesExactlyAtMaximum`).
- `xor` is documented to require that exactly one alternative is satisfied (`src/constraint.rs:84-86`).
  The code also succeeds when several are (`XorAcceptsSeveral`). An update meets the documentation
  exactly when no second alternative works (`XorIsExactIff`), and a complete solution exactly when no
  two alternatives hold (`CompleteSolutionIsExactModelIff`).
- Lowering a union to a set (`src/core.rs:809-860`) is meant to be an optimization. In a batch that also
  deletes the constructor's row it is not always one: deletions come before insertions, so the set brings
  the row back (`UnionThenDelete`). Before rebuilding, rows and equalities are the same exactly when the
  batch sets no row of before that it deletes; after rebuilding, exactly when every row that it so sets and
  deletes is still there in both runs, up to what has become equal (`CompiledBatchMeansTheSameIff`). A rule
  that deletes from no constructor that one of its unions is with is always safe
  (`CompiledBatchMeansTheSame`).
- A primitive that compares ids by number, as `ordering-min` (`src/lib.rs:472-477`), can answer differently
  after that lowering when both ids are made in the batch (`OrderingMinLooks`), and only then
  (`OrderingMinOfOld`, `StagingIsLawfulIff`).
- The walk over parents when looking up a representative is bounded by 64 hops (`src/extract.rs:644-652`); on a
  longer chain it stops short of the root (`LongChainStopsShort`), and on no other (`CanonicalIsRootIff`).
- A scheduler panics on every rule whose head has no free variables, because the width of a match is
  then zero: it divides by it or asks for chunks of it (`src/scheduler.rs:73-75`, `src/scheduler.rs:111-152`).
  `SchedulerRule.Step` succeeds exactly when there is a free variable and either all matches or only
  indices in range are chosen. `NullaryCallHasNoColumns` gives such rules.

## Model

| member | source | states |
|---|---|---|
| CompiledRuleModel.CompiledRuleIsFaithful | src/core.rs:1236-1265 | for every database, and every machine and link of runs on which a set of a constructor's row does what a call and a union do (or every machine and link kept by calls and effects, when unions stay unions): matches of the compiled rule are in bijection with the valuations of the user's variables that make the facts hold, and firing one is linked to running the user's actions under that valuation |
| CompiledRuleModel.CompiledRuleIsExact | src/core.rs:1236-1265 | when unions stay unions, firing a match has exactly the effect of running the user's actions, on every machine from every state |
| CompiledRuleModel.CompiledBatchMeansTheSameIff | src/core.rs:809-860 | any batch of matches of a compiled rule against the user's actions under the corresponding valuations, with ids in use matched to themselves and every row of either run over matched ids, up to equality: before rebuilding the same ids are equal and the same constructor rows are there with equal outputs exactly when the batch sets no row of before that it deletes; after rebuilding, exactly when every row so set and deleted survives in both |
| CompiledRuleModel.CompiledBatchMeansTheSame | src/core.rs:809-860 | a rule that deletes from no constructor that one of its optimized unions is with means the same before and after rebuilding, in every batch on every database |
| CompiledRuleModel.CompileRule | src/core.rs:1198-1265 | fails on a name exactly if some statement binds one again that a fact or an earlier let binds, or uses one that is no global and that neither binds, and then names one of the first such statement; else fails if and only if the body is not grounded; otherwise the rule preserves the lowered one, has no two calls with equal head and inputs, its head uses only body variables, and terms have the sorts of the surface rule |
| ScopingModel.BodyBinds | src/core.rs:1213-1215 | a variable of the user is in the flattened body exactly when some fact mentions it, other than by itself alone, and it is no global |
| ScopingModel.ErrorsAreMisuses | src/core.rs:716-725 | the scan of the statements reports a misuse of a name in the first statement that has one, and nothing exactly when there is none |
| CompiledRuleModel.CoreRuleIsBound | src/core.rs:1213-1225 | the lowered head's free variables occur in the body, and no action reads the variable it binds |
| CompiledRuleModel.ExecBehindLets | src/core.rs:589-599 | running a head behind prepended bindings is running it in the environment the bindings restore |
| FlattenModel.FlatteningIsExact | src/ast/mod.rs:1518-1598 | facts, among them tuples of a call's outputs in their order after its arguments, hold under a valuation exactly when it extends to the fresh variables so that all atoms hold, and all such extensions agree on every variable of the atoms |
| FlattenModel.ExpressionFlatteningIsExact | src/core.rs:906-952 | an expression evaluates to v exactly when its atoms hold in an extension that gives its root term v |
| FlattenModel.QueryUnique | src/core.rs:921-950 | two ways to make an expression's atoms hold that agree on the user's variables agree on all its terms and on its root |
| FlattenModel.QueryNames | src/core.rs:922-929 | atoms mention only users' names and fresh names already taken |
| LoweringModel.UnionBecomesSetIff | src/core.rs:809-860 | a union is lowered to a set of a call's row exactly when the optimization is on and one side is a variable and the other a constructor call, in either order |
| LoweringModel.LoweringRuns | src/core.rs:702-877 | the lowered actions reach the same database as the statements with each optimized union read as a set, stop exactly when these stop, and leave the same values in the user's variables |
| UnionToSetModel.LoweringIsFaithfulUpTo | src/core.rs:809-860 | on every machine whose sets of constructor rows do what call and union do, the lowered actions keep two runs linked with the statements as written, where a union evaluates both sides and makes them equal |
| BatchModel.StagingIsLawfulIff | core-relations/src/action/mod.rs:508-556 | during a batch calls and effects keep two runs linked and a staged set does what the call and the union do exactly when no primitive looks at the numbers of ids made in the batch |
| BatchMeaningModel.HasRowIsApplied | core-relations/src/table/mod.rs:530-535 | the rows a batch is said to have are those left by carrying out its staged removals one by one and then adding its staged rows, beside the rows it has made itself |
| BatchMeaningModel.RowsAreCovered | core-relations/src/action/mod.rs:508-556 | every row of either run has matched inputs, and an output equal to a matched value |
| BatchMeaningModel.RunsMeanTheSameIff | core-relations/src/table/mod.rs:530-535 | two linked batches, once applied, have the same equalities (least congruence over rows and unions) and the same constructor rows with the same outputs exactly when no staged set is of a row of before that the batch removes |
| BatchMeaningModel.RebuiltTheSameIff | core-relations/src/table/mod.rs:530-535 | they have the same equalities and the same rows modulo equality exactly when every row of before that is both set and removed is, modulo equality, still there in both |
| BatchRunsModel.UnionThenDelete | src/core.rs:809-860 | a union with a constructor call followed by deleting that row leaves it deleted as written and present as lowered |
| LoweringModel.LowerExprsRun | src/core.rs:954-993 | the actions of lowered expressions have the effects of evaluating them from left to right, and their terms then have the values |
| LoweringModel.LoweringReportsFirstError | src/core.rs:716-725 | lowering fails exactly when a scan from left to right finds a name used unbound or bound twice, and with that error |
| LoweringModel.LoweringIsSingleAssignment | src/core.rs:716-718 | every variable a lowered action uses is bound before, every variable it introduces is new, and no taken name is reused |
| LoweringModel.SingleAssignmentFree | src/core.rs:605-650 | in single assignment form the computed free variables are bound outside the head |
| LoweringModel.FreeVarsSuffice | src/core.rs:605-650 | two environments that agree on the computed free variables run a head without self-use with the same effects |
| CoreActionsModel.CoreActionContext.ToCoreTerm | src/core.rs:954-993 | the context ends in the state the specification gives: same actions emitted, same bound names, same supply, or the same error |
| CoreActionsModel.CoreActionContext.ToCoreActions | src/core.rs:702-877 | the same for whole lists of actions, over all branches including tuples of values and unions that become sets |
| CanonicalizeModel.StepPreserves | src/core.rs:1046-1066 | one substitution keeps the meaning of a rule over every database |
| CanonicalizeModel.SubstInPlace | src/core.rs:1016-1025 | the atoms after the update in place are the substituted ones |
| CanonicalizeModel.Canonicalize | src/core.rs:1036-1107 | ends; only calls remain, so the panicking branches are unreachable; the rule keeps its meaning and its variables remain in calls |
| CanonicalizeModel.FinishHolds | src/core.rs:1070-1101 | dropping trivial equalities and turning the rest into `value-eq` calls changes no match |
| CanonicalizeModel.AnchoredVarsAreInCalls | src/core.rs:1087-1089 | once no equality can be substituted, every variable of a grounded body occurs in a call |
| CanonicalizeModel.StepKeepsAnchored | src/core.rs:1060-1063 | substitution keeps every variable linked to a call, a literal or a global |
| RuleModel.BijectionCompose | src/core.rs:584-599 | the bindings of two successive passes compose with the later ones in front, restoring exactly the matches of the first body |
| RuleModel.PreservesTrans | src/core.rs:1257-1262 | passes that each preserve a rule's meaning preserve it together |
| RemoveDupVarsModel.RemoveDupVars | src/core.rs:1145-1184 | ends on every body of calls; the rule keeps its meaning and no two calls have equal head and inputs |
| RemoveDupVarsModel.Retain | src/core.rs:1149-1160 | keeps the first call of each group and collects every output by head and inputs |
| RemoveDupVarsModel.EquivGroupsToEqs | src/core.rs:1110-1135 | emits exactly the equalities of a group's first output with its different ones |
| RemoveDupVarsModel.DedupHolds | src/core.rs:1139-1144 | kept calls with the equalities hold exactly where all calls held |
| RemoveDupVarsModel.DedupProgress | src/core.rs:1162-1183 | an equality emitted comes with a dropped call that is not `value-eq`, or a dropped `value-eq` whose output is not the unit literal, or a group that the next pass does not find again |
| RemoveDupVarsModel.Compile | src/core.rs:1254-1262 | succeeds exactly on grounded bodies, with both passes preserving the rule |
| GroundedModel.GroundedCheck | src/constraint.rs:1203-1268 | succeeds exactly when every body variable is in every set closed under function atoms, equalities and outputs of primitives; reports a variable that is not |
| GroundedModel.SolveIsLeastClosed | src/constraint.rs:1220-1258 | the solver's assignment for the generated constraints is the least closed set |
| SolverModel.SolveIsLeast | src/constraint.rs:734-753 | solving gives the least assignment to which no constraint objects or adds, and fails exactly when there is none |
| SolverModel.SolveIsLeastSettled | src/constraint.rs:177-364 | that assignment is the least in which values have flowed through all equalities, implications whose terms have values hold, and of alternatives the only one that works is settled; solving fails exactly when there is none |
| SolverModel.OrderIsIrrelevant | src/constraint.rs:734-753 | neither order nor repetition of constraints changes the outcome or the assignment |
| SolverModel.SolveIsSound | src/constraint.rs:734-753 | every model agrees with the assignment on its domain, so an error means there is no model |
| SolverModel.SolveIsSoundForExactModels | src/constraint.rs:84-86 | every model in which exactly one of each set of alternatives holds agrees with the assignment on its domain, so an error means there is no such model |
| SolverModel.CompleteSolutionIsExactModelIff | src/constraint.rs:734-753 | an assignment that covers all terms satisfies exactly one of each set of alternatives exactly when no two of them hold |
| SolverModel.XorIsExactIff | src/constraint.rs:341-363 | when all values are known an update succeeds if and only if exactly one alternative holds, exactly when no second alternative works, that is when no two hold |
| SolverModel.Monotone | src/constraint.rs:308-364 | an update that works on a larger assignment works on a smaller one and stays below; this includes pruning and rollback |
| SolverModel.Coherent | src/constraint.rs:346-352 | a constraint pruned or made immediate acts on every larger assignment as the original does |
| SolverModel.UpdateProgress | src/constraint.rs:143-167 | a reported change assigns a term or makes a delayed constraint immediate |
| SolverModel.Decided | src/constraint.rs:341-363 | when all values are known an update succeeds exactly if the constraint holds |
| SolverLoop.Assignment.UpdateConstraint | src/constraint.rs:267-286 | the in-place update reaches the specified constraint, assignment and report; a failing one leaves the assignment as it was |
| SolverLoop.Assignment.UpdateAlternatives | src/constraint.rs:308-364 | trying alternatives on one shared assignment prunes exactly when a single one works |
| SolverLoop.Problem.SolveProblem | src/constraint.rs:734-753 | the loop ends with the specified solution, and reports an unassigned term of the range if there is one |
| ExtractionModel.ArgCostIsOptimal | src/extract.rs:322-360 | an e-class, container or base value has a cost exactly when a finite term is derivable from rows not subsumed; no such term is cheaper, and one costs that much |
| ExtractionModel.ExtractionIsOptimal | src/extract.rs:407-564 | with strictly monotone folds below a limit, whatever costs less is rebuilt into a derivable term whose own cost is that cost, the cheapest of all |
| ExtractionModel.ParentEdgesExist | src/extract.rs:463-502 | every e-class with a cost below the limit has a saved edge, whatever zero costs, self-loops and equal-cost cycles the graph has |
| ExtractionModel.SavedEdges | src/extract.rs:469-496 | a saved edge is the first row of the best cost whose children all have strictly smaller ranks |
| ExtractionModel.RunReachesFixpoint | src/extract.rs:412-461 | relaxation stops where no row improves its target |
| ExtractionModel.RelaxAllProgress | src/extract.rs:422-452 | a round that changes something gives an e-class its first cost or lowers the sum of costs |
| ExtractionModel.RebuildIsExact | src/extract.rs:515-564 | reconstruction finds every edge it looks up and builds a tree of exactly the recorded cost |
| StrictnessModel.EdgesExistIffStrict | src/extract.rs:126-131 | among monotone cost models in which a childless row costs itself, saved edges exist on every e-graph (one row per inputs, one head and output sort per table, tables visited by sort) exactly for strictly monotone ones |
| ExtractorModel.Extractor.BellmanFord | src/extract.rs:407-502 | the tables end as the specified fixpoint with its saved edges |
| ExtractorModel.Extractor.ReconstructNode | src/extract.rs:515-564 | the cached recursion adds to the DAG the node of the specified tree, or finds no edge exactly when that has none |
| ExtractorModel.Extractor.ExtractBest | src/extract.rs:570-593 | for an e-class, about the root of the value's class if a walk to it is within the bound, and always about the value that the lookup gives; for other arguments about themselves: nothing exactly when no expression represents it; otherwise, below the limit, an expression that represents it, of a derivation of that cost, which is the least |
| ExtractorModel.DerivableIsRepresented | src/extract.rs:515-564 | an argument has a derivation exactly when some expression represents it: heads of rows that are not subsumed over expressions for their arguments, base values and containers as written |
| ExtractorModel.EqualValuesAreRepresentedAlike | src/extract.rs:575-578 | values are extracted by the same representative exactly when the union-find has them equal |
| CanonicalModel.FindCanonical | src/extract.rs:619-660 | the lookups, the bounded walk and the scan of edges reach the specified value |
| CanonicalModel.CanonicalIsRootIff | src/extract.rs:619-660 | however the union-find is kept, the value found is the root of its class exactly when a walk over parents needs no more hops than its bound |
| CostModels.AdditiveIsStrictBelow | src/extract.rs:70-114 | the additive model is strict below the point where it saturates |
| CostModels.AdditiveIsTotal | src/extract.rs:106-123 | without saturation a term costs the head costs of its rows and one for each base value |
| CostModels.SaturatingIsCapped | src/extract.rs:65-75 | with saturation it costs that, capped at the limit |
| CostModels.UnboundedNeverMissesAnEdge | src/extract.rs:106-114 | the additive model without saturation never misses an edge |
| CostModels.SaturatingMissesExactlyAtMaximum | src/extract.rs:70-72 | with 64-bit costs, a class that ends at cost c has a saved edge in every e-graph exactly when c is below the maximum |
| LockModel.WritersAreExclusive | concurrency/src/lib.rs:130-186 | in every state of every run of any number of threads a live writer excludes every live reader and every other writer |
| LockModel.StepKeepsInv | concurrency/src/lib.rs:99-106 | load, exchange, drain, store and notify each keep the token discipline behind exclusion |
| LockModel.TriggerKeepsInv | concurrency/src/lib.rs:197-204 | so does the notification on dropping the last reference to a read token |
| LockModel.NeverStuck | concurrency/src/lib.rs:145-183 | while a thread is inside an operation some step inside an operation is possible, releases of guards included |
| LockModel.EveryOperationCompletes | concurrency/src/lib.rs:130-186 | once no operation begins and guards are released, every order of steps ends with all threads idle |
| LockModel.EveryCallIsGranted | concurrency/src/lib.rs:130-186 | in every order of steps a thread that has called `lock` becomes the writer, and one that has called `read` a reader |
| LockModel.CallsAreGranted | concurrency/src/lib.rs:130-186 | in every run, between the call and the end a thread that called `lock` was the writer, and one that called `read` a reader |
| NotificationModel.NoLostWakeup | concurrency/src/notification.rs:47-79 | no wait answers that it was notified before it was, and after a notification has completed nobody sleeps, with a timeout or without, unless another is about to wake them |
| NotificationModel.WaitsReturn | concurrency/src/notification.rs:47-70 | once the flag is set all calls under way return, in any order of their steps and with any spurious wake-ups and timeouts |
| NotificationModel.CallsDoWhatTheySay | concurrency/src/notification.rs:47-79 | a wait without a timeout ends only by returning, and after it, as after a call of `notify`, the flag is set |
| ConcurrentVecModel.SlicesAreValid | concurrency/src/concurrent_vec.rs:116-145 | in every reachable state all cells below the head are initialised, and a live reader's slice lies within them and has not moved |
| ConcurrentVecModel.VisibleGrows | concurrency/src/concurrent_vec.rs:58-114 | no step changes a visible cell; a push adds its item at the index it returns, `resize_with` adds values it has made |
| ConcurrentVecModel.ReadsAreStable | concurrency/src/concurrent_vec.rs:116-123 | while no reader changes a value in place, what one sees is a prefix of what every later one sees |
| ConcurrentVecModel.ReadSeesWhatWasThere | concurrency/src/concurrent_vec.rs:116-123 | the length of a read is at least the head when it began and at most the head when it has its slice, even with readers that change values |
| ConcurrentVecModel.PushAppends | concurrency/src/concurrent_vec.rs:86-92 | between the call of `push` and its end exactly its item is appended to what is visible |
| ConcurrentVecModel.ResizeHasGrown | concurrency/src/concurrent_vec.rs:58-75 | when `resize_with` has returned, there are at least as many values as asked for |
| ConcurrentVecModel.EveryCallReturns | concurrency/src/concurrent_vec.rs:58-123 | in every order of steps without new calls every push, resize and read returns, if slices are let go |
| ConcurrentVecModel.NextPowerOfTwoIs | concurrency/src/concurrent_vec.rs:108-112 | the cells grow to the least power of two that is long enough |
| ConcurrentVecModel.PushReturnsItsNumber | concurrency/src/concurrent_vec.rs:86-92 | in every run of any number of threads a push returns the number of pushes that took effect before it: the indices are 0, 1, 2 and so on |
| ConcurrentVecModel.PushIndicesIncrease | concurrency/src/concurrent_vec.rs:86-92 | in every run a push that takes effect later returns a greater index |
| NotifyOverVectorModel.ListedExactlyOnce | concurrency/src/notification_list.rs:40-60 | under every interleaving of the steps of calls on the vector that grows slot by slot, its flags and the list: no id is listed twice and no index is out of its slice; when no call is under way the list is what was notified since the last reset |
| NotifyOverVectorModel.EveryCallReturns | concurrency/src/notification_list.rs:40-60 | in every order of steps without new calls every call of `notify` returns |
| NotifyOverVectorModel.StepRefines | concurrency/src/notification_list.rs:40-60 | every step over the vector is a step, or none, of the list over flags that grow at once |
| NotificationListModel.ResizeIsAGrowth | concurrency/src/concurrent_vec.rs:58-84 | every step of the vector leaves the visible flags alone, but for the step at which a resize takes effect, which appends cleared flags up to the length asked for |
| NotificationListModel.ResizeTakesEffectOnce | concurrency/src/concurrent_vec.rs:58-84 | a resize takes effect exactly once, for its own length, before it returns |
| NotificationListModel.FlagSurvives | concurrency/src/notification_list.rs:42-45 | in every run of the vector in which threads resize, read and set flags, a flag once set stays set |
| NotificationListModel.Reset | concurrency/src/notification_list.rs:63-75 | a quiescent reset returns exactly the ids notified since the last one and leaves all flags clear |
| UnionFindMerge.SelfMergeMeaning | src/lib.rs:1170-1183 | the merge expression keeps the smaller id, and stages the pair of the larger and the smaller one exactly when they differ |
| UnionFindMerge.UnionFindTable.InsertOne | src/lib.rs:1892-1907 | one insert with its merge keeps values below keys, changes nothing about which ids are equal, and lowers a bound on the work left |
| UnionFindMerge.UnionFindTable.Quiesce | src/lib.rs:1128-1150 | from any ordered unions in any order the table ends as the least equivalence containing them, with each class's least id as root |
| UnionFindMerge.SameIsLeastEquivalence | src/lib.rs:1138-1141 | the equivalence meant is contained in every equivalence that contains the rows |
| UnionFindMerge.RootsAreDetermined | src/lib.rs:1142-1150 | tables that represent the same equivalence have the same roots |
| TermDagModel.TermDag.AddNode | src/termdag.rs:153-161 | the arena stays closed and free of repeated nodes, and earlier ids keep their nodes |
| TermDagModel.ToExprInjective | src/termdag.rs:153-161 | in such an arena different ids are different trees, so sharing is maximal |
| TermDagModel.TermDag.ExprToTerm | src/termdag.rs:166-179 | reading back the id of an expression gives the expression |
| TermDagModel.TermDag.ToString | src/termdag.rs:408-453 | printing with a stack and copied substrings gives what the naive recursive printer gives, and where heads, names and literals are words without spaces and parentheses, a reader of words and parentheses gives the term's tree back |
| TermDagModel.PrintRoundTrip | src/termdag.rs:408-453 | the printed text reads back as the term's tree, with nothing left over |
| TermStatsModel.TermStats.Collect | src/termdag.rs:354-406 | counts are the references from terms at or below the printed one, plus one for itself, and sizes are those of the trees, for all terms reached |
| RenderModel.ToStringWithLet | src/termdag.rs:219-233 | substituting the bindings back gives the term's tree, each binding mentions only earlier ones, and names go exactly to the terms referred to more than once whose trees have at least four nodes |
| RenderModel.RenderContext.RenderTerm | src/termdag.rs:235-319 | for any counts and sizes, a rendering unfolds to the term's tree, and exactly the terms below that are counted more than once and large enough get a name |
| SchedulerModel.Matches.SwapRemove | src/scheduler.rs:132-148 | swapping rows of the flat vector in place leaves in front, as a multiset, exactly the rows not chosen |
| SchedulerModel.Matches.Instantiate | src/scheduler.rs:111-152 | emits exactly the chosen rows and leaves exactly the others; panics exactly on rows of width zero or a choice out of range |
| SchedulerModel.SwappedRows | src/scheduler.rs:141-145 | exchanging two blocks of the flat vector exchanges those two rows and no other |
| SchedulerModel.RemoveOne | src/scheduler.rs:136-147 | one removal takes exactly the row it should and never counts below zero |
| SchedulerModel.SchedulerRule.Step | src/scheduler.rs:224-252 | for any decision, collected matches are those fired and those pending after every step, and the action rule fires exactly the rows decided |
| SchedulerModel.NullaryCallHasNoColumns | src/scheduler.rs:336-339 | with any facts, a rule whose only action is a call without arguments compiles and has no free variable to collect |
| SchedulerModel.SplitFiresTheSame | src/scheduler.rs:336-436 | firing a head on the collected values of its free variables has the effect of firing it on the match |

## Left out

- CompiledRuleModel.CompiledBatchMeansTheSameIff: the matches of a batch run one after the other on one table of predicted ids, where the code runs them instruction by instruction and each rule and thread has its own; which matches there are (seminaive evaluation), custom merges and subsumed rows do not enter what is compared, which is equality of ids and constructor rows.
- BatchModel.StagingIsLawfulIff: a call other than a constructor's is a function of its inputs that answers with base values, ids in use or its inputs.
- CoreActionsModel.CoreActionContext.ToCoreActions: the annotated copy of the actions that the code also returns is not modelled, only its effect on the supply of names; fresh names come from one supply of distinct names that no user writes, while the code guarantees distinctness for each hint only.
- CanonicalizeModel.Canonicalize: bodies must be grounded, which the compiler establishes first; spans are dropped.
- TermDagModel.TermDag.ToString: literals printed with quotes, spaces or parentheses are not read back, and the reader does not tell a literal from a variable, as the text does not.
- SolverModel.CompleteSolutionIsExactModelIff: no alternative contains alternatives itself; where some does, excluding a second alternative is shown to be enough (`ExclusiveMeansExact`) but not to be necessary.
- SolverModel.SolveIsLeast: a delayed constraint yields equalities, assignments or a conjunction of them; values are compared by key and represented by it; error messages carry no details.
- ExtractorModel.Extractor.ExtractBest: costs are natural numbers, with or without saturation; signed, big rational and floating-point costs are not modelled.
- ExtractionModel.ArgCostIsOptimal: containers are trees of values, as a container cannot contain itself; variants other than the best (`src/extract.rs:685-780`) are not modelled.
- LockModel.WritersAreExclusive: steps are sequentially consistent; memory fences, the internals of the swap cell and the data itself are not modelled. The read-copy-update that keeps the token is a step without effect.
- ConcurrentVecModel.VisibleGrows: the data lock is used through its exclusion only, as the lock's own model proves it; mixing `push` and `resize_with` on one vector is not covered, and nothing is claimed of it.
- NotifyOverVectorModel.ListedExactlyOnce: a reset is one step without concurrent notifications, as the code's documentation demands.
- NotificationModel.WaitsReturn: new calls are excluded, because an endless stream of them can keep a waiter from the mutex; that a wait with a timeout also returns without a notification is not claimed.
- UnionFindMerge.UnionFindTable.Quiesce: requested pairs are ordered, larger id first, as the merge's own inserts are; path compression is left out.
- RenderModel.ToStringWithLet: layout over several lines and choice of names are left out; sizes are natural numbers, without the overflow of machine words on trees of exponential size.
- SchedulerModel.SchedulerRule.Step: matches of the query are given; the decided table is a set, so equal rows chosen in one step fire once.
- The command line, parser, type checker, proof encoding, other backends, `unstable-fn` values, serialization and push or pop are not part of this model.
- `BitSet`, `ResettableOnceLock`, `ParallelVecWriter`, the dependency graph and the macro registry would only add easy members.
