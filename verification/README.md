# leibrix-worker in Dafny

A model of the logic of the leibrix worker, a node that loads epochs of datasets into DuckDB and runs distributed
queries over them, with proofs of what that logic guarantees.  `dafny verify dfyconfig.toml` checks all of it.

| files | what they model |
|---|---|
| `Intervals`, `Predicates`, `PredicateDays`, `Parity`, `ParityLimits`, `ParityNested` | date-range pruning: a WHERE clause is abstracted to one half-open range of days for each table, and each dataset is replaced by a scan of that range |
| `QueryTree`, `Discovery`, `DiscoveryText`, `CteScopes` | the traversal that finds logical tables in nested queries and the one that replaces them |
| `StageGraph`, `Scheduler`, `StageExecution`, `Pipeline` | execution levels, topological order, level-wise execution and channel wiring of a stage graph |
| `EpochKeys`, `EngineModel`, `EngineRuns`, `EngineHistory`, `EngineIsolation`, `EngineOrphans`, `EnginePaths`, `EngineStatistics`, `Engine` | the engine thread: a state machine over commands with failing databases, its runs, and the class that computes them |
| `Lifecycle`, `LifecycleKeys`, `LifecycleEviction`, `LifecycleReported`, `LifecycleDrain`, `LifecycleReturn`, `LifecyclePaths` | assignments, evictions, drain and load tasks as interleaved steps on the shared phase map |
| `Partitioning`, `KeyExprs`, `JoinKeys`, `GroupKeys` | distribution keys, and when evaluating a join, a grouping or windows part by part is correct |
| `QueryText`, `PlanRoundTrip`, `PlanMeaning`, `PlanMeaningExact`, `FromScopes`, `FromRegrouping` | building a plan from a query and regenerating SQL from it |

## How to read the models

- The outcomes of database calls, of request conversion and of loads are parts of commands or actions, so that a
  statement about all runs covers every way they can fail.  Clocks, logging and status reports are left out.
- Expressions that the code does not look into have an arbitrary meaning, given by an environment.
- The lifecycle has one action for each access to shared state.  The phase map is scanned shard by shard, as the
  concurrent map does it.  `Config.exclusive` says whether the control plane refrains from assigning an epoch while
  a load of it is outstanding.
- The meaning of a query or a plan is relative to an arbitrary meaning of tables, joins and clauses; only nesting, the
  order of the clauses and the rows that limits keep are fixed.
- SQL text is a sequence of tokens.  Pieces that print themselves (expressions, select items, plain table factors)
  are single tokens; clauses, joins and nesting are not.  The parser of the model is independent of the generator.
- Days are numbers.  Names are compared without regard to ASCII case where the code does so.

## Where the code does not do what it is meant to do

Each of these has an exact condition under which the code does meet the promise, and most have a concrete input or
reachable state for which it does not.

- Pruning loses rows whose time is inside the day of a strict lower bound, rows without date, rows outside the wide
  scan, and rows on the day of a parameter in `dt = ?` or `dt <= ?` (`SoundAtExactlyWholeDays`,
  `WholeDatasetParityIff`, `ParameterComparisonSoundIff`).
- Ranges are kept per dataset, so that a self-join can lose rows (`SelfJoinParityIff`, `SelfJoinChangesResult`), and a
  dataset in a subquery is pruned by an outermost WHERE clause that is not about it: a bare `dt`, or one qualified by
  the same name, is enough (`NestedWholeIff`, `NestedDaysIff`, `NestedChangesResult`).
- A column qualified by the name of a dataset without alias does not resolve after the rewrite (`TransformBindsIff`,
  `QualifiedColumnIsLost`).
- A CTE with the name of a dataset is replaced by a scan of the dataset (`CallsAreMeantIff`, `CteIsReplaced`).
- A table in a WHEN or THEN arm is reported as replaced but is not (`DiscoveryAgreesIff`); a schema before a dataset
  name, and a sample, hints or a version after it, are lost (`ErasureRestoresIff`, `SchemaIsLost`).
- A producer that is spawned after its consumer silently has no channel (`CompleteIffProducersFirst`,
  `ConsumerFirstIsCut`).
- A failed epoch, a failed DROP and Shutdown leave a table behind for ever, so that its name cannot be loaded again
  (`OrphansOfRun`, `OrphanForever`, `OrphanBlocksName`).
- Dataset ids with a double underscore, or an underscore at the end, are confused (`PrefixExactIff`,
  `EpochKeyExactIff`, `PrefixConfusesDatasets`).
- An eviction that is marked after the phase check of the load is lost, or leaves the epoch stuck
  (`MarkHonouredIff`, `StuckForever`); duplicated assignments can publish an epoch without table
  (`ActiveHasTableIff`); assigning a loaded epoch again takes it out of the report, although the engine keeps it
  (`ReportedAfterIff`, `StaysReportedIff`); a load whose macro update fails is reported as failed, but its entry and
  table stay (`UnregisteredLoadRuns`).
- `wait_for_drain` is documented to wait for all loads; it does not wait for those being evicted (`ReturnsEarlyIff`),
  and it can hang when it is called before Drain (`NoLostWakeupIff`).
- Join keys are attributed by names that aliases hide (`EqualityKeyAgreesIff`, `EqualityJoinByPartsIff`); windows that
  are named or inside a cast are passed over, although a comment says that named windows count as unpartitioned
  (`ReachesAllIff`, `NamedWindowIsPassedOver`).
- Regenerated SQL drops DISTINCT, NATURAL, ORDER BY ALL, QUALIFY, the WINDOW clause, LATERAL, the match condition of an
  ASOF join and a HAVING without aggregation (`RoundTripIff`, `PlanKeepsRowsIff`, `RewritingKeepsRowsIff`,
  `DistinctIsDropped`), and regroups later FROM items, which can make a column ambiguous or add rows
  (`RegroupBindsIff`, `UsingSharedIsAmbiguous`, `RegroupingIsSafeIff`).

## Model

| member | source | states |
|---|---|---|
| `Intervals.IsEmptyExact` | src/worker-storage/src/sql/interval.rs:115-129 | with literal bounds, `is_empty` holds exactly of the intervals that contain no day |
| `Intervals.EmptyOnlyByLiterals` | src/worker-storage/src/sql/interval.rs:115-129 | emptiness is claimed exactly of intervals between two literals that contain no day, and never of one with a parameter |
| `Intervals.EmptySide` | src/worker-storage/src/sql/interval.rs:138-189 | an empty side turns an intersection into the wide scan reversed and leaves the other side of a union |
| `Intervals.IntersectExact` | src/worker-storage/src/sql/interval.rs:138-157 | with literal bounds, intersection contains exactly the days of both sides |
| `Intervals.IntersectKeeps` | src/worker-storage/src/sql/interval.rs:138-157 | whatever values the parameters get, intersection loses no common day |
| `Intervals.UnionIsLeastCover` | src/worker-storage/src/sql/interval.rs:162-189 | with literal bounds, union covers both sides and lies in every interval that covers both |
| `Intervals.UnionLosesParameterDays` | src/worker-storage/src/sql/interval.rs:162-189 | with parameters it can lose a day of one side |
| `Intervals.UnionHoldsIff` | src/worker-storage/src/sql/interval.rs:162-189 | two half-bounded ranges are both inside their union, for all parameter values, exactly when their bounds are equal or both literal |
| `Intervals.IntersectionExactIff` | src/worker-storage/src/sql/interval.rs:138-157 | two half-bounded ranges are intersected exactly, for all parameter values, if and only if their bounds are equal or both literal |
| `Intervals.MixedBounds` | src/worker-storage/src/sql/interval.rs:40-60 | where a literal meets a parameter, an intersection starts at the parameter and ends at the literal, a union the reverse |
| `Intervals.ParameterBounds` | src/worker-storage/src/sql/interval.rs:40-60 | where two parameters meet, their names decide |
| `Intervals.NamesByFirstDifference` | src/worker-storage/src/sql/interval.rs:40-60 | names are ordered by the first character in which they differ |
| `Intervals.PointExact` | src/worker-storage/src/sql/interval.rs:89-104 | a point contains its own day, except the last day of the calendar, for which it is empty |
| `Predicates.AnalyzerSound` | src/worker-storage/src/sql/boolean_analyzer.rs:60-198 | if a WHERE clause of any shape is TRUE on a joined row, the interval found for a table is the universe or contains the date of that row |
| `Predicates.AnalyzerExact` | src/worker-storage/src/sql/boolean_analyzer.rs:60-198 | for conjunctions of literal bounds on the time column the interval contains exactly the dates that satisfy the clause |
| `PredicateDays.AnalyzerDays` | src/worker-storage/src/sql/boolean_analyzer.rs:60-198 | for every clause without parameters the interval holds exactly the days of the clause: comparisons have the days on which they are TRUE, AND intersects, OR takes the convex hull, and everything else has all days |
| `PredicateDays.AnalyzerTight` | src/worker-storage/src/sql/boolean_analyzer.rs:78-94 | for disjunctions of date ranges no smaller interval would do: every interval that holds all days on which the clause is TRUE covers the one found |
| `PredicateDays.ComparisonDaysIff` | src/worker-storage/src/sql/boolean_analyzer.rs:272-285 | a comparison with a date has exactly its days unless the date is the last of the calendar and the operator is `=`, `>` or `<=` |
| `Predicates.TimeColumnIff` | src/worker-storage/src/sql/boolean_analyzer.rs:201-219 | a reference that resolves is taken for the time column exactly when it denotes that column of that table |
| `Predicates.SoundAtExactlyWholeDays` | src/worker-storage/src/sql/boolean_analyzer.rs:272-285 | of all stored times, the analysis of every clause is sound for exactly the whole days that have a successor and the hours of the last day |
| `Predicates.UnsoundAt` | src/worker-storage/src/sql/boolean_analyzer.rs:60-198 | the two families of stored times that a strict lower bound, or an equality on the last day, loses |
| `Predicates.ParameterComparisonSoundIff` | src/worker-storage/src/sql/boolean_analyzer.rs:60-198 | a comparison of the time column with a parameter is analyzed soundly, for all days and parameters, exactly when it is not `<=` or `=` |
| `Predicates.ParameterDays` | src/worker-storage/src/sql/boolean_analyzer.rs:113-190 | the days of a comparison with a parameter: from the parameter on for `>` and `>=`, before it for `<` and `<=`, none for `=` |
| `Parity.ExtractIntervals` | src/worker-storage/src/sql/boolean_analyzer.rs:35-54 | the loop over the table references yields the range map that the rewrite uses |
| `Parity.JoinParity` | src/worker-storage/src/sql/transformer.rs:304-321 | rows that can still pass the filters of an inner, left, right or full join depend only on the rows of its inputs that can |
| `Parity.TreeParity` | src/worker-storage/src/sql/transformer.rs:304-350 | a whole tree of joins yields, pruned or not, the same rows that can still pass the filters |
| `Parity.ParityFromGuards` | src/worker-storage/src/sql/transformer.rs:139-212 | the rewrite keeps the result whenever every row the WHERE clause accepts is accepted by the scans |
| `Parity.RewriteBindsIff` | src/worker-storage/src/sql/transformer.rs:418-443 | in two scopes that differ by renamed relations, a reference still resolves exactly when it is not qualified by a name that was lost |
| `ParityLimits.TransformBindsIff` | src/worker-storage/src/sql/transformer.rs:418-443 | a reference that resolves in a query resolves in the transformed query exactly when it is not qualified by the name of a dataset without alias |
| `ParityLimits.QualifiedColumnIsLost` | src/worker-storage/src/sql/transformer.rs:418-443 | `sales.dt` in a query on `sales` is such a reference |
| `Parity.FilterImpliesGuards` | src/worker-storage/src/sql/boolean_analyzer.rs:35-54 | a row that satisfies the WHERE clause is kept by the scan of every table |
| `Parity.RangeAt` | src/worker-storage/src/sql/transformer.rs:188-197 | a dataset that occurs once is scanned with the range found for that occurrence |
| `Parity.BlockParity` | src/worker-storage/src/sql/transformer.rs:304-350 | the same for one block rewritten with any ranges that are not narrower than those its own WHERE clause gives |
| `Parity.SemanticParity` | src/worker-storage/src/sql/mod.rs:15-20 | the rewritten query returns exactly the rows of the original one, for all joins, clauses and table contents that meet the stated conditions |
| `ParityNested.NestedSemanticParity` | src/worker-storage/src/sql/mod.rs:15-20 | the same for queries with subqueries, derived tables and CTEs at any depth, whose blocks are all rewritten with the ranges of the outermost WHERE clause |
| `Parity.OneDatasetIsSupported` | src/worker-storage/src/sql/transformer.rs:139-212 | a query on one dataset with whole-day dates meets those conditions unless it qualifies a column by a name that the rewrite takes away |
| `ParityLimits.WholeDatasetParityIff` | src/worker-storage/src/engine/duckdb/helper.rs:217-306 | reading a whole dataset survives the rewrite exactly when every stored date is non-null and inside the wide scan |
| `ParityLimits.SelfJoinParityIff` | src/worker-storage/src/sql/transformer.rs:188-197 | for `d a JOIN d b WHERE A AND B` with date bounds A on a and B on b: the rewrite keeps the result for all contents exactly when every day of A in the wide scan is a day of B, or B has no such day |
| `ParityLimits.SelfJoinChangesResult` | src/worker-storage/src/sql/transformer.rs:188-197 | a self-join whose transformed query returns something else |
| `ParityNested.NestedWholeIff` | src/worker-storage/src/sql/transformer.rs:170-197 | a subquery that reads a whole dataset keeps its answer for all dated contents exactly when the range from the outermost WHERE clause starts no later and ends no earlier than the wide scan |
| `ParityNested.NestedDaysIff` | src/worker-storage/src/sql/transformer.rs:170-197 | a subquery with date bounds of its own keeps its answer for all whole-day contents exactly when every day of the wide scan it asks for is in that range |
| `ParityNested.NestedChangesResult` | src/worker-storage/src/sql/transformer.rs:170-197 | a query with EXISTS whose outer `dt` prunes the dataset of the subquery and changes the result |
| `ParityNested.UnrelatedClauseKeepsNested` | src/worker-storage/src/sql/transformer.rs:170-197 | a subquery keeps its answer when the outermost clause compares no column named like the time column, bare or qualified by the table |
| `StageGraph.BlockedIffDefective` | src/worker-storage/src/ldp/executor/coordinator.rs:665-743 | some stage can never be released exactly when the graph has a cycle or an edge from a missing stage |
| `StageGraph.LevelIsLongestChain` | src/worker-storage/src/ldp/executor/coordinator.rs:665-743 | the level of a stage is the length of the longest chain of edges that ends in it |
| `StageGraph.ReleasedIffUnblocked` | src/worker-storage/src/ldp/executor/coordinator.rs:727-740 | what the release loop leaves over is exactly the set of blocked stages |
| `Scheduler.CountDependencies` | src/worker-storage/src/ldp/executor/coordinator.rs:674-684 | the in-degrees count the edges into each stage |
| `Scheduler.ReleaseDependents` | src/worker-storage/src/ldp/executor/coordinator.rs:706-720 | decrementing along the edges of a finished stage never underflows and queues exactly the stages that become ready |
| `Scheduler.ComputeExecutionLevels` | src/worker-storage/src/ldp/executor/coordinator.rs:665-743 | Ok exactly for unique ids, no cycle and no missing source; then every stage is once at its longest-chain level; otherwise the error lists exactly the blocked stages |
| `Scheduler.TopologicalOrder` | src/worker-storage/src/ldp/types.rs:614-655 | lists exactly the stages that are not blocked, once each, sources first and by non-decreasing longest chain |
| `StageExecution.SourceBelow` | src/worker-storage/src/ldp/executor/coordinator.rs:763-884 | every source of a stage is on an earlier level |
| `StageExecution.ExecuteLevels` | src/worker-storage/src/ldp/executor/coordinator.rs:763-884 | whatever fails, every stage is submitted at most once and with all inputs present; without failure all stages run, and otherwise the first failure is reported and no level above it is submitted |
| `StageExecution.SubmitLevel` | src/worker-storage/src/ldp/executor/coordinator.rs:918-1059 | all stages of a level are submitted against the outputs of the levels below |
| `StageExecution.SchedulersAgree` | src/worker-storage/src/ldp/types.rs:614-655 | for every k, the topological order starts with a reordering of the first k levels |
| `Pipeline.ResolveInputs` | src/worker-storage/src/ldp/executor/coordinator.rs:1282-1318 | takes the receivers of a stage, failing exactly on a missing or already consumed exchange |
| `Pipeline.WirePipeline` | src/worker-storage/src/ldp/executor/coordinator.rs:1113-1154 | fails exactly when the inputs of the plan cannot be resolved, and otherwise gives each exchange to its consumer |
| `Pipeline.SenderKeptIff` | src/worker-storage/src/ldp/executor/coordinator.rs:1321-1339 | a producer keeps its channel exactly when it is spawned before its consumer |
| `Pipeline.CompleteIffProducersFirst` | src/worker-storage/src/ldp/executor/coordinator.rs:1113-1154 | in a well-formed plan all channels are connected exactly when stages are listed producers first |
| `Pipeline.ConsumerFirstIsCut` | src/worker-storage/src/ldp/executor/coordinator.rs:1113-1154 | a well-formed plan of two stages, listed consumer first, is wired without its sender |
| `EpochKeys.FirstPartIff` | src/worker-storage/src/engine/duckdb/memory_duckdb_runtime.rs:428-441 | the first part of a key is the dataset id exactly for ids without separator inside or underscore at the end |
| `EpochKeys.EpochKeyInjective` | src/worker-storage/src/engine/duckdb/helper.rs:9-11 | keys of such ids determine dataset and epoch |
| `EpochKeys.EpochKeyExactIff` | src/worker-storage/src/engine/duckdb/helper.rs:9-11 | an id shares no key with another such id exactly when it is such an id itself |
| `EpochKeys.SharedKeyIff` | src/worker-storage/src/engine/duckdb/helper.rs:9-11 | two ids have a key in common exactly when one, with its separator, begins with the other |
| `EpochKeys.PrefixIff` | src/worker-storage/src/engine/duckdb/memory_duckdb_runtime.rs:411-426 | prefix matching selects exactly the keys of the dataset, for such ids |
| `EpochKeys.PrefixExactIff` | src/worker-storage/src/engine/duckdb/memory_duckdb_runtime.rs:411-426 | a dataset lists no epoch of another such dataset exactly when its id is such an id |
| `EpochKeys.PrefixConfusesDatasets` | src/worker-storage/src/engine/duckdb/memory_duckdb_runtime.rs:411-426 | without that condition a dataset lists the epochs of another one |
| `EngineRuns.StepKeepsInv` | src/worker-storage/src/engine/duckdb/memory_duckdb_runtime.rs:131-206 | every command, whatever the database answers, keeps tables, row counts and reply channels consistent |
| `EngineRuns.RunInvariant` | src/worker-storage/src/engine/duckdb/memory_duckdb_runtime.rs:131-206 | the invariant holds after every run; after Shutdown nothing is in progress |
| `EngineRuns.AnsweredOnce` | src/worker-storage/src/engine/duckdb/memory_duckdb_runtime.rs:131-206 | every received StartEpoch is answered at most once, is answered unless its epoch is in progress, and always after Shutdown |
| `EngineRuns.FinishAnswers` | src/worker-storage/src/engine/duckdb/memory_duckdb_runtime.rs:297-375 | finishing an epoch answers its caller once, with success exactly if the epoch is committed |
| `EngineHistory.CommittedTablesFaithful` | src/worker-storage/src/engine/duckdb/memory_duckdb_runtime.rs:254-375 | after every run each committed table holds exactly the rows sent for its epoch during the load that committed it, from the start that opened it to its finish, in order, and its metadata counts them |
| `EngineHistory.LoadIsUnique` | src/worker-storage/src/engine/duckdb/memory_duckdb_runtime.rs:254-375 | that load is determined by the run |
| `EngineHistory.KeysDecode` | src/worker-storage/src/engine/duckdb/memory_duckdb_runtime.rs:411-449 | after every run with clean dataset ids, listing and statistics attribute every committed epoch correctly |
| `EngineStatistics.StatsFaithful` | src/worker-storage/src/engine/duckdb/memory_duckdb_runtime.rs:428-449 | after every run with clean dataset ids the statistics of a committed epoch name its dataset and epoch, and give the number of rows sent for it and the bytes measured at its finish |
| `EngineStatistics.MetricsStep` | src/worker-storage/src/engine/duckdb/memory_duckdb_runtime.rs:451-489 | a command counts a flush exactly when it moves a buffer into a table, and as many rows as that table grows by; the gauges count the epochs |
| `EngineStatistics.GaugesFollow` | src/worker-storage/src/engine/duckdb/memory_duckdb_runtime.rs:201-203 | as long as the engine runs the gauges are the numbers of epochs in progress and committed |
| `EngineStatistics.RowsConserved` | src/worker-storage/src/engine/duckdb/memory_duckdb_runtime.rs:451-489 | while no flush fails and nothing is dropped, the rows counted as written are the rows in the tables |
| `EngineStatistics.BuffersBounded` | src/worker-storage/src/engine/duckdb/memory_duckdb_runtime.rs:254-295 | after every run an epoch holds back fewer rows than the flush threshold |
| `EngineStatistics.SchemasFollow` | src/worker-storage/src/engine/duckdb/memory_duckdb_runtime.rs:171-174 | the schema of a dataset is known from its first accepted load on and is that of the last one |
| `EnginePaths.LoadCommits` | src/worker-storage/src/engine/duckdb/memory_duckdb_runtime.rs:210-375 | from any running state, a load that meets no error commits its epoch with the rows of all batches in order, wherever the threshold cuts them, and answers its caller; an empty one is refused; nothing else changes |
| `EnginePaths.DropUndoesLoad` | src/worker-storage/src/engine/duckdb/memory_duckdb_runtime.rs:377-409 | dropping the epoch then restores epochs and tables |
| `EngineIsolation.EpochIsolation` | src/worker-storage/src/engine/duckdb/memory_duckdb_runtime.rs:141-147 | with a table and channel of its own, an epoch sees the same status, rows and answers whatever commands for other epochs are interleaved |
| `EngineIsolation.RunRefinesEpoch` | src/worker-storage/src/engine/duckdb/memory_duckdb_runtime.rs:131-206 | what an epoch sees of a run is what a machine of this epoch alone does with its own commands |
| `EngineOrphans.OrphanStepIff` | src/worker-storage/src/engine/duckdb/memory_duckdb_runtime.rs:131-206 | after any command a table without owner is one that had none before, or the one that this command abandons: a failed finish, a DROP that fails, or Shutdown |
| `EngineOrphans.OrphansOfRun` | src/worker-storage/src/engine/duckdb/memory_duckdb_runtime.rs:131-206 | after every run the tables without owner are exactly those that some command of the run abandoned |
| `EngineOrphans.CommitsIff` | src/worker-storage/src/engine/duckdb/memory_duckdb_runtime.rs:297-375 | a finish commits its epoch exactly when no flush failed, at least one row was sent and the schema query succeeds |
| `EngineOrphans.OrphanForever` | src/worker-storage/src/engine/duckdb/memory_duckdb_runtime.rs:377-409 | no later command removes or changes such a table |
| `EngineOrphans.OrphanBlocksName` | src/worker-storage/src/engine/duckdb/memory_duckdb_runtime.rs:210-252 | and every later start under its name is rejected |
| `Engine.AppendBatches` | src/worker-storage/src/engine/duckdb/memory_duckdb_runtime.rs:464-480 | appending batches one by one stores the prefix of the rows up to the failure |
| `Engine.DuckDBEngine.FlushPendingBatches` | src/worker-storage/src/engine/duckdb/memory_duckdb_runtime.rs:451-489 | counters and metrics move only after a successful flush |
| `Engine.DuckDBEngine.OnStartEpoch` | src/worker-storage/src/engine/duckdb/memory_duckdb_runtime.rs:210-252 | refines the start step |
| `Engine.DuckDBEngine.OnIngestBatch` | src/worker-storage/src/engine/duckdb/memory_duckdb_runtime.rs:254-295 | refines the ingest step |
| `Engine.DuckDBEngine.OnFinishEpoch` | src/worker-storage/src/engine/duckdb/memory_duckdb_runtime.rs:297-375 | refines the finish step |
| `Engine.DuckDBEngine.OnDropEpoch` | src/worker-storage/src/engine/duckdb/memory_duckdb_runtime.rs:377-409 | refines the drop step; succeeds exactly for a committed, not loading epoch whose DROP succeeds |
| `Engine.DuckDBEngine.OnShutdownRequest` | src/worker-storage/src/engine/duckdb/memory_duckdb_runtime.rs:181-193 | draining in any order tells every waiting caller once |
| `Engine.DuckDBEngine.OnListEpochs` | src/worker-storage/src/engine/duckdb/memory_duckdb_runtime.rs:411-426 | lists the views of exactly the committed keys with the prefix, one for each key |
| `Engine.DuckDBEngine.OnMemoryStats` | src/worker-storage/src/engine/duckdb/memory_duckdb_runtime.rs:428-449 | one entry for each committed epoch, with the dataset, epoch, rows and bytes of each key of a clean id, and the sum of their bytes |
| `Engine.DuckDBEngine.EngineMain` | src/worker-storage/src/engine/duckdb/memory_duckdb_runtime.rs:131-206 | the command loop computes the run of the model and keeps its invariant, up to the first Shutdown |
| `LifecycleKeys.StepRefines` | src/worker-cp/src/runtime_dispatcher.rs:206-491 | every action of a command or task is a step of the machine of one epoch and leaves all other epochs alone |
| `LifecycleKeys.EpochInvariant` | src/worker-cp/src/runtime_dispatcher.rs:232-240 | in every interleaving a Loading phase has a task or a command that will change it; without duplicated loads an epoch has one outstanding task and the stated phases, entry and table |
| `LifecycleEviction.ActiveHasTable` | src/worker-cp/src/runtime_dispatcher.rs:139-145 | without duplicated loads every epoch that is reported as loaded has its entry and table |
| `LifecycleEviction.ActiveHasTableIff` | src/worker-cp/src/runtime_dispatcher.rs:286-396 | that holds in all reachable states exactly when loads are not duplicated |
| `LifecycleEviction.DuplicateLosesTable` | src/worker-cp/src/runtime_dispatcher.rs:242-262 | a duplicate assignment that cannot be converted leads to an Active epoch without table |
| `LifecycleReported.ReportedAfterIff` | src/worker-cp/src/runtime_dispatcher.rs:232-240 | while it is not evicted, a reported epoch stays in the engine, and it is reported at the end of a run exactly when no assignment in the run has overwritten its phase |
| `LifecycleReported.StaysReportedIff` | src/worker-cp/src/runtime_dispatcher.rs:208-262 | it stays reported in all such runs exactly when drain mode is active and no command about it is under way |
| `LifecyclePaths.LoadCompletes` | src/worker-cp/src/runtime_dispatcher.rs:206-350 | from any state that is not draining, an undisturbed load makes its epoch Active with entry and table, returns its permit and touches nothing else |
| `LifecyclePaths.BrokenLoadRuns` | src/worker-cp/src/runtime_dispatcher.rs:401-417 | a failed load leaves no phase, and of the engine only a table that was created |
| `LifecyclePaths.UnregisteredLoadRuns` | src/worker-cp/src/runtime_dispatcher.rs:362-382 | a load whose macro update fails leaves entry and table but no phase |
| `LifecyclePaths.EvictionRemoves` | src/worker-cp/src/runtime_dispatcher.rs:440-450 | an eviction of an Active epoch takes away phase and entry, and the table if the drop succeeds |
| `LifecyclePaths.EvictionInFlight` | src/worker-cp/src/runtime_dispatcher.rs:299-327 | an eviction during a load makes the task itself take them away |
| `LifecyclePaths.LoadThenEvict` | src/worker-cp/src/runtime_dispatcher.rs:206-472 | loading an unknown epoch and evicting it changes nothing but the notification for the waiter |
| `LifecyclePaths.ReportFollows` | src/worker-cp/src/runtime_dispatcher.rs:503-509 | the load adds exactly this epoch to the report and the eviction removes exactly this one |
| `LifecycleEviction.EvictionHonoured` | src/worker-cp/src/runtime_dispatcher.rs:292-327 | an eviction marked before the phase check: in every continuation the epoch stays Evicting until the task removes it, the entry too if the load succeeded and the table if the drop did |
| `LifecycleEviction.MarkHonouredIff` | src/worker-cp/src/runtime_dispatcher.rs:429-436 | an eviction that found the epoch Loading removes it in all continuations exactly when the task has not decided to publish |
| `LifecycleEviction.LostEvictionIsReachable` | src/worker-cp/src/runtime_dispatcher.rs:299-350 | the eviction can come after that decision, and is then overwritten |
| `LifecycleEviction.StuckForever` | src/worker-cp/src/runtime_dispatcher.rs:437-439 | an epoch that is marked with no task left stays Evicting for ever, its table stays, and later commands for it are ignored |
| `LifecycleEviction.LateMarkSticks` | src/worker-cp/src/runtime_dispatcher.rs:427-436 | a mark written after the last update of the task leaves the epoch stuck |
| `LifecycleEviction.StuckIsReachable` | src/worker-cp/src/runtime_dispatcher.rs:427-436 | a stuck epoch with a table is reachable |
| `LifecycleDrain.DrainOnlyShrinks` | src/worker-cp/src/runtime_dispatcher.rs:208-225 | in drain mode the set of Loading epochs only shrinks |
| `LifecycleDrain.DrainTakesEffect` | src/worker-cp/src/runtime_dispatcher.rs:477-491 | after a Drain command, whatever was going on when it came, drain mode is active and in every run no epoch becomes Loading and no load task is added |
| `LifecycleDrain.DrainingIff` | src/worker-cp/src/runtime_dispatcher.rs:477-491 | drain mode is active exactly when a Drain command has been received |
| `LifecycleReturn.DrainCanComplete` | src/worker-cp/src/runtime_dispatcher.rs:162-182 | from every reachable state Drain and wait can be completed: some continuation ends every load and lets the waiter return |
| `LifecycleDrain.DrainInvariant` | src/worker-cp/src/runtime_dispatcher.rs:167-182 | the invariant of the waiter over all interleavings, with a scan that reads the phase map shard by shard |
| `LifecycleDrain.ReturnMeansNothingLoading` | src/worker-cp/src/runtime_dispatcher.rs:167-182 | a waiter called in drain mode returns only when nothing is Loading, and nothing will be |
| `LifecycleDrain.ParkedCanBeWoken` | src/worker-cp/src/runtime_dispatcher.rs:416-417 | a parked waiter without stored notification has a task that has yet to notify, and some task can go on |
| `LifecycleDrain.NoLostWakeupIff` | src/worker-cp/src/runtime_dispatcher.rs:167-182 | every parked waiter has a task that can go on exactly if it was called in drain mode |
| `LifecycleDrain.DrainIsBounded` | src/worker-cp/src/runtime_dispatcher.rs:264-418 | in drain mode only a bounded number of task actions is left |
| `LifecycleDrain.ParkedIsWoken` | src/worker-cp/src/runtime_dispatcher.rs:264-418 | after that many task actions the waiter is no longer parked |
| `LifecycleDrain.PermitsConserved` | src/worker-cp/src/runtime_dispatcher.rs:264-272 | permits are conserved: at most the configured number of loads runs |
| `LifecycleReturn.ReturnLeavesOnlyEvicting` | src/worker-cp/src/runtime_dispatcher.rs:162-182 | loads that are still running at the return belong to epochs being evicted |
| `LifecycleReturn.ReturnsEarlyIff` | src/worker-cp/src/runtime_dispatcher.rs:162-182 | before a call in drain mode, with no eviction to come: some run returns while a load is in flight exactly when the load of an epoch that is or is about to be marked is outstanding, and all that stays Loading can end without its permit |
| `LifecycleReturn.ReturnMeansLoadsOver` | src/worker-cp/src/runtime_dispatcher.rs:162-182 | with no such load, every return in every run leaves no load in flight |
| `LifecycleReturn.ReturnDuringLoad` | src/worker-cp/src/runtime_dispatcher.rs:167-182 | a reachable return while a load is in flight |
| `LifecycleDrain.EarlyWaiterCanHang` | src/worker-cp/src/runtime_dispatcher.rs:242-262 | a waiter called before Drain can miss its only wakeup |
| `LifecycleDrain.HungForever` | src/worker-cp/src/runtime_dispatcher.rs:167-182 | and then waits for ever |
| `Partitioning.JoinByParts` | src/worker-storage/src/ldp/planner/exchange.rs:262-294 | when matching rows are sent to the same part, an inner, left, right or full join by parts gives the same rows |
| `Partitioning.InnerByPartsIff` | src/worker-storage/src/ldp/planner/exchange.rs:262-294 | for inner joins that condition is also necessary |
| `Partitioning.GroupByParts` | src/worker-storage/src/sql/logical_plan.rs:63-79 | when groups are not split, grouping by parts gives the same rows, for every aggregate |
| `Partitioning.WindowsByParts` | src/worker-storage/src/sql/logical_plan.rs:119-136 | when no window partition is split, evaluating windows by parts gives the same rows |
| `JoinKeys.CollectTableNames` | src/worker-storage/src/sql/plan_builder.rs:801-829 | collects the names and aliases of a side, hidden base names included |
| `JoinKeys.ExtractEquiKeys` | src/worker-storage/src/sql/plan_builder.rs:432-501 | the two key lists that the walk over the ON clause pushes to |
| `JoinKeys.EquiKeysAgree` | src/worker-storage/src/sql/plan_builder.rs:451-501 | any pair of rows that makes the ON clause TRUE agrees on all extracted keys |
| `JoinKeys.EqualityKeyAgreesIff` | src/worker-storage/src/sql/plan_builder.rs:458-485 | for an equality of two columns, the pairs that make it TRUE agree on the key exactly when it compares columns of the two sides named like the key |
| `JoinKeys.EqualityJoinByPartsIff` | src/worker-storage/src/sql/plan_builder.rs:458-485 | under that condition, and no other, the inner join by parts equals the inner join for all rows, hash functions and numbers of parts |
| `JoinKeys.ApartIsWellAttributed` | src/worker-storage/src/sql/plan_builder.rs:527-533 | attribution by name is right when no visible relation shares a name with the other side |
| `JoinKeys.CrossEqualityIsKey` | src/worker-storage/src/sql/plan_builder.rs:458-485 | then every equality between the two sides gives its key |
| `JoinKeys.EquiKeysComplete` | src/worker-storage/src/sql/plan_builder.rs:451-501 | then the keys are those of all conjuncts that equate a visible column of one side with one of the other, in the order of the clause and once for each |
| `JoinKeys.ConjunctsTrue` | src/worker-storage/src/sql/plan_builder.rs:487-497 | an ON clause is TRUE exactly when all of its conjuncts are |
| `KeyExprs.LongNames` | src/worker-storage/src/sql/plan_builder.rs:508-524 | a name of two or more parts stands for the column of its last two |
| `KeyExprs.SameRefIff` | src/worker-storage/src/sql/logical_plan.rs:276-282 | references match exactly when some column may be named by both |
| `JoinKeys.HiddenNameMisleads` | src/worker-storage/src/sql/plan_builder.rs:807-829 | a base name hidden by an alias makes `t JOIN t AS b ON t.x = t.y` yield a wrong key |
| `JoinKeys.PartitionWiseJoin` | src/worker-storage/src/sql/plan_builder.rs:407-501 | for every ON clause, kind of join, hash function and number of parts, the join by parts equals the global join as a multiset, provided the names of the extracted keys identify columns on their sides |
| `JoinKeys.PartitionWiseUsing` | src/worker-storage/src/sql/plan_builder.rs:415-422 | the same for USING |
| `JoinKeys.UsingMatchesIff` | src/worker-storage/src/sql/plan_builder.rs:415-422 | rows match by USING exactly when they agree on all extracted keys and none is null |
| `GroupKeys.PartitionWiseGroupBy` | src/worker-storage/src/sql/plan_builder.rs:540-550 | grouping part by part after distribution by the extracted keys equals global grouping |
| `GroupKeys.PartitionWiseGroupAll` | src/worker-storage/src/sql/plan_builder.rs:542-547 | GROUP BY ALL has no keys, so that every grouping happens in one part |
| `GroupKeys.GroupKeysAreColumns` | src/worker-storage/src/sql/plan_builder.rs:548-549 | the keys are the columns among the expressions, each of them and nothing else |
| `GroupKeys.GroupKeysDecide` | src/worker-storage/src/sql/plan_builder.rs:548-549 | when all expressions are columns, rows share a group exactly when they share the keys |
| `GroupKeys.IntersectColumnRefs` | src/worker-storage/src/sql/plan_builder.rs:589-594 | keeps, in order, the references that match one of the other list |
| `GroupKeys.ExtractWindowKeys` | src/worker-storage/src/sql/plan_builder.rs:564-586 | the common keys of all visited windows |
| `GroupKeys.CommonKeysCovered` | src/worker-storage/src/sql/plan_builder.rs:564-594 | every common key is a partition column of every visited window |
| `GroupKeys.CommonKeysExact` | src/worker-storage/src/sql/plan_builder.rs:564-594 | the common keys are the columns of the first window that every other window has too, in the order of the first |
| `GroupKeys.PartitionWiseWindows` | src/worker-storage/src/sql/plan_builder.rs:564-594 | if the visitor reaches every window, evaluating them part by part equals global evaluation |
| `GroupKeys.ReachesAllIff` | src/worker-storage/src/sql/plan_builder.rs:597-646 | the visitor reaches every window exactly when none is named and none is inside an expression it does not enter |
| `GroupKeys.KeysFixedIff` | src/worker-storage/src/sql/plan_builder.rs:564-594 | rows of one window partition by columns agree on the keys exactly when every key is one of the columns |
| `GroupKeys.NamedWindowIsPassedOver` | src/worker-storage/src/sql/plan_builder.rs:552-563 | a named window does not empty the keys, contrary to the comment |
| `QueryText.QueryBack` | src/worker-storage/src/sql/stage_sql_gen.rs:379-604 | parsing the text of a query in normal form gives the query back at any nesting depth |
| `PlanRoundTrip.BuildTableWithJoins` | src/worker-storage/src/sql/plan_builder.rs:287-313 | the left-deep join tree of a FROM item |
| `PlanRoundTrip.BuildFromClause` | src/worker-storage/src/sql/plan_builder.rs:259-285 | cross joins of the FROM items |
| `PlanRoundTrip.BuildFromQuery` | src/worker-storage/src/sql/plan_builder.rs:69-122 | the plan of a query, with SELECT, ORDER BY and LIMIT; what it means is stated by `PlanKeepsRows` |
| `PlanRoundTrip.BuildsIff` | src/worker-storage/src/sql/plan_builder.rs:259-388 | building fails exactly when some SELECT has no FROM or some derived table no alias, at any depth, and reports the first of these |
| `PlanRoundTrip.GenerateSql` | src/worker-storage/src/sql/stage_sql_gen.rs:379-538 | appends the SQL of the plan to the buffer |
| `PlanRoundTrip.GenerateFromFragment` | src/worker-storage/src/sql/stage_sql_gen.rs:548-604 | appends the FROM fragment of the plan to the buffer |
| `PlanRoundTrip.GeneratedText` | src/worker-storage/src/sql/stage_sql_gen.rs:379-604 | the text generated from the plan of a query is the text of its normal form |
| `PlanRoundTrip.RoundTrip` | src/worker-storage/src/sql/stage_sql_gen.rs:731-735 | parsing the regenerated SQL gives the normal form of the query |
| `PlanRoundTrip.RoundTripIff` | src/worker-storage/src/sql/plan_builder.rs:199-253 | it gives the query itself exactly when the query is in normal form |
| `PlanRoundTrip.DistinctIsDropped` | src/worker-storage/src/sql/plan_builder.rs:199-253 | `SELECT DISTINCT a FROM t` comes back without DISTINCT |
| `PlanRoundTrip.KeywordsOnly` | src/worker-storage/src/sql/stage_sql_gen.rs:611-630 | a query in normal form but for the words of its joins comes back with the short words |
| `PlanRoundTrip.NormalizeIsIdempotent` | src/worker-storage/src/sql/stage_sql_gen.rs:379-604 | building and regenerating again changes nothing |
| `PlanRoundTrip.SubplanText` | src/worker-storage/src/sql/stage_sql_gen.rs:598-602 | the plan of a query in a FROM clause is written as a derived table `__subquery` |
| `PlanMeaning.LimitBuilt` | src/worker-storage/src/sql/plan_builder.rs:126-158 | LIMIT and OFFSET, `LIMIT skip, count` and FETCH keep in the plan the rows that they keep in the query, for all values |
| `PlanMeaning.PlanKeepsRows` | src/worker-storage/src/sql/plan_builder.rs:69-388 | whatever tables, joins and clauses mean, the plan of a query without clauses that the builder passes over has the rows of the query |
| `PlanMeaningExact.PlanKeepsRowsIff` | src/worker-storage/src/sql/plan_builder.rs:199-253 | that is so for all meanings exactly when no such clause occurs, at any depth |
| `PlanMeaning.RewritingKeepsRows` | src/worker-storage/src/sql/stage_sql_gen.rs:379-604 | the regenerated query has the rows of the original, in every meaning in which the join words agree |
| `PlanMeaningExact.RewritingKeepsRowsIff` | src/worker-storage/src/sql/stage_sql_gen.rs:379-604 | for all such meanings exactly when besides no NATURAL or match condition is lost and no later FROM item has joins of its own |
| `FromRegrouping.RegroupBindsIff` | src/worker-storage/src/sql/plan_builder.rs:259-285 | a FROM list that resolves as written resolves as regenerated exactly when no join of a later item names, bare or by USING, a column of an earlier item |
| `FromRegrouping.UsingSharedIsAmbiguous` | src/worker-storage/src/sql/plan_builder.rs:259-285 | `a, b JOIN c USING (k)` with k in all three is such a list |
| `FromRegrouping.RegroupingKeepsRows` | src/worker-storage/src/sql/plan_builder.rs:259-313 | without such a column, and with no right or full join in a later item, any FROM list has as regenerated the same visible names and the same rows in the same order |
| `FromRegrouping.RegroupingIsSafeIff` | src/worker-storage/src/sql/plan_builder.rs:259-313 | for lists of ON and cross joins, the regenerated clause resolves and has the rows of the original, for all contents and tests, exactly under these two conditions |
| `Discovery.TableDiscovery.VisitQuery` | src/worker-storage/src/sql/discovery.rs:76-90 | reports every registered table in order with its scope and restores the scopes, or fails exactly on INSERT or UPDATE |
| `Discovery.TableDiscovery.VisitBody` | src/worker-storage/src/sql/discovery.rs:93-117 | the same for set expressions |
| `Discovery.TableDiscovery.VisitScoped` | src/worker-storage/src/sql/discovery.rs:49-63 | a nested query is visited in scopes of its own: none of its tables gets the scope around it |
| `Discovery.TableDiscovery.VisitSelect` | src/worker-storage/src/sql/discovery.rs:120-144 | the same for FROM, WHERE, SELECT list and HAVING |
| `Discovery.TableDiscovery.VisitTableFactor` | src/worker-storage/src/sql/discovery.rs:165-199 | the same for table factors |
| `Discovery.TableDiscovery.VisitExpr` | src/worker-storage/src/sql/discovery.rs:202-267 | the same for subqueries in expressions |
| `Discovery.Transform` | src/worker-storage/src/sql/transformer.rs:139-212 | discovery, replacement map and rewrite together |
| `Discovery.ReplacedAreFound` | src/worker-storage/src/sql/transformer.rs:215-415 | the macro calls of the output are the registered tables outside the arms of CASE, in order |
| `Discovery.CallsCarryRanges` | src/worker-storage/src/sql/transformer.rs:418-443 | every macro call carries the range of its dataset |
| `DiscoveryText.TextIsDiscovered` | src/worker-storage/src/sql/discovery.rs:76-267 | the registered tables found are those of the text, each as often as it is written, and discovery fails exactly on a modification in the text |
| `Discovery.DiscoveryAgreesIff` | src/worker-storage/src/sql/transformer.rs:389-404 | the tables discovered are the tables replaced, in the same order, exactly when no registered table occurs in a WHEN or THEN arm |
| `Discovery.ArmTableIsKept` | src/worker-storage/src/sql/transformer.rs:389-404 | a table in such an arm is reported as replaced but left as it is |
| `Discovery.ErasureRestoresIff` | src/worker-storage/src/sql/transformer.rs:418-443 | erasing the macro calls gives the original query back exactly when no replaced table was written with a schema, a sample, hints or anything else attached |
| `Discovery.SchemaIsLost` | src/worker-storage/src/sql/transformer.rs:418-443 | a schema before a dataset name is not restored |
| `CteScopes.CallsAreMeantIff` | src/worker-storage/src/sql/discovery.rs:165-181 | the macro calls are the references that mean a dataset, in order, exactly when no reference to a registered name is in the scope of a CTE of that name |
| `CteScopes.CteIsReplaced` | src/worker-storage/src/sql/discovery.rs:165-181 | a reference to a CTE with a registered name becomes a macro call |

## Left out

- Predicates.AnalyzerSound: for clauses with parameters it asks that they occur only as lower or strict upper bounds and not below OR; for one comparison that condition is exact (`ParameterComparisonSoundIff`), for clauses with several parameters it is only sufficient.
- ParityNested.NestedSemanticParity: the answer of an inner block does not depend on the row of the outer block, so correlated subqueries are not covered; blocks that restrict a dataset to days outside its range are not either (for one subquery `NestedWholeIff` and `NestedDaysIff` are exact).
- Parity.SemanticParity: two occurrences of a dataset meet its condition only if the range of the last one is not narrower (`ParityLimits.SelfJoinParityIff` has the exact condition for two).
- CteScopes.CallsAreMeantIff: a CTE does not see itself; WITH RECURSIVE is not told apart.
- JoinKeys.PartitionWiseJoin: asks that the column name of each key occurs once on its side, because exchanges strip qualifiers; equality of SQL values is equality of model values, so that values which compare equal but hash differently (such as 1 and 1.0) are not modelled.
- GroupKeys.PartitionWiseGroupBy: asks that the column name of each key occurs once, because exchanges strip qualifiers; other columns may share names.
- GroupKeys.PartitionWiseWindows: the same for the common keys.
- PlanRoundTrip.RoundTrip: single-block queries; CTEs, set operations, parenthesised joins and stages that read from exchanges are not part of it.
- PlanMeaningExact.RewritingKeepsRowsIff: it ranges over all meanings, also those in which cross joins cannot be regrouped; what regrouping does to the rows of real joins is in `FromRegrouping`.
- PlanMeaning.LimitBuilt: PERCENT and WITH TIES of FETCH are not part of the model; the builder reads the quantity only.
- PredicateDays.AnalyzerDays: clauses with parameters are covered by the statements about single comparisons and pairs of bounds.
- FromRegrouping.RegroupingIsSafeIff: lists with USING or NATURAL joins are covered by `RegroupingKeepsRows` (and USING by `RegroupBindsIff`) but not by the equivalence: there a later comparison of columns can remove again the rows that a right join added.
- LifecycleDrain.ParkedCanBeWoken: one waiter, and a semaphore that is never closed, as in the program.
- Lifecycle: scan macro updates are steps without effect on phases, entries and tables.
- EngineModel: table contents are rows without columns; the size in bytes and the schema query are outcomes of a command.
- Rust integer widths: counters are unbounded, except where the code saturates.
- `adaptive.rs`, exchange planning and annotation, admission control, catalog and Flight transport, gRPC sessions and configuration: heuristics and plumbing.
