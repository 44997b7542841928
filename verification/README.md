# Verification of the batch execution engine

This Dafny project models the execution core of the batch framework - chunk steps, the job flow, the
concurrent launch of jobs, and the small data formats these rely on - and proves what the engine is
for: every item is accounted for, a restart goes on where the last checkpoint left off, two launches of
one instance never run at the same time, and what is printed is read back.

    dafny verify dfyconfig.toml

## How the model is built

- **Environment, ChunkStep, ChunkStepExecutor.** Reader, processor, writer, streams, listeners and the
  repository are an environment that answers from two finite lists, one for the reader and one for all
  other calls. Any terminating run against any components is the run of some such lists, and a run that
  dies anywhere is one whose next answer is an error, so a statement about all environments is a statement
  about all reachable states. The executor's loops are methods with invariants that compute exactly the
  recursive functions of `ChunkStep`; the properties are proved about those functions. The environment keeps
  books of its own (tally, trace, log) that the executor never reads. One thing is assumed of the components: a
  write whose transaction throws has been rolled back, so it leaves nothing in the log; `Restart.RestartExactlyOnce`
  counts on it.
- **PhaseRunner, Policies, StepOutcome, ChunkFrames, ChunkAccounting, ChunkCommits, InputLoss, ShareLoss, Partitions,
  PartitionRuns.** Skip and retry policies and backoff; how a step ends, with which error, which listeners told and
  which calls made; the counters against the books; the checkpoints of a run; which steps read their input, and
  which partitions their share, to the end; the partition split.
- **Restart, Checkpoint, DatabaseReaders, PagingRestart.** Any number of failed runs, each followed by a restart,
  for a plain reader (which is drained) and for a stream reader (which takes up its saved position); the framing
  of checkpoint keys; the buffered database readers, and the paging reader behind the stream reader.
- **FlowEvaluator, JobExecutor, FlowTermination, JobRestart.** Transition choice, the flow loop over a repository
  updated in place, exactly when the flow ends, and what becomes of a chunk step over any number of executions and
  restarts of its job.
- **LaunchProtocol, RestartRace, LaunchRepository, JobKey, JobKeyOrder, JobKeyText, JobKeyJson, JobLauncher.** The
  launch transaction as a transition system of interleaved statements, what a restart does to it, the same statements
  as one call, the canonical job key - its meaning, the order of its keys and its text -, and the identity of a launch
  and of a schedule fire.
- **OverlapSchedule, JsonValidator, Csv, FileReaders, CsvFile, CsvRestart, WorkerArgs.** The in-process overlap
  scheduler, the JSON check on arbitrary object graphs, CSV files and their reopening, and the command line of a
  batch worker.
- **Common, Text, Statuses.** Options and results, text helpers, and the status and overlap enumerations.

## Where the code and its comments differ

The model follows the code.

- Policies are compiled and the partition is resolved before the `try` block, so their errors leave `execute`
  instead of becoming a FAILED step (packages/core/src/execution/chunk-step-executor.ts:149-194).
- With a partition a chunk's cap is the whole remaining budget; the chunk size plays no part
  (packages/core/src/execution/chunk-step-executor.ts:275-286).
- A chunk whose reads were all skipped ends the step as COMPLETED, whether or not the reader has more
  (packages/core/src/execution/chunk-step-executor.ts:342-350): `InputLoss.OneSkipLosesTheRest` is such a run, and
  `InputLoss.ReadsToTheEndIff` says which configurations allow none - those without a skip policy, with a skip
  limit below the chunk size, or with a policy that matches no error. A partition makes up for skipped reads once
  only, so it may end COMPLETED short of its share; `ShareLoss.ReadsItsShareIff` says exactly when it cannot.
- A stream whose close throws ends the closing: the streams opened before it stay open, and the step reports the
  error of the close instead of the one it failed with (packages/core/src/execution/chunk-step-executor.ts:505-521, `StepOutcome.StepEndsRight`).
- An explicit END on a FAILED step makes the job COMPLETED (packages/core/src/execution/job-executor.ts:337-340).
- The definition check looks for cycles along transitions only; together with declaration order an accepted
  job may run for ever: `JobExecutor.AcyclicTransitionsMayLoop` is one, and `FlowTermination.FlowEndsIff` says
  exactly which do - those with a reachable cycle of edges that the loop can follow. What a step can return counts
  there: of itself only COMPLETED or FAILED, anything if an after-step listener may change its result.
- A restart begins at the start step and resumes FAILED chunk steps only; a step that COMPLETED runs again from
  nothing and commits its outputs once more (packages/core/src/execution/job-executor.ts:154, 178-186).
  `JobRestart.RepeatsIff` says exactly when chunks are checkpointed twice.
- Restart and operator stop do not take the launch lock. A restart beside a running execution, or while a launch
  is past its check, ends with two executions running (`RestartRace.RestartBesideRunning`,
  `RestartRace.RestartPastCheck`); `LaunchProtocol.RestartExclusiveIff` proves that these are the only two ways,
  over everything that may follow.
- The JSON check rejects `undefined` inside arrays, which its comment calls omitted, and rejects a shared object
  as a circular one (packages/core/src/core/execution-context/validator.ts:13-27, 70-84).
- A leading byte order mark is dropped on reading but may be written: `CsvFile.FileRoundTripIff`.
- Non-finite numbers print as null in the job key, so parameters of different meaning share a key. Exactly the
  values with a non-finite number anywhere, or with nothing in a list, collide: `JobKeyText.NonFiniteCollides`.
- The CSV writer keeps whether its header is written apart from the file. Reopened from a context saved before
  its first write it appends the header again; and as it notes the header before it appends, a first append that
  throws and is retried leaves the file without one (packages/core/src/io/file-writers.ts:51-68).
  `CsvRestart.HeaderOnceIff` says exactly when the file has its one header in front.
- The file readers move on before they map a line: a mapping that throws and is retried - malformed JSON in a JSONL
  file, for one - loses its line without a trace (packages/core/src/io/file-readers.ts:36-43, 101-113):
  `FileReaders.ReadOn`, `FileReaders.ReadRowsOn`.
- The database paging reader takes a negative saved offset as it is; the CSV reader throws at a negative index and
  moves on.

## Model

| member | source | states |
|---|---|---|
| PhaseRunner.ExecuteAttempt | packages/core/src/execution/chunk-step-executor.ts:638-703 | one pass of the attempt loop, branch by branch, computes the specified attempt |
| PhaseRunner.ExecutePhase | packages/core/src/execution/chunk-step-executor.ts:627-711 | the attempt loop with its outer cap refines the recursive phase |
| PhaseRunner.PhaseExplained | packages/core/src/execution/chunk-step-executor.ts:642-700 | every phase is determined by the errors its operation threw, in the configuration's words: each but the last is in no skip list, in the retry list and within the retry limit; the last is skipped within the skip limit, or raised as itself only if it is in neither list, or as the limit that is spent; calls, listeners told and time slept are exact; a failing listener ends the phase with its error |
| PhaseRunner.BudgetSpentIff | packages/core/src/execution/chunk-step-executor.ts:668-700 | a retryable error that is not to be skipped ends a phase if and only if it is the (limit + 1)-th, or the 999th, and then as the spent limit, or as attempts exhausted; nothing is retried without a retry policy |
| Policies.CompileKeeps | packages/core/src/policies/retry-policy.ts:29-57 | compiling fails exactly for a limit that is not positive, and keeps limits, matchers and backoff of the configuration |
| Policies.PausesOf | packages/core/src/policies/retry-policy.ts:33-47 | the pauses: none, always the fixed one, or the initial one and then the factor times the last, each cut at the cap |
| Policies.FixedBackoffSleeps | packages/core/src/policies/retry-policy.ts:37-38 | n retries with a fixed backoff sleep n times its pause |
| PhaseRunner.PhaseCost | packages/core/src/execution/chunk-step-executor.ts:631-681 | at most one call without a retry policy, at most min(limit + 1, 999) with one; time slept at most the pauses of min(limit, 999) retries |
| PhaseRunner.PhaseSleepCapped | packages/core/src/policies/retry-policy.ts:33-55 | with a capped exponential backoff a phase sleeps at most min(limit, 999) caps |
| PhaseRunner.PhaseFacts | packages/core/src/execution/chunk-step-executor.ts:644-702 | a success is booked once, an honoured skip once and within the limit, anything else not at all, listener failures included; a rolled back write leaves no trace in the log |
| Policies.CappedBackoff | packages/core/src/policies/retry-policy.ts:39-43 | n pauses of a capped backoff add up to at most n caps |
| Policies.GeometricBackoff | packages/core/src/policies/retry-policy.ts:39-43 | without a cap the pauses add up to the closed geometric sum |
| ChunkStepExecutor.DrainChunk | packages/core/src/execution/chunk-step-executor.ts:262-266 | the drain loop refines the recursive drain |
| ChunkStepExecutor.ReadChunk | packages/core/src/execution/chunk-step-executor.ts:300-341 | the read loop refines its specification, counters and end of input included |
| ChunkStepExecutor.ProcessChunk | packages/core/src/execution/chunk-step-executor.ts:354-404 | the process loop refines its specification, filtered items counted as skips |
| ChunkStepExecutor.WriteChunk | packages/core/src/execution/chunk-step-executor.ts:407-461 | the write stage refines its specification, reported and void results apart |
| ChunkStepExecutor.SaveCheckpoint | packages/core/src/execution/chunk-step-executor.ts:470-486 | chunk index, stream updates, save and reload in this order |
| ChunkStepExecutor.RunLoop | packages/core/src/execution/chunk-step-executor.ts:238-490 | the outer loop with drain passes, chunk passes and partition cap refines the recursive loop |
| ChunkStepExecutor.Execute | packages/core/src/execution/chunk-step-executor.ts:145-550 | a whole step execution refines the specification whose outcome `StepOutcome.StepEndsRight` characterises: compile, partition, open, loop, close, and the error path that ends FAILED |
| StepOutcome.StepEndsRight | packages/core/src/execution/chunk-step-executor.ts:145-550 | how every step ends, from what its environment saw: COMPLETED only if nothing threw but operations whose errors were skipped or retried, with every listener told, every checkpoint updated, saved and read back, and every stream opened and closed; else the error reported is a close's if one threw, or the one thrown outside of the operations, or what the policies make of the last operation's error; no stream stays open unless a close threw |
| StepOutcome.CompletedIsClean | packages/core/src/execution/chunk-step-executor.ts:490-504 | a COMPLETED step had no failed call, listener or close, and has closed as many streams as it opened |
| ChunkFrames.ProcessMakes | packages/core/src/execution/chunk-step-executor.ts:354-404 | with a processor that is a function, what a processed chunk adds is part of the outputs of its items, in order and filtered ones left out, no more missing than process skips counted; without a skip policy nothing is missing, whatever fails and is retried |
| ChunkFrames.CommitAccounts | packages/core/src/execution/chunk-step-executor.ts:470-478 | a checkpoint is logged exactly when the save went through, and nothing else of the books moves |
| ChunkAccounting.LoopAccounts | packages/core/src/execution/chunk-step-executor.ts:196-203 | from an exact state the loop ends with exact books, or it was cut short in its last pass, with at most one event of that pass missing from the counters |
| ChunkAccounting.RunAccounts | packages/core/src/execution/chunk-step-executor.ts:300-535 | for every configuration and every behaviour of the components: exact books at COMPLETED; at FAILED exact books with nothing in flight when the last pass began, and since then one event at most that is not counted, which happened in that pass |
| ChunkAccounting.FailedReports | packages/core/src/execution/chunk-step-executor.ts:300-535 | the four counters a FAILED step returns, from both sides: none below where the last pass began; reads and commits short by at most one, written by nothing or the one write of the pass, skips by at most one item or what that write reported; all that is missing is of one event |
| ChunkAccounting.InFlightOfLastPass | packages/core/src/execution/chunk-step-executor.ts:275-341 | the items a FAILED step loses sight of: none, or some of those its last pass read, at most the cap of that pass, all else being settled when it began; with a partition as without |
| ChunkAccounting.CompletedConserves | packages/core/src/execution/chunk-step-executor.ts:496-504 | at COMPLETED with a void writer: read = written + process-skipped + filtered + items of skipped writes, skipped is the sum of its four causes, commits = checkpoints |
| ChunkCommits.CommitsAreConsecutive | packages/core/src/execution/chunk-step-executor.ts:244-258 | in every run the checkpoints carry consecutive chunk indices from the first chunk not drained; the row remembers the last; commits of a COMPLETED step = last index + 1 - first, of a FAILED one that or one less |
| ChunkStep.PlanMadeIff | packages/core/src/execution/chunk-step-executor.ts:149-194 | a step is run exactly for positive limits and a partition index within its count whose range, if there is one, runs forwards; the budget is the length of that range |
| InputLoss.ReadsToTheEndIff | packages/core/src/execution/chunk-step-executor.ts:342-350 | for every step not bounded by a partition's range, every COMPLETED run has been told of the end by its reader if and only if the chunk size is positive and there is no skip policy, its limit is below the chunk size, or it matches no error |
| InputLoss.CompletesBeforeTheEnd | packages/core/src/execution/chunk-step-executor.ts:342-350 | whenever the limit allows a chunk of skipped reads, such a chunk ends the step COMPLETED with everything behind it unread |
| InputLoss.OneSkipLosesTheRest | packages/core/src/execution/chunk-step-executor.ts:342-350 | a concrete run that ends COMPLETED after one skipped read with three items never asked for |
| ShareLoss.ReadsItsShareIff | packages/core/src/execution/chunk-step-executor.ts:275-292 | for a share of b items, every COMPLETED run has read the whole share or been told of the end if and only if b is 0, there is no skip policy, its limit is below the smaller of b and 2, or it matches no error |
| ShareLoss.CompletesShortOfShare | packages/core/src/execution/chunk-step-executor.ts:342-350 | otherwise a run that ends COMPLETED one item short of its share, without having been told of an end |
| ChunkAccounting.SkipBudget | packages/core/src/execution/chunk-step-executor.ts:655-664 | however a run ends the policy granted at most `limit` skips over all phases, and the skip counter exceeds the limit by at most filtered plus writer-reported items |
| ChunkAccounting.SkipsWithinLimit | packages/core/src/execution/chunk-step-executor.ts:656-663 | right after a granted skip the counter is within the limit |
| ChunkAccounting.PartitionBounded | packages/core/src/execution/chunk-step-executor.ts:283-292 | a partitioned run never reads more than its share, in any reachable state |
| PartitionRuns.PartitionsReadAtMostTotal | packages/core/src/execution/chunk-step-executor.ts:168-194 | n partitions of the even split together read at most the total, whatever their components do |
| Partitions.SharesAbut | packages/core/src/partition-helpers.ts:129-131 | each share ends where the next begins, the first at 0, the last at the total |
| Partitions.SharesTile | packages/core/src/partition-helpers.ts:109-132 | every index below the total lies in exactly one share |
| Partitions.SharesEven | packages/core/src/partition-helpers.ts:129-131 | any two shares differ by at most one in size |
| Partitions.ShareSize | packages/core/src/partition-helpers.ts:129-131 | a share holds total / n items, rounded down or up |
| Partitions.BudgetsAddUp | packages/core/src/partition-helpers.ts:109-132 | the shares add up to exactly the total |
| Partitions.RangeGivenIff | packages/core/src/partition-helpers.ts:114-128 | a range is given exactly for an index within the count and a total that is not negative; the index is blamed before the total, and the count never |
| Partitions.EnforcedIff | packages/core/src/partition-helpers.ts:146-159 | the enforced index is exactly one that has a range, handed on as it is |
| Partitions.ShareStart | packages/core/src/partition-helpers.ts:129-130 | a share starts at i * total / n rounded down |
| Checkpoint.ReadAfterWrite | packages/core/src/io/checkpoint.ts:3-40 | a component reads back exactly what it wrote |
| Checkpoint.WriteFramesOtherKeys | packages/core/src/io/checkpoint.ts:32-40 | a write under one key is invisible under every other and to the chunk index |
| Checkpoint.ChunkIndexFramesStreams | packages/core/src/execution/chunk-step-executor.ts:130-141 | recording the chunk index is read back by a restart and disturbs no component |
| Checkpoint.ChunkIndexSurvivesIff | packages/core/src/execution/chunk-step-executor.ts:470-471 | the recorded index survives a component's update if and only if the component's key is another one |
| Checkpoint.LastCheckpointIff | packages/core/src/execution/job-executor.ts:531-545 | a restart finds a chunk index exactly if the context is a record with a number under lastChunkIndex |
| Checkpoint.NumberReadIff | packages/core/src/io/checkpoint.ts:12-21 | a component reads the number in its field, and its fallback for anything else |
| Restart.RestartOrder | packages/core/src/execution/chunk-step-executor.ts:244-270 | over any number of failed runs and restarts, plain or stream reader, each write and each checkpoint concerns the first chunk not yet checkpointed; a completed step has passed every chunk |
| Restart.RestartDelivers | packages/core/src/execution/chunk-step-executor.ts:407-489 | at least once, skip policy or none, for no processor or one that is a function of the item: at COMPLETED the writes followed by their checkpoint hold part of what the step makes of the input, in order, no more missing than process skips and items of skipped writes count; without a skip policy exactly all of it |
| Restart.RestartExactlyOnce | packages/core/src/execution/chunk-step-executor.ts:463-478 | for every step: the outputs committed over all runs are the confirmed ones, none twice, if and only if no run failed between write commit and checkpoint |
| Restart.RestartDeliversExactlyOnce | packages/core/src/execution/chunk-step-executor.ts:463-478 | without a skip policy a completed step has committed exactly what it makes of its input, without repetition, if and only if no run failed in that window |
| Restart.CheckpointNeverDecreases | packages/core/src/execution/job-executor.ts:178-196 | a restarted run leaves a chunk index at least as large as it was given, even if it commits nothing, and the stream position that belongs to it |
| Restart.RestartsFrom | packages/core/src/execution/job-executor.ts:178-196 | from any row that records f chunks the logs of all further runs form one history starting at chunk f |
| Restart.DrainReaches | packages/core/src/execution/chunk-step-executor.ts:244-270 | draining chunk by chunk brings a plain reader to exactly the first chunk not checkpointed, with nothing logged, saved or lost on the way, and the loop goes on from there |
| PagingRestart.ModelIsPlainReader | packages/core/src/io/database.ts:19-42 | the stream reader of the restart model answers, advances, saves and reopens as the plain reader that the paging reader refines |
| PagingRestart.ReopenAfterRestarts | packages/core/src/io/database.ts:19-46 | after any number of runs and restarts a paging reader opened from the last row answers as the plain reader at the first chunk not yet checkpointed, whatever is read, saved and reopened afterwards |
| DatabaseReaders.PagingReader.Read | packages/core/src/io/database.ts:25-38 | gives the row at the offset and advances by one, or null at the end and stays; holds after a close too |
| DatabaseReaders.PagingReader.Open | packages/core/src/io/database.ts:19-23 | takes up the saved offset, whatever it is, with an empty buffer |
| DatabaseReaders.PagingReader.Close | packages/core/src/io/database.ts:44-46 | loses no row although the buffer index is not reset |
| DatabaseReaders.DrivePaging | packages/core/src/io/database.ts:19-46 | any interleaving of reads, saves, closes, reopenings and other components' writes answers like a plain sequential reader, for any page sizes |
| DatabaseReaders.CursorReader.Read | packages/core/src/io/database.ts:79-89 | gives the row after the cursor and moves the cursor to it, or null at the end |
| DatabaseReaders.DriveCursor | packages/core/src/io/database.ts:68-97 | the same refinement for the cursor reader |
| DatabaseReaders.OrderedTableFollows | packages/core/src/io/database.ts:53-59 | a table with strictly increasing cursors, queried by cursor, is what the cursor reader needs |
| DatabaseReaders.UninterruptedReads | packages/core/src/io/database.ts:25-38 | without reopening the k-th read is the k-th row, then null for ever |
| DatabaseReaders.KeptIsPrefix | packages/core/src/io/database.ts:19-42 | whatever is saved and reopened, the rows delivered and kept are a gapless prefix of the table: buffered rows are refetched, never lost or doubled |
| FlowEvaluator.PatternSpecificity | packages/core/src/flow/flow-evaluator.ts:24-30 | the scoring loop gives the number of characters that are neither `*` nor `?`, and a thousand more for a pattern without either |
| FlowEvaluator.GlobMeaning | packages/core/src/flow/flow-evaluator.ts:9-22 | a pattern matches exactly if the status is cut into one piece per pattern character, of the kind each allows |
| FlowEvaluator.ExactOutranksWildcard | packages/core/src/flow/flow-evaluator.ts:24-30 | an exact match strictly outranks every matching wildcard, for statuses of any length |
| FlowEvaluator.EvaluateIgnoresOrder | packages/core/src/flow/flow-evaluator.ts:58-81 | target, ambiguity and its count do not depend on the order of the transitions |
| FlowEvaluator.EvaluateFollowsWinner | packages/core/src/flow/flow-evaluator.ts:63-80 | a target is chosen if and only if some transition to it is declared once and strictly outranks every other match |
| FlowEvaluator.EvaluateMeaning | packages/core/src/flow/flow-evaluator.ts:58-81 | without scores and matcher: the best transitions are those that apply and to which none that applies is preferred - an exact pattern to a wildcard one, of two wildcard ones the one with more literal characters; one is followed, several are an ambiguity of just that many, none only if nothing applies |
| FlowEvaluator.MoreLiteralsWin | packages/core/src/flow/flow-evaluator.ts:24-30 | if no exact transition applies, the wildcard one with the most literal characters is followed |
| JobExecutor.RunStep | packages/core/src/execution/job-executor.ts:178-274 | one step leaves one new row with its final status, started from the context of the step's latest execution if that one failed and the job is restarted |
| JobExecutor.Execute | packages/core/src/execution/job-executor.ts:112-380 | the flow loop visits exactly the recursive path and leaves one finished row per visit; the job is COMPLETED exactly if the path reached END, FAILED for a missing step, an unrouted failure and an error, with the exit code of each; a job that is not restartable is left as it is |
| JobExecutor.PathEnds | packages/core/src/execution/job-executor.ts:296-363 | which ending a path has, from its last reply: END exactly if the winner's target is END or the last declared step falls through, an unrouted failure exactly if a FAILED reply matches no transition by exit or mapped status, a missing step exactly if it was led to one, an error exactly for a throwing step or decider or an ambiguity |
| JobExecutor.RouteMeaning | packages/core/src/execution/job-executor.ts:310-360 | after a step the winner's target, an error if there is none, and declaration order only without any match and without failure |
| JobExecutor.LatestIsLast | packages/core/src/execution/job-executor.ts:178-186 | the row a restart looks at is the last one of that step, and there is one exactly if the step ever ran |
| JobExecutor.InitialMeaning | packages/core/src/execution/job-executor.ts:178-196 | a step starts from the context of its last row exactly if it is a chunk step, that row FAILED and the job is restarted, and else from nothing |
| JobExecutor.FlowTerminates | packages/core/src/execution/job-executor.ts:154-363 | if a rank falls along transitions and declaration order, no step runs twice, at most as many steps run as are declared, and the job ends; exactly when it ends is `FlowTermination.FlowEndsIff` |
| JobExecutor.LinearFlow | packages/core/src/execution/job-executor.ts:353-360 | without transitions, failed steps and throwing deciders exactly the declared steps from the start step on run, in order |
| JobExecutor.AcyclicTransitionsMayLoop | packages/core/src/core/validation/definition-validator.ts:192-214 | a witness: a job with acyclic transitions that runs n steps for every n, because declaration order closes the cycle |
| FlowTermination.CanFollowIff | packages/core/src/execution/job-executor.ts:296-360 | some reply that a step can give leads to another exactly along a transition that wins for a status, exit code or decision it can have, or in declaration order where a result that is not FAILED may match no transition |
| FlowTermination.FlowEndsIff | packages/core/src/execution/job-executor.ts:154-363 | every run of a job ends, within as many steps as are declared, if and only if no cycle of edges that the loop can follow is reachable from the start step; otherwise it may run n steps for every n |
| FlowTermination.RankedHasNoCycle | packages/core/src/execution/job-executor.ts:154-363 | a rank that falls along transitions and declaration order rules cycles out |
| FlowTermination.EndsWithoutRank | packages/core/src/execution/job-executor.ts:337-360 | a job of two chunk steps that always ends although no rank falls along all its transitions and declaration order |
| FlowTermination.ListenerMayLoop | packages/core/src/execution/tasklet-step-executor.ts:142-155 | the same job with a listener that may change the result of one step may run for ever |
| JobRestart.RunJob | packages/core/src/execution/job-executor.ts:106-196 | any number of executions and restarts of a job leave rows each of which was started from the context that the rows before it prescribe |
| JobRestart.RepeatsIff | packages/core/src/execution/job-executor.ts:178-196 | over all of them some chunk of a chunk step is checkpointed - and so, unless empty or skipped, written - by two of its runs if and only if the step was started over between two runs that checkpointed something |
| JobRestart.CompletedStartsOver | packages/core/src/execution/job-executor.ts:178-186 | a step whose latest run COMPLETED starts over from nothing, restart or not |
| JobRestart.CompletedOverDeliversAll | packages/core/src/execution/job-executor.ts:178-186 | without a skip policy each run that started over and COMPLETED has committed all that the step makes of its input |
| JobRestart.RestartRerunsCompleted | packages/core/src/execution/job-executor.ts:154-186 | a restart runs the start step first, from nothing if that step had COMPLETED |
| LaunchProtocol.StepKeeps | packages/drizzle/src/repository/drizzle-job-repository.ts:228-282 | every statement of every launch, and every status update and abort, keeps the invariant |
| LaunchProtocol.RunKeeps | packages/mikro-orm/src/mikroorm-job-repository.ts:159-204 | so does every interleaving of any number of them |
| LaunchProtocol.MutualExclusion | packages/drizzle/src/repository/drizzle-job-repository.ts:242-268 | in every interleaving each (job name, key) has at most one instance row and at most one execution whose status is STARTING or STARTED |
| LaunchProtocol.RestartExclusiveIff | packages/core/src/execution/job-launcher.ts:141-143 | a restart takes no lock: every state that can follow it has one running execution per instance, if and only if at the restart no other execution of the instance runs and no launch of it is past its check |
| RestartRace.RestartBesideRunning | packages/core/src/execution/job-launcher.ts:141-143 | a reachable state, action by action, in which a restart puts a second execution beside a running one |
| RestartRace.RestartPastCheck | packages/drizzle/src/repository/drizzle-job-repository.ts:257-280 | a reachable state in which nothing runs at the restart, and a launch past its check then commits a second running execution |
| LaunchRepository.JobRepository.CreateExecutionAtomic | packages/drizzle/src/repository/drizzle-job-repository.ts:228-282 | a launch waits if and only if another transaction has an uncommitted row of the pair, and has then only begun; else it is refused if and only if the instance is locked or an execution of it is STARTING or STARTED; if none is and all have one of the other six statuses it is created; refused it changes nothing, accepted it adds one committed STARTING execution and at most the pair's instance row |
| LaunchRepository.JobRepository.CheckAndCreate | packages/drizzle/src/repository/drizzle-job-repository.ts:257-280 | the check, insert and commit under the lock, with the same outcome |
| LaunchRepository.RestsIffNotBusy | packages/drizzle/src/repository/drizzle-job-repository.ts:257-267 | what refuses a launch and what lets it through are opposites over all eight statuses |
| JobKey.CanonicalizeInLoops | packages/core/src/execution/job-key.ts:13-29 | the recursive canonicalization with its loops refines its specification |
| JobKey.CanonicalKeepsMeaning | packages/core/src/execution/job-key.ts:19-27 | the canonical form means what the value means, where a meaning has no key order and no null fields |
| JobKey.MeaningFixesCanonical | packages/core/src/execution/job-key.ts:13-29 | values of equal meaning have the same canonical form: permuting keys and adding or removing null fields at any depth changes nothing |
| JobKey.CanonicalIdempotent | packages/core/src/execution/job-key.ts:13-29 | canonicalizing twice is canonicalizing once |
| JobKeyOrder.CanonicalOrder | packages/core/src/execution/job-key.ts:19-27 | whatever order fields come in, a canonical object has its array indices first, by number, and then its other keys by code point |
| JobKeyJson.PreHashIsJson | packages/core/src/execution/job-key.ts:31-35 | the hashed text is the JSON of the canonical value by RFC 8259, without white space |
| JobKeyJson.PieceShortest | packages/core/src/execution/job-key.ts:33-33 | every character of a string is written as the shortest piece that stands for it |
| JobKeyText.PrintInjective | packages/core/src/execution/job-key.ts:31-34 | different canonical values print differently, whatever text follows |
| JobKeyText.PreHashPrintedMeaning | packages/core/src/execution/job-key.ts:13-34 | for all parameters: no text exactly for a BigInt at any depth and for nothing itself; two values have the same text if and only if what is printed of them means the same, a non-finite number being a printed null |
| JobKeyText.PreHashMeaning | packages/core/src/execution/job-key.ts:31-34 | where nothing is printed as null on one side, the same text means exactly the same meaning |
| JobKeyText.NonFiniteCollides | packages/core/src/execution/job-key.ts:15-15 | a value shares its key with one of another meaning if and only if something in it is printed as null |
| JobKeyText.NanInListCollides | packages/core/src/execution/job-key.ts:15-15 | a witness: a list with NaN and a list with null |
| JobLauncher.SkipIdentity | packages/bullmq/src/bullmq-schedule.ts:284-301 | under skip two fires ask for the same instance exactly if they belong to the same schedule of the same job |
| JobLauncher.OtherOverlapsSeparate | packages/bullmq/src/bullmq-schedule.ts:278-301 | under the other policies every delivery has a key of its own |
| JobLauncher.SkipFiresNeverOverlap | packages/core/src/execution/job-launcher.ts:95-102 | fires of one schedule under skip, from any number of processes, never run at the same time |
| JobLauncher.LaunchIdentity | packages/core/src/execution/job-launcher.ts:90-97 | two launches ask for the same instance if and only if they are of the same job, their keyed parameters print the same meaning, and neither allows duplicates or both do with the same nonce; refused exactly for parameters with a BigInt or nothing |
| JobLauncher.DuplicateFiresApart | packages/core/src/execution/job-launcher.ts:92-92 | with duplicates allowed no two fires share an instance unless their nonces agree, under any policies |
| JobLauncher.FireErrors | packages/bullmq/src/bullmq-schedule.ts:262-272 | a fire fails exactly for a missing name, and the first one missing is reported |
| OverlapSchedule.Schedule.OnTick | packages/core/src/execution/in-process-schedule.ts:62-65 | a tick makes exactly one step of the specified scheduler |
| OverlapSchedule.Schedule.OnCompletion | packages/core/src/execution/in-process-schedule.ts:111-120 | so does the completion of a launched job, the queued launch included |
| OverlapSchedule.Schedule.OnShutdown | packages/core/src/execution/in-process-schedule.ts:90-96 | so does shutdown |
| OverlapSchedule.SchedulerInvariant | packages/core/src/execution/in-process-schedule.ts:98-121 | over every run: at most one job under skip and queue, a queue time exactly when queued, queued only while running or stopped, every launch stamped with the earliest tick deferred before it, stamps in order |
| OverlapSchedule.DeferredTicksServed | packages/core/src/execution/in-process-schedule.ts:103-119 | unless stopped, every deferred tick is followed by a launch stamped no later than it, or is covered by the time still queued while a job runs |
| OverlapSchedule.NothingAfterShutdown | packages/core/src/execution/in-process-schedule.ts:90-113 | after shutdown nothing is launched, deferred or dropped |
| OverlapSchedule.HistoryFromEvents | packages/core/src/execution/in-process-schedule.ts:62-121 | what the scheduler does is told by the events alone: a tick launches exactly if it is not shut down and overlap is allowed or every launch has completed, and else is dropped under skip and deferred under queue; the completion of the last running job launches the earliest tick deferred |
| JsonValidator.AssertJsonSerializable | packages/core/src/core/execution-context/validator.ts:28-100 | the recursion with its loops and shared set ends on every graph and gives the specified verdict and set |
| JsonValidator.AcceptsExactlyTrees | packages/core/src/core/execution-context/validator.ts:28-100 | a value is accepted if and only if everything reachable is of an allowed kind, no container is deeper than 100, and no two paths lead to one container |
| JsonValidator.ChildrenMeaning | packages/core/src/core/execution-context/validator.ts:79-94 | what is checked below a container: every element of an array, and of a plain object exactly the fields that are not undefined, in order |
| JsonValidator.CirclesRejected | packages/core/src/core/execution-context/validator.ts:71-77 | every circular graph is rejected |
| JsonValidator.FirstFaultReported | packages/core/src/core/execution-context/validator.ts:13-27 | the path of a rejection leads to a value at fault for the given reason, and nothing before it in the order of the check is at fault |
| Csv.ParseDelimitedLine | packages/core/src/io/file-readers.ts:161-191 | the parser's loop refines the recursive parser, quotes and doubled quotes included |
| Csv.ParseMeaning | packages/core/src/io/file-readers.ts:161-191 | for every line and delimiter, character by character: a delimiter behind an even number of quotes ends a field, and of the quotes only the second of a pair within a quotation is text |
| Csv.EscapeMeaning | packages/core/src/io/file-writers.ts:88-99 | a text is written as it is exactly if it has no quote, line break or delimiter in it, and else between quotes |
| Csv.LineRoundTripIff | packages/core/src/io/file-writers.ts:88-99 | for every list of texts and every delimiter: one field always comes back, several exactly when the delimiter is one character other than the quote, none never |
| FileReaders.LinesAreClean | packages/core/src/io/file-readers.ts:155-159 | no line of any file has a line break in it |
| FileReaders.TerminatedLinesSplit | packages/core/src/io/file-readers.ts:155-159 | terminated lines are split into exactly these lines, but for a byte order mark in front |
| FileReaders.AnyBreaksSplitIff | packages/core/src/io/file-readers.ts:155-159 | lines ended by any mix of line feeds, carriage returns and pairs come back if and only if no carriage return is followed by a line feed meant to end an empty line of its own |
| FileReaders.EveryTextIsLines | packages/core/src/io/file-readers.ts:155-159 | every text is such a list of lines with their breaks, and is split into just these, a byte order mark dropped |
| FileReaders.ItemsMeaning | packages/core/src/io/file-readers.ts:35-49 | the items are those of the lines from the index on that are not blank, where these are skipped, and for which the mapping gives something, each once and in order |
| FileReaders.RowMeaning | packages/core/src/io/file-readers.ts:106-110 | a row has the headers for its keys, a header named twice the field of its last place, and one beyond the fields the empty text |
| FileReaders.LineReader.Read | packages/core/src/io/file-readers.ts:35-49 | gives the first line not passed over, or the error of the mapping on it, and leaves the rest behind it; null when none is left |
| FileReaders.CsvReader.Read | packages/core/src/io/file-readers.ts:100-119 | the same for rows: blank lines and rows mapped to null are passed over; at a negative index it throws and moves on by one |
| FileReaders.ReadOn | packages/core/src/io/file-readers.ts:35-49 | a reader that is read on after every error gives the items of all lines but those on which the mapping throws, and one error for each of these |
| FileReaders.ReadRowsOn | packages/core/src/io/file-readers.ts:100-119 | the same for the rows of a CSV file |
| FileReaders.CsvReader.Open | packages/core/src/io/file-readers.ts:87-98 | given headers or the first line's, and the saved index, whatever it is, or 1 if there is a header line - by option, or because no headers are given - and else 0 |
| FileReaders.ResumeCsv | packages/core/src/io/file-readers.ts:87-128 | a reader opened from another one's save gives exactly the items and errors the other had left; a line that threw before the save is not among them |
| CsvFile.CsvWriter.Write | packages/core/src/io/file-writers.ts:48-68 | appends the header if due and one escaped line per item, nothing for no items; if the append throws the file is as it was and the header counts as written |
| CsvFile.BatchesAddUp | packages/core/src/io/file-writers.ts:48-67 | however items are cut into chunks the appended text is the same, with one header |
| CsvRestart.DriveWriter | packages/core/src/io/file-writers.ts:39-73 | the writer, driven through any writes, failed writes, saves, reopenings and other components' writes, goes through exactly the specified states |
| CsvRestart.HeaderOnceIff | packages/core/src/io/file-writers.ts:39-73 | over all of these the file is one header and the rows of the successful writes, if and only if no first rows come while a failed write is remembered and no later rows while no try is - but for a header lost and repeated once among rows that read the same before and after it |
| CsvRestart.FailedWriteLoses | packages/core/src/io/file-writers.ts:51-68 | a first append that throws and is retried leaves the file without a header, the line of the first row in its place |
| CsvRestart.LookalikeHides | packages/core/src/io/file-writers.ts:51-68 | a header lost and then repeated behind a row that looks like it does not show |
| CsvRestart.UnsavedWriteRepeats | packages/core/src/io/file-writers.ts:39-73 | a write, a reopening and a write without a save between leave the header in the file twice, the second time as a row |
| CsvRestart.RepeatedHeaderIsRow | packages/core/src/io/file-writers.ts:48-67 | a header written again stands in the file exactly like a row of the header texts |
| CsvRestart.DriveReader | packages/core/src/io/file-readers.ts:87-119 | the reader, read until null, gives exactly the rows of the file |
| CsvRestart.WriteThenRead | packages/core/src/io/file-readers.ts:87-119 | writer and reader driven one after the other: unless a header was lost or repeated the rows come back exactly under the conditions of `CsvFile.FileRoundTripIff` |
| CsvFile.FileRoundTrip | packages/core/src/io/file-readers.ts:87-119 | every row written comes back, in order and nothing else, under the conditions below |
| CsvFile.FileRoundTripIff | packages/core/src/io/file-readers.ts:155-159 | with distinct headers exactly if there are no rows, or no line break in a header or value, no blank row line and no byte order mark in front of the header line |
| CsvFile.MarkedHeaderIsRenamed | packages/core/src/io/file-readers.ts:157-157 | an input that does not come back: a first header that begins with the mark |
| WorkerArgs.ParseBatchWorkerArgs | packages/core/src/execution/batch-worker-runner.ts:94-142 | the parser's loop and its choice of options refine the recursive parser, malformed parameters included |
| WorkerArgs.OptionSet | packages/core/src/execution/batch-worker-runner.ts:95-141 | every option has the value its name is set to last - behind `=`, in the next argument if that is no flag, else true -, and the execution may be named in either of two ways |
| WorkerArgs.ParamsSet | packages/core/src/execution/batch-worker-runner.ts:118-141 | parameters are read from the last text given for them; only a text that is not JSON, or not a record, is an error |
| WorkerArgs.ArgsRoundTripIff | packages/core/src/execution/external-task-execution-strategy.ts:89-103 | for every worker command, job id, execution id and parameters are recovered if and only if neither id begins with two dashes |
| WorkerArgs.ArgsRoundTrip | packages/core/src/execution/batch-worker-runner.ts:98-141 | with a command without flags the worker gets exactly these options and no others |

## Left out

- Restart.RestartDelivers: processors that are no function of the item are excluded, since their outputs are not determined by the input; for them `Restart.RestartOrder` says which chunk each write and each checkpoint is about, and `Restart.RestartExactlyOnce` that none is committed twice.
- Restart.RestartOrder: readers that throw, and restarts combined with a partition, are excluded, because drained reads have no retry and do not count against the share.
- JobRestart.RepeatsIff: a step whose result a listener changes is excluded; the reader is deterministic as in `Restart`, and a row is finished when its step is.
- LaunchRepository.JobRepository.CreateExecutionAtomic: no other statement interleaves with the call, which returns when its insert has to wait; interleavings and the end of the wait are the subject of `LaunchProtocol`.
- JobLauncher.SkipIdentity: SHA-256 is a parameter; where the theorem says so it is taken to give the two texts in question different digests.
- WorkerArgs.ArgsRoundTrip: printing and parsing of the parameters' JSON is a pair of inverse functions whose texts begin with a brace; the numbers of the partition options stay texts.
- JsonValidator.FirstFaultReported: a path is a sequence of positions among the checked children; its rendering as text is not modelled.
- CsvFile.FileRoundTripIff: values are texts already; rows are written from an empty file with the header due.
- FileReaders.LineReader.Open: a negative saved index, or a negative number of lines to skip, for which there is no line, is excluded.
- DatabaseReaders.PagingReader.Read: after a negative saved offset nothing is said about the rows, since a page source need not answer there.
- Items and rows that change while a job runs: readers are deterministic where restarts are concerned.
- CsvRestart.HeaderOnceIff: an append that throws has left the file as it was; partial appends are not modelled.
- Listeners that modify the execution context. One that changes a step's result is seen by the flow, as an arbitrary result of the steps so marked, but not by the chunk runs.
- The save handle of the item context and the version counter of contexts.
- The processor's and writer's own retries, real timers, wall-clock time and cron semantics: backoff is the sum of the pauses asked for, ticks are events with a time.
- Numbers in contexts are integers or non-finite; fractions are not modelled there. Backoff is computed over reals.
- Objects with a `__proto__` key, lone surrogates and the difference between code units and code points in sorting and under the `?` of a pattern.
- Two step executions created at the same instant: the latest is taken by order of insertion.
- A process that dies inside a step leaves a STARTED row; the flow loop is observed between steps only.
- Transports, queues, webhooks, admin pages, NestJS wiring, the other repository variants and the in-memory repository.
- Operator stop and transport redelivery; of restarts racing with launches, several restarts at once.
