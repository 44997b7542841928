/**
 * A chunk step inside jobs that are executed again and again (packages/core/src/execution/job-executor.ts:106-196):
 * which of its runs take up where an earlier one left off, and exactly when its chunks are checkpointed more than once.  A restart begins at the start step and hands a context only to a chunk step
 * whose latest execution FAILED; a step that COMPLETED is run again from nothing.
 */
module JobRestart {
  import opened Common
  import opened Checkpoint
  import opened Statuses
  import opened Environment
  import opened ChunkStep
  import opened ChunkFrames
  import opened Restart
  import J = JobExecutor

  // ---------------------------------------------------------------- the rows of a job

  /** Each row was started from the context that the rows before it prescribe; `flags` tells the rows of restarted executions. */
  ghost predicate Recorded(def: J.JobDef, rows: seq<J.StepRow>, flags: seq<bool>) {
    |flags| == |rows| && forall i :: 0 <= i < |rows| ==> StartedRight(def, rows, flags[i], i)
  }

  ghost predicate StartedRight(def: J.JobDef, rows: seq<J.StepRow>, restart: bool, i: nat)
    requires i < |rows|
  {
    && J.HasStep(def, rows[i].stepId)
    && rows[i].initial == J.InitialContext(restart, def.steps[J.StepIndex(def.steps, rows[i].stepId)], rows[..i])
  }

  ghost function Times(flag: bool, n: nat): (flags: seq<bool>)
    ensures |flags| == n && forall i :: 0 <= i < n ==> flags[i] == flag
  {
    seq(n, i requires 0 <= i < n => flag)
  }

  /** One more execution of the job leaves rows that are recorded as well. */
  lemma ExecutionRecorded(def: J.JobDef, before: seq<J.StepRow>, flags: seq<bool>, rows: seq<J.StepRow>, restart: bool,
                          visits: seq<J.Visit>, replies: seq<J.StepReply>)
    requires Recorded(def, before, flags) && J.RowsRecord(def, restart, before, rows, visits, replies)
    ensures Recorded(def, before + rows, flags + Times(restart, |rows|))
  {
    hide J.HasStep, J.InitialContext;
    var all, allFlags := before + rows, flags + Times(restart, |rows|);
    forall i | 0 <= i < |all| ensures StartedRight(def, all, allFlags[i], i) {
      if i < |before| {
        assert StartedRight(def, before, flags[i], i);
        assert all[..i] == before[..i];
      } else {
        assert all[..i] == before + rows[..i - |before|];
      }
    }
  }

  /** Any number of executions of a new job, each with the replies of its steps. */
  method RunJob(def: J.JobDef, repository: J.StepRepository, executions: seq<seq<J.StepReply>>) returns (ghost flags: seq<bool>)
    requires repository.steps == []
    modifies repository
    ensures Recorded(def, repository.steps, flags)
  {
    hide J.RowsRecord, J.Walk, Recorded;
    flags := [];
    NothingRecorded(def);
    for i := 0 to |executions|
      invariant Recorded(def, repository.steps, flags)
    {
      ghost var before, restart := repository.steps, repository.status == JobFailed || repository.status == JobStopped;
      var outcome := J.Execute(def, repository, executions[i]);
      if !outcome.NotRestartable? {
        ghost var rows := repository.steps[|before|..];
        ghost var path := J.Walk(def, Some(def.startStepId), executions[i]);
        ExecutionRecorded(def, before, flags, rows, restart, path.visits, executions[i]);
        assert before + rows == repository.steps;
        flags := flags + Times(restart, |rows|);
      }
    }
  }

  lemma NothingRecorded(def: J.JobDef)
    ensures Recorded(def, [], [])
  {
  }

  /** The index of the latest row of a step among the first i, or -1. */
  ghost function Before(rows: seq<J.StepRow>, id: string, i: nat): (j: int)
    requires i <= |rows|
    ensures -1 <= j < i && (j >= 0 ==> rows[j].stepId == id)
    ensures forall k :: j < k < i ==> rows[k].stepId != id
  {
    if i == 0 then -1 else if rows[i - 1].stepId == id then i - 1 else Before(rows, id, i - 1)
  }

  lemma {:induction false} LatestBefore(rows: seq<J.StepRow>, id: string, i: nat)
    requires i <= |rows|
    ensures J.Latest(rows[..i], id) == if Before(rows, id, i) < 0 then None else Some(rows[Before(rows, id, i)])
  {
    if i > 0 {
      LatestBefore(rows, id, i - 1);
      assert rows[..i][..i - 1] == rows[..i - 1];
    }
  }

  /** Row i does not take up a failed execution: not in a restarted execution, or none of this step failed last. */
  ghost predicate StartsOver(rows: seq<J.StepRow>, flags: seq<bool>, id: string, i: nat)
    requires i < |rows| == |flags|
  {
    !flags[i] || Before(rows, id, i) < 0 || rows[Before(rows, id, i)].status != StepFailed
  }

  /** A run that starts over starts from nothing, any other from what the one before it left. */
  lemma StartsFrom(def: J.JobDef, rows: seq<J.StepRow>, flags: seq<bool>, id: string, i: nat)
    requires Recorded(def, rows, flags) && i < |rows| && rows[i].stepId == id
    requires J.HasStep(def, id) && def.steps[J.StepIndex(def.steps, id)].kind.ChunkKind?
    ensures rows[i].initial == if StartsOver(rows, flags, id, i) then JNull else rows[Before(rows, id, i)].context
  {
    assert StartedRight(def, rows, flags[i], i);
    hide J.Latest, J.StepIndex, Recorded;
    LatestBefore(rows, id, i);
  }

  // ---------------------------------------------------------------- the runs of one chunk step

  /** One chunk step of a job over its input, and the replies of everything else in each of its runs. */
  datatype Case = Case(
    def: J.JobDef, rows: seq<J.StepRow>, flags: seq<bool>, id: string,
    config: StepConfig, items: seq<Item>, processor: Option<Processor>, scripts: seq<seq<Reply>>)

  /** The run behind row i. */
  ghost function RunAt(c: Case, i: nat): StepRun
    requires i < |c.rows| == |c.scripts|
  {
    Resume(c.config, c.items, c.processor, c.scripts[i], c.rows[i].initial)
  }

  /** Row i holds what its run left: the context, and the status without a listener's changes. */
  ghost predicate Ran(c: Case, i: nat)
    requires i < |c.rows| == |c.scripts|
  {
    && c.rows[i].context == RunAt(c, i).env.context
    && (c.rows[i].status == StepCompleted <==> CompletedRun(RunAt(c, i)))
    && (c.rows[i].status == StepFailed <==> !CompletedRun(RunAt(c, i)))
  }

  ghost predicate Valid(c: Case) {
    && Recorded(c.def, c.rows, c.flags) && |c.scripts| == |c.rows| && Restartable(c.config)
    && J.HasStep(c.def, c.id) && c.def.steps[J.StepIndex(c.def.steps, c.id)].kind.ChunkKind?
    && forall i: nat :: IsRow(c, i) ==> Ran(c, i)
  }

  ghost predicate IsRow(c: Case, i: nat) {
    i < |c.rows| == |c.scripts| == |c.flags| && c.rows[i].stepId == c.id
  }

  ghost predicate Over(c: Case, i: nat)
    requires IsRow(c, i)
  {
    StartsOver(c.rows, c.flags, c.id, i)
  }

  /** The row whose failed run row i takes up. */
  ghost function Prior(c: Case, i: nat): (j: nat)
    requires IsRow(c, i) && !Over(c, i)
    ensures j < i && IsRow(c, j) && forall k :: j < k < i ==> !IsRow(c, k)
  {
    Before(c.rows, c.id, i)
  }

  ghost function SavesAt(c: Case, i: nat): nat
    requires IsRow(c, i)
  {
    Saves(RunAt(c, i).env.log)
  }

  /** The first chunk that row i is to assemble. */
  ghost function StartOf(c: Case, i: nat): nat
    requires IsRow(c, i)
    decreases i
  {
    if Over(c, i) then 0 else StartOf(c, Prior(c, i)) + SavesAt(c, Prior(c, i))
  }

  lemma {:induction false} RunsFromStart(c: Case, i: nat)
    requires Valid(c) && IsRow(c, i)
    ensures c.config.chunkSize > 0 && RowAt(c.config, c.items, StartOf(c, i), c.rows[i].initial)
    ensures RunAdvances(c.config, c.items, c.processor, StartOf(c, i), RunAt(c, i))
    decreases i
  {
    hide Recorded, StartsOver, RowAt, RunAdvances, Resume, Saves, J.HasStep, Restartable, CompletedRun, Prior;
    StepStartsFrom(c, i);
    if Over(c, i) {
      FreshRow(c.config, c.items);
      ResumeAdvances(c.config, c.items, c.processor, c.scripts[i], JNull, 0);
    } else {
      var j := Prior(c, i);
      RunsFromStart(c, j);
      assert Ran(c, j);
      NextRow(c.config, c.items, c.processor, StartOf(c, j), c.rows[j].initial, RunAt(c, j));
      ResumeAdvances(c.config, c.items, c.processor, c.scripts[i], c.rows[i].initial, StartOf(c, i));
    }
  }

  lemma StepStartsFrom(c: Case, i: nat)
    requires Valid(c) && IsRow(c, i)
    ensures c.rows[i].initial == if Over(c, i) then JNull else c.rows[Prior(c, i)].context
  {
    hide Recorded, Ran, J.HasStep, Restartable;
    StartsFrom(c.def, c.rows, c.flags, c.id, i);
  }

  // ---------------------------------------------------------------- the chunks of a run

  ghost predicate SavedIn(log: seq<Event>, chunk: nat) {
    Saved(chunk) in log
  }

  /** A run from chunk f checkpoints the chunks f, f + 1, ..., one for each of its saves. */
  lemma {:induction false} SegmentSaves(items: seq<Item>, n: nat, rule: Rule, f: nat, log: seq<Event>, chunk: nat)
    requires Segment(items, n, rule, f, log)
    ensures SavedIn(log, chunk) <==> f <= chunk < f + Saves(log)
    decreases |log|
  {
    hide Boundary, ChunkWritten, MayBePassed;
    if Unsaved(log) {
      UnsavedSaves(items, n, rule, f, log);
    } else {
      var rest := AfterFirst(log);
      SavedSegment(items, n, rule, f, log);
      SegmentSaves(items, n, rule, f + 1, rest, chunk);
      FirstSaved(items, n, rule, f, log);
      hide Segment, Saves;
    }
  }

  lemma UnsavedSaves(items: seq<Item>, n: nat, rule: Rule, f: nat, log: seq<Event>)
    requires Segment(items, n, rule, f, log) && Unsaved(log)
    ensures Saves(log) == 0 && forall chunk: nat :: !SavedIn(log, chunk)
  {
    UnsavedSegment(items, n, rule, f, log);
  }

  lemma FirstSaved(items: seq<Item>, n: nat, rule: Rule, f: nat, log: seq<Event>)
    requires Segment(items, n, rule, f, log) && !Unsaved(log)
    ensures forall chunk: nat :: SavedIn(log, chunk) <==> chunk == f || SavedIn(AfterFirst(log), chunk)
  {
    hide Boundary;
    if log[0].Saved? {
      assert log == [log[0]] + log[1..];
    } else {
      assert log == [log[0], log[1]] + log[2..];
    }
  }

  ghost predicate ChunkSavedAt(c: Case, i: nat, chunk: nat)
    requires IsRow(c, i)
  {
    SavedIn(RunAt(c, i).env.log, chunk)
  }

  lemma ChunksOfRun(c: Case, i: nat, chunk: nat)
    requires Valid(c) && IsRow(c, i)
    ensures ChunkSavedAt(c, i, chunk) <==> StartOf(c, i) <= chunk < StartOf(c, i) + SavesAt(c, i)
  {
    hide Valid, Segment, Resume, Saves, SavedIn, RuleOf, Covers, ContextAt;
    RunsFromStart(c, i);
    SegmentSaves(c.items, c.config.chunkSize, RuleOf(c.config, c.processor), StartOf(c, i), RunAt(c, i).env.log, chunk);
  }

  // ---------------------------------------------------------------- when chunks are saved twice

  /** Some chunk of the step is checkpointed by two of its runs. */
  ghost predicate Repeats(c: Case) {
    exists i: nat, j: nat, chunk: nat :: i < j && IsRow(c, i) && IsRow(c, j) && ChunkSavedAt(c, i, chunk) && ChunkSavedAt(c, j, chunk)
  }

  /** Between two runs that checkpointed something the step was started over. */
  ghost predicate OverBetween(c: Case) {
    exists i: nat, k: nat, j: nat ::
      i < k <= j && IsRow(c, i) && IsRow(c, k) && IsRow(c, j) && SavesAt(c, i) > 0 && Over(c, k) && SavesAt(c, j) > 0
  }

  /** Without starting over, a later run starts behind all that an earlier one checkpointed. */
  lemma {:induction false} LaterStartsBehind(c: Case, i: nat, j: nat)
    requires Valid(c) && i < j && IsRow(c, i) && IsRow(c, j)
    requires forall k: nat :: i < k <= j && IsRow(c, k) ==> !Over(c, k)
    ensures StartOf(c, i) + SavesAt(c, i) <= StartOf(c, j)
    decreases j
  {
    hide Valid, Over, SavesAt, Prior;
    assert !Over(c, j);
    var m := Prior(c, j);
    if m != i { LaterStartsBehind(c, i, m); }
  }

  /** If anything is checkpointed after run j, then some run since the last starting over checkpointed the first chunk. */
  lemma {:induction false} FirstChunkSaved(c: Case, from: nat, j: nat) returns (k: nat)
    requires Valid(c) && from <= j && IsRow(c, j) && StartOf(c, j) + SavesAt(c, j) > 0
    requires from == 0 || (IsRow(c, from) && Over(c, from))
    ensures from <= k <= j && IsRow(c, k) && ChunkSavedAt(c, k, 0)
    decreases j
  {
    hide Valid, SavesAt, Over, Prior, ChunkSavedAt;
    if StartOf(c, j) == 0 {
      ChunksOfRun(c, j, 0);
      k := j;
    } else {
      k := FirstChunkSaved(c, from, Prior(c, j));
    }
  }

  /**
   * Over any number of executions and restarts of a job: some chunk of a chunk step is checkpointed, and so, unless
   * it is empty or skipped, written by two of its runs, if and only if the step was started over between two runs
   * that checkpointed something.  It is started over whenever it is reached in an execution that is not a restart,
   * or its latest run did not fail.
   */
  lemma RepeatsIff(c: Case)
    requires Valid(c)
    ensures Repeats(c) <==> OverBetween(c)
  {
    hide Valid, SavesAt, Over, Prior, ChunkSavedAt, StartOf;
    if i: nat, j: nat, chunk: nat :| i < j && IsRow(c, i) && IsRow(c, j) && ChunkSavedAt(c, i, chunk) && ChunkSavedAt(c, j, chunk) {
      ChunksOfRun(c, i, chunk);
      ChunksOfRun(c, j, chunk);
      if forall k: nat :: i < k <= j && IsRow(c, k) ==> !Over(c, k) {
        LaterStartsBehind(c, i, j);
        assert false;
      }
    }
    if i: nat, k: nat, j: nat :|
      i < k <= j && IsRow(c, i) && IsRow(c, k) && IsRow(c, j) && SavesAt(c, i) > 0 && Over(c, k) && SavesAt(c, j) > 0
    {
      var first := FirstChunkSaved(c, 0, i);
      var second := FirstChunkSaved(c, k, j);
      assert first < second;
    }
  }

  // ---------------------------------------------------------------- completed steps run again

  /** A step whose latest run COMPLETED is started over, restart or not. */
  lemma CompletedStartsOver(c: Case, i: nat, j: nat)
    requires Valid(c) && IsRow(c, i) && IsRow(c, j) && i < j && (forall k: nat :: i < k < j ==> !IsRow(c, k))
    requires c.rows[i].status == StepCompleted
    ensures Over(c, j) && c.rows[j].initial == JNull
  {
    StepStartsFrom(c, j);
    hide Valid;
    assert Before(c.rows, c.id, j) == i by {
      var b := Before(c.rows, c.id, j);
      if b >= 0 { assert IsRow(c, b); }
    }
  }

  /**
   * Every run that was started over and COMPLETED has committed, and confirmed, all that the step makes of its
   * input (without a skip policy): a job that reaches a COMPLETED step again commits its outputs once more.
   */
  lemma CompletedOverDeliversAll(c: Case, i: nat)
    requires Valid(c) && IsRow(c, i) && Over(c, i) && c.rows[i].status == StepCompleted
    requires Made(c.config, c.processor).Some? && c.config.skip.None?
    ensures Committed(RunAt(c, i).env.log) == Outputs(Made(c.config, c.processor).value, c.items)
  {
    RanCompleted(c, i);
    hide *;
    RunsFromStart(c, i);
    WholeRun(c.config, c.items, c.processor, RunAt(c, i));
  }

  lemma RanCompleted(c: Case, i: nat)
    requires Valid(c) && IsRow(c, i) && Over(c, i) && c.rows[i].status == StepCompleted
    ensures CompletedRun(RunAt(c, i)) && StartOf(c, i) == 0
  {
    hide Resume, Recorded, J.HasStep, StartsOver;
    assert Ran(c, i);
  }

  lemma WholeRun(config: StepConfig, items: seq<Item>, processor: Option<Processor>, run: StepRun)
    requires config.chunkSize > 0 && RunAdvances(config, items, processor, 0, run) && CompletedRun(run)
    requires Made(config, processor).Some? && config.skip.None?
    ensures Committed(run.env.log) == Outputs(Made(config, processor).value, items)
  {
    hide Segment, Saves, Covers, ContextAt, Confirmed, Committed, Outputs, Boundary, EndsClean, Made;
    var (n, rule, log) := (config.chunkSize, RuleOf(config, processor), run.env.log);
    ConfirmedIsMade(items, n, rule, 0, log);
    UncleanRepeats(items, n, rule, 0, log);
    BoundariesOrdered(items, n, 0);
    assert Span(items, n, 0, 0 + Saves(log)) == items;
  }

  /**
   * A restart begins at the start step whatever COMPLETED before: if that step did, its new run starts from nothing.
   */
  lemma RestartRerunsCompleted(def: J.JobDef, before: seq<J.StepRow>, rows: seq<J.StepRow>, replies: seq<J.StepReply>)
    requires J.RowsRecord(def, true, before, rows, J.Walk(def, Some(def.startStepId), replies).visits, replies) && rows != []
    requires Before(before, def.startStepId, |before|) >= 0
    requires before[Before(before, def.startStepId, |before|)].status == StepCompleted
    ensures rows[0].stepId == def.startStepId && rows[0].initial == JNull
  {
    FirstVisit(def, Some(def.startStepId), replies);
    LatestBefore(before, def.startStepId, |before|);
    hide *;
    FirstRow(def, before, rows, J.Walk(def, Some(def.startStepId), replies).visits, replies);
    assert before[..|before|] == before;
    NothingCarried(def, before, rows[0].stepId);
  }

  lemma FirstRow(def: J.JobDef, before: seq<J.StepRow>, rows: seq<J.StepRow>, visits: seq<J.Visit>, replies: seq<J.StepReply>)
    requires J.RowsRecord(def, true, before, rows, visits, replies) && rows != []
    ensures |visits| == |rows| && rows[0].stepId == visits[0].stepId && J.HasStep(def, rows[0].stepId)
    ensures rows[0].initial == J.InitialContext(true, def.steps[J.StepIndex(def.steps, rows[0].stepId)], before)
  {
    hide J.HasStep, J.InitialContext;
    assert before + rows[..0] == before;
  }

  lemma NothingCarried(def: J.JobDef, before: seq<J.StepRow>, id: string)
    requires J.HasStep(def, id) && J.Latest(before, id).Some? && J.Latest(before, id).value.status == StepCompleted
    ensures J.InitialContext(true, def.steps[J.StepIndex(def.steps, id)], before) == JNull
  {
    hide J.Latest;
  }

  lemma FirstVisit(def: J.JobDef, current: Option<string>, replies: seq<J.StepReply>)
    ensures J.Walk(def, current, replies).visits != [] ==> current == Some(J.Walk(def, current, replies).visits[0].stepId)
  {
    hide J.AfterStep, J.HasStep;
  }
}
