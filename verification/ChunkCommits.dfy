/**
 * The checkpoints of a chunk step by their indices
 * (packages/core/src/execution/chunk-step-executor.ts:203-270, 463-489).
 */
module ChunkCommits {
  import opened Common
  import opened Checkpoint
  import opened Environment
  import opened PhaseRunner
  import opened ChunkStep
  import opened ChunkFrames
  import opened ChunkAccounting

  /** The chunk indices of the checkpoints in a log. */
  ghost function SavedIndices(log: seq<Event>): seq<int> {
    if log == [] then [] else IndexSaved(log[0]) + SavedIndices(log[1..])
  }

  ghost function IndexSaved(event: Event): seq<int> {
    if event.Saved? then [event.chunk] else []
  }

  lemma SavedIndicesUnfold(log: seq<Event>)
    requires log != []
    ensures SavedIndices(log) == IndexSaved(log[0]) + SavedIndices(log[1..])
  {
  }

  lemma {:induction false} SavedIndicesConcat(a: seq<Event>, b: seq<Event>)
    ensures SavedIndices(a + b) == SavedIndices(a) + SavedIndices(b)
  {
    hide IndexSaved;
    if a == [] {
      assert a + b == b;
    } else {
      SavedIndicesConcat(a[1..], b);
      SavedIndicesUnfold(a);
      SavedIndicesUnfold(a + b);
      assert (a + b)[1..] == a[1..] + b && (a + b)[0] == a[0];
    }
  }

  /** n consecutive indices. */
  ghost function From(start: int, n: nat): seq<int> {
    seq(n, i requires 0 <= i < n => start + i)
  }

  /** The first chunk that a run does not drain: the one after the checkpoint it was given. */
  ghost function FirstUndrained(config: StepConfig): int {
    if config.resume.None? then 0
    else if config.readerKey.Some? then config.resume.value + 1
    else Max(0, config.resume.value + 1)
  }

  /** The next chunk to be checkpointed. */
  ghost function NextIndex(plan: Plan, p: Progress): int {
    if Draining(plan, p) then plan.config.resume.value + 1 else p.chunkIndex
  }

  /** The components' keys leave the executor's own alone. */
  ghost predicate KeysAside(config: StepConfig) {
    config.readerKey != Some(LAST_CHUNK_INDEX) && config.writerKey != Some(LAST_CHUNK_INDEX)
  }

  lemma {:induction false} UpdateKeepsIndex(config: StepConfig, env: Env, done: nat, context: Json)
    requires KeysAside(config) && done <= |Streams(config)|
    ensures var r := UpdateStreams(env, Streams(config), done, context);
      r.result.Ok? ==> ReadLastCheckpoint(r.result.value) == ReadLastCheckpoint(context)
    decreases |Streams(config)| - done
  {
    if done < |Streams(config)| {
      var stream := Streams(config)[done];
      assert stream.key != LAST_CHUNK_INDEX;
      var a := UpdateStream(env, stream, context);
      hide UpdateStream;
      if a.result.Ok? {
        StreamKeepsIndex(env, stream, context);
        UpdateKeepsIndex(config, a.env, done + 1, a.result.value);
      }
    }
  }

  lemma StreamKeepsIndex(env: Env, stream: Stream, context: Json)
    requires stream.key != LAST_CHUNK_INDEX && UpdateStream(env, stream, context).result.Ok?
    ensures ReadLastCheckpoint(UpdateStream(env, stream, context).result.value) == ReadLastCheckpoint(context)
  {
  }

  /** The log is the old one and these checkpoints, and the row remembers the last of them. */
  ghost predicate Checkpointed(config: StepConfig, before: Env, after: Env, start: int, n: nat) {
    && SavedIndices(after.log) == SavedIndices(before.log) + From(start, n)
    && after.tally.saves == before.tally.saves + n
    && (n == 0 ==> after.context == before.context)
    && (n > 0 && KeysAside(config) ==> ReadLastCheckpoint(after.context) == Some(start + n - 1))
  }

  ghost predicate SomeCheckpoints(config: StepConfig, before: Env, after: Env, start: int) {
    exists n: nat :: Checkpointed(config, before, after, start, n)
  }

  lemma NoCheckpoint(config: StepConfig, before: Env, after: Env, start: int)
    requires SavedIndices(after.log) == SavedIndices(before.log) && after.context == before.context
    requires after.tally.saves == before.tally.saves
    ensures Checkpointed(config, before, after, start, 0)
  {
    assert From(start, 0) == [];
  }

  /** What a pass adds: a drain pass nothing, a chunk pass that goes on its own index, one that stops at most that. */
  ghost predicate PassCheckpoints(plan: Plan, p: Progress, pass: Pass) {
    var next := NextIndex(plan, p);
    match pass
    case Continues(p') =>
      if Draining(plan, p) then Checkpointed(plan.config, p.env, p'.env, next, 0) && NextIndex(plan, p') == next
      else Checkpointed(plan.config, p.env, p'.env, next, 1) && NextIndex(plan, p') == next + 1
    case Stops(p', _) =>
      Checkpointed(plan.config, p.env, p'.env, next, 0) || Checkpointed(plan.config, p.env, p'.env, next, 1)
  }

  lemma DrainPassCheckpoints(plan: Plan, p: Progress)
    requires Draining(plan, p)
    ensures PassCheckpoints(plan, p, DrainPass(plan, p))
  {
    hide Drain, Checkpointed;
    DrainAccounts(p.env, Cap(plan, p.counters), 0);
    var pass := DrainPass(plan, p);
    NoCheckpoint(plan.config, p.env, pass.progress.env, NextIndex(plan, p));
    NoCheckpoint(plan.config, p.env, p.env, NextIndex(plan, p));
  }

  /** Reading, processing and writing save nothing. */
  lemma StagesSaveNothing(plan: Plan, env: Env, c: Counters, chunk: int, cap: int)
    ensures var r := ReadItems(plan, env, c, [], 0, cap);
      && r.env.tally.saves == env.tally.saves && r.env.log == env.log && r.env.context == env.context
      && var q := ProcessItems(plan, r.env, r.counters, r.items, 0, []);
      && q.env.tally.saves == env.tally.saves && q.env.log == env.log && q.env.context == env.context
      && var w := WriteItems(plan, q.env, q.counters, chunk, r.items, q.outputs);
      && w.env.tally.saves == env.tally.saves && w.env.context == env.context
      && SavedIndices(w.env.log) == SavedIndices(env.log)
  {
    hide ReadItems, ProcessItems, WriteItems, SavedIndices;
    var r := ReadItems(plan, env, c, [], 0, cap);
    ReadFrames(plan, env, c, [], 0, cap);
    ReadSavesNothing(plan, env, c, [], 0, cap);
    var q := ProcessItems(plan, r.env, r.counters, r.items, 0, []);
    ProcessFrames(plan, r.env, r.counters, r.items, 0, []);
    ProcessSavesNothing(plan, r.env, r.counters, r.items, 0, []);
    var w := WriteItems(plan, q.env, q.counters, chunk, r.items, q.outputs);
    WriteFrames(plan, q.env, q.counters, chunk, r.items, q.outputs);
    WriteSavesNothing(plan, q.env, q.counters, chunk, r.items, q.outputs);
    SavedIndicesConcat(env.log, [Wrote(chunk, r.items, q.outputs)]);
    WroteIsNoSave(chunk, r.items, q.outputs);
  }

  lemma WroteIsNoSave(chunk: int, items: seq<Item>, outputs: seq<Item>)
    ensures SavedIndices([Wrote(chunk, items, outputs)]) == []
  {
    assert [Wrote(chunk, items, outputs)][1..] == [];
  }

  lemma SaveIsOne(chunk: int)
    ensures SavedIndices([Saved(chunk)]) == [chunk] == From(chunk, 1)
  {
    assert [Saved(chunk)][1..] == [];
  }

  lemma {:induction false} ReadSavesNothing(plan: Plan, env: Env, c: Counters, items: seq<Item>, i: nat, cap: int)
    ensures ReadItems(plan, env, c, items, i, cap).env.tally.saves == env.tally.saves
    decreases cap - i
  {
    hide RunPhase, Logged;
    if i < cap {
      PhaseFacts(plan.policies, Read, env, c.skipped);
      var phase := RunPhase(plan.policies, Read, env, c.skipped);
      var c' := c.(skipped := phase.skips);
      match phase.outcome
      case Raised(_) =>
      case Skipped => ReadSavesNothing(plan, phase.env, c', items, i + 1, cap);
      case Done(value) =>
        if value.ItemValue? {
          ReadSavesNothing(plan, phase.env, c'.(read := c.read + 1), items + [value.item], i + 1, cap);
        }
    }
  }

  lemma {:induction false} ProcessSavesNothing(plan: Plan, env: Env, c: Counters, items: seq<Item>, k: nat, outputs: seq<Item>)
    requires k <= |items|
    ensures ProcessItems(plan, env, c, items, k, outputs).env.tally.saves == env.tally.saves
    decreases |items| - k
  {
    hide RunPhase, Logged;
    if k < |items| {
      if !plan.config.hasProcessor {
        ProcessSavesNothing(plan, env, c, items, k + 1, outputs + [items[k]]);
      } else {
        var op := Process(items[k]);
        PhaseFacts(plan.policies, op, env, c.skipped);
        var phase := RunPhase(plan.policies, op, env, c.skipped);
        var c' := c.(skipped := phase.skips);
        match phase.outcome
        case Raised(_) =>
        case Skipped => ProcessSavesNothing(plan, phase.env, c', items, k + 1, outputs);
        case Done(value) =>
          if value.ItemValue? {
            ProcessSavesNothing(plan, phase.env, c', items, k + 1, outputs + [value.item]);
          } else {
            ProcessSavesNothing(plan, phase.env, c'.(skipped := phase.skips + 1), items, k + 1, outputs);
          }
      }
    }
  }

  lemma WriteSavesNothing(plan: Plan, env: Env, c: Counters, chunk: int, items: seq<Item>, outputs: seq<Item>)
    ensures WriteItems(plan, env, c, chunk, items, outputs).env.tally.saves == env.tally.saves
  {
    hide RunPhase, Logged;
    PhaseFacts(plan.policies, Write(chunk, items, outputs), env, c.skipped);
  }

  /** The checkpoint of a chunk, if it is saved, is the one with its index. */
  lemma CommitCheckpoints(plan: Plan, env: Env, context: Json, chunk: int)
    ensures var r := CommitChunk(plan, env, context, chunk);
      && (Checkpointed(plan.config, env, r.env, chunk, 0) || Checkpointed(plan.config, env, r.env, chunk, 1))
      && (r.result.Ok? ==> Checkpointed(plan.config, env, r.env, chunk, 1))
  {
    hide CommitChunk, SavedIndices;
    CommitAccounts(plan, env, context, chunk);
    var r := CommitChunk(plan, env, context, chunk);
    if r.env.log == env.log {
      if r.env.tally == env.tally && r.env.context == env.context {
        NoCheckpoint(plan.config, env, r.env, chunk);
        assert Checkpointed(plan.config, env, r.env, chunk, 0);
      }
      assert |env.log + [Saved(chunk)]| == |env.log| + 1;
    } else {
      SavedIndicesConcat(env.log, [Saved(chunk)]);
      SaveIsOne(chunk);
      if KeysAside(plan.config) {
        UpdateKeepsIndex(plan.config, env, 0, WithLastChunkIndex(context, chunk));
        IndexRecorded(context, chunk);
      }
      assert Checkpointed(plan.config, env, r.env, chunk, 1);
    }
  }

  lemma IndexRecorded(context: Json, chunk: int)
    ensures ReadLastCheckpoint(WithLastChunkIndex(context, chunk)) == Some(chunk)
  {
  }

  lemma ChunkPassCheckpoints(plan: Plan, p: Progress)
    requires !Draining(plan, p)
    ensures PassCheckpoints(plan, p, ChunkPass(plan, p))
  {
    hide ReadItems, ProcessItems, WriteItems, CommitChunk, SavedIndices, From, Checkpointed, Cap;
    var cap := Cap(plan, p.counters);
    NoCheckpoint(plan.config, p.env, p.env, p.chunkIndex);
    var before := Listen(p.env);
    NoCheckpoint(plan.config, p.env, before.env, p.chunkIndex);
    if cap != 0 && before.result.Ok? {
      StagesSaveNothing(plan, before.env, p.counters, p.chunkIndex, cap);
      var r := ReadItems(plan, before.env, p.counters, [], 0, cap);
      NoCheckpoint(plan.config, p.env, r.env, p.chunkIndex);
      NoCheckpoint(plan.config, p.env, Listen(r.env).env, p.chunkIndex);
      if r.result.Ok? && |r.items| > 0 {
        StagesCheckpoint(plan, p, r);
      }
    }
  }

  lemma StagesCheckpoint(plan: Plan, p: Progress, r: ReadRun)
    requires !Draining(plan, p) && Cap(plan, p.counters) != 0 && Listen(p.env).result.Ok?
    requires r == ReadItems(plan, Listen(p.env).env, p.counters, [], 0, Cap(plan, p.counters)) && r.result.Ok? && |r.items| > 0
    ensures PassCheckpoints(plan, p, ChunkPass(plan, p))
  {
    hide ReadItems, ProcessItems, WriteItems, CommitChunk, SavedIndices, From, Checkpointed, Cap;
    StagesSaveNothing(plan, Listen(p.env).env, p.counters, p.chunkIndex, Cap(plan, p.counters));
    var q := ProcessItems(plan, r.env, r.counters, r.items, 0, []);
    NoCheckpoint(plan.config, p.env, q.env, p.chunkIndex);
    if q.result.Ok? {
      var w := WriteItems(plan, q.env, q.counters, p.chunkIndex, r.items, q.outputs);
      NoCheckpoint(plan.config, p.env, w.env, p.chunkIndex);
      if w.result.Ok? {
        CommitCheckpoints(plan, w.env, p.context, p.chunkIndex);
        var c := CommitChunk(plan, w.env, p.context, p.chunkIndex);
        if Checkpointed(plan.config, w.env, c.env, p.chunkIndex, 0) {
          SameStart(plan.config, p.env, w.env, c.env, p.chunkIndex, 0);
        }
        if Checkpointed(plan.config, w.env, c.env, p.chunkIndex, 1) {
          SameStart(plan.config, p.env, w.env, c.env, p.chunkIndex, 1);
        }
        if c.result.Ok? {
          SameEnd(plan.config, p.env, c.env, Listen(c.env).env, p.chunkIndex, 1);
        }
      }
    }
  }

  lemma SameStart(config: StepConfig, before: Env, before': Env, after: Env, start: int, n: nat)
    requires Checkpointed(config, before', after, start, n)
    requires SavedIndices(before'.log) == SavedIndices(before.log) && before'.context == before.context
    requires before'.tally.saves == before.tally.saves
    ensures Checkpointed(config, before, after, start, n)
  {
  }

  lemma SameEnd(config: StepConfig, before: Env, after: Env, after': Env, start: int, n: nat)
    requires Checkpointed(config, before, after, start, n) && SameBooks(after, after')
    ensures Checkpointed(config, before, after', start, n)
  {
  }

  lemma Follow(config: StepConfig, a: Env, b: Env, c: Env, start: int, m: nat, n: nat)
    requires Checkpointed(config, a, b, start, m) && Checkpointed(config, b, c, start + m, n)
    ensures Checkpointed(config, a, c, start, m + n)
  {
    FromJoins(start, m, n);
    hide SavedIndices, From, ReadLastCheckpoint, KeysAside;
    assert SavedIndices(a.log) + From(start, m) + From(start + m, n) == SavedIndices(a.log) + (From(start, m) + From(start + m, n));
  }

  lemma FromJoins(start: int, m: nat, n: nat)
    ensures From(start, m + n) == From(start, m) + From(start + m, n)
  {
  }

  lemma {:induction false} LoopCheckpoints(plan: Plan, p: Progress)
    ensures var l := Loop(plan, p);
      SomeCheckpoints(plan.config, p.env, l.progress.env, NextIndex(plan, p))
    decreases |p.env.source| - p.env.position
  {
    hide DrainPass, ChunkPass, Checkpointed, NextIndex;
    if Draining(plan, p) { DrainPassCheckpoints(plan, p); } else { ChunkPassCheckpoints(plan, p); }
    match OnePass(plan, p)
    case Stops(p', result) =>
    case Continues(p') =>
      LoopCheckpoints(plan, p');
      var l := Loop(plan, p');
      var n: nat :| Checkpointed(plan.config, p'.env, l.progress.env, NextIndex(plan, p'), n);
      Follow(plan.config, p.env, p'.env, l.progress.env, NextIndex(plan, p), if Draining(plan, p) then 0 else 1, n);
  }

  lemma TryCheckpoints(plan: Plan, env: Env)
    ensures var t := Try(plan, env);
      SomeCheckpoints(plan.config, env, t.env, FirstUndrained(plan.config))
  {
    hide OpenAll, AfterLoop, Loop, Checkpointed, Draining;
    OpenAllKeepsBooks(plan, env);
    var o := OpenAll(plan, env);
    if o.result.Ok? {
      var p := Progress(o.env, NO_COUNTERS, FirstChunk(plan.config), o.env.context);
      LoopCheckpoints(plan, p);
      StartsUndrained(plan, p);
      var l := Loop(plan, p);
      var n: nat :| Checkpointed(plan.config, p.env, l.progress.env, NextIndex(plan, p), n);
      AfterLoopKeepsBooks(l, |o.ready|);
      SameStart(plan.config, env, o.env, l.progress.env, NextIndex(plan, p), n);
      SameEnd(plan.config, env, l.progress.env, AfterLoop(l, |o.ready|).env, NextIndex(plan, p), n);
    } else {
      NoCheckpoint(plan.config, env, o.env, FirstUndrained(plan.config));
      assert Try(plan, env).env == o.env;
    }
  }

  lemma StartsUndrained(plan: Plan, p: Progress)
    requires p.chunkIndex == FirstChunk(plan.config)
    ensures NextIndex(plan, p) == FirstUndrained(plan.config)
  {
  }

  lemma RunCheckpoints(config: StepConfig, env: Env)
    ensures SomeCheckpoints(config, env, RunStep(config, env).env, FirstUndrained(config))
  {
    hide Try, Catch, Checkpointed, MakePlan;
    NoCheckpoint(config, env, env, FirstUndrained(config));
    if MakePlan(config).Ok? {
      PlanKeepsConfig(config);
      var plan := MakePlan(config).value;
      var before := Listen(env);
      NoCheckpoint(config, env, before.env, FirstUndrained(config));
      if before.result.Ok? {
        TryCheckpoints(plan, before.env);
        var t := Try(plan, before.env);
        var n: nat :| Checkpointed(config, before.env, t.env, FirstUndrained(config), n);
        SameStart(config, env, before.env, t.env, FirstUndrained(config), n);
        if t.result.Thrown? {
          CatchKeepsBooks(t, t.result.error);
          SameEnd(config, env, t.env, Catch(t, t.result.error).env, FirstUndrained(config), n);
        }
      }
    }
  }

  lemma PlanKeepsConfig(config: StepConfig)
    requires MakePlan(config).Ok?
    ensures MakePlan(config).value.config == config
  {
  }

  /**
   * Checkpoints and commits, for every run however it ends: the checkpoints saved carry consecutive chunk
   * indices from the first chunk not drained on; the row remembers the last of them, or is as it was; and the
   * commit count of a completed step is that last index plus one minus the first - of a failed one, or one less.
   */
  lemma CommitsAreConsecutive(config: StepConfig, env: Env)
    requires env.tally == NO_TALLY && env.log == []
    ensures var run := RunStep(config, env);
      var (start, saves, last) := (FirstUndrained(config), run.env.tally.saves, ReadLastCheckpoint(run.env.context));
      && SavedIndices(run.env.log) == From(start, saves)
      && (saves == 0 ==> run.env.context == env.context)
      && (saves > 0 && KeysAside(config) ==> last == Some(start + saves - 1))
      && (CompletedRun(run) ==> run.outcome.result.counters.committed == saves)
      && (run.outcome.Returned? ==> saves - 1 <= run.outcome.result.counters.committed <= saves)
      && (CompletedRun(run) && saves > 0 && KeysAside(config) ==>
            run.outcome.result.counters.committed == last.value + 1 - start)
  {
    hide RunStep, FirstUndrained, From, SavedIndices, KeysAside, ReadLastCheckpoint;
    RunCheckpoints(config, env);
    NothingSaved();
    var run := RunStep(config, env);
    var n: nat :| Checkpointed(config, env, run.env, FirstUndrained(config), n);
    assert [] + From(FirstUndrained(config), n) == From(FirstUndrained(config), n);
    CommittedCount(config, env);
  }

  lemma NothingSaved()
    ensures SavedIndices([]) == []
  {
  }

  lemma CommittedCount(config: StepConfig, env: Env)
    requires env.tally == NO_TALLY
    ensures var run := RunStep(config, env);
      && (CompletedRun(run) ==> run.outcome.result.counters.committed == run.env.tally.saves)
      && (run.outcome.Returned? ==>
            run.env.tally.saves - 1 <= run.outcome.result.counters.committed <= run.env.tally.saves)
  {
    hide RunPlanned, OpenAll, LastBegun, WithinBudget;
    if MakePlan(config).Ok? {
      hide MakePlan;
      RunAccounts(config, env);
    }
  }
}
