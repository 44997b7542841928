/**
 * The chunk step executor with its loops and running counters
 * (packages/core/src/execution/chunk-step-executor.ts).  Every method refines its function in ChunkStep.
 */
module ChunkStepExecutor {
  import opened Common
  import opened Checkpoint
  import opened Environment
  import opened PhaseRunner
  import opened ChunkStep
  import opened Statuses

  method OpenEach(env0: Env, streams: seq<Stream>, context: Json) returns (r: OpenRun)
    ensures r == OpenStreams(env0, streams, [], context)
  {
    var env, done := env0, [];
    while |done| < |streams|
      invariant |done| <= |streams|
      invariant OpenStreams(env, streams, done, context) == OpenStreams(env0, streams, [], context)
    {
      var a := OpenStream(env, streams[|done|], context);
      if a.result.Thrown? {
        return OpenRun(a.env, done, a.result);
      }
      env, done := a.env, done + [streams[|done|]];
    }
    return OpenRun(env, done, Ok(()));
  }

  method UpdateEach(env0: Env, streams: seq<Stream>, context: Json) returns (r: Answer<Json>)
    ensures r == UpdateStreams(env0, streams, 0, context)
  {
    var env, next := env0, context;
    for i := 0 to |streams|
      invariant UpdateStreams(env, streams, i, next) == UpdateStreams(env0, streams, 0, context)
    {
      var a := UpdateStream(env, streams[i], next);
      if a.result.Thrown? {
        return a;
      }
      env, next := a.env, a.result.value;
    }
    return Answer(env, Ok(next));
  }

  method CloseEach(env0: Env, open: nat) returns (r: Answer<()>)
    ensures r == CloseStreams(env0, open)
  {
    var env, i := env0, open;
    while i > 0
      invariant CloseStreams(env, i) == CloseStreams(env0, open)
    {
      var a := CloseStream(env);
      if a.result.Thrown? {
        return a;
      }
      env, i := a.env, i - 1;
    }
    return Answer(env, Ok(()));
  }

  method DrainChunk(env0: Env, cap: int) returns (r: DrainRun)
    ensures r == Drain(env0, cap, 0)
  {
    var env, drained := env0, 0;
    while drained < cap
      invariant Drain(env, cap, drained) == Drain(env0, cap, 0)
    {
      var a := DrainOne(env);
      env := a.env;
      if a.result.Thrown? {
        return DrainRun(env, drained, Thrown(a.result.error));
      }
      if a.result.value.None? {
        break;
      }
      drained := drained + 1;
    }
    return DrainRun(env, drained, Ok(()));
  }

  method ReadChunk(plan: Plan, env0: Env, counters0: Counters, cap: int) returns (r: ReadRun)
    ensures r == ReadItems(plan, env0, counters0, [], 0, cap)
  {
    hide RunPhase;
    var env, counters, items, i, eof := env0, counters0, [], 0, false;
    while i < cap && !eof
      invariant (if eof then ReadRun(env, counters, items, Ok(())) else ReadItems(plan, env, counters, items, i, cap))
             == ReadItems(plan, env0, counters0, [], 0, cap)
      decreases cap - i, !eof
    {
      var phase := ExecutePhase(plan.policies, Read, env, counters.skipped);
      env, counters := phase.env, counters.(skipped := phase.skips);
      match phase.outcome
      case Raised(error) =>
        return ReadRun(env, counters, items, Thrown(error));
      case Skipped =>
        i := i + 1;
      case Done(value) =>
        if value.ItemValue? {
          items, counters := items + [value.item], counters.(read := counters.read + 1);
          i := i + 1;
        } else {
          eof := true;
        }
    }
    return ReadRun(env, counters, items, Ok(()));
  }

  method ProcessChunk(plan: Plan, env0: Env, counters0: Counters, items: seq<Item>) returns (r: ProcessRun)
    ensures r == ProcessItems(plan, env0, counters0, items, 0, [])
  {
    hide RunPhase;
    var env, counters, outputs := env0, counters0, [];
    for k := 0 to |items|
      invariant ProcessItems(plan, env, counters, items, k, outputs) == ProcessItems(plan, env0, counters0, items, 0, [])
    {
      if !plan.config.hasProcessor {
        outputs := outputs + [items[k]];
      } else {
        var phase := ExecutePhase(plan.policies, Process(items[k]), env, counters.skipped);
        env, counters := phase.env, counters.(skipped := phase.skips);
        match phase.outcome
        case Raised(error) =>
          return ProcessRun(env, counters, outputs, Thrown(error));
        case Skipped =>
        case Done(value) =>
          if value.ItemValue? {
            outputs := outputs + [value.item];
          } else {
            counters := counters.(skipped := counters.skipped + 1);  // filtered out
          }
      }
    }
    return ProcessRun(env, counters, outputs, Ok(()));
  }

  method WriteChunk(plan: Plan, env: Env, counters0: Counters, chunk: int, items: seq<Item>, outputs: seq<Item>)
    returns (r: WriteRun)
    ensures r == WriteItems(plan, env, counters0, chunk, items, outputs)
  {
    hide RunPhase;
    if |outputs| == 0 {
      return WriteRun(env, counters0, Ok(()));
    }
    var phase := ExecutePhase(plan.policies, Write(chunk, items, outputs), env, counters0.skipped);
    var counters := counters0.(skipped := phase.skips);
    if phase.outcome.Raised? {
      return WriteRun(phase.env, counters, Thrown(phase.outcome.error));
    }
    if phase.outcome.Done? {
      var value := phase.outcome.value;
      if value.Report? {
        counters := counters.(written := counters.written + value.written, skipped := counters.skipped + value.skipped);
      } else {
        counters := counters.(written := counters.written + |outputs|);
      }
    }
    return WriteRun(phase.env, counters, Ok(()));
  }

  method SaveCheckpoint(plan: Plan, env: Env, context: Json, chunk: int) returns (r: Answer<Json>)
    ensures r == CommitChunk(plan, env, context, chunk)
  {
    hide UpdateStreams;
    var updated := UpdateEach(env, Streams(plan.config), WithLastChunkIndex(context, chunk));
    if updated.result.Thrown? {
      return updated;
    }
    var saved := SaveContext(updated.env, updated.result.value, chunk);
    if saved.result.Thrown? {
      return Answer(saved.env, Thrown(saved.result.error));
    }
    var loaded := Call(saved.env);
    if loaded.result.Thrown? {
      return Answer(loaded.env, Thrown(loaded.result.error));
    }
    return Answer(loaded.env, Ok(loaded.env.context));
  }

  method DrainOnce(plan: Plan, p: Progress) returns (r: Pass)
    ensures r == DrainPass(plan, p)
  {
    hide Drain;
    var cap := Cap(plan, p.counters);
    if cap == 0 {
      return Stops(p, Ok(()));
    }
    var d := DrainChunk(p.env, cap);
    if d.result.Thrown? || d.drained == 0 {
      return Stops(p.(env := d.env), d.result);
    }
    return Continues(p.(env := d.env, chunkIndex := p.chunkIndex + 1));
  }

  method ChunkOnce(plan: Plan, p: Progress) returns (r: Pass)
    ensures r == ChunkPass(plan, p)
  {
    hide ReadItems, ProcessItems, WriteItems, CommitChunk;
    var cap := Cap(plan, p.counters);
    if cap == 0 {
      return Stops(p, Ok(()));
    }
    var before := Listen(p.env);
    if before.result.Thrown? {
      return Stops(p.(env := before.env), before.result);
    }
    var rd := ReadChunk(plan, before.env, p.counters, cap);
    if rd.result.Thrown? {
      return Stops(p.(env := rd.env, counters := rd.counters), rd.result);
    }
    if |rd.items| == 0 {
      var told := Listen(rd.env);
      return Stops(p.(env := told.env, counters := rd.counters), told.result);
    }
    var pr := ProcessChunk(plan, rd.env, rd.counters, rd.items);
    if pr.result.Thrown? {
      return Stops(p.(env := pr.env, counters := pr.counters), pr.result);
    }
    var wr := WriteChunk(plan, pr.env, pr.counters, p.chunkIndex, rd.items, pr.outputs);
    if wr.result.Thrown? {
      return Stops(p.(env := wr.env, counters := wr.counters), wr.result);
    }
    var saved := SaveCheckpoint(plan, wr.env, p.context, p.chunkIndex);
    if saved.result.Thrown? {
      return Stops(p.(env := saved.env, counters := wr.counters), Thrown(saved.result.error));
    }
    var after := Listen(saved.env);
    var p' := Progress(after.env, wr.counters, p.chunkIndex, saved.result.value);
    if after.result.Thrown? {
      return Stops(p', after.result);
    }
    var counters := wr.counters.(committed := wr.counters.committed + 1);
    return Continues(p'.(counters := counters, chunkIndex := p.chunkIndex + 1));
  }

  /** The outer loop: drain what a restart has behind it, then read, process, write, checkpoint. */
  method RunLoop(plan: Plan, p0: Progress) returns (r: LoopRun)
    ensures r == Loop(plan, p0)
  {
    hide DrainPass, ChunkPass;
    var p := p0;
    while true
      invariant Loop(plan, p) == Loop(plan, p0)
      decreases |p.env.source| - p.env.position
    {
      var pass: Pass;
      if Draining(plan, p) {
        pass := DrainOnce(plan, p);
      } else {
        pass := ChunkOnce(plan, p);
      }
      assert pass == OnePass(plan, p);
      if pass.Stops? {
        return LoopRun(pass.progress, pass.result);
      }
      p := pass.progress;
    }
  }

  method TryBody(plan: Plan, env: Env) returns (t: TryRun)
    ensures t == Try(plan, env)
  {
    hide Loop, OpenStreams, CloseStreams;
    var resolved := Call(env);
    if resolved.result.Thrown? {
      return TryRun(resolved.env, NO_COUNTERS, 0, resolved.result);
    }
    var loaded := Call(resolved.env);
    if loaded.result.Thrown? {
      return TryRun(loaded.env, NO_COUNTERS, 0, loaded.result);
    }
    var o := OpenEach(loaded.env, Streams(plan.config), loaded.env.context);
    if o.result.Thrown? {
      return TryRun(o.env, NO_COUNTERS, |o.ready|, o.result);
    }
    var chunkIndex := 0;
    if plan.config.readerKey.Some? && plan.config.resume.Some? {
      chunkIndex := plan.config.resume.value + 1;
    }
    var l := RunLoop(plan, Progress(o.env, NO_COUNTERS, chunkIndex, o.env.context));
    if l.result.Thrown? {
      return TryRun(l.progress.env, l.progress.counters, |o.ready|, l.result);
    }
    var closed := CloseEach(l.progress.env, |o.ready|);
    if closed.result.Thrown? {
      return TryRun(closed.env, l.progress.counters, 0, closed.result);
    }
    var after := Listen(closed.env);
    return TryRun(after.env, l.progress.counters, 0, after.result);
  }

  method CatchError(t: TryRun, error: Error) returns (run: StepRun)
    ensures run == Catch(t, error)
  {
    hide CloseStreams;
    var finalError := error;
    var closed := CloseEach(t.env, t.open);
    if closed.result.Thrown? {
      finalError := closed.result.error;
    }
    var chunkTold := Listen(closed.env);
    if chunkTold.result.Thrown? {
      return StepRun(chunkTold.env, Propagated(chunkTold.result.error));
    }
    var stepTold := Listen(chunkTold.env);
    if stepTold.result.Thrown? {
      return StepRun(stepTold.env, Propagated(stepTold.result.error));
    }
    var after := Listen(stepTold.env);
    if after.result.Thrown? {
      return StepRun(after.env, Propagated(after.result.error));
    }
    return StepRun(after.env, Returned(StepResult(StepFailed, t.counters, Some(finalError))));
  }

  /** The whole step: policies and partition are checked before the try block, so their errors propagate. */
  method Execute(config: StepConfig, env: Env) returns (run: StepRun)
    ensures run == RunStep(config, env)
  {
    hide Try, Catch, MakePlan;
    var plan := MakePlan(config);
    if plan.Thrown? {
      return StepRun(env, Propagated(plan.error));
    }
    var before := Listen(env);
    if before.result.Thrown? {
      return StepRun(before.env, Propagated(before.result.error));
    }
    var t := TryBody(plan.value, before.env);
    if t.result.Ok? {
      return StepRun(t.env, Returned(StepResult(StepCompleted, t.counters, None)));
    }
    run := CatchError(t, t.result.error);
  }
}
