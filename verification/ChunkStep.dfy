/**
 * The chunk step as recursive functions: what `execute` of
 * packages/core/src/execution/chunk-step-executor.ts computes, stage by stage.  The executor itself,
 * with its loops, is ChunkStepExecutor; the properties are in ChunkAccounting and Restart.
 */
module ChunkStep {
  import opened Common
  import opened Checkpoint
  import opened Environment
  import opened Policies
  import opened PhaseRunner
  import opened Partitions
  import opened Statuses

  /** The transport's partition arguments and what the step's range resolver returns for them, if it has one. */
  datatype PartitionArgs = PartitionArgs(index: int, count: int, range: Option<Range>)

  /** Streams checkpoint under a key of their own; a component without a key is not an ItemStream. */
  datatype StepConfig = StepConfig(
    chunkSize: int,
    hasProcessor: bool,
    skip: Option<SkipConfig>,
    retry: Option<RetryConfig>,
    readerKey: Option<string>,
    writerKey: Option<string>,
    partition: Option<PartitionArgs>,
    resume: Option<int>)

  /** A step whose policies are compiled and whose partition is resolved to its budget of items. */
  datatype Plan = Plan(config: StepConfig, policies: PolicySet, budget: Option<nat>)

  datatype Counters = Counters(read: nat, written: nat, skipped: nat, committed: nat)

  const NO_COUNTERS := Counters(0, 0, 0, 0)

  datatype StepResult = StepResult(status: StepStatus, counters: Counters, error: Option<Error>)

  /** execute either returns a result, FAILED included, or lets an error out. */
  datatype StepOutcome = Returned(result: StepResult) | Propagated(error: Error)
  datatype StepRun = StepRun(env: Env, outcome: StepOutcome)

  // ---------------------------------------------------------------- before the try block

  function PartitionBudget(partition: Option<PartitionArgs>): Result<Option<nat>, Error> {
    match partition
    case None => Ok(None)
    case Some(p) =>
      if EnforcePartitionIndex(Some(p.index), p.count).Thrown? then Thrown(InvalidPartition)
      else match p.range
        case None => Ok(None)
        case Some(range) =>
          if range.from < 0 || range.to < range.from then Thrown(InvalidPartition)
          else Ok(Some(range.to - range.from))
  }

  function MakePlan(config: StepConfig): Result<Plan, Error> {
    match Compile(config.skip, config.retry)
    case Thrown(error) => Thrown(error)
    case Ok(policies) =>
      match PartitionBudget(config.partition)
      case Thrown(error) => Thrown(error)
      case Ok(budget) => Ok(Plan(config, policies, budget))
  }

  /**
   * A plan is made exactly for positive limits and a partition whose index is one of its count and whose range,
   * if it has one, runs forwards from no negative index; the budget is the length of that range.
   */
  lemma PlanMadeIff(config: StepConfig)
    ensures var (plan, p) := (MakePlan(config), config.partition);
            var limits := (config.skip.Some? ==> config.skip.value.limit > 0) && (config.retry.Some? ==> config.retry.value.limit > 0);
            var partitioned := p.Some? ==>
              0 <= p.value.index < p.value.count && (p.value.range.Some? ==> 0 <= p.value.range.value.from <= p.value.range.value.to);
      && (plan.Ok? <==> limits && partitioned)
      && (plan == Thrown(InvalidPartition) <==> limits && !partitioned)
      && (plan.Ok? ==>
            && plan.value.config == config && Compiled(plan.value.policies)
            && (plan.value.budget == None <==> p == None || p.value.range == None)
            && (p.Some? && p.value.range.Some? ==> plan.value.budget == Some(p.value.range.value.to - p.value.range.value.from)))
  {
    CompileKeeps(config.skip, config.retry);
  }

  // ---------------------------------------------------------------- streams

  datatype Stream = ReaderStream(key: string) | WriterStream(key: string)

  function Streams(config: StepConfig): seq<Stream> {
    (if config.readerKey.Some? then [ReaderStream(config.readerKey.value)] else [])
    + (if config.writerKey.Some? then [WriterStream(config.writerKey.value)] else [])
  }

  function Opened(trace: Trace): Trace {
    trace.(contacts := trace.contacts.(openings := trace.contacts.openings + 1))
  }

  function CloseStream(env: Env): Answer<()> {
    var called := Call(env);
    var before := called.env.trace.contacts;
    var contacts := if called.result.Ok? then before.(closings := before.closings + 1) else before.(stuck := before.stuck + [called.result.error]);
    Answer(called.env.(trace := called.env.trace.(contacts := contacts)), called.result)
  }

  /** open: a reader stream takes up the position it checkpointed. */
  function OpenStream(env: Env, stream: Stream, context: Json): Answer<()> {
    var called := Call(env);
    if called.result.Thrown? then called else
    var ready := called.env.(trace := Opened(called.env.trace));
    if stream.WriterStream? then Answer(ready, Ok(()))
    else Answer(ready.(position := Max(0, ReadCheckpointNumber(context, stream.key, "offset", 0))), Ok(()))
  }

  datatype OpenRun = OpenRun(env: Env, ready: seq<Stream>, result: Result<(), Error>)

  function OpenStreams(env: Env, streams: seq<Stream>, ready: seq<Stream>, context: Json): OpenRun
    requires |ready| <= |streams|
    decreases |streams| - |ready|
  {
    if |ready| == |streams| then OpenRun(env, ready, Ok(())) else
    var a := OpenStream(env, streams[|ready|], context);
    if a.result.Thrown? then OpenRun(a.env, ready, a.result)
    else OpenStreams(a.env, streams, ready + [streams[|ready|]], context)
  }

  /** update: each stream writes its state under its key; a writer may also return nothing. */
  function UpdateStream(env: Env, stream: Stream, context: Json): Answer<Json> {
    match NextReply(env)
    case Fails(error) => Answer(Served(env, Some(error)), Thrown(error))
    case reply =>
      if stream.ReaderStream? then
        Answer(Served(env, None), Ok(WriteCheckpoint(context, stream.key, map["offset" := JNumber(env.position)])))
      else if reply.Yields? then
        Answer(Served(env, None), Ok(WriteCheckpoint(context, stream.key, map["state" := JNumber(reply.output)])))
      else Answer(Served(env, None), Ok(context))
  }

  function UpdateStreams(env: Env, streams: seq<Stream>, done: nat, context: Json): Answer<Json>
    requires done <= |streams|
    decreases |streams| - done
  {
    if done == |streams| then Answer(env, Ok(context)) else
    var a := UpdateStream(env, streams[done], context);
    if a.result.Thrown? then a else UpdateStreams(a.env, streams, done + 1, a.result.value)
  }

  /** close, last stream first; `left` streams are still open. */
  function CloseStreams(env: Env, left: nat): Answer<()>
    decreases left
  {
    if left == 0 then Answer(env, Ok(())) else
    var a := CloseStream(env);
    if a.result.Thrown? then a else CloseStreams(a.env, left - 1)
  }

  // ---------------------------------------------------------------- the stages of one chunk

  datatype DrainRun = DrainRun(env: Env, drained: nat, result: Result<(), Error>)

  /** The restart drain: plain reads, no listeners, no policies. */
  function Drain(env: Env, cap: int, drained: nat): (r: DrainRun)
    ensures Follows(env, r.env) && r.drained >= drained
    ensures r.drained > drained ==> env.position < r.env.position <= |env.source|
    decreases cap - drained
  {
    if drained >= cap then DrainRun(env, drained, Ok(())) else
    var a := DrainOne(env);
    if a.result.Thrown? then DrainRun(a.env, drained, Thrown(a.result.error))
    else if a.result.value.None? then DrainRun(a.env, drained, Ok(()))
    else Drain(a.env, cap, drained + 1)
  }

  datatype ReadRun = ReadRun(env: Env, counters: Counters, items: seq<Item>, result: Result<(), Error>)

  function ReadItems(plan: Plan, env: Env, counters: Counters, items: seq<Item>, i: nat, cap: int): (r: ReadRun)
    ensures Follows(env, r.env)
    ensures |items| <= |r.items|
    ensures |items| < |r.items| ==> env.position < r.env.position <= |env.source|
    decreases cap - i
  {
    hide RunPhase;
    if i >= cap then ReadRun(env, counters, items, Ok(())) else
    var phase := RunPhase(plan.policies, Read, env, counters.skipped);
    var counters' := counters.(skipped := phase.skips);
    match phase.outcome
    case Raised(error) => ReadRun(phase.env, counters', items, Thrown(error))
    case Skipped => ReadItems(plan, phase.env, counters', items, i + 1, cap)
    case Done(value) =>
      if !value.ItemValue? then ReadRun(phase.env, counters', items, Ok(()))
      else ReadItems(plan, phase.env, counters'.(read := counters.read + 1), items + [value.item], i + 1, cap)
  }

  datatype ProcessRun = ProcessRun(env: Env, counters: Counters, outputs: seq<Item>, result: Result<(), Error>)

  function ProcessItems(plan: Plan, env: Env, counters: Counters, items: seq<Item>, k: nat, outputs: seq<Item>): (r: ProcessRun)
    requires k <= |items|
    ensures Follows(env, r.env)
    decreases |items| - k
  {
    hide RunPhase;
    if k == |items| then ProcessRun(env, counters, outputs, Ok(()))
    else if !plan.config.hasProcessor then ProcessItems(plan, env, counters, items, k + 1, outputs + [items[k]])
    else
      var phase := RunPhase(plan.policies, Process(items[k]), env, counters.skipped);
      var counters' := counters.(skipped := phase.skips);
      match phase.outcome
      case Raised(error) => ProcessRun(phase.env, counters', outputs, Thrown(error))
      case Skipped => ProcessItems(plan, phase.env, counters', items, k + 1, outputs)
      case Done(value) =>
        if value.ItemValue? then ProcessItems(plan, phase.env, counters', items, k + 1, outputs + [value.item])
        else ProcessItems(plan, phase.env, counters'.(skipped := phase.skips + 1), items, k + 1, outputs)
  }

  datatype WriteRun = WriteRun(env: Env, counters: Counters, result: Result<(), Error>)

  function WriteItems(plan: Plan, env: Env, counters: Counters, chunk: int, items: seq<Item>, outputs: seq<Item>): (r: WriteRun)
    ensures Follows(env, r.env)
  {
    hide RunPhase;
    if |outputs| == 0 then WriteRun(env, counters, Ok(())) else
    var phase := RunPhase(plan.policies, Write(chunk, items, outputs), env, counters.skipped);
    var counters' := counters.(skipped := phase.skips);
    match phase.outcome
    case Raised(error) => WriteRun(phase.env, counters', Thrown(error))
    case Skipped => WriteRun(phase.env, counters', Ok(()))
    case Done(value) =>
      if value.Report? then
        WriteRun(phase.env, counters'.(written := counters.written + value.written, skipped := phase.skips + value.skipped), Ok(()))
      else
        WriteRun(phase.env, counters'.(written := counters.written + |outputs|), Ok(()))
  }

  /** Record the chunk index, let the streams record theirs, save, and read the row back. */
  function CommitChunk(plan: Plan, env: Env, context: Json, chunk: int): (r: Answer<Json>)
    ensures Follows(env, r.env) && r.env.position == env.position
  {
    UpdateKeepsReader(env, Streams(plan.config), 0, WithLastChunkIndex(context, chunk));
    var updated := UpdateStreams(env, Streams(plan.config), 0, WithLastChunkIndex(context, chunk));
    if updated.result.Thrown? then updated else
    var saved := SaveContext(updated.env, updated.result.value, chunk);
    if saved.result.Thrown? then Answer(saved.env, Thrown(saved.result.error)) else
    var loaded := Call(saved.env);
    if loaded.result.Thrown? then Answer(loaded.env, Thrown(loaded.result.error))
    else Answer(loaded.env, Ok(loaded.env.context))
  }

  lemma {:induction false} UpdateKeepsReader(env: Env, streams: seq<Stream>, done: nat, context: Json)
    requires done <= |streams|
    ensures var r := UpdateStreams(env, streams, done, context);
            && r.env.source == env.source && r.env.position == env.position && r.env.processor == env.processor
            && r.env.trace.ends == env.trace.ends
            && r.env.tally == env.tally && r.env.log == env.log && r.env.context == env.context
    decreases |streams| - done
  {
    if done < |streams| {
      var a := UpdateStream(env, streams[done], context);
      if a.result.Ok? { UpdateKeepsReader(a.env, streams, done + 1, a.result.value); }
    }
  }

  // ---------------------------------------------------------------- the loop

  /** The locals of the loop: `context` is the stream context, `chunkIndex` the chunk being assembled. */
  datatype Progress = Progress(env: Env, counters: Counters, chunkIndex: int, context: Json)

  datatype Pass = Stops(progress: Progress, result: Result<(), Error>) | Continues(progress: Progress)

  /** max(0, to - from - readCount) under a partition - chunkSize is not consulted there - else chunkSize. */
  function Cap(plan: Plan, counters: Counters): int {
    if plan.budget.Some? then Max(0, plan.budget.value - counters.read) else plan.config.chunkSize
  }

  predicate Draining(plan: Plan, p: Progress) {
    plan.config.resume.Some? && plan.config.readerKey.None? && p.chunkIndex <= plan.config.resume.value
  }

  function DrainPass(plan: Plan, p: Progress): (r: Pass)
    ensures r.Continues? ==> Follows(p.env, r.progress.env) && p.env.position < r.progress.env.position <= |p.env.source|
  {
    hide Drain;
    var cap := Cap(plan, p.counters);
    if cap == 0 then Stops(p, Ok(())) else
    var d := Drain(p.env, cap, 0);
    if d.result.Thrown? || d.drained == 0 then Stops(p.(env := d.env), d.result)
    else Continues(p.(env := d.env, chunkIndex := p.chunkIndex + 1))
  }

  function ChunkPass(plan: Plan, p: Progress): (r: Pass)
    ensures r.Continues? ==> Follows(p.env, r.progress.env) && p.env.position < r.progress.env.position <= |p.env.source|
  {
    hide ReadItems, ProcessItems, WriteItems, CommitChunk;
    var cap := Cap(plan, p.counters);
    if cap == 0 then Stops(p, Ok(())) else
    var before := Listen(p.env);
    if before.result.Thrown? then Stops(p.(env := before.env), before.result) else
    var r := ReadItems(plan, before.env, p.counters, [], 0, cap);
    if r.result.Thrown? then Stops(p.(env := r.env, counters := r.counters), r.result)
    else if |r.items| == 0 then
      var after := Listen(r.env);
      Stops(p.(env := after.env, counters := r.counters), after.result)
    else
      var q := ProcessItems(plan, r.env, r.counters, r.items, 0, []);
      if q.result.Thrown? then Stops(p.(env := q.env, counters := q.counters), q.result) else
      var w := WriteItems(plan, q.env, q.counters, p.chunkIndex, r.items, q.outputs);
      if w.result.Thrown? then Stops(p.(env := w.env, counters := w.counters), w.result) else
      var c := CommitChunk(plan, w.env, p.context, p.chunkIndex);
      if c.result.Thrown? then Stops(p.(env := c.env, counters := w.counters), Thrown(c.result.error)) else
      var after := Listen(c.env);
      var p' := Progress(after.env, w.counters, p.chunkIndex, c.result.value);
      if after.result.Thrown? then Stops(p', after.result)
      else Continues(p'.(counters := w.counters.(committed := w.counters.committed + 1), chunkIndex := p.chunkIndex + 1))
  }

  function OnePass(plan: Plan, p: Progress): (r: Pass)
    ensures r.Continues? ==> Follows(p.env, r.progress.env) && p.env.position < r.progress.env.position <= |p.env.source|
  {
    hide DrainPass, ChunkPass;
    if Draining(plan, p) then DrainPass(plan, p) else ChunkPass(plan, p)
  }

  datatype LoopRun = LoopRun(progress: Progress, result: Result<(), Error>)

  /** The chunk loop: it ends because every pass that goes on has moved the reader. */
  function Loop(plan: Plan, p: Progress): LoopRun
    decreases |p.env.source| - p.env.position
  {
    match OnePass(plan, p)
    case Stops(p', result) => LoopRun(p', result)
    case Continues(p') => Loop(plan, p')
  }

  // ---------------------------------------------------------------- around the loop

  /** The try block; `open` is the number of streams the catch block still has to close. */
  datatype TryRun = TryRun(env: Env, counters: Counters, open: nat, result: Result<(), Error>)

  function FirstChunk(config: StepConfig): int {
    if config.readerKey.Some? && config.resume.Some? then config.resume.value + 1 else 0
  }

  /** Resolve the components, load the context, open the streams. */
  function OpenAll(plan: Plan, env: Env): OpenRun {
    var resolved := Call(env);
    if resolved.result.Thrown? then OpenRun(resolved.env, [], resolved.result) else
    var loaded := Call(resolved.env);
    if loaded.result.Thrown? then OpenRun(loaded.env, [], loaded.result)
    else OpenStreams(loaded.env, Streams(plan.config), [], loaded.env.context)
  }

  function AfterLoop(l: LoopRun, open: nat): TryRun {
    var counters := l.progress.counters;
    if l.result.Thrown? then TryRun(l.progress.env, counters, open, l.result) else
    var closed := CloseStreams(l.progress.env, open);
    if closed.result.Thrown? then TryRun(closed.env, counters, 0, closed.result) else
    var after := Listen(closed.env);
    TryRun(after.env, counters, 0, after.result)
  }

  function Try(plan: Plan, env: Env): TryRun {
    var o := OpenAll(plan, env);
    if o.result.Thrown? then TryRun(o.env, NO_COUNTERS, |o.ready|, o.result)
    else AfterLoop(Loop(plan, Progress(o.env, NO_COUNTERS, FirstChunk(plan.config), o.env.context)), |o.ready|)
  }

  /** The catch block: close what is open, tell the three listeners, report FAILED. */
  function Catch(t: TryRun, error: Error): StepRun {
    var closed := CloseStreams(t.env, t.open);
    var finalError := if closed.result.Thrown? then closed.result.error else error;
    var chunkTold := Listen(closed.env);
    if chunkTold.result.Thrown? then StepRun(chunkTold.env, Propagated(chunkTold.result.error)) else
    var stepTold := Listen(chunkTold.env);
    if stepTold.result.Thrown? then StepRun(stepTold.env, Propagated(stepTold.result.error)) else
    var after := Listen(stepTold.env);
    if after.result.Thrown? then StepRun(after.env, Propagated(after.result.error))
    else StepRun(after.env, Returned(StepResult(StepFailed, t.counters, Some(finalError))))
  }

  function Conclude(t: TryRun): StepRun {
    match t.result
    case Ok(_) => StepRun(t.env, Returned(StepResult(StepCompleted, t.counters, None)))
    case Thrown(error) => Catch(t, error)
  }

  /** A step whose plan stands: the before-step listener, then the try and catch blocks. */
  function RunPlanned(plan: Plan, env: Env): StepRun {
    var before := Listen(env);
    if before.result.Thrown? then StepRun(before.env, Propagated(before.result.error))
    else Conclude(Try(plan, before.env))
  }

  /** A whole step execution. */
  function RunStep(config: StepConfig, env: Env): StepRun {
    match MakePlan(config)
    case Thrown(error) => StepRun(env, Propagated(error))
    case Ok(plan) => RunPlanned(plan, env)
  }

  ghost predicate CompletedRun(run: StepRun) {
    run.outcome.Returned? && run.outcome.result.status == StepCompleted
  }
}
