/**
 * When a chunk step may end COMPLETED although its reader has more to give
 * (packages/core/src/execution/chunk-step-executor.ts:287-292, 333-351).
 */
module InputLoss {
  import opened Common
  import opened Checkpoint
  import opened Environment
  import opened Policies
  import opened PhaseRunner
  import opened ChunkStep
  import opened ChunkFrames

  // ---------------------------------------------------------------- reading until the end

  /** A read phase that gives nothing has met the end of input; one that skips had an error to skip. */
  ghost predicate ReadMeans(policies: PolicySet, env: Env, r: PhaseResult) {
    && env.trace.ends <= r.env.trace.ends
    && (r.outcome == Done(NoValue) ==> r.env.trace.ends > env.trace.ends)
    && (r.outcome.Skipped? ==> policies.skip.Some? && exists e :: policies.skip.value.skippable(e))
  }

  lemma AttemptEnds(policies: PolicySet, env: Env, skips: nat, attempt: nat)
    ensures match Attempt(policies, Read, env, skips, attempt)
            case Ends(r) => ReadMeans(policies, env, r)
            case Again(env') => env.trace.ends <= env'.trace.ends
  {
    hide Listen, NotifySkip, Succeeded, SkipNoted, CanRetry;
    ListenKeeps(env);
    var tried := Perform(Listen(env).env, Read);
    ListenKeeps(tried.env);
    NotifySkipKeeps(Listen(tried.env).env, Read);
  }

  lemma {:induction false} PhaseEnds(policies: PolicySet, env: Env, skips: nat, attempt: nat)
    ensures ReadMeans(policies, env, Phase(policies, Read, env, skips, attempt))
    decreases AttemptCap(policies) + 1 - attempt
  {
    hide Attempt;
    if attempt <= AttemptCap(policies) {
      AttemptEnds(policies, env, skips, attempt);
      match Attempt(policies, Read, env, skips, attempt)
      case Ends(r) =>
      case Again(env') => PhaseEnds(policies, env', skips, attempt + 1);
    }
  }

  lemma ReadEnds(policies: PolicySet, env: Env, skips: nat)
    ensures ReadMeans(policies, env, RunPhase(policies, Read, env, skips))
    ensures var r := RunPhase(policies, Read, env, skips);
      r.outcome.Skipped? ==> r.skips == skips + 1 <= SkipLimit(policies)
    ensures var r := RunPhase(policies, Read, env, skips);
      r.outcome.Done? ==> r.skips == skips && !r.outcome.value.Report?
  {
    hide Phase, Logged;
    PhaseEnds(policies, env, skips, 1);
    PhaseFacts(policies, Read, env, skips);
  }

  /** Some error in a read is skipped by the policy. */
  ghost predicate Skippable(policies: PolicySet) {
    policies.skip.Some? && exists e :: policies.skip.value.skippable(e)
  }

  /** A chunk is read up to the end of input, or each of its reads gave an item or was skipped. */
  lemma {:induction false} ReadsAccountForCap(plan: Plan, env: Env, c: Counters, items: seq<Item>, i: nat, cap: int)
    requires i <= cap
    ensures var r := ReadItems(plan, env, c, items, i, cap);
      && env.trace.ends <= r.env.trace.ends && c.skipped <= r.counters.skipped
      && (r.counters.skipped > c.skipped ==> r.counters.skipped <= SkipLimit(plan.policies) && Skippable(plan.policies))
      && (r.result.Ok? && r.env.trace.ends == env.trace.ends ==>
            |r.items| - |items| + r.counters.skipped - c.skipped == cap - i)
    decreases cap - i
  {
    hide RunPhase, SkipLimit;
    if i < cap {
      ReadEnds(plan.policies, env, c.skipped);
      var phase := RunPhase(plan.policies, Read, env, c.skipped);
      var c' := c.(skipped := phase.skips);
      match phase.outcome
      case Raised(_) => RaisedSkips(plan.policies, env, c.skipped);
      case Skipped => ReadsAccountForCap(plan, phase.env, c', items, i + 1, cap);
      case Done(value) =>
        if value.ItemValue? {
          ReadsAccountForCap(plan, phase.env, c'.(read := c.read + 1), items + [value.item], i + 1, cap);
        }
    }
  }

  lemma RaisedSkips(policies: PolicySet, env: Env, skips: nat)
    ensures var r := RunPhase(policies, Read, env, skips);
      && skips <= r.skips && (r.skips > skips ==> r.skips <= SkipLimit(policies) && Skippable(policies))
  {
    hide Phase, Logged;
    PhaseFacts(policies, Read, env, skips);
    PhaseSkips(policies, env, skips, 1);
  }

  lemma {:induction false} PhaseSkips(policies: PolicySet, env: Env, skips: nat, attempt: nat)
    ensures Phase(policies, Read, env, skips, attempt).skips != skips ==> Skippable(policies)
    decreases AttemptCap(policies) + 1 - attempt
  {
    hide Attempt;
    if attempt <= AttemptCap(policies) {
      AttemptSkips(policies, env, skips, attempt);
      match Attempt(policies, Read, env, skips, attempt)
      case Ends(r) =>
      case Again(env') => PhaseSkips(policies, env', skips, attempt + 1);
    }
  }

  lemma AttemptSkips(policies: PolicySet, env: Env, skips: nat, attempt: nat)
    ensures match Attempt(policies, Read, env, skips, attempt)
            case Ends(r) => r.skips != skips ==> Skippable(policies)
            case Again(_) => true
  {
    hide Listen, Perform, NotifySkip, CanRetry;
  }

  /** The limit and the chunk size leave no room for a chunk of nothing but skipped reads. */
  ghost predicate NoChunkOfSkips(config: StepConfig) {
    && config.chunkSize > 0
    && (config.skip.None? || config.skip.value.limit < config.chunkSize || forall e :: !config.skip.value.skippable(e))
  }

  /** The plan is the configuration's own, not bounded by a partition's range. */
  ghost predicate PlansFor(plan: Plan, config: StepConfig) {
    && plan.config == config && plan.budget.None?
    && plan.policies.skip.Some? == config.skip.Some?
    && (config.skip.Some? ==>
          plan.policies.skip.value.limit == config.skip.value.limit > 0
          && plan.policies.skip.value.skippable == config.skip.value.skippable)
  }

  lemma PlanFor(config: StepConfig)
    requires MakePlan(config).Ok? && MakePlan(config).value.budget.None?
    ensures PlansFor(MakePlan(config).value, config)
  {
  }

  lemma EmptyChunkMeetsEnd(plan: Plan, env: Env, c: Counters)
    requires PlansFor(plan, plan.config) && NoChunkOfSkips(plan.config)
    requires var r := ReadItems(plan, env, c, [], 0, plan.config.chunkSize); r.result.Ok? && r.items == []
    ensures ReadItems(plan, env, c, [], 0, plan.config.chunkSize).env.trace.ends > env.trace.ends
  {
    hide ReadItems;
    ReadsAccountForCap(plan, env, c, [], 0, plan.config.chunkSize);
  }

  lemma EmptyDrainMeetsEnd(env: Env, cap: int)
    requires cap > 0 && Drain(env, cap, 0).drained == 0 && Drain(env, cap, 0).result.Ok?
    ensures Drain(env, cap, 0).env.trace.ends > env.trace.ends
  {
    var a := DrainOne(env);
    assert a.result.Ok? && a.result.value.Some? ==> Drain(env, cap, 0) == Drain(a.env, cap, 1);
  }

  lemma StopsAtEnd(plan: Plan, p: Progress)
    requires PlansFor(plan, plan.config) && NoChunkOfSkips(plan.config)
    requires OnePass(plan, p).Stops? && OnePass(plan, p).result.Ok?
    ensures OnePass(plan, p).progress.env.trace.ends > p.env.trace.ends
  {
    hide ReadItems, ProcessItems, WriteItems, CommitChunk, Drain, NoChunkOfSkips, PlansFor;
    CapIsSize(plan, p.counters);
    if Draining(plan, p) {
      EmptyDrainMeetsEnd(p.env, plan.config.chunkSize);
    } else {
      ListenKeeps(p.env);
      var r := ReadItems(plan, Listen(p.env).env, p.counters, [], 0, plan.config.chunkSize);
      if r.result.Ok? && |r.items| == 0 {
        EmptyChunkMeetsEnd(plan, Listen(p.env).env, p.counters);
        ListenKeeps(r.env);
      }
    }
  }

  lemma CapIsSize(plan: Plan, c: Counters)
    requires PlansFor(plan, plan.config) && NoChunkOfSkips(plan.config)
    ensures Cap(plan, c) == plan.config.chunkSize > 0
  {
  }

  lemma {:induction false} LoopMeetsEnd(plan: Plan, p: Progress)
    requires PlansFor(plan, plan.config) && NoChunkOfSkips(plan.config)
    ensures Loop(plan, p).result.Ok? ==> Loop(plan, p).progress.env.trace.ends > p.env.trace.ends
    decreases |p.env.source| - p.env.position
  {
    hide OnePass, NoChunkOfSkips, PlansFor;
    match OnePass(plan, p)
    case Stops(_, result) => if result.Ok? { StopsAtEnd(plan, p); }
    case Continues(p') => LoopMeetsEnd(plan, p');
  }

  lemma {:induction false} CloseKeepsEnds(env: Env, open: nat)
    ensures CloseStreams(env, open).env.trace.ends == env.trace.ends
    decreases open
  {
    if open > 0 && CloseStream(env).result.Ok? { CloseKeepsEnds(CloseStream(env).env, open - 1); }
  }

  lemma {:induction false} OpenKeepsEnds(env: Env, streams: seq<Stream>, ready: seq<Stream>, context: Json)
    requires |ready| <= |streams|
    ensures OpenStreams(env, streams, ready, context).env.trace.ends == env.trace.ends
    decreases |streams| - |ready|
  {
    if |ready| < |streams| {
      var a := OpenStream(env, streams[|ready|], context);
      if a.result.Ok? { OpenKeepsEnds(a.env, streams, ready + [streams[|ready|]], context); }
    }
  }

  lemma CompletedMeetsEnd(config: StepConfig, env: Env)
    requires MakePlan(config).Ok? && MakePlan(config).value.budget.None? && NoChunkOfSkips(config) && CompletedRun(RunStep(config, env))
    ensures RunStep(config, env).env.trace.ends > env.trace.ends
  {
    PlanFor(config);
    hide MakePlan, PlansFor, NoChunkOfSkips, Loop, OpenStreams, CloseStreams;
    var plan := MakePlan(config).value;
    ListenKeeps(env);
    var before := Listen(env).env;
    var loaded := Call(Call(before).env);
    PlanIsFor(plan, config);
    OpenKeepsEnds(loaded.env, Streams(plan.config), [], loaded.env.context);
    var o := OpenAll(plan, before);
    var t := Try(plan, before);
    OnlyConcludes(t);
    var p := Progress(o.env, NO_COUNTERS, FirstChunk(plan.config), o.env.context);
    LoopMeetsEnd(plan, p);
    var l := Loop(plan, p);
    CloseKeepsEnds(l.progress.env, |o.ready|);
    ListenKeeps(CloseStreams(l.progress.env, |o.ready|).env);
  }

  lemma PlanIsFor(plan: Plan, config: StepConfig)
    requires PlansFor(plan, config)
    ensures PlansFor(plan, plan.config) && plan.config == config
  {
  }

  lemma OnlyConcludes(t: TryRun)
    ensures CompletedRun(Conclude(t)) ==> t.result.Ok? && Conclude(t).env == t.env
  {
    hide CloseStreams;
  }

  // ---------------------------------------------------------------- stopping early

  /** The script has run out: nothing but the reader fails any more. */
  ghost predicate Quiet(env: Env) {
    |env.script| <= env.next
  }

  /** What a quiet stretch leaves as it was. */
  ghost predicate QuietlyOn(env: Env, env': Env, taken: nat) {
    && Quiet(env') && env'.source == env.source && env'.processor == env.processor && env'.position == env.position + taken
    && env'.trace.ends == env.trace.ends && env'.tally.delivered == env.tally.delivered
  }

  lemma ListensQuietly(env: Env)
    requires Quiet(env)
    ensures Listen(env).result.Ok? && QuietlyOn(env, Listen(env).env, 0)
  {
  }

  /** From the position on the reader throws e so many times. */
  ghost predicate Throws(env: Env, e: Error, n: int) {
    env.position + n <= |env.source| && forall i :: env.position <= i < env.position + n ==> env.source[i] == ReadFails(e)
  }

  ghost predicate Skips(policies: PolicySet, e: Error, limit: int) {
    policies.skip.Some? && policies.skip.value.skippable(e) && SkipLimit(policies) == limit > 0
  }

  lemma SkippedRead(policies: PolicySet, env: Env, skips: nat, e: Error, limit: int)
    requires Quiet(env) && Throws(env, e, 1) && Skips(policies, e, limit) && skips + 1 <= limit
    ensures var r := RunPhase(policies, Read, env, skips);
      r.outcome.Skipped? && r.skips == skips + 1 && QuietlyOn(env, r.env, 1)
  {
    assert env.source[env.position] == ReadFails(e);
    var tried := Perform(Listen(env).env, Read);
    assert tried.result == Thrown(e);
    assert Judge(policies, e, 1, skips) == Verdict.Skip;
    assert Attempt(policies, Read, env, skips, 1).Ends?;
    hide Attempt;
  }

  lemma {:induction false} ChunkOfSkips(plan: Plan, env: Env, c: Counters, i: nat, cap: int, e: Error, limit: int)
    requires i <= cap && Quiet(env) && Throws(env, e, cap - i) && Skips(plan.policies, e, limit)
    requires c.skipped + cap - i <= limit
    ensures var r := ReadItems(plan, env, c, [], i, cap);
      r.result.Ok? && r.items == [] && QuietlyOn(env, r.env, cap - i)
    decreases cap - i
  {
    hide RunPhase, Skips;
    if i < cap {
      assert Throws(env, e, 1);
      SkippedRead(plan.policies, env, c.skipped, e, limit);
      var phase := RunPhase(plan.policies, Read, env, c.skipped);
      ChunkOfSkips(plan, phase.env, c.(skipped := phase.skips), i + 1, cap, e, limit);
    }
  }

  lemma {:induction false} DrainsQuietly(env: Env, cap: nat, drained: nat)
    requires drained <= cap && Quiet(env) && env.position + cap - drained <= |env.source|
    requires forall i :: env.position <= i < env.position + cap - drained ==> env.source[i].Gives?
    ensures var d := Drain(env, cap, drained);
      d.result.Ok? && d.drained == cap && QuietlyOn(env, d.env, cap - drained)
    decreases cap - drained
  {
    if drained < cap {
      assert env.source[env.position].Gives?;
      DrainsQuietly(DrainOne(env).env, cap, drained + 1);
    }
  }

  /** How many items the restart drain takes before the loop begins to read. */
  ghost function DrainLength(config: StepConfig): nat
    requires config.chunkSize > 0
  {
    DrainLeft(config, FirstChunk(config))
  }

  ghost function DrainLeft(config: StepConfig, chunkIndex: int): nat
    requires config.chunkSize > 0
  {
    if config.resume.Some? && config.readerKey.None? && chunkIndex <= config.resume.value
    then (config.resume.value + 1 - chunkIndex) * config.chunkSize else 0
  }

  lemma DrainLeftStep(config: StepConfig, chunkIndex: int)
    requires config.chunkSize > 0 && config.resume.Some? && config.readerKey.None? && chunkIndex <= config.resume.value
    ensures DrainLeft(config, chunkIndex) == config.chunkSize + DrainLeft(config, chunkIndex + 1)
  {
    var k := config.resume.value - chunkIndex;
    assert (k + 1) * config.chunkSize == k * config.chunkSize + config.chunkSize;
  }

  /** Items for the drain, then as many errors as a chunk has reads, then whatever else the reader has. */
  ghost predicate Prepared(config: StepConfig, p: Progress, e: Error)
    requires config.chunkSize > 0
  {
    var d := DrainLeft(config, p.chunkIndex);
    && p.env.position + d + config.chunkSize <= |p.env.source|
    && (forall i :: p.env.position <= i < p.env.position + d ==> p.env.source[i].Gives?)
    && (forall i :: p.env.position + d <= i < p.env.position + d + config.chunkSize ==> p.env.source[i] == ReadFails(e))
  }

  /** A drain pass takes the items of one chunk and leaves the rest prepared. */
  lemma DrainPassPrepares(plan: Plan, p: Progress, e: Error) returns (p': Progress)
    requires PlansFor(plan, plan.config) && 0 < plan.config.chunkSize && Draining(plan, p)
    requires Quiet(p.env) && p.counters == NO_COUNTERS && Prepared(plan.config, p, e)
    ensures DrainPass(plan, p) == Continues(p') && p'.counters == NO_COUNTERS && Prepared(plan.config, p', e)
    ensures QuietlyOn(p.env, p'.env, plan.config.chunkSize)
    ensures DrainLeft(plan.config, p.chunkIndex) == plan.config.chunkSize + DrainLeft(plan.config, p'.chunkIndex)
  {
    hide Drain, DrainLeft;
    SizeIsCap(plan, p.counters);
    DrainLeftStep(plan.config, p.chunkIndex);
    DrainsQuietly(p.env, plan.config.chunkSize, 0);
    p' := DrainPass(plan, p).progress;
  }

  /** The pass that meets nothing but errors stops. */
  lemma SkipPassStops(plan: Plan, p: Progress, e: Error, limit: int)
    requires PlansFor(plan, plan.config) && 0 < plan.config.chunkSize <= limit && Skips(plan.policies, e, limit)
    requires Quiet(p.env) && p.counters == NO_COUNTERS && Throws(p.env, e, plan.config.chunkSize)
    ensures var pass := ChunkPass(plan, p);
      pass.Stops? && pass.result.Ok? && QuietlyOn(p.env, pass.progress.env, plan.config.chunkSize)
  {
    hide ReadItems, ProcessItems, WriteItems, CommitChunk, Skips, Listen;
    var n := plan.config.chunkSize;
    SizeIsCap(plan, p.counters);
    ListensQuietly(p.env);
    var before := Listen(p.env);
    ChunkOfSkips(plan, before.env, p.counters, 0, n, e, limit);
    ListensQuietly(ReadItems(plan, before.env, p.counters, [], 0, n).env);
  }

  lemma {:induction false} LoopStopsEarly(plan: Plan, p: Progress, e: Error, limit: int)
    requires PlansFor(plan, plan.config) && 0 < plan.config.chunkSize <= limit && Skips(plan.policies, e, limit)
    requires Quiet(p.env) && p.counters == NO_COUNTERS && Prepared(plan.config, p, e)
    ensures var l := Loop(plan, p);
      l.result.Ok? && QuietlyOn(p.env, l.progress.env, DrainLeft(plan.config, p.chunkIndex) + plan.config.chunkSize)
    decreases |p.env.source| - p.env.position
  {
    hide DrainPass, ChunkPass, Skips, PlansFor;
    if Draining(plan, p) {
      hide Prepared;
      var p' := DrainPassPrepares(plan, p, e);
      LoopStopsEarly(plan, p', e, limit);
    } else {
      SkipPassStops(plan, p, e, limit);
    }
  }

  lemma SizeIsCap(plan: Plan, c: Counters)
    requires PlansFor(plan, plan.config)
    ensures Cap(plan, c) == plan.config.chunkSize
  {
  }

  /** A step whose chunks have no size reads nothing and completes. */
  lemma LoopWithoutSize(plan: Plan, p: Progress)
    requires PlansFor(plan, plan.config) && plan.config.chunkSize <= 0 && Quiet(p.env)
    ensures Loop(plan, p).result.Ok? && QuietlyOn(p.env, Loop(plan, p).progress.env, 0)
  {
    SizeIsCap(plan, p.counters);
    hide PlansFor;
  }

  lemma {:induction false} OpensQuietly(env: Env, streams: seq<Stream>, ready: seq<Stream>, context: Json)
    requires |ready| <= |streams| && Quiet(env) && env.position == 0 && context == JNull
    ensures var o := OpenStreams(env, streams, ready, context); o.result.Ok? && QuietlyOn(env, o.env, 0)
    decreases |streams| - |ready|
  {
    if |ready| < |streams| {
      OpensQuietly(OpenStream(env, streams[|ready|], context).env, streams, ready + [streams[|ready|]], context);
    }
  }

  lemma {:induction false} ClosesQuietly(env: Env, open: nat)
    requires Quiet(env)
    ensures CloseStreams(env, open).result.Ok? && QuietlyOn(env, CloseStreams(env, open).env, 0)
    decreases open
  {
    if open > 0 { ClosesQuietly(CloseStream(env).env, open - 1); }
  }

  /** If the loop of a quiet run ends well, so does the run. */
  lemma CompletesQuietly(plan: Plan, source: seq<ReadReply>, taken: nat)
    requires var env := Listen(Start(source, None, [], JNull)).env;
      var o := OpenAll(plan, env);
      var l := Loop(plan, Progress(o.env, NO_COUNTERS, FirstChunk(plan.config), o.env.context));
      l.result.Ok? && QuietlyOn(o.env, l.progress.env, taken)
    ensures var run := RunPlanned(plan, Start(source, None, [], JNull));
      CompletedRun(run) && QuietlyOn(Start(source, None, [], JNull), run.env, taken)
  {
    var env := Listen(Start(source, None, [], JNull)).env;
    LoadsQuietly(plan, source, None);
    hide OpenAll, Loop, CloseStreams, Catch;
    var o := OpenAll(plan, env);
    var l := Loop(plan, Progress(o.env, NO_COUNTERS, FirstChunk(plan.config), o.env.context));
    ClosesQuietly(l.progress.env, |o.ready|);
  }

  lemma LoadsQuietly(plan: Plan, source: seq<ReadReply>, processor: Option<Processor>)
    ensures var start := Start(source, processor, [], JNull);
      var o := OpenAll(plan, Listen(start).env);
      o.result.Ok? && QuietlyOn(start, o.env, 0) && o.env.context == JNull
  {
    hide OpenStreams;
    var env := Listen(Start(source, processor, [], JNull)).env;
    var loaded := Call(Call(env).env);
    OpensQuietly(loaded.env, Streams(plan.config), [], loaded.env.context);
    OpenKeepsBooks(loaded.env, Streams(plan.config), [], loaded.env.context);
  }

  ghost function Repeat(reply: ReadReply, n: nat): (replies: seq<ReadReply>)
    ensures |replies| == n && forall i :: 0 <= i < n ==> replies[i] == reply
  {
    seq(n, i requires 0 <= i < n => reply)
  }

  /** The input that shows the loss: errors for one whole chunk, and `rest` behind them. */
  ghost function LossySource(config: StepConfig, e: Error, rest: seq<ReadReply>): seq<ReadReply>
    requires config.chunkSize > 0
  {
    Repeat(Gives(0), DrainLength(config)) + Repeat(ReadFails(e), config.chunkSize) + rest
  }

  /**
   * The loss: if the skip limit allows as many skips as a chunk has reads, a chunk of nothing but skippable
   * errors ends the step COMPLETED, with all that the reader still has left unread.
   */
  lemma CompletesBeforeTheEnd(config: StepConfig, e: Error, rest: seq<ReadReply>)
    requires MakePlan(config).Ok? && MakePlan(config).value.budget.None? && config.skip.Some? && config.skip.value.skippable(e)
    requires 0 < config.chunkSize <= config.skip.value.limit
    ensures var source := LossySource(config, e, rest);
      var run := RunStep(config, Start(source, None, [], JNull));
      && CompletedRun(run) && run.env.trace.ends == 0 && run.env.tally.delivered == 0
      && run.env.source == source && run.env.position == |source| - |rest|
  {
    PlanFor(config);
    hide MakePlan, Loop, OpenAll, RunPlanned, Prepared, DrainLeft;
    var plan := MakePlan(config).value;
    var source := LossySource(config, e, rest);
    LoadsQuietly(plan, source, None);
    var env := Listen(Start(source, None, [], JNull)).env;
    var o := OpenAll(plan, env);
    var p := Progress(o.env, NO_COUNTERS, FirstChunk(plan.config), o.env.context);
    SourcePrepared(config, e, rest, p);
    LoopStopsEarly(plan, p, e, config.skip.value.limit);
    CompletesQuietly(plan, source, DrainLength(config) + config.chunkSize);
  }

  lemma SourcePrepared(config: StepConfig, e: Error, rest: seq<ReadReply>, p: Progress)
    requires config.chunkSize > 0 && p.env.source == LossySource(config, e, rest)
    requires p.env.position == 0 && p.chunkIndex == FirstChunk(config)
    ensures Prepared(config, p, e)
  {
    hide DrainLeft;
    var d := DrainLength(config);
    assert forall i :: 0 <= i < d ==> p.env.source[i] == Repeat(Gives(0), d)[i];
    forall i | d <= i < d + config.chunkSize ensures p.env.source[i] == ReadFails(e) {
      assert p.env.source[i] == Repeat(ReadFails(e), config.chunkSize)[i - d];
    }
  }

  /** A chunk of size one and a limit of one: one skipped read, and three items are never asked for. */
  lemma OneSkipLosesTheRest()
    ensures var config := StepConfig(1, false, Some(SkipConfig(1, (_: Error) => true)), None, None, None, None, None);
      var source := [ReadFails(AppError(0)), Gives(1), Gives(2), Gives(3)];
      var run := RunStep(config, Start(source, None, [], JNull));
      CompletedRun(run) && run.env.position == 1 && run.env.tally.delivered == 0 && run.env.trace.ends == 0
  {
    var config := StepConfig(1, false, Some(SkipConfig(1, (_: Error) => true)), None, None, None, None, None);
    var rest := [Gives(1), Gives(2), Gives(3)];
    hide RunPlanned;
    CompletesBeforeTheEnd(config, AppError(0), rest);
    assert Repeat(Gives(0), 0) == [] && Repeat(ReadFails(AppError(0)), 1) == [ReadFails(AppError(0))];
    assert LossySource(config, AppError(0), rest) == [ReadFails(AppError(0)), Gives(1), Gives(2), Gives(3)];
  }

  // ---------------------------------------------------------------- exactly when

  /** Every run that ends COMPLETED has been told by its reader that there is no more. */
  ghost predicate ReadsToTheEnd(config: StepConfig) {
    forall env :: CompletedRun(RunStep(config, env)) ==> RunStep(config, env).env.trace.ends > env.trace.ends
  }

  lemma StopsWithoutSize(config: StepConfig)
    requires MakePlan(config).Ok? && MakePlan(config).value.budget.None? && config.chunkSize <= 0
    ensures !ReadsToTheEnd(config)
  {
    PlanFor(config);
    hide MakePlan, Loop, OpenAll, RunPlanned;
    var plan := MakePlan(config).value;
    var start := Start([], None, [], JNull);
    LoadsQuietly(plan, [], None);
    var o := OpenAll(plan, Listen(start).env);
    LoopWithoutSize(plan, Progress(o.env, NO_COUNTERS, FirstChunk(plan.config), o.env.context));
    CompletesQuietly(plan, [], 0);
    var run := RunStep(config, start);
    assert CompletedRun(run) && run.env.trace.ends == start.trace.ends;
  }

  /**
   * For every step that is not bounded by a partition's range and whose policies compile: a COMPLETED run has
   * always read its input to the end, if and only if the chunk size is positive and there is no skip policy, or
   * its limit is below the chunk size, or it matches no error.
   */
  lemma ReadsToTheEndIff(config: StepConfig)
    requires MakePlan(config).Ok? && MakePlan(config).value.budget.None?
    ensures ReadsToTheEnd(config) <==> NoChunkOfSkips(config)
  {
    hide MakePlan, RunStep, CompletedRun;
    if NoChunkOfSkips(config) {
      forall env | CompletedRun(RunStep(config, env)) ensures RunStep(config, env).env.trace.ends > env.trace.ends {
        CompletedMeetsEnd(config, env);
      }
    } else if config.chunkSize <= 0 {
      StopsWithoutSize(config);
    } else {
      var e :| config.skip.value.skippable(e);
      CompletesBeforeTheEnd(config, e, [Gives(0)]);
      var start := Start(LossySource(config, e, [Gives(0)]), None, [], JNull);
      assert start.trace.ends == 0;
    }
  }
}
