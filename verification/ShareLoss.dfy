/**
 * When a partition may end COMPLETED although it has neither read its share nor met the end of its input
 * (packages/core/src/execution/chunk-step-executor.ts:275-292, 333-351).  A chunk's cap is what is left of the
 * share, so reads that were skipped are made up for once - unless those are skipped, too.
 */
module ShareLoss {
  import opened Common
  import opened Checkpoint
  import opened Environment
  import opened Policies
  import opened PhaseRunner
  import opened ChunkStep
  import opened ChunkAccounting
  import opened InputLoss

  /** The plan is the configuration's own, bounded by a share of b items. */
  ghost predicate SharesFor(plan: Plan, config: StepConfig, b: nat) {
    && plan.config == config && plan.budget == Some(b)
    && plan.policies.skip.Some? == config.skip.Some?
    && (config.skip.Some? ==>
          plan.policies.skip.value.limit == config.skip.value.limit > 0
          && plan.policies.skip.value.skippable == config.skip.value.skippable)
  }

  lemma PlanShares(config: StepConfig, b: nat)
    requires MakePlan(config).Ok? && MakePlan(config).value.budget == Some(b)
    ensures SharesFor(MakePlan(config).value, config, b)
  {
  }

  /** The limit and the share leave no room for a chunk of nothing but skipped reads. */
  ghost predicate NoShareOfSkips(config: StepConfig, b: nat) {
    b == 0 || config.skip.None? || config.skip.value.limit < Min(b, 2) || forall e :: !config.skip.value.skippable(e)
  }

  // ---------------------------------------------------------------- the whole share

  lemma {:induction false} ReadsCount(plan: Plan, env: Env, c: Counters, items: seq<Item>, i: nat, cap: int)
    ensures var r := ReadItems(plan, env, c, items, i, cap);
      r.counters.read == c.read + |r.items| - |items| && |r.items| - |items| <= Max(0, cap - i)
    decreases cap - i
  {
    hide RunPhase;
    if i < cap {
      ReadEnds(plan.policies, env, c.skipped);
      var phase := RunPhase(plan.policies, Read, env, c.skipped);
      var c' := c.(skipped := phase.skips);
      match phase.outcome
      case Raised(_) =>
      case Skipped => ReadsCount(plan, phase.env, c', items, i + 1, cap);
      case Done(value) =>
        if value.ItemValue? { ReadsCount(plan, phase.env, c'.(read := c.read + 1), items + [value.item], i + 1, cap); }
    }
  }

  lemma {:induction false} ProcessKeepsRead(plan: Plan, env: Env, c: Counters, items: seq<Item>, k: nat, outputs: seq<Item>)
    requires k <= |items|
    ensures var r := ProcessItems(plan, env, c, items, k, outputs); r.counters.read == c.read && r.counters.skipped >= c.skipped
    decreases |items| - k
  {
    hide RunPhase;
    if k < |items| {
      if !plan.config.hasProcessor {
        ProcessKeepsRead(plan, env, c, items, k + 1, outputs + [items[k]]);
      } else {
        PhaseCounts(plan.policies, Process(items[k]), env, c.skipped);
        var phase := RunPhase(plan.policies, Process(items[k]), env, c.skipped);
        var c' := c.(skipped := phase.skips);
        match phase.outcome
        case Raised(_) =>
        case Skipped => ProcessKeepsRead(plan, phase.env, c', items, k + 1, outputs);
        case Done(value) =>
          if value.ItemValue? {
            ProcessKeepsRead(plan, phase.env, c', items, k + 1, outputs + [value.item]);
          } else {
            ProcessKeepsRead(plan, phase.env, c'.(skipped := phase.skips + 1), items, k + 1, outputs);
          }
      }
    }
  }

  lemma PhaseCounts(policies: PolicySet, op: Operation, env: Env, skips: nat)
    ensures skips <= RunPhase(policies, op, env, skips).skips
  {
    hide Phase, Logged;
    PhaseFacts(policies, op, env, skips);
  }

  lemma WriteKeepsRead(plan: Plan, env: Env, c: Counters, chunk: int, items: seq<Item>, outputs: seq<Item>)
    ensures var r := WriteItems(plan, env, c, chunk, items, outputs); r.counters.read == c.read && r.counters.skipped >= c.skipped
  {
    hide RunPhase;
    if outputs != [] { PhaseCounts(plan.policies, Write(chunk, items, outputs), env, c.skipped); }
  }

  /** Before the first chunk nothing is read; after it, every read of the share that gave no item was skipped. */
  ghost predicate Tracked(c: Counters, b: nat, met: bool) {
    c.read <= b && (!met && c.read > 0 ==> c.skipped >= b - c.read)
  }

  /** A pass over a share, or the drain before it, ends the loop only with the share read or the end met. */
  lemma PassReadsShare(plan: Plan, p: Progress, b: nat, from: nat)
    requires SharesFor(plan, plan.config, b) && NoShareOfSkips(plan.config, b)
    requires from <= p.env.trace.ends && Tracked(p.counters, b, from < p.env.trace.ends)
    ensures var pass := OnePass(plan, p);
      && from <= pass.progress.env.trace.ends
      && (pass.Continues? ==> Tracked(pass.progress.counters, b, from < pass.progress.env.trace.ends))
      && (pass.Stops? && pass.result.Ok? ==> pass.progress.counters.read == b || from < pass.progress.env.trace.ends)
  {
    hide DrainPass, ChunkPass, SharesFor, NoShareOfSkips, Tracked;
    if Draining(plan, p) {
      DrainReadsShare(plan, p, b, from);
    } else {
      ChunkReadsShare(plan, p, b, from);
    }
  }

  lemma DrainReadsShare(plan: Plan, p: Progress, b: nat, from: nat)
    requires SharesFor(plan, plan.config, b)
    requires from <= p.env.trace.ends && Tracked(p.counters, b, from < p.env.trace.ends)
    ensures var pass := DrainPass(plan, p);
      && from <= pass.progress.env.trace.ends
      && (pass.Continues? ==> Tracked(pass.progress.counters, b, from < pass.progress.env.trace.ends))
      && (pass.Stops? && pass.result.Ok? ==> pass.progress.counters.read == b || from < pass.progress.env.trace.ends)
  {
    hide Drain;
    var cap := Cap(plan, p.counters);
    if cap != 0 {
      var d := Drain(p.env, cap, 0);
      if d.result.Ok? && d.drained == 0 { EmptyDrainMeetsEnd(p.env, cap); }
    }
  }

  /** The part of a chunk pass after its reads. */
  lemma StagesKeepRead(plan: Plan, p: Progress, r: ReadRun)
    requires Cap(plan, p.counters) != 0 && Listen(p.env).result.Ok?
    requires r == ReadItems(plan, Listen(p.env).env, p.counters, [], 0, Cap(plan, p.counters)) && r.result.Ok? && |r.items| > 0
    ensures var pass := ChunkPass(plan, p);
      && r.env.trace.ends <= pass.progress.env.trace.ends
      && pass.progress.counters.read == r.counters.read && pass.progress.counters.skipped >= r.counters.skipped
      && (pass.Stops? ==> pass.result.Thrown?)
  {
    hide ReadItems, ProcessItems, WriteItems, CommitChunk;
    ProcessKeepsRead(plan, r.env, r.counters, r.items, 0, []);
    var q := ProcessItems(plan, r.env, r.counters, r.items, 0, []);
    if q.result.Ok? {
      WriteKeepsRead(plan, q.env, q.counters, p.chunkIndex, r.items, q.outputs);
      var w := WriteItems(plan, q.env, q.counters, p.chunkIndex, r.items, q.outputs);
      if w.result.Ok? {
        CommitKeepsEnds(plan, w.env, p.context, p.chunkIndex);
        ListenKeeps(CommitChunk(plan, w.env, p.context, p.chunkIndex).env);
      }
    }
  }

  lemma CommitKeepsEnds(plan: Plan, env: Env, context: Json, chunk: int)
    ensures env.trace.ends <= CommitChunk(plan, env, context, chunk).env.trace.ends
  {
    hide UpdateStreams;
    UpdateKeepsReader(env, Streams(plan.config), 0, WithLastChunkIndex(context, chunk));
  }

  lemma ChunkReadsShare(plan: Plan, p: Progress, b: nat, from: nat)
    requires SharesFor(plan, plan.config, b) && NoShareOfSkips(plan.config, b)
    requires from <= p.env.trace.ends && Tracked(p.counters, b, from < p.env.trace.ends)
    ensures var pass := ChunkPass(plan, p);
      && from <= pass.progress.env.trace.ends
      && (pass.Continues? ==> Tracked(pass.progress.counters, b, from < pass.progress.env.trace.ends))
      && (pass.Stops? && pass.result.Ok? ==> pass.progress.counters.read == b || from < pass.progress.env.trace.ends)
  {
    hide ReadItems, ProcessItems, WriteItems, CommitChunk, NoShareOfSkips;
    var cap := Cap(plan, p.counters);
    ListenKeeps(p.env);
    var env := Listen(p.env).env;
    if cap != 0 && Listen(p.env).result.Ok? {
      ReadsAccountForCap(plan, env, p.counters, [], 0, cap);
      ReadsCount(plan, env, p.counters, [], 0, cap);
      var r := ReadItems(plan, env, p.counters, [], 0, cap);
      if r.result.Ok? && |r.items| > 0 {
        StagesKeepRead(plan, p, r);
      } else if r.result.Ok? {
        ListenKeeps(r.env);
        if r.env.trace.ends == from { EmptyChunkOutOfShare(plan, p.counters, r.counters, b); }
      }
    }
  }

  /** A chunk of skips alone needs as many skips as are left of the share, and as many before it if any item was read. */
  lemma EmptyChunkOutOfShare(plan: Plan, c: Counters, c': Counters, b: nat)
    requires SharesFor(plan, plan.config, b) && Tracked(c, b, false) && c.read < b
    requires c'.skipped - c.skipped == b - c.read
    requires c'.skipped <= SkipLimit(plan.policies) && Skippable(plan.policies)
    ensures !NoShareOfSkips(plan.config, b)
  {
  }

  lemma {:induction false} LoopReadsShare(plan: Plan, p: Progress, b: nat, from: nat)
    requires SharesFor(plan, plan.config, b) && NoShareOfSkips(plan.config, b)
    requires from <= p.env.trace.ends && Tracked(p.counters, b, from < p.env.trace.ends)
    ensures var l := Loop(plan, p);
      l.result.Ok? ==> l.progress.counters.read == b || from < l.progress.env.trace.ends
    decreases |p.env.source| - p.env.position
  {
    hide OnePass, NoShareOfSkips, SharesFor, Tracked;
    PassReadsShare(plan, p, b, from);
    match OnePass(plan, p)
    case Stops(_, _) =>
    case Continues(p') => LoopReadsShare(plan, p', b, from);
  }

  lemma CompletedReadsShare(config: StepConfig, env: Env, b: nat)
    requires MakePlan(config).Ok? && MakePlan(config).value.budget == Some(b) && NoShareOfSkips(config, b)
    requires CompletedRun(RunStep(config, env))
    ensures RunStep(config, env).outcome.result.counters.read == b || RunStep(config, env).env.trace.ends > env.trace.ends
  {
    PlanShares(config, b);
    hide MakePlan, SharesFor, NoShareOfSkips, Loop, OpenStreams, CloseStreams, Tracked;
    var plan := MakePlan(config).value;
    ListenKeeps(env);
    var before := Listen(env).env;
    var loaded := Call(Call(before).env);
    ShareIsFor(plan, config, b);
    OpenKeepsEnds(loaded.env, Streams(plan.config), [], loaded.env.context);
    var o := OpenAll(plan, before);
    var t := Try(plan, before);
    OnlyConcludes(t);
    var p := Progress(o.env, NO_COUNTERS, FirstChunk(plan.config), o.env.context);
    NothingTracked(b);
    LoopReadsShare(plan, p, b, env.trace.ends);
    var l := Loop(plan, p);
    CloseKeepsEnds(l.progress.env, |o.ready|);
    ListenKeeps(CloseStreams(l.progress.env, |o.ready|).env);
  }

  lemma ShareIsFor(plan: Plan, config: StepConfig, b: nat)
    requires SharesFor(plan, config, b)
    ensures SharesFor(plan, plan.config, b) && plan.config == config
  {
  }

  lemma NothingTracked(b: nat)
    ensures forall met :: Tracked(NO_COUNTERS, b, met)
  {
  }

  // ---------------------------------------------------------------- a share not read

  /** A stretch in which nothing but the reader is noticed: no call fails, no end of input is met. */
  ghost predicate Still(env: Env, env': Env, taken: int) {
    && Quiet(env') && env'.source == env.source && env'.processor == env.processor
    && env'.position == env.position + taken && env'.trace.ends == env.trace.ends
  }

  /** From the position on the reader gives n items. */
  ghost predicate Gifts(env: Env, n: int) {
    env.position + n <= |env.source| && forall i :: env.position <= i < env.position + n ==> env.source[i].Gives?
  }

  lemma GivenRead(policies: PolicySet, env: Env, skips: nat)
    requires Quiet(env) && Gifts(env, 1)
    ensures var r := RunPhase(policies, Read, env, skips);
      r.outcome.Done? && r.outcome.value.ItemValue? && r.skips == skips && Still(env, r.env, 1)
  {
    assert env.source[env.position].Gives?;
    var tried := Perform(Listen(env).env, Read);
    assert tried.result.Ok? && tried.result.value.ItemValue?;
    assert Attempt(policies, Read, env, skips, 1).Ends?;
    hide Attempt;
  }

  /** Gifts for all reads of a chunk but the last, which is skipped. */
  lemma {:induction false} ChunkWithOneSkip(plan: Plan, env: Env, c: Counters, items: seq<Item>, i: nat, cap: int, e: Error, limit: int)
    requires i < cap && Quiet(env) && Gifts(env, cap - 1 - i) && Skips(plan.policies, e, limit) && c.skipped + 1 <= limit
    requires env.position + cap - i <= |env.source| && env.source[env.position + cap - 1 - i] == ReadFails(e)
    ensures var r := ReadItems(plan, env, c, items, i, cap);
      && r.result.Ok? && |r.items| == |items| + cap - 1 - i && Still(env, r.env, cap - i)
      && r.counters == c.(read := c.read + cap - 1 - i, skipped := c.skipped + 1)
    decreases cap - i
  {
    hide RunPhase, Skips;
    if i == cap - 1 {
      assert Throws(env, e, 1);
      SkippedRead(plan.policies, env, c.skipped, e, limit);
      var phase := RunPhase(plan.policies, Read, env, c.skipped);
      assert ReadItems(plan, phase.env, c.(skipped := phase.skips), items, i + 1, cap).items == items;
    } else {
      assert Gifts(env, 1);
      GivenRead(plan.policies, env, c.skipped);
      var phase := RunPhase(plan.policies, Read, env, c.skipped);
      ChunkWithOneSkip(plan, phase.env, c.(skipped := phase.skips, read := c.read + 1), items + [phase.outcome.value.item], i + 1, cap, e, limit);
    }
  }

  const SAME: Processor := item => Some(item)

  lemma SameProcessed(policies: PolicySet, item: Item, env: Env, skips: nat)
    requires Quiet(env) && env.processor == Some(SAME)
    ensures var r := RunPhase(policies, Process(item), env, skips);
      r.outcome == Done(ItemValue(item)) && r.skips == skips && Still(env, r.env, 0)
  {
    var tried := Perform(Listen(env).env, Process(item));
    assert tried.result == Ok(ItemValue(item));
    assert Attempt(policies, Process(item), env, skips, 1).Ends?;
    hide Attempt;
  }

  lemma {:induction false} ProcessesStill(plan: Plan, env: Env, c: Counters, items: seq<Item>, k: nat, outputs: seq<Item>)
    requires k <= |items| && Quiet(env) && env.processor == Some(SAME)
    ensures var r := ProcessItems(plan, env, c, items, k, outputs);
      r.result.Ok? && r.counters == c && Still(env, r.env, 0)
    decreases |items| - k
  {
    hide RunPhase;
    if k < |items| {
      if plan.config.hasProcessor {
        SameProcessed(plan.policies, items[k], env, c.skipped);
        var phase := RunPhase(plan.policies, Process(items[k]), env, c.skipped);
        assert c.(skipped := phase.skips) == c;
        ProcessesStill(plan, phase.env, c, items, k + 1, outputs + [items[k]]);
      } else {
        ProcessesStill(plan, env, c, items, k + 1, outputs + [items[k]]);
      }
    }
  }

  lemma WritesStill(plan: Plan, env: Env, c: Counters, chunk: int, items: seq<Item>, outputs: seq<Item>)
    requires Quiet(env)
    ensures var r := WriteItems(plan, env, c, chunk, items, outputs);
      r.result.Ok? && r.counters.read == c.read && r.counters.skipped == c.skipped && Still(env, r.env, 0)
  {
    if outputs != [] {
      var op := Write(chunk, items, outputs);
      var tried := Perform(Listen(env).env, op);
      assert tried.result == Ok(NoValue);
      assert Attempt(plan.policies, op, env, c.skipped, 1).Ends?;
      hide Attempt;
    }
  }

  lemma {:induction false} UpdatesStill(env: Env, streams: seq<Stream>, done: nat, context: Json)
    requires done <= |streams| && Quiet(env)
    ensures var a := UpdateStreams(env, streams, done, context); a.result.Ok? && Still(env, a.env, 0)
    decreases |streams| - done
  {
    hide WriteCheckpoint;
    if done < |streams| {
      var a := UpdateStream(env, streams[done], context);
      UpdatesStill(a.env, streams, done + 1, a.result.value);
    }
  }

  lemma CommitsStill(plan: Plan, env: Env, context: Json, chunk: int)
    requires Quiet(env)
    ensures var r := CommitChunk(plan, env, context, chunk); r.result.Ok? && Still(env, r.env, 0)
  {
    hide UpdateStreams;
    UpdatesStill(env, Streams(plan.config), 0, WithLastChunkIndex(context, chunk));
  }

  /** The first chunk of the share: all items but one, and one skip. */
  lemma FirstChunkPass(plan: Plan, p: Progress, b: nat, e: Error, limit: int) returns (p': Progress)
    requires plan.budget == Some(b) && 2 <= b && 2 <= limit && Skips(plan.policies, e, limit)
    requires Quiet(p.env) && p.env.processor == Some(SAME) && p.counters == NO_COUNTERS && Gifts(p.env, b - 1)
    requires p.env.position + b <= |p.env.source| && p.env.source[p.env.position + b - 1] == ReadFails(e)
    ensures ChunkPass(plan, p) == Continues(p') && p'.chunkIndex == p.chunkIndex + 1
    ensures p'.counters.read == b - 1 && p'.counters.skipped == 1 && Still(p.env, p'.env, b)
  {
    hide ReadItems, ProcessItems, WriteItems, CommitChunk, Skips, Listen;
    ListensQuietly(p.env);
    var env := Listen(p.env).env;
    ChunkWithOneSkip(plan, env, p.counters, [], 0, b, e, limit);
    var r := ReadItems(plan, env, p.counters, [], 0, b);
    ProcessesStill(plan, r.env, r.counters, r.items, 0, []);
    var q := ProcessItems(plan, r.env, r.counters, r.items, 0, []);
    WritesStill(plan, q.env, q.counters, p.chunkIndex, r.items, q.outputs);
    var w := WriteItems(plan, q.env, q.counters, p.chunkIndex, r.items, q.outputs);
    CommitsStill(plan, w.env, p.context, p.chunkIndex);
    ListensQuietly(CommitChunk(plan, w.env, p.context, p.chunkIndex).env);
    p' := ChunkPass(plan, p).progress;
  }

  /** A chunk of nothing but skips ends the loop. */
  lemma LastChunkPass(plan: Plan, p: Progress, b: nat, e: Error, limit: int)
    requires plan.budget == Some(b) && p.counters.read < b && Skips(plan.policies, e, limit)
    requires p.counters.skipped + b - p.counters.read <= limit
    requires Quiet(p.env) && Throws(p.env, e, b - p.counters.read)
    ensures var pass := ChunkPass(plan, p);
      && pass.Stops? && pass.result.Ok? && pass.progress.counters.read == p.counters.read
      && Still(p.env, pass.progress.env, b - p.counters.read)
  {
    hide ReadItems, ProcessItems, WriteItems, CommitChunk, Skips, Listen;
    ListensQuietly(p.env);
    var env := Listen(p.env).env;
    ChunkOfSkips(plan, env, p.counters, 0, b - p.counters.read, e, limit);
    ReadsCount(plan, env, p.counters, [], 0, b - p.counters.read);
    ListensQuietly(ReadItems(plan, env, p.counters, [], 0, b - p.counters.read).env);
  }

  /** The replies that lose the rest of a share, once the drain is over. */
  ghost function LossyTail(b: nat, e: Error): seq<ReadReply>
    requires b > 0
  {
    Repeat(Gives(0), b - 1) + (if b == 1 then [ReadFails(e)] else [ReadFails(e), ReadFails(e)])
  }

  lemma TailLosesShare(plan: Plan, p: Progress, b: nat, e: Error, limit: int)
    requires plan.budget == Some(b) && 0 < Min(b, 2) <= limit && Skips(plan.policies, e, limit) && !Draining(plan, p)
    requires Quiet(p.env) && p.env.processor == Some(SAME) && p.counters == NO_COUNTERS
    requires p.env.position <= |p.env.source| && p.env.source[p.env.position..] == LossyTail(b, e)
    ensures var l := Loop(plan, p);
      l.result.Ok? && l.progress.counters.read == b - 1 && l.progress.env.trace.ends == p.env.trace.ends && Quiet(l.progress.env)
  {
    hide ChunkPass, Skips;
    TailIs(p.env, b, e);
    if b == 1 {
      LastChunkPass(plan, p, b, e, limit);
    } else {
      var p' := FirstChunkPass(plan, p, b, e, limit);
      assert Throws(p'.env, e, 1);
      LastChunkPass(plan, p', b, e, limit);
      assert OnePass(plan, p) == Continues(p') && !Draining(plan, p');
      assert Loop(plan, p) == Loop(plan, p');
    }
  }

  lemma TailIs(env: Env, b: nat, e: Error)
    requires b > 0 && env.position <= |env.source| && env.source[env.position..] == LossyTail(b, e)
    ensures Gifts(env, b - 1) && env.position + b <= |env.source| && env.source[env.position + b - 1] == ReadFails(e)
    ensures b == 1 ==> Throws(env, e, 1)
    ensures b > 1 ==> env.position + b < |env.source| && env.source[env.position + b] == ReadFails(e)
  {
    var tail := env.source[env.position..];
    forall i | 0 <= i < |tail| ensures env.source[env.position + i] == tail[i] {}
    forall i | env.position <= i < env.position + b - 1 ensures env.source[i].Gives? {
      assert env.source[i] == tail[i - env.position] == Repeat(Gives(0), b - 1)[i - env.position];
    }
    assert tail[b - 1] == ReadFails(e);
    if b > 1 { assert tail[b] == ReadFails(e); }
  }

  /** What the restart drain takes: a share's worth of items for each chunk up to the one to resume after. */
  ghost function DrainReplies(config: StepConfig, b: nat, chunkIndex: int): seq<ReadReply>
    decreases if config.resume.Some? then config.resume.value + 1 - chunkIndex else 0
  {
    if config.resume.Some? && config.readerKey.None? && chunkIndex <= config.resume.value
    then Repeat(Gives(0), b) + DrainReplies(config, b, chunkIndex + 1) else []
  }

  lemma {:induction false} LoopLosesShare(plan: Plan, p: Progress, b: nat, e: Error, limit: int)
    requires plan.budget == Some(b) && 0 < Min(b, 2) <= limit && Skips(plan.policies, e, limit)
    requires Quiet(p.env) && p.env.processor == Some(SAME) && p.counters == NO_COUNTERS
    requires p.env.position <= |p.env.source|
    requires p.env.source[p.env.position..] == DrainReplies(plan.config, b, p.chunkIndex) + LossyTail(b, e)
    ensures var l := Loop(plan, p);
      l.result.Ok? && l.progress.counters.read == b - 1 && l.progress.env.trace.ends == p.env.trace.ends && Quiet(l.progress.env)
    decreases |p.env.source| - p.env.position
  {
    hide Drain, Skips, LossyTail, ChunkPass;
    if Draining(plan, p) {
      var rest := DrainReplies(plan.config, b, p.chunkIndex + 1) + LossyTail(b, e);
      assert p.env.source[p.env.position..] == Repeat(Gives(0), b) + rest;
      FrontGifts(p.env, b, rest);
      DrainsQuietly(p.env, b, 0);
      var d := Drain(p.env, b, 0);
      var p' := p.(env := d.env, chunkIndex := p.chunkIndex + 1);
      assert OnePass(plan, p) == Continues(p');
      LoopLosesShare(plan, p', b, e, limit);
    } else {
      assert [] + LossyTail(b, e) == LossyTail(b, e);
      TailLosesShare(plan, p, b, e, limit);
    }
  }

  lemma FrontGifts(env: Env, b: nat, rest: seq<ReadReply>)
    requires env.position <= |env.source| && env.source[env.position..] == Repeat(Gives(0), b) + rest
    ensures Gifts(env, b) && env.source[env.position + b..] == rest
  {
    forall i | env.position <= i < env.position + b ensures env.source[i].Gives? {
      assert env.source[i] == env.source[env.position..][i - env.position] == Repeat(Gives(0), b)[i - env.position];
    }
    assert env.source[env.position + b..] == env.source[env.position..][b..];
  }

  /** A run that ends COMPLETED one item short of its share, without having been told of an end of the input. */
  lemma CompletesShortOfShare(config: StepConfig, b: nat, e: Error)
    requires MakePlan(config).Ok? && MakePlan(config).value.budget == Some(b) && config.skip.Some? && config.skip.value.skippable(e)
    requires 0 < Min(b, 2) <= config.skip.value.limit
    ensures var run := RunStep(config, Start(DrainReplies(config, b, FirstChunk(config)) + LossyTail(b, e), Some(SAME), [], JNull));
      CompletedRun(run) && run.outcome.result.counters.read == b - 1 && run.env.trace.ends == 0
  {
    PlanShares(config, b);
    hide MakePlan, Loop, OpenAll, DrainReplies, LossyTail, RunPlanned;
    var plan := MakePlan(config).value;
    var source := DrainReplies(config, b, FirstChunk(config)) + LossyTail(b, e);
    var start := Start(source, Some(SAME), [], JNull);
    LoadsQuietly(plan, source, Some(SAME));
    var o := OpenAll(plan, Listen(start).env);
    var p := Progress(o.env, NO_COUNTERS, FirstChunk(plan.config), o.env.context);
    assert o.env.source[0..] == source;
    LoopLosesShare(plan, p, b, e, config.skip.value.limit);
    ConcludesStill(plan, start);
  }

  lemma ConcludesStill(plan: Plan, start: Env)
    requires Listen(start).result.Ok? && OpenAll(plan, Listen(start).env).result.Ok?
    requires var o := OpenAll(plan, Listen(start).env);
      var l := Loop(plan, Progress(o.env, NO_COUNTERS, FirstChunk(plan.config), o.env.context)); l.result.Ok? && Quiet(l.progress.env)
    ensures var o := OpenAll(plan, Listen(start).env);
      var l := Loop(plan, Progress(o.env, NO_COUNTERS, FirstChunk(plan.config), o.env.context));
      var run := RunPlanned(plan, start);
      CompletedRun(run) && run.outcome.result.counters == l.progress.counters && run.env.trace.ends == l.progress.env.trace.ends
  {
    hide OpenAll, Loop, CloseStreams, Catch;
    var o := OpenAll(plan, Listen(start).env);
    var l := Loop(plan, Progress(o.env, NO_COUNTERS, FirstChunk(plan.config), o.env.context));
    ClosesQuietly(l.progress.env, |o.ready|);
  }

  // ---------------------------------------------------------------- exactly when

  /** Every run that ends COMPLETED has read its whole share or has been told that there is no more. */
  ghost predicate ReadsItsShare(config: StepConfig, b: nat) {
    forall env :: CompletedRun(RunStep(config, env)) ==> ShareRead(env, RunStep(config, env), b)
  }

  ghost predicate ShareRead(env: Env, run: StepRun, b: nat)
    requires run.outcome.Returned?
  {
    run.outcome.result.counters.read == b || run.env.trace.ends > env.trace.ends
  }

  /**
   * For every step bounded by a partition's share of b items: a COMPLETED run has read its whole share or met the
   * end of its input, if and only if the share is empty, or there is no skip policy, or its limit is below the
   * smaller of b and 2, or it matches no error.  The chunk size plays no part.
   */
  lemma ReadsItsShareIff(config: StepConfig, b: nat)
    requires MakePlan(config).Ok? && MakePlan(config).value.budget == Some(b)
    ensures ReadsItsShare(config, b) <==> NoShareOfSkips(config, b)
  {
    hide MakePlan, RunStep, LossyTail, DrainReplies;
    if NoShareOfSkips(config, b) {
      forall env | CompletedRun(RunStep(config, env)) ensures ShareRead(env, RunStep(config, env), b) {
        CompletedReadsShare(config, env, b);
      }
    } else {
      var e :| config.skip.value.skippable(e);
      var start := Start(DrainReplies(config, b, FirstChunk(config)) + LossyTail(b, e), Some(SAME), [], JNull);
      CompletesShortOfShare(config, b, e);
      assert start.trace.ends == 0;
    }
  }
}
