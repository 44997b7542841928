/**
 * How a chunk step ends (packages/core/src/execution/chunk-step-executor.ts:145-550): COMPLETED exactly if nothing
 * outside the policies went wrong, otherwise with which error; which listeners were told and which other calls
 * made; and whether every stream that was opened is closed.
 */
module StepOutcome {
  import opened Common
  import opened Checkpoint
  import opened Statuses
  import opened Environment
  import opened Policies
  import opened PhaseRunner
  import opened ChunkStep
  import opened ChunkAccounting

  // ---------------------------------------------------------------- what a stage may do

  /** What a step reports for an operation's error that was neither skipped nor retried. */
  ghost function Fatal(policies: PolicySet, last: Error): Error {
    if SkipsError(policies, last) then SkipLimitExceeded(policies.skip.value.limit)
    else if !RetriesError(policies, last) then last
    else if policies.retry.value.limit < 999 then RetryLimitExceeded(policies.retry.value.limit)
    else AttemptsExhausted
  }

  /** The last error of an operation, thrown since `before`, is what e reports; a skip limit is reported only when reached. */
  ghost predicate FatalLast(policies: PolicySet, skips: nat, before: Trace, after: Trace, e: Error) {
    && |before.errors| < |after.errors|
    && var last := after.errors[|after.errors| - 1];
       e == Fatal(policies, last) && (SkipsError(policies, last) ==> skips >= policies.skip.value.limit)
  }

  ghost predicate SameStreams(before: Trace, after: Trace) {
    && after.contacts.openings == before.contacts.openings && after.contacts.closings == before.contacts.closings
    && after.contacts.stuck == before.contacts.stuck
  }

  /** The listeners told, beyond those that belong to the operations: two per call, one per skip, none after a null read. */
  ghost function Extra(env: Env): int {
    env.trace.contacts.told - 2 * env.trace.calls - Honoured(env.tally) + env.trace.contacts.nulls
  }

  /** A stage without an error: so many extra listeners told, so many other calls made. */
  ghost predicate Fine(before: Env, after: Env, told: int, served: int) {
    && after.trace.thrown == before.trace.thrown && |before.trace.errors| <= |after.trace.errors|
    && Extra(after) == Extra(before) + told && after.trace.contacts.served == before.trace.contacts.served + served
    && SameStreams(before.trace, after.trace)
  }

  /** A stage that ends with error e: thrown by something else than an operation, or for an operation's last error. */
  ghost predicate Broken(policies: PolicySet, skips: nat, before: Env, after: Env, e: Error, told: int, served: int) {
    && |before.trace.errors| <= |after.trace.errors| && SameStreams(before.trace, after.trace)
    && (|| after.trace.thrown == before.trace.thrown + [e]
        || (&& after.trace.thrown == before.trace.thrown && FatalLast(policies, skips, before.trace, after.trace, e)
            && Extra(after) == Extra(before) + told && after.trace.contacts.served == before.trace.contacts.served + served))
  }

  ghost predicate Stage<T>(policies: PolicySet, skips: nat, before: Env, after: Env, result: Result<T, Error>, told: int, served: int) {
    match result
    case Ok(_) => Fine(before, after, told, served)
    case Thrown(e) => Broken(policies, skips, before, after, e, told, served)
  }

  lemma FineThenFine(a: Env, b: Env, c: Env, told: int, served: int, told': int, served': int)
    requires Fine(a, b, told, served) && Fine(b, c, told', served')
    ensures Fine(a, c, told + told', served + served')
  {
    hide Extra;
  }

  lemma FineThenBroken(policies: PolicySet, skips: nat, a: Env, b: Env, c: Env, e: Error, told: int, served: int, told': int, served': int)
    requires Fine(a, b, told, served) && Broken(policies, skips, b, c, e, told', served')
    ensures Broken(policies, skips, a, c, e, told + told', served + served')
  {
    hide Extra, Fatal, SkipsError;
  }

  lemma NothingDone(env: Env)
    ensures Fine(env, env, 0, 0)
  {
  }

  // ---------------------------------------------------------------- phases and stages

  lemma PhaseStage(policies: PolicySet, op: Operation, env: Env, skips: nat)
    requires Compiled(policies)
    ensures var r := RunPhase(policies, op, env, skips);
      match r.outcome
      case Raised(e) => Broken(policies, r.skips, env, r.env, e, 0, 0)
      case _ => Fine(env, r.env, 0, 0)
  {
    PhaseExplained(policies, op, env, skips, 1);
    BudgetSpentIff(policies, op, env, skips);
    PhaseFacts(policies, op, env, skips);
    var r := RunPhase(policies, op, env, skips);
    hide RunPhase, Phase, Logged, Retried, RetriesError, SkipsError, Pauses, Retries, Compiled;
    if r.env.trace.listenerFailures == env.trace.listenerFailures {
      PhaseExtra(policies, op, env, skips, r);
      if r.outcome.Raised? { RaisedFatal(policies, op, env, skips, r); }
    } else {
      assert Interrupted(env.trace, r.env.trace, r);
    }
  }

  lemma PhaseExtra(policies: PolicySet, op: Operation, env: Env, skips: nat, r: PhaseResult)
    requires Booked(policies, op, env, skips, r) && |env.trace.errors| <= |r.env.trace.errors|
    requires Spends(op, env.trace, r.env.trace, |NewErrors(env, r.env)|, r)
    requires r.outcome.Raised? ==> r.skips == skips
    ensures r.outcome.Raised? ==> r.env.tally == env.tally || Honoured(r.env.tally) == Honoured(env.tally) || Honoured(r.env.tally) == Honoured(env.tally) + 1
    ensures r.outcome.Done? || r.outcome.Skipped? ==> Fine(env, r.env, 0, 0)
    ensures r.outcome.Raised? && Honoured(r.env.tally) == Honoured(env.tally) ==>
      Extra(r.env) == Extra(env) && r.env.trace.contacts.served == env.trace.contacts.served && SameStreams(env.trace, r.env.trace)
  {
    hide SkipLimit;
  }

  lemma RaisedFatal(policies: PolicySet, op: Operation, env: Env, skips: nat, r: PhaseResult)
    requires Compiled(policies) && r == RunPhase(policies, op, env, skips) && r.outcome.Raised?
    requires r.env.trace.listenerFailures == env.trace.listenerFailures
    requires Explained(policies, op, env, skips, 1, r)
    ensures FatalLast(policies, r.skips, env.trace, r.env.trace, r.outcome.error)
  {
    BudgetSpentIff(policies, op, env, skips);
    var errors := NewErrors(env, r.env);
    assert Explains(policies, errors, 1, skips, r);
    assert r.env.trace.errors == env.trace.errors + errors;
    ExplainsBlames(policies, errors, skips, r);
    hide RunPhase, Explained, Explains, Compiled, SkipsError, RetriesError, NewErrors, Retried;
    assert r.env.trace.errors[|r.env.trace.errors| - 1] == errors[|errors| - 1];
  }

  lemma ExplainsBlames(policies: PolicySet, errors: seq<Error>, skips: nat, r: PhaseResult)
    requires Explains(policies, errors, 1, skips, r) && r.outcome.Raised?
    ensures errors != [] && r.skips == skips && Blames(policies, errors[|errors| - 1], |errors|, skips, r.outcome.error)
  {
    hide Retried, Blames;
  }

  lemma {:induction false} ReadStage(plan: Plan, env: Env, c: Counters, items: seq<Item>, i: nat, cap: int)
    requires Compiled(plan.policies)
    ensures var r := ReadItems(plan, env, c, items, i, cap);
      Stage(plan.policies, r.counters.skipped, env, r.env, r.result, 0, 0) && r.env.tally.saves == env.tally.saves
    decreases cap - i
  {
    hide RunPhase, Fine, Broken, Compiled;
    NothingDone(env);
    if i < cap {
      PhaseStage(plan.policies, Read, env, c.skipped);
      PhaseSaves(plan.policies, Read, env, c.skipped);
      var phase := RunPhase(plan.policies, Read, env, c.skipped);
      var c' := c.(skipped := phase.skips);
      match phase.outcome
      case Raised(error) =>
      case Skipped =>
        ReadStage(plan, phase.env, c', items, i + 1, cap);
        var r := ReadItems(plan, phase.env, c', items, i + 1, cap);
        StageAfter(plan.policies, r.counters.skipped, env, phase.env, r.env, r.result, 0, 0, 0, 0);
      case Done(value) =>
        if value.ItemValue? {
          var c'' := c'.(read := c.read + 1);
          ReadStage(plan, phase.env, c'', items + [value.item], i + 1, cap);
          var r := ReadItems(plan, phase.env, c'', items + [value.item], i + 1, cap);
          StageAfter(plan.policies, r.counters.skipped, env, phase.env, r.env, r.result, 0, 0, 0, 0);
        }
    }
  }

  lemma StageAfter<T>(policies: PolicySet, skips: nat, a: Env, b: Env, c: Env, result: Result<T, Error>,
                      told: int, served: int, told': int, served': int)
    requires Fine(a, b, told, served) && Stage(policies, skips, b, c, result, told', served')
    ensures Stage(policies, skips, a, c, result, told + told', served + served')
  {
    hide Fine, Broken;
    match result
    case Ok(_) => FineThenFine(a, b, c, told, served, told', served');
    case Thrown(e) => FineThenBroken(policies, skips, a, b, c, e, told, served, told', served');
  }

  lemma PhaseSaves(policies: PolicySet, op: Operation, env: Env, skips: nat)
    ensures RunPhase(policies, op, env, skips).env.tally.saves == env.tally.saves
  {
    hide RunPhase, Logged;
    PhaseFacts(policies, op, env, skips);
  }

  lemma {:induction false} ProcessStage(plan: Plan, env: Env, c: Counters, items: seq<Item>, k: nat, outputs: seq<Item>)
    requires k <= |items| && Compiled(plan.policies)
    ensures var r := ProcessItems(plan, env, c, items, k, outputs);
      Stage(plan.policies, r.counters.skipped, env, r.env, r.result, 0, 0) && r.env.tally.saves == env.tally.saves
    decreases |items| - k
  {
    hide RunPhase, Fine, Broken, Compiled;
    NothingDone(env);
    if k < |items| {
      if !plan.config.hasProcessor {
        ProcessStage(plan, env, c, items, k + 1, outputs + [items[k]]);
      } else {
        var op := Process(items[k]);
        PhaseStage(plan.policies, op, env, c.skipped);
        PhaseSaves(plan.policies, op, env, c.skipped);
        var phase := RunPhase(plan.policies, op, env, c.skipped);
        var c' := c.(skipped := phase.skips);
        match phase.outcome
        case Raised(error) =>
        case Skipped =>
          ProcessStage(plan, phase.env, c', items, k + 1, outputs);
          var r := ProcessItems(plan, phase.env, c', items, k + 1, outputs);
          StageAfter(plan.policies, r.counters.skipped, env, phase.env, r.env, r.result, 0, 0, 0, 0);
        case Done(value) =>
          var c'' := if value.ItemValue? then c' else c'.(skipped := phase.skips + 1);
          var outputs' := if value.ItemValue? then outputs + [value.item] else outputs;
          ProcessStage(plan, phase.env, c'', items, k + 1, outputs');
          var r := ProcessItems(plan, phase.env, c'', items, k + 1, outputs');
          StageAfter(plan.policies, r.counters.skipped, env, phase.env, r.env, r.result, 0, 0, 0, 0);
      }
    }
  }

  lemma WriteStage(plan: Plan, env: Env, c: Counters, chunk: int, items: seq<Item>, outputs: seq<Item>)
    requires Compiled(plan.policies)
    ensures var r := WriteItems(plan, env, c, chunk, items, outputs);
      Stage(plan.policies, r.counters.skipped, env, r.env, r.result, 0, 0) && r.env.tally.saves == env.tally.saves
  {
    hide RunPhase, Fine, Broken, Compiled;
    NothingDone(env);
    if outputs != [] {
      PhaseStage(plan.policies, Write(chunk, items, outputs), env, c.skipped);
      PhaseSaves(plan.policies, Write(chunk, items, outputs), env, c.skipped);
    }
  }

  // ---------------------------------------------------------------- calls

  /** Something else than an operation threw e. */
  ghost predicate Threw(before: Env, after: Env, e: Error) {
    && after.trace.thrown == before.trace.thrown + [e] && |before.trace.errors| <= |after.trace.errors|
    && SameStreams(before.trace, after.trace)
  }

  ghost predicate Calls<T>(before: Env, after: Env, result: Result<T, Error>, told: int, served: int) {
    match result
    case Ok(_) => Fine(before, after, told, served)
    case Thrown(e) => Threw(before, after, e)
  }

  lemma ThrewBreaks(policies: PolicySet, skips: nat, a: Env, b: Env, c: Env, e: Error, told: int, served: int, told': int, served': int)
    requires Fine(a, b, told, served) && Threw(b, c, e)
    ensures Threw(a, c, e) && Broken(policies, skips, a, c, e, told', served')
  {
    hide Extra, FatalLast;
  }

  lemma CallCalls(env: Env)
    ensures Calls(env, Call(env).env, Call(env).result, 0, 1) && Call(env).env.tally == env.tally
  {
  }

  lemma ListenCalls(env: Env)
    ensures Calls(env, Listen(env).env, Listen(env).result, 1, 0) && Listen(env).env.tally == env.tally
  {
  }

  lemma UpdateCalls(env: Env, stream: Stream, context: Json)
    ensures var a := UpdateStream(env, stream, context);
      Calls(env, a.env, a.result, 0, 1) && a.env.tally == env.tally
  {
    hide WriteCheckpoint;
  }

  lemma CallsAfter<T>(a: Env, b: Env, c: Env, result: Result<T, Error>, told: int, served: int, told': int, served': int)
    requires Fine(a, b, told, served) && Calls(b, c, result, told', served')
    ensures Calls(a, c, result, told + told', served + served')
  {
    hide Fine, Threw, Broken;
    match result
    case Ok(_) => FineThenFine(a, b, c, told, served, told', served');
    case Thrown(e) => FineThenThrew(a, b, c, e, told, served);
  }

  lemma FineThenThrew(a: Env, b: Env, c: Env, e: Error, told: int, served: int)
    requires Fine(a, b, told, served) && Threw(b, c, e)
    ensures Threw(a, c, e)
  {
    hide Extra;
  }

  lemma {:induction false} UpdatesCall(env: Env, streams: seq<Stream>, done: nat, context: Json)
    requires done <= |streams|
    ensures var a := UpdateStreams(env, streams, done, context);
      Calls(env, a.env, a.result, 0, |streams| - done) && a.env.tally == env.tally
    decreases |streams| - done
  {
    hide UpdateStream, Fine, Threw;
    NothingDone(env);
    if done < |streams| {
      UpdateCalls(env, streams[done], context);
      var a := UpdateStream(env, streams[done], context);
      if a.result.Ok? {
        UpdatesCall(a.env, streams, done + 1, a.result.value);
        var b := UpdateStreams(a.env, streams, done + 1, a.result.value);
        CallsAfter(env, a.env, b.env, b.result, 0, 1, 0, |streams| - done - 1);
      }
    }
  }

  /** A checkpoint: every stream updated, the row saved and read back. */
  lemma CommitCalls(plan: Plan, env: Env, context: Json, chunk: int)
    ensures var a := CommitChunk(plan, env, context, chunk);
      && Calls(env, a.env, a.result, 0, |Streams(plan.config)| + 2)
      && (a.result.Ok? ==> a.env.tally.saves == env.tally.saves + 1)
  {
    hide UpdateStreams, Fine, Threw, Call;
    var streams := Streams(plan.config);
    UpdatesCall(env, streams, 0, WithLastChunkIndex(context, chunk));
    var updated := UpdateStreams(env, streams, 0, WithLastChunkIndex(context, chunk));
    if updated.result.Ok? {
      SaveCalls(updated.env, updated.result.value, chunk);
      var saved := SaveContext(updated.env, updated.result.value, chunk);
      CallsAfter(env, updated.env, saved.env, saved.result, 0, |streams|, 0, 1);
      if saved.result.Ok? {
        CallCalls(saved.env);
        var loaded := Call(saved.env);
        CallsAfter(env, saved.env, loaded.env, loaded.result, 0, |streams| + 1, 0, 1);
      }
    }
  }

  lemma SaveCalls(env: Env, context: Json, chunk: int)
    ensures var a := SaveContext(env, context, chunk);
      Calls(env, a.env, a.result, 0, 1) && (a.result.Ok? ==> a.env.tally.saves == env.tally.saves + 1)
  {
    CallCalls(env);
    hide Call;
  }

  lemma {:induction false} DrainCalls(env: Env, cap: int, drained: nat)
    ensures var d := Drain(env, cap, drained); Calls(env, d.env, d.result, 0, 0) && d.env.tally.saves == env.tally.saves
    decreases cap - drained
  {
    hide Fine, Threw;
    NothingDone(env);
    if drained < cap {
      OneDrained(env);
      var a := DrainOne(env);
      if a.result.Ok? && a.result.value.Some? {
        DrainCalls(a.env, cap, drained + 1);
        var d := Drain(a.env, cap, drained + 1);
        CallsAfter(env, a.env, d.env, d.result, 0, 0, 0, 0);
      }
    }
  }

  lemma OneDrained(env: Env)
    ensures Calls(env, DrainOne(env).env, DrainOne(env).result, 0, 0) && DrainOne(env).env.tally.saves == env.tally.saves
  {
  }

  // ---------------------------------------------------------------- passes and the loop

  /**
   * A pass: going on after a chunk it has told its two listeners, updated all streams, saved and read back; going on
   * after a drain it has told and called nobody; at an end of input it has told two listeners, at the end of a share
   * or a drain none; failing for an operation it has told one.
   */
  ghost predicate PassCalls(plan: Plan, p: Progress, pass: Pass) {
    var k := |Streams(plan.config)|;
    match pass
    case Continues(p') =>
      || (p'.env.tally.saves == p.env.tally.saves + 1 && Fine(p.env, p'.env, 2, k + 2))
      || (p'.env.tally.saves == p.env.tally.saves && Fine(p.env, p'.env, 0, 0))
    case Stops(p', Ok(_)) => p'.env.tally.saves == p.env.tally.saves && (Fine(p.env, p'.env, 0, 0) || Fine(p.env, p'.env, 2, 0))
    case Stops(p', Thrown(e)) =>
      && Broken(plan.policies, p'.counters.skipped, p.env, p'.env, e, 1, 0)
      && (p'.env.trace.thrown == p.env.trace.thrown ==> p'.env.tally.saves == p.env.tally.saves)
  }

  lemma DrainPassCalls(plan: Plan, p: Progress)
    ensures PassCalls(plan, p, DrainPass(plan, p))
  {
    hide Drain, Fine, Threw, Broken;
    NothingDone(p.env);
    var cap := Cap(plan, p.counters);
    DrainCalls(p.env, cap, 0);
    var d := Drain(p.env, cap, 0);
    if d.result.Thrown? {
      ThrewBreaks(plan.policies, p.counters.skipped, p.env, p.env, d.env, d.result.error, 0, 0, 1, 0);
      ThrewMore(p.env, d.env, d.result.error);
    }
  }

  lemma ThrewMore(a: Env, b: Env, e: Error)
    requires Threw(a, b, e)
    ensures b.trace.thrown != a.trace.thrown
  {
  }

  lemma ChunkPassCalls(plan: Plan, p: Progress)
    requires Compiled(plan.policies)
    ensures PassCalls(plan, p, ChunkPass(plan, p))
  {
    hide ReadItems, ProcessItems, WriteItems, CommitChunk, Fine, Threw, Broken, Listen, Compiled;
    NothingDone(p.env);
    if Cap(plan, p.counters) != 0 {
      ListenCalls(p.env);
      var before := Listen(p.env);
      if before.result.Thrown? {
        ThrewBreaks(plan.policies, p.counters.skipped, p.env, p.env, before.env, before.result.error, 0, 0, 1, 0);
        ThrewMore(p.env, before.env, before.result.error);
      } else {
        ReadStage(plan, before.env, p.counters, [], 0, Cap(plan, p.counters));
        var r := ReadItems(plan, before.env, p.counters, [], 0, Cap(plan, p.counters));
        StageAfter(plan.policies, r.counters.skipped, p.env, before.env, r.env, r.result, 1, 0, 0, 0);
        if r.result.Ok? && |r.items| == 0 {
          ListenCalls(r.env);
          var after := Listen(r.env);
          CallsAfter(p.env, r.env, after.env, after.result, 1, 0, 1, 0);
          if after.result.Thrown? {
            ThrewBreaks(plan.policies, r.counters.skipped, p.env, p.env, after.env, after.result.error, 0, 0, 1, 0);
            ThrewMore(p.env, after.env, after.result.error);
          }
        } else if r.result.Ok? {
          StagesCall(plan, p, r);
        }
      }
    }
  }

  /** The pass after its items are read. */
  lemma StagesCall(plan: Plan, p: Progress, r: ReadRun)
    requires Compiled(plan.policies) && Cap(plan, p.counters) != 0 && Listen(p.env).result.Ok?
    requires r == ReadItems(plan, Listen(p.env).env, p.counters, [], 0, Cap(plan, p.counters)) && r.result.Ok? && |r.items| > 0
    requires Fine(p.env, r.env, 1, 0) && r.env.tally.saves == p.env.tally.saves
    ensures PassCalls(plan, p, ChunkPass(plan, p))
  {
    hide ReadItems, ProcessItems, WriteItems, CommitChunk, Fine, Threw, Broken, Listen, Compiled, Cap;
    ProcessStage(plan, r.env, r.counters, r.items, 0, []);
    var q := ProcessItems(plan, r.env, r.counters, r.items, 0, []);
    StageAfter(plan.policies, q.counters.skipped, p.env, r.env, q.env, q.result, 1, 0, 0, 0);
    if q.result.Ok? {
      WriteStage(plan, q.env, q.counters, p.chunkIndex, r.items, q.outputs);
      var w := WriteItems(plan, q.env, q.counters, p.chunkIndex, r.items, q.outputs);
      StageAfter(plan.policies, w.counters.skipped, p.env, q.env, w.env, w.result, 1, 0, 0, 0);
      if w.result.Ok? {
        CommitCalls(plan, w.env, p.context, p.chunkIndex);
        var c := CommitChunk(plan, w.env, p.context, p.chunkIndex);
        var k := |Streams(plan.config)|;
        CallsAfter(p.env, w.env, c.env, c.result, 1, 0, 0, k + 2);
        NothingDone(p.env);
        if c.result.Thrown? {
          ThrewBreaks(plan.policies, w.counters.skipped, p.env, p.env, c.env, c.result.error, 0, 0, 1, 0);
          ThrewMore(p.env, c.env, c.result.error);
        } else {
          ListenCalls(c.env);
          var after := Listen(c.env);
          CallsAfter(p.env, c.env, after.env, after.result, 1, k + 2, 1, 0);
          if after.result.Thrown? {
            ThrewBreaks(plan.policies, w.counters.skipped, p.env, p.env, after.env, after.result.error, 0, 0, 1, 0);
            ThrewMore(p.env, after.env, after.result.error);
          }
        }
      }
    }
  }

  /** n checkpoints with k streams each. */
  ghost function Rounds(n: int, k: nat): int {
    n * (k + 2)
  }

  lemma OneRound(n: int, k: nat)
    ensures Rounds(n + 1, k) == Rounds(n, k) + k + 2 && Rounds(0, k) == 0
  {
    assert (n + 1) * (k + 2) == n * (k + 2) + (k + 2);
  }

  ghost predicate LoopCalls(plan: Plan, p: Progress, l: LoopRun) {
    var (saves, k) := (l.progress.env.tally.saves - p.env.tally.saves, |Streams(plan.config)|);
    match l.result
    case Ok(_) =>
      Fine(p.env, l.progress.env, 2 * saves, Rounds(saves, k)) || Fine(p.env, l.progress.env, 2 * saves + 2, Rounds(saves, k))
    case Thrown(e) => Broken(plan.policies, l.progress.counters.skipped, p.env, l.progress.env, e, 2 * saves + 1, Rounds(saves, k))
  }

  lemma {:induction false} LoopIsCalls(plan: Plan, p: Progress)
    requires Compiled(plan.policies)
    ensures LoopCalls(plan, p, Loop(plan, p))
    decreases |p.env.source| - p.env.position
  {
    hide DrainPass, ChunkPass, Fine, Broken, Compiled, Rounds;
    var k := |Streams(plan.config)|;
    OneRound(0, k);
    if Draining(plan, p) { DrainPassCalls(plan, p); } else { ChunkPassCalls(plan, p); }
    match OnePass(plan, p)
    case Stops(p', Ok(_)) =>
    case Stops(p', Thrown(e)) =>
      if p'.env.tally.saves != p.env.tally.saves { AnyCount(plan.policies, p'.counters.skipped, p.env, p'.env, e); }
    case Continues(p') =>
      LoopIsCalls(plan, p');
      var l := Loop(plan, p');
      var saves := l.progress.env.tally.saves - p'.env.tally.saves;
      OneRound(saves, k);
      var (t, v) := if p'.env.tally.saves == p.env.tally.saves then (0, 0) else (2, k + 2);
      match l.result
      case Ok(_) =>
        if Fine(p'.env, l.progress.env, 2 * saves, Rounds(saves, k)) {
          FineThenFine(p.env, p'.env, l.progress.env, t, v, 2 * saves, Rounds(saves, k));
        } else {
          FineThenFine(p.env, p'.env, l.progress.env, t, v, 2 * saves + 2, Rounds(saves, k));
        }
      case Thrown(e) =>
        FineThenBroken(plan.policies, l.progress.counters.skipped, p.env, p'.env, l.progress.env, e, t, v, 2 * saves + 1, Rounds(saves, k));
  }

  lemma AnyCount(policies: PolicySet, skips: nat, a: Env, b: Env, e: Error)
    requires Broken(policies, skips, a, b, e, 1, 0) && b.trace.thrown != a.trace.thrown
    ensures forall told, served :: Broken(policies, skips, a, b, e, told, served)
  {
    hide Extra, FatalLast;
  }

  // ---------------------------------------------------------------- streams and the end of a step

  /** Nothing was thrown; so many extra listeners told, so many other calls made. */
  ghost predicate Went(before: Env, after: Env, told: int, served: int) {
    && after.trace.thrown == before.trace.thrown && |before.trace.errors| <= |after.trace.errors|
    && Extra(after) == Extra(before) + told && after.trace.contacts.served == before.trace.contacts.served + served
  }

  ghost predicate Wrong(policies: PolicySet, skips: nat, before: Env, after: Env, e: Error, told: int, served: int) {
    && |before.trace.errors| <= |after.trace.errors|
    && (|| after.trace.thrown == before.trace.thrown + [e]
        || (&& after.trace.thrown == before.trace.thrown && FatalLast(policies, skips, before.trace, after.trace, e)
            && Extra(after) == Extra(before) + told && after.trace.contacts.served == before.trace.contacts.served + served))
  }

  /** The streams opened are closed but for `left`; or a close threw, and what was opened before that stream stays open with it. */
  ghost predicate Streamed(before: Env, after: Env, left: nat) {
    var (b, a) := (before.trace.contacts, after.trace.contacts);
    || (a.stuck == b.stuck && a.openings - b.openings == a.closings - b.closings + left)
    || (|a.stuck| == |b.stuck| + 1 && a.openings - b.openings > a.closings - b.closings && left == 0)
  }

  lemma WentThenWent(a: Env, b: Env, c: Env, told: int, served: int, told': int, served': int)
    requires Went(a, b, told, served) && Went(b, c, told', served')
    ensures Went(a, c, told + told', served + served')
  {
    hide Extra;
  }

  lemma WentThenWrong(policies: PolicySet, skips: nat, a: Env, b: Env, c: Env, e: Error, told: int, served: int, told': int, served': int)
    requires Went(a, b, told, served) && Wrong(policies, skips, b, c, e, told', served')
    ensures Wrong(policies, skips, a, c, e, told + told', served + served')
  {
    hide Extra, Fatal, SkipsError;
  }

  lemma FineWent(a: Env, b: Env, told: int, served: int)
    requires Fine(a, b, told, served)
    ensures Went(a, b, told, served) && Streamed(a, b, 0) && b.trace.contacts.stuck == a.trace.contacts.stuck
  {
    hide Extra;
  }

  lemma BrokenWrong(policies: PolicySet, skips: nat, a: Env, b: Env, e: Error, told: int, served: int)
    requires Broken(policies, skips, a, b, e, told, served)
    ensures Wrong(policies, skips, a, b, e, told, served) && Streamed(a, b, 0) && b.trace.contacts.stuck == a.trace.contacts.stuck
  {
    hide Extra, FatalLast;
  }

  /** Opening: so many calls, and so many streams opened; if one throws, those before it are open. */
  ghost predicate Openings(before: Env, after: Env, result: Result<(), Error>, opened': nat, served: int) {
    && Streamed(before, after, opened') && |before.trace.errors| <= |after.trace.errors|
    && after.trace.contacts.stuck == before.trace.contacts.stuck && after.tally == before.tally
    && match result
       case Ok(_) => Went(before, after, 0, served)
       case Thrown(e) => after.trace.thrown == before.trace.thrown + [e]
  }

  lemma {:induction false} OpensEach(env: Env, streams: seq<Stream>, ready: seq<Stream>, context: Json)
    requires |ready| <= |streams|
    ensures var o := OpenStreams(env, streams, ready, context);
      && |ready| <= |o.ready| <= |streams| && (o.result.Ok? ==> |o.ready| == |streams|)
      && Openings(env, o.env, o.result, |o.ready| - |ready|, |streams| - |ready|)
    decreases |streams| - |ready|
  {
    hide OpenStream;
    if |ready| < |streams| {
      OneOpened(env, streams[|ready|], context);
      var a := OpenStream(env, streams[|ready|], context);
      if a.result.Ok? { OpensEach(a.env, streams, ready + [streams[|ready|]], context); }
    }
  }

  lemma OneOpened(env: Env, stream: Stream, context: Json)
    ensures var a := OpenStream(env, stream, context); Openings(env, a.env, a.result, if a.result.Ok? then 1 else 0, 1)
  {
    hide ReadCheckpointNumber;
  }

  lemma OpensAll(plan: Plan, env: Env)
    ensures var o := OpenAll(plan, env);
      && (o.result.Ok? ==> |o.ready| == |Streams(plan.config)|)
      && Openings(env, o.env, o.result, |o.ready|, |Streams(plan.config)| + 2)
  {
    hide OpenStreams, Call;
    CallCalls(env);
    var resolved := Call(env);
    if resolved.result.Ok? {
      CallCalls(resolved.env);
      var loaded := Call(resolved.env);
      if loaded.result.Ok? { OpensEach(loaded.env, Streams(plan.config), [], loaded.env.context); }
    }
  }

  /** Closing: every stream closed by one call each, or one of them stuck. */
  ghost predicate Closings(before: Env, after: Env, result: Result<(), Error>, left: nat) {
    var (b, a) := (before.trace.contacts, after.trace.contacts);
    && a.openings == b.openings && |before.trace.errors| <= |after.trace.errors| && after.tally == before.tally
    && match result
       case Ok(_) => Went(before, after, 0, left) && a.stuck == b.stuck && a.closings == b.closings + left
       case Thrown(e) =>
         && after.trace.thrown == before.trace.thrown + [e]
         && a.stuck == b.stuck + [e] && b.closings <= a.closings < b.closings + left
  }

  lemma {:induction false} ClosesEach(env: Env, left: nat)
    ensures Closings(env, CloseStreams(env, left).env, CloseStreams(env, left).result, left)
    decreases left
  {
    hide CloseStream;
    if left > 0 {
      OneClosed(env);
      var a := CloseStream(env);
      if a.result.Ok? { ClosesEach(a.env, left - 1); }
    }
  }

  lemma OneClosed(env: Env)
    ensures Closings(env, CloseStream(env).env, CloseStream(env).result, 1)
  {
  }

  // ---------------------------------------------------------------- the try and catch blocks

  ghost predicate Attempted(plan: Plan, env: Env, t: TryRun) {
    var (saves, k) := (t.env.tally.saves - env.tally.saves, |Streams(plan.config)|);
    && Streamed(env, t.env, t.open)
    && match t.result
       case Ok(_) =>
         && t.open == 0 && t.env.trace.contacts.stuck == env.trace.contacts.stuck
         && (Went(env, t.env, 2 * saves + 1, Rounds(saves, k) + 2 * k + 2) || Went(env, t.env, 2 * saves + 3, Rounds(saves, k) + 2 * k + 2))
       case Thrown(e) =>
         && Wrong(plan.policies, t.counters.skipped, env, t.env, e, 2 * saves + 1, Rounds(saves, k) + k + 2)
         && (t.env.trace.thrown == env.trace.thrown ==> t.open == k && t.env.trace.contacts.stuck == env.trace.contacts.stuck)
         && (t.env.trace.contacts.stuck != env.trace.contacts.stuck ==> t.open == 0 && t.env.trace.contacts.stuck == env.trace.contacts.stuck + [e])
  }

  lemma TryIsAttempted(plan: Plan, env: Env)
    requires Compiled(plan.policies)
    ensures Attempted(plan, env, Try(plan, env))
  {
    hide OpenAll, Loop, AfterLoop, Compiled, Rounds, Fine, Broken, FatalLast, Extra;
    OpensAll(plan, env);
    var o := OpenAll(plan, env);
    if o.result.Ok? {
      var p := Progress(o.env, NO_COUNTERS, FirstChunk(plan.config), o.env.context);
      LoopIsCalls(plan, p);
      LoopAttempted(plan, env, p, Loop(plan, p));
    }
  }

  lemma LoopAttempted(plan: Plan, env: Env, p: Progress, l: LoopRun)
    requires Openings(env, p.env, Ok(()), |Streams(plan.config)|, |Streams(plan.config)| + 2) && LoopCalls(plan, p, l)
    ensures Attempted(plan, env, AfterLoop(l, |Streams(plan.config)|))
  {
    hide AfterLoop, CloseStreams, Listen, Rounds, Extra, FatalLast, Fine, Broken;
    var (k, saves) := (|Streams(plan.config)|, l.progress.env.tally.saves - p.env.tally.saves);
    match l.result
    case Thrown(e) =>
      AfterFailedLoop(l, k);
      BrokenWrong(plan.policies, l.progress.counters.skipped, p.env, l.progress.env, e, 2 * saves + 1, Rounds(saves, k));
      WentThenWrong(plan.policies, l.progress.counters.skipped, env, p.env, l.progress.env, e, 0, k + 2, 2 * saves + 1, Rounds(saves, k));
      StreamedOn(env, p.env, l.progress.env, k);
    case Ok(_) =>
      var x := if Fine(p.env, l.progress.env, 2 * saves, Rounds(saves, k)) then 0 else 2;
      FineWent(p.env, l.progress.env, 2 * saves + x, Rounds(saves, k));
      WentThenWent(env, p.env, l.progress.env, 0, k + 2, 2 * saves + x, Rounds(saves, k));
      StreamedOn(env, p.env, l.progress.env, k);
      ClosedAttempted(plan, env, l, 2 * saves + x, Rounds(saves, k) + k + 2);
  }

  lemma AfterFailedLoop(l: LoopRun, open: nat)
    requires l.result.Thrown?
    ensures AfterLoop(l, open) == TryRun(l.progress.env, l.progress.counters, open, l.result)
  {
  }

  lemma StreamedOn(a: Env, b: Env, c: Env, left: nat)
    requires Streamed(a, b, left) && b.trace.contacts.stuck == a.trace.contacts.stuck && Streamed(b, c, 0)
    requires c.trace.contacts.stuck == b.trace.contacts.stuck
    ensures Streamed(a, c, left) && c.trace.contacts.stuck == a.trace.contacts.stuck
  {
  }

  /** After a loop that ended well: close, and tell the after-step listener. */
  lemma ClosedAttempted(plan: Plan, env: Env, l: LoopRun, told: int, served: int)
    requires l.result.Ok? && Went(env, l.progress.env, told, served)
    requires Streamed(env, l.progress.env, |Streams(plan.config)|) && l.progress.env.trace.contacts.stuck == env.trace.contacts.stuck
    ensures var k := |Streams(plan.config)|;
      var t := AfterLoop(l, k);
      && Streamed(env, t.env, t.open) && t.open == 0 && t.env.tally == l.progress.env.tally
      && match t.result
         case Ok(_) => Went(env, t.env, told + 1, served + k) && t.env.trace.contacts.stuck == env.trace.contacts.stuck
         case Thrown(e) =>
           && t.env.trace.thrown == env.trace.thrown + [e] && |env.trace.errors| <= |t.env.trace.errors|
           && (t.env.trace.contacts.stuck == env.trace.contacts.stuck || t.env.trace.contacts.stuck == env.trace.contacts.stuck + [e])
  {
    hide CloseStreams, Listen, Extra;
    var k := |Streams(plan.config)|;
    ClosesEach(l.progress.env, k);
    var closed := CloseStreams(l.progress.env, k);
    ListenCalls(closed.env);
  }

  /** What a step reports, and what it has told and called. */
  ghost predicate EndsRight(plan: Plan, env: Env, run: StepRun) {
    var (saves, k, b, a) := (run.env.tally.saves - env.tally.saves, |Streams(plan.config)|, env.trace, run.env.trace);
    && Streamed(env, run.env, 0) && (a.thrown == b.thrown ==> a.contacts.stuck == b.contacts.stuck)
    && match run.outcome
       case Returned(StepResult(StepCompleted, _, error)) =>
         && error == None
         && (Went(env, run.env, 2 * saves + 2, Rounds(saves, k) + 2 * k + 2) || Went(env, run.env, 2 * saves + 4, Rounds(saves, k) + 2 * k + 2))
       case Returned(StepResult(StepFailed, counters, Some(error))) =>
         if a.thrown == b.thrown then
           && FatalLast(plan.policies, counters.skipped, b, a, error)
           && Extra(run.env) == Extra(env) + 2 * saves + 5 && a.contacts.served == b.contacts.served + Rounds(saves, k) + 2 * k + 2
         else
           && b.thrown < a.thrown && |a.thrown| <= |b.thrown| + 2 && error == a.thrown[|a.thrown| - 1]
           && (|a.thrown| == |b.thrown| + 2 ==> a.contacts.stuck != b.contacts.stuck)
           && (a.contacts.stuck != b.contacts.stuck ==> a.contacts.stuck == b.contacts.stuck + [error])
       case Returned(_) => false
       case Propagated(error) => b.thrown < a.thrown && error == a.thrown[|a.thrown| - 1]
  }

  /** What the catch block makes of an error of the try block: `before` is the state before the before-step listener. */
  ghost predicate Caught(plan: Plan, env: Env, run: StepRun) {
    var (saves, k, b, a) := (run.env.tally.saves - env.tally.saves, |Streams(plan.config)|, env.trace, run.env.trace);
    && Streamed(env, run.env, 0) && (a.thrown == b.thrown ==> a.contacts.stuck == b.contacts.stuck)
    && match run.outcome
       case Returned(StepResult(StepFailed, counters, Some(error))) =>
         if a.thrown == b.thrown then
           && FatalLast(plan.policies, counters.skipped, b, a, error)
           && Extra(run.env) == Extra(env) + 2 * saves + 4 && a.contacts.served == b.contacts.served + Rounds(saves, k) + 2 * k + 2
         else
           && b.thrown < a.thrown && |a.thrown| <= |b.thrown| + 2 && error == a.thrown[|a.thrown| - 1]
           && (|a.thrown| == |b.thrown| + 2 ==> a.contacts.stuck != b.contacts.stuck)
           && (a.contacts.stuck != b.contacts.stuck ==> a.contacts.stuck == b.contacts.stuck + [error])
       case Returned(_) => false
       case Propagated(error) => b.thrown < a.thrown && error == a.thrown[|a.thrown| - 1]
  }

  /** The three listeners of the catch block, and what is returned if none of them fails. */
  function Told(env: Env, result: StepResult): StepRun {
    var chunkTold := Listen(env);
    if chunkTold.result.Thrown? then StepRun(chunkTold.env, Propagated(chunkTold.result.error)) else
    var stepTold := Listen(chunkTold.env);
    if stepTold.result.Thrown? then StepRun(stepTold.env, Propagated(stepTold.result.error)) else
    var after := Listen(stepTold.env);
    if after.result.Thrown? then StepRun(after.env, Propagated(after.result.error)) else StepRun(after.env, Returned(result))
  }

  lemma CatchTells(t: TryRun, error: Error)
    ensures var closed := CloseStreams(t.env, t.open);
      Catch(t, error) == Told(closed.env, StepResult(StepFailed, t.counters, Some(if closed.result.Thrown? then closed.result.error else error)))
  {
    hide CloseStreams, Listen;
  }

  lemma TellingEnds(env: Env, result: StepResult)
    ensures var run := Told(env, result);
      && run.env.tally == env.tally && SameStreams(env.trace, run.env.trace) && |env.trace.errors| <= |run.env.trace.errors|
      && match run.outcome
         case Returned(r) => r == result && Went(env, run.env, 3, 0) && run.env.trace.errors == env.trace.errors
         case Propagated(e) => run.env.trace.thrown == env.trace.thrown + [e]
  {
  }

  lemma CatchCaught(plan: Plan, env: Env, t: TryRun, error: Error)
    requires Attempted(plan, env, t) && t.result == Thrown(error)
    ensures Caught(plan, env, Catch(t, error))
  {
    CatchTells(t, error);
    ClosesEach(t.env, t.open);
    var closed := CloseStreams(t.env, t.open);
    var result := StepResult(StepFailed, t.counters, Some(if closed.result.Thrown? then closed.result.error else error));
    TellingEnds(closed.env, result);
    NoErrorsClosing(t.env, t.open);
    hide Catch, Told, CloseStreams, Rounds, Extra, FatalLast;
    if closed.result.Thrown? {
      StuckCaught(plan, env, t, error, closed.env, Told(closed.env, result), closed.result.error);
    } else {
      ClosedCaught(plan, env, t, error, closed.env, Told(closed.env, result));
    }
  }

  lemma {:induction false} NoErrorsClosing(env: Env, left: nat)
    ensures CloseStreams(env, left).env.trace.errors == env.trace.errors
    decreases left
  {
    if left > 0 && CloseStream(env).result.Ok? { NoErrorsClosing(CloseStream(env).env, left - 1); }
  }

  lemma StuckCaught(plan: Plan, env: Env, t: TryRun, error: Error, closed: Env, run: StepRun, e: Error)
    requires Attempted(plan, env, t) && t.result == Thrown(error) && Closings(t.env, closed, Thrown(e), t.open)
    requires SameStreams(closed.trace, run.env.trace) && run.env.tally == closed.tally
    requires match run.outcome
             case Returned(r) => r.status == StepFailed && r.error == Some(e) && run.env.trace.thrown == closed.trace.thrown
             case Propagated(e') => run.env.trace.thrown == closed.trace.thrown + [e']
    ensures Caught(plan, env, run)
  {
    hide Rounds, Extra, FatalLast;
  }

  lemma ClosedCaught(plan: Plan, env: Env, t: TryRun, error: Error, closed: Env, run: StepRun)
    requires Attempted(plan, env, t) && t.result == Thrown(error) && Closings(t.env, closed, Ok(()), t.open)
    requires closed.trace.errors == t.env.trace.errors
    requires SameStreams(closed.trace, run.env.trace) && run.env.tally == closed.tally
    requires match run.outcome
             case Returned(r) =>
               r == StepResult(StepFailed, t.counters, Some(error)) && Went(closed, run.env, 3, 0) && run.env.trace.errors == closed.trace.errors
             case Propagated(e') => run.env.trace.thrown == closed.trace.thrown + [e']
    ensures Caught(plan, env, run)
  {
    hide Rounds, Extra;
  }

  lemma RunEndsRight(plan: Plan, env: Env)
    requires Compiled(plan.policies)
    ensures EndsRight(plan, env, RunPlanned(plan, env))
  {
    hide Listen, Try, Catch, Compiled, Rounds, Extra, FatalLast;
    ListenCalls(env);
    var before := Listen(env);
    if before.result.Ok? {
      TryIsAttempted(plan, before.env);
      var t := Try(plan, before.env);
      if t.result.Thrown? { CatchCaught(plan, before.env, t, t.result.error); }
      BeforeStep(plan, env, before.env, Conclude(t), t);
    }
  }

  /** The before-step listener in front of the try and catch blocks. */
  lemma BeforeStep(plan: Plan, env: Env, before: Env, run: StepRun, t: TryRun)
    requires Fine(env, before, 1, 0) && before.tally == env.tally && run == Conclude(t) && Attempted(plan, before, t)
    requires t.result.Thrown? ==> Caught(plan, before, run)
    ensures EndsRight(plan, env, run)
  {
    hide Catch, Rounds, Extra, Fatal;
  }

  /**
   * How a step ends, for every configuration whose policies and partition stand and all components whatever.
   * It is COMPLETED only if nothing was thrown but errors of operations that were skipped or retried; then each
   * phase, chunk and the step itself had its listeners told, every checkpoint updated, saved and read back, and all
   * streams were opened and closed.  A step that FAILED or whose error propagates names the last error thrown outside
   * of the operations - a close's, if a close threw, else the original one - or, if there was none, what its policies
   * make of the last error of an operation.  In any case every stream opened is closed, unless a close threw.
   */
  lemma StepEndsRight(config: StepConfig, env: Env)
    ensures MakePlan(config).Thrown? ==> RunStep(config, env) == StepRun(env, Propagated(MakePlan(config).error))
    ensures MakePlan(config).Ok? ==> EndsRight(MakePlan(config).value, env, RunStep(config, env))
  {
    if MakePlan(config).Ok? { PlanCompiled(config); }
    hide MakePlan, RunPlanned, Compiled, EndsRight;
    if MakePlan(config).Ok? { RunEndsRight(MakePlan(config).value, env); }
  }

  /** A completed step has had no error that was not dealt with by its policies, and has no stream open. */
  lemma CompletedIsClean(config: StepConfig, env: Env)
    requires CompletedRun(RunStep(config, env))
    ensures var (b, a) := (env.trace, RunStep(config, env).env.trace);
      && a.thrown == b.thrown && a.contacts.stuck == b.contacts.stuck
      && a.contacts.openings - b.contacts.openings == a.contacts.closings - b.contacts.closings
  {
    assert MakePlan(config).Ok?;
    StepEndsRight(config, env);
    hide RunStep, MakePlan, Rounds, Extra, FatalLast;
  }
}
