/** What each stage of a chunk step does to the log, the context row and the reader position. */
module ChunkFrames {
  import opened Common
  import opened Checkpoint
  import opened Environment
  import opened Policies
  import opened PhaseRunner
  import opened ChunkStep

  /** Items that skips of the process and write phases took out of the outputs. */
  ghost function Lost(t: Tally): nat {
    t.processSkips + t.writeSkippedItems
  }

  lemma {:induction false} ReadFrames(plan: Plan, env: Env, c: Counters, items: seq<Item>, i: nat, cap: int)
    ensures var r := ReadItems(plan, env, c, items, i, cap);
            r.env.context == env.context && r.env.log == env.log && Lost(r.env.tally) == Lost(env.tally)
    decreases cap - i
  {
    hide RunPhase;
    if i < cap {
      PhaseFacts(plan.policies, Read, env, c.skipped);
      var phase := RunPhase(plan.policies, Read, env, c.skipped);
      var c' := c.(skipped := phase.skips);
      match phase.outcome
      case Raised(error) =>
      case Skipped => ReadFrames(plan, phase.env, c', items, i + 1, cap);
      case Done(value) =>
        if value.ItemValue? {
          ReadFrames(plan, phase.env, c'.(read := c.read + 1), items + [value.item], i + 1, cap);
        }
    }
  }

  lemma {:induction false} ProcessFrames(plan: Plan, env: Env, c: Counters, items: seq<Item>, k: nat, outputs: seq<Item>)
    requires k <= |items|
    ensures var r := ProcessItems(plan, env, c, items, k, outputs);
            && r.env.context == env.context && r.env.log == env.log && r.env.position == env.position
            && Lost(env.tally) <= Lost(r.env.tally)
    decreases |items| - k
  {
    hide RunPhase;
    if k < |items| {
      if !plan.config.hasProcessor {
        ProcessFrames(plan, env, c, items, k + 1, outputs + [items[k]]);
      } else {
        PhaseFacts(plan.policies, Process(items[k]), env, c.skipped);
        var phase := RunPhase(plan.policies, Process(items[k]), env, c.skipped);
        var c' := c.(skipped := phase.skips);
        match phase.outcome
        case Raised(error) =>
        case Skipped => ProcessFrames(plan, phase.env, c', items, k + 1, outputs);
        case Done(value) =>
          if value.ItemValue? {
            ProcessFrames(plan, phase.env, c', items, k + 1, outputs + [value.item]);
          } else {
            ProcessFrames(plan, phase.env, c'.(skipped := phase.skips + 1), items, k + 1, outputs);
          }
      }
    }
  }

  /** What a step makes of an item, where that is determined: it has no processor, or one that is a function. */
  ghost function Made(config: StepConfig, processor: Option<Processor>): Option<Processor> {
    if config.hasProcessor then processor else Some((item: Item) => Some(item))
  }

  // ---------------------------------------------------------------- parts of a list

  /** a is b with some elements left out. */
  ghost predicate Subsequence(a: seq<Item>, b: seq<Item>)
    decreases |b|
  {
    || a == []
    || (b != [] && ((a[0] == b[0] && Subsequence(a[1..], b[1..])) || Subsequence(a, b[1..])))
  }

  lemma {:induction false} WholeIsPart(a: seq<Item>)
    ensures Subsequence(a, a)
  {
    if a != [] { WholeIsPart(a[1..]); }
  }

  lemma {:induction false} PartBehind(a: seq<Item>, b: seq<Item>, c: seq<Item>)
    requires Subsequence(a, c)
    ensures Subsequence(a, b + c)
    decreases |b|
  {
    if b == [] {
      assert b + c == c;
    } else {
      PartBehind(a, b[1..], c);
      assert (b + c)[1..] == b[1..] + c;
    }
  }

  lemma {:induction false} PartsJoin(a: seq<Item>, b: seq<Item>, c: seq<Item>, d: seq<Item>)
    requires Subsequence(a, b) && Subsequence(c, d)
    ensures Subsequence(a + c, b + d)
    decreases |b|
  {
    if a == [] {
      assert a + c == c;
      PartBehind(c, b, d);
    } else {
      var (whole, part) := (b + d, a + c);
      assert whole[1..] == b[1..] + d && part[1..] == a[1..] + c && whole[0] == b[0] && part[0] == a[0];
      if a[0] == b[0] && Subsequence(a[1..], b[1..]) {
        PartsJoin(a[1..], b[1..], c, d);
      } else {
        PartsJoin(a, b[1..], c, d);
      }
    }
  }

  // ---------------------------------------------------------------- outputs of items

  ghost function AsList(output: Option<Item>): seq<Item> {
    if output.Some? then [output.value] else []
  }

  /** The outputs for a list of items, without those that are filtered. */
  ghost function Outputs(made: Processor, items: seq<Item>): seq<Item> {
    if items == [] then [] else AsList(made(items[0])) + Outputs(made, items[1..])
  }

  lemma {:induction false} OutputsConcat(made: Processor, a: seq<Item>, b: seq<Item>)
    ensures Outputs(made, a + b) == Outputs(made, a) + Outputs(made, b)
  {
    hide AsList;
    if a == [] {
      assert a + b == b;
    } else {
      OutputsConcat(made, a[1..], b);
      OutputsUnfold(made, a);
      OutputsUnfold(made, a + b);
      hide Outputs;
      assert (a + b)[1..] == a[1..] + b && (a + b)[0] == a[0];
    }
  }

  lemma OutputsUnfold(made: Processor, items: seq<Item>)
    requires items != []
    ensures Outputs(made, items) == AsList(made(items[0])) + Outputs(made, items[1..])
  {
  }

  /** A step without a processor makes of its items the items themselves. */
  lemma {:induction false} NothingMade(made: Processor, items: seq<Item>)
    requires forall item :: made(item) == Some(item)
    ensures Outputs(made, items) == items
  {
    if items != [] { NothingMade(made, items[1..]); }
  }

  /** A process phase that succeeds gives what the processor makes of the item; without a policy it is never skipped. */
  ghost predicate MakesItem(policies: PolicySet, item: Item, env: Env, r: PhaseResult)
    requires env.processor.Some?
  {
    && (r.outcome.Skipped? ==> policies.skip.Some?)
    && (r.outcome.Done? ==> r.outcome.value == OutputValue(env.processor.value(item)))
  }

  lemma {:induction false} ProcessPhaseMakes(policies: PolicySet, item: Item, env: Env, skips: nat, attempt: nat)
    requires env.processor.Some?
    ensures MakesItem(policies, item, env, Phase(policies, Process(item), env, skips, attempt))
    decreases AttemptCap(policies) + 1 - attempt
  {
    hide Attempt;
    if attempt <= AttemptCap(policies) {
      AttemptMakes(policies, item, env, skips, attempt);
      match Attempt(policies, Process(item), env, skips, attempt)
      case Ends(r) =>
      case Again(env') => ProcessPhaseMakes(policies, item, env', skips, attempt + 1);
    }
  }

  lemma AttemptMakes(policies: PolicySet, item: Item, env: Env, skips: nat, attempt: nat)
    requires env.processor.Some?
    ensures match Attempt(policies, Process(item), env, skips, attempt)
            case Ends(r) => MakesItem(policies, item, env, r)
            case Again(env') => env'.processor == env.processor
  {
    hide Listen, NotifySkip, Sleep, CanRetry, Succeeded, SkipNoted;
    ListenKeeps(env);
    var tried := Perform(Listen(env).env, Process(item));
    assert tried.result.Ok? ==> tried.result.value == Processed(Listen(env).env, item, NextReply(Listen(env).env));
    hide Perform;
  }

  lemma ProcessRunMakes(policies: PolicySet, item: Item, env: Env, skips: nat)
    requires env.processor.Some?
    ensures MakesItem(policies, item, env, RunPhase(policies, Process(item), env, skips))
    ensures var r := RunPhase(policies, Process(item), env, skips);
      r.outcome.Skipped? ==> Lost(r.env.tally) == Lost(env.tally) + 1
    ensures Lost(env.tally) <= Lost(RunPhase(policies, Process(item), env, skips).env.tally)
  {
    ProcessPhaseMakes(policies, item, env, skips, 1);
    hide Phase, Logged;
    PhaseFacts(policies, Process(item), env, skips);
  }

  /**
   * The outputs of a processed chunk are those of its items, but for the items whose processing was skipped;
   * there are none of these without a skip policy.
   */
  ghost predicate MadeOf(policies: PolicySet, outputs: seq<Item>, all: seq<Item>, lost: int) {
    && Subsequence(outputs, all) && |all| <= |outputs| + lost
    && (policies.skip.None? ==> outputs == all)
  }

  lemma {:induction false} ProcessMakes(plan: Plan, env: Env, c: Counters, items: seq<Item>, k: nat, outputs: seq<Item>)
    returns (added: seq<Item>)
    requires k <= |items| && Made(plan.config, env.processor).Some?
    ensures var r := ProcessItems(plan, env, c, items, k, outputs);
            r.result.Ok? ==>
              && r.outputs == outputs + added
              && MadeOf(plan.policies, added, Outputs(Made(plan.config, env.processor).value, items[k..]), Lost(r.env.tally) - Lost(env.tally))
    decreases |items| - k
  {
    hide RunPhase, Outputs, MadeOf, MakesItem, Lost;
    var made := Made(plan.config, env.processor).value;
    added := [];
    if k == |items| {
      OutputsOfNone(made, items);
      NothingMadeOf(plan.policies);
      assert outputs + [] == outputs;
    } else {
      OutputsFrom(made, items, k);
      if !plan.config.hasProcessor {
        var rest := ProcessMakes(plan, env, c, items, k + 1, outputs + [items[k]]);
        var r := ProcessItems(plan, env, c, items, k, outputs);
        added := [items[k]] + rest;
        assert outputs + [items[k]] + rest == outputs + added;
        if r.result.Ok? {
          OneMadeOf(plan.policies, rest, Outputs(made, items[k + 1..]), AsList(made(items[k])), Lost(r.env.tally) - Lost(env.tally));
        }
      } else {
        added := ProcessedMakes(plan, env, c, items, k, outputs);
      }
    }
  }

  lemma {:induction false} ProcessedMakes(plan: Plan, env: Env, c: Counters, items: seq<Item>, k: nat, outputs: seq<Item>)
    returns (added: seq<Item>)
    requires k < |items| && plan.config.hasProcessor && env.processor.Some?
    ensures var r := ProcessItems(plan, env, c, items, k, outputs);
            r.result.Ok? ==>
              && r.outputs == outputs + added
              && MadeOf(plan.policies, added, Outputs(env.processor.value, items[k..]), Lost(r.env.tally) - Lost(env.tally))
    decreases |items| - k, 0
  {
    hide RunPhase, ProcessItems, Outputs, MadeOf, MakesItem, Lost, AsList;
    var made := env.processor.value;
    OutputsFrom(made, items, k);
    ProcessRunMakes(plan.policies, items[k], env, c.skipped);
    var phase := RunPhase(plan.policies, Process(items[k]), env, c.skipped);
    PhaseMakes(plan.policies, items[k], env, phase);
    ProcessStep(plan, env, c, items, k, outputs);
    var c' := c.(skipped := phase.skips);
    added := [];
    match phase.outcome
    case Raised(error) =>
    case Skipped =>
      var r := ProcessItems(plan, phase.env, c', items, k + 1, outputs);
      added := ProcessMakes(plan, phase.env, c', items, k + 1, outputs);
      if r.result.Ok? {
        SkippedMadeOf(plan.policies, added, Outputs(made, items[k + 1..]), AsList(made(items[k])), Lost(r.env.tally) - Lost(phase.env.tally));
      }
    case Done(value) =>
      var one := ListOf(value);
      var c'' := if value.ItemValue? then c' else c'.(skipped := phase.skips + 1);
      var r := ProcessItems(plan, phase.env, c'', items, k + 1, outputs + one);
      var rest := ProcessMakes(plan, phase.env, c'', items, k + 1, outputs + one);
      added := one + rest;
      assert (outputs + one) + rest == outputs + added;
      if r.result.Ok? {
        OneMadeOf(plan.policies, rest, Outputs(made, items[k + 1..]), one, Lost(r.env.tally) - Lost(phase.env.tally));
        MoreLost(plan.policies, added, Outputs(made, items[k..]), Lost(r.env.tally) - Lost(phase.env.tally), Lost(r.env.tally) - Lost(env.tally));
      }
  }

  ghost function ListOf(value: Value): seq<Item> {
    if value.ItemValue? then [value.item] else []
  }

  /** One process phase, then the rest of the chunk. */
  lemma ProcessStep(plan: Plan, env: Env, c: Counters, items: seq<Item>, k: nat, outputs: seq<Item>)
    requires k < |items| && plan.config.hasProcessor && env.processor.Some?
    ensures var phase := RunPhase(plan.policies, Process(items[k]), env, c.skipped);
            var c' := c.(skipped := phase.skips);
            var r := ProcessItems(plan, env, c, items, k, outputs);
            && phase.env.processor == env.processor
            && match phase.outcome
               case Raised(error) => r.result.Thrown?
               case Skipped => r == ProcessItems(plan, phase.env, c', items, k + 1, outputs)
               case Done(value) =>
                 r == ProcessItems(plan, phase.env, if value.ItemValue? then c' else c'.(skipped := phase.skips + 1),
                                   items, k + 1, outputs + ListOf(value))
  {
    hide RunPhase;
    PhaseFacts(plan.policies, Process(items[k]), env, c.skipped);
    assert outputs + [] == outputs;
  }

  lemma PhaseMakes(policies: PolicySet, item: Item, env: Env, r: PhaseResult)
    requires env.processor.Some? && MakesItem(policies, item, env, r)
    ensures r.outcome.Skipped? ==> policies.skip.Some?
    ensures r.outcome.Done? ==> ListOf(r.outcome.value) == AsList(env.processor.value(item))
  {
  }

  lemma NothingMadeOf(policies: PolicySet)
    ensures MadeOf(policies, [], [], 0)
  {
  }

  lemma OneMadeOf(policies: PolicySet, outputs: seq<Item>, all: seq<Item>, one: seq<Item>, lost: int)
    requires MadeOf(policies, outputs, all, lost)
    ensures MadeOf(policies, one + outputs, one + all, lost)
  {
    WholeIsPart(one);
    PartsJoin(one, one, outputs, all);
  }

  lemma SkippedMadeOf(policies: PolicySet, outputs: seq<Item>, all: seq<Item>, one: seq<Item>, lost: int)
    requires MadeOf(policies, outputs, all, lost) && policies.skip.Some? && |one| <= 1
    ensures MadeOf(policies, outputs, one + all, lost + 1)
  {
    PartBehind(outputs, one, all);
  }

  lemma MoreLost(policies: PolicySet, outputs: seq<Item>, all: seq<Item>, lost: int, more: int)
    requires MadeOf(policies, outputs, all, lost) && lost <= more
    ensures MadeOf(policies, outputs, all, more)
  {
  }

  lemma OutputsOfNone(made: Processor, items: seq<Item>)
    ensures Outputs(made, items[|items|..]) == []
  {
  }

  lemma OutputsFrom(made: Processor, items: seq<Item>, k: nat)
    requires k < |items|
    ensures Outputs(made, items[k..]) == AsList(made(items[k])) + Outputs(made, items[k + 1..])
    ensures |AsList(made(items[k]))| <= 1
  {
    assert items[k..][1..] == items[k + 1..];
  }

  /**
   * A chunk is written at most once per run; without a skip policy it is written whenever the stage succeeds.
   * If it succeeds without a write, the outputs are lost to a skip.
   */
  lemma WriteFrames(plan: Plan, env: Env, c: Counters, chunk: int, items: seq<Item>, outputs: seq<Item>)
    ensures var r := WriteItems(plan, env, c, chunk, items, outputs);
            && r.env.context == env.context && r.env.position == env.position
            && (r.env.log == env.log || (outputs != [] && r.env.log == env.log + [Wrote(chunk, items, outputs)]))
            && (r.result.Ok? && plan.policies.skip.None? && |outputs| > 0 ==>
                r.env.log == env.log + [Wrote(chunk, items, outputs)])
            && Lost(env.tally) <= Lost(r.env.tally)
            && (r.result.Ok? && r.env.log == env.log ==> Lost(env.tally) + |outputs| <= Lost(r.env.tally))
  {
    hide RunPhase;
    PhaseFacts(plan.policies, Write(chunk, items, outputs), env, c.skipped);
  }

  /** The checkpoint of a chunk: saved once or not at all, and saved whenever the stage succeeds. */
  lemma CommitAccounts(plan: Plan, env: Env, context: Json, chunk: int)
    ensures var r := CommitChunk(plan, env, context, chunk);
            && (r.result.Ok? ==> r.env.log == env.log + [Saved(chunk)] && r.result.value == r.env.context)
            && (|| (r.env.log == env.log && r.env.tally == env.tally && r.env.context == env.context)
                || (&& r.env.log == env.log + [Saved(chunk)]
                    && r.env.tally == env.tally.(saves := env.tally.saves + 1)
                    && SavedContext(plan, env, context, chunk, r.env.context)))
            && (r.result.Ok? ==> r.env.tally.saves == env.tally.saves + 1)
  {
    UpdateKeepsReader(env, Streams(plan.config), 0, WithLastChunkIndex(context, chunk));
    hide UpdateStreams;
  }

  /** What the saved row holds: what the streams made of the chunk index. */
  ghost predicate SavedContext(plan: Plan, env: Env, context: Json, chunk: int, saved: Json) {
    UpdateStreams(env, Streams(plan.config), 0, WithLastChunkIndex(context, chunk)).result == Ok(saved)
  }

  ghost predicate SameBooks(env: Env, env': Env) {
    env'.tally == env.tally && env'.log == env.log && env'.context == env.context
  }

  lemma {:induction false} CloseKeepsBooks(env: Env, left: nat)
    ensures SameBooks(env, CloseStreams(env, left).env)
    decreases left
  {
    if left > 0 && CloseStream(env).result.Ok? { CloseKeepsBooks(CloseStream(env).env, left - 1); }
  }

  lemma {:induction false} OpenKeepsBooks(env: Env, streams: seq<Stream>, ready: seq<Stream>, context: Json)
    requires |ready| <= |streams|
    ensures SameBooks(env, OpenStreams(env, streams, ready, context).env)
    ensures OpenStreams(env, streams, ready, context).env.source == env.source
    ensures OpenStreams(env, streams, ready, context).env.processor == env.processor
    decreases |streams| - |ready|
  {
    if |ready| < |streams| {
      var a := OpenStream(env, streams[|ready|], context);
      if a.result.Ok? { OpenKeepsBooks(a.env, streams, ready + [streams[|ready|]], context); }
    }
  }

  lemma OpenAllKeepsBooks(plan: Plan, env: Env)
    ensures SameBooks(env, OpenAll(plan, env).env)
    ensures OpenAll(plan, env).env.source == env.source && OpenAll(plan, env).env.processor == env.processor
  {
    hide OpenStreams;
    var loaded := Call(Call(env).env);
    OpenKeepsBooks(loaded.env, Streams(plan.config), [], loaded.env.context);
  }

  lemma CatchKeepsBooks(t: TryRun, error: Error)
    ensures SameBooks(t.env, Catch(t, error).env)
  {
    hide CloseStreams;
    CloseKeepsBooks(t.env, t.open);
  }

  lemma AfterLoopKeepsBooks(l: LoopRun, open: nat)
    ensures SameBooks(l.progress.env, AfterLoop(l, open).env)
  {
    hide CloseStreams;
    CloseKeepsBooks(l.progress.env, open);
  }
}
