/**
 * Restarting a failed chunk step, any number of times
 * (packages/core/src/execution/chunk-step-executor.ts:225-270, 407-489 and job-executor.ts:178-196).
 *
 * The reader is deterministic and never throws: a plain reader starts over on each run and is drained
 * past the checkpointed chunks, a stream reader reopens at the position it checkpointed.  Writer, streams,
 * listeners and repository are arbitrary; so is the processor, but what is delivered is said for one that
 * is a function of the item and may fail, be retried or be skipped at any call.
 */
module Restart {
  import opened Common
  import opened Checkpoint
  import opened Environment
  import opened Policies
  import opened PhaseRunner
  import opened ChunkStep
  import opened ChunkFrames

  // ---------------------------------------------------------------- chunks of the input

  /** Where chunk k starts: k * n, or the end of the input. */
  ghost function Boundary(items: seq<Item>, n: nat, k: nat): nat {
    Min(k * n, |items|)
  }

  ghost function Chunk(items: seq<Item>, n: nat, k: nat): seq<Item> {
    BoundariesOrdered(items, n, k);
    items[Boundary(items, n, k)..Boundary(items, n, k + 1)]
  }

  lemma BoundariesOrdered(items: seq<Item>, n: nat, k: nat)
    ensures 0 <= Boundary(items, n, k) <= Boundary(items, n, k + 1) <= |items|
    ensures Boundary(items, n, k + 1) == Min(Boundary(items, n, k) + n, |items|)
    ensures Boundary(items, n, 0) == 0
  {
    assert (k + 1) * n == k * n + n;
    assert 0 <= k * n;
  }

  ghost predicate Delivers(source: seq<ReadReply>, items: seq<Item>) {
    |source| == |items| && forall i :: 0 <= i < |items| ==> source[i] == Gives(items[i])
  }

  ghost function Source(items: seq<Item>): (source: seq<ReadReply>)
    ensures Delivers(source, items)
  {
    seq(|items|, i requires 0 <= i < |items| => Gives(items[i]))
  }

  // ---------------------------------------------------------------- the log of one run

  /** What is known of the outputs of a step: what it makes of an item, and whether none of that may be skipped. */
  datatype Rule = Rule(made: Option<Processor>, strict: bool)

  ghost function RuleOf(config: StepConfig, processor: Option<Processor>): Rule {
    Rule(Made(config, processor), config.skip.None?)
  }

  /** A write of chunk f, of the outputs of the chunk or, under a skip policy, of some of them. */
  ghost predicate ChunkWritten(items: seq<Item>, n: nat, rule: Rule, f: nat, event: Event) {
    && event.Wrote? && event.chunk == f && event.items == Chunk(items, n, f) && event.outputs != []
    && (rule.made.Some? ==>
          && Subsequence(event.outputs, Outputs(rule.made.value, event.items))
          && (rule.strict ==> event.outputs == Outputs(rule.made.value, event.items)))
  }

  /** Chunk f may be passed without a write: nothing is made of it, or it may have been skipped. */
  ghost predicate MayBePassed(items: seq<Item>, n: nat, rule: Rule, f: nat) {
    rule.made.Some? && rule.strict ==> Outputs(rule.made.value, Chunk(items, n, f)) == []
  }

  /**
   * The log of a run that starts with chunk f: each chunk in turn is written and then checkpointed, or
   * checkpointed only if nothing was to be written; a write without its checkpoint is the end of the run.
   */
  ghost predicate Segment(items: seq<Item>, n: nat, rule: Rule, f: nat, log: seq<Event>)
    decreases |log|
  {
    || log == []
    || (&& Boundary(items, n, f) < |items|
        && if log[0].Saved? then MayBePassed(items, n, rule, f) && log[0] == Saved(f) && Segment(items, n, rule, f + 1, log[1..])
           else
             && ChunkWritten(items, n, rule, f, log[0])
             && (|log| > 1 ==> log[1] == Saved(f) && Segment(items, n, rule, f + 1, log[2..])))
  }

  ghost function Saves(log: seq<Event>): nat {
    if log == [] then 0 else (if log[0].Saved? then 1 else 0) + Saves(log[1..])
  }

  /** The outputs of the writes that were followed by their checkpoint. */
  ghost function Confirmed(log: seq<Event>): seq<Item>
    decreases |log|
  {
    if |log| < 2 then []
    else if log[0].Wrote? && log[1].Saved? then log[0].outputs + Confirmed(log[2..])
    else Confirmed(log[1..])
  }

  /** The items of the chunks from f up to g. */
  ghost function Span(items: seq<Item>, n: nat, f: nat, g: nat): seq<Item>
    requires f <= g
  {
    BoundaryMonotone(items, n, f, g);
    BoundariesOrdered(items, n, g);
    items[Boundary(items, n, f)..Boundary(items, n, g)]
  }

  /** Of what is made of the chunks checkpointed in a log, no more is missing from the confirmed writes than was lost to skips. */
  ghost predicate Covers(made: Option<Processor>, items: seq<Item>, n: nat, f: nat, log: seq<Event>, lost: int) {
    0 <= lost && (made.Some? ==> |Outputs(made.value, Span(items, n, f, f + Saves(log)))| <= |Confirmed(log)| + lost)
  }

  lemma NothingCovers(made: Option<Processor>, items: seq<Item>, n: nat, f: nat, log: seq<Event>, lost: int)
    requires 0 <= lost && Saves(log) == 0
    ensures Covers(made, items, n, f, log, lost)
  {
    if made.Some? { NoOutputs(made.value, items, Boundary(items, n, f)); }
  }

  lemma ChunkIsSpan(items: seq<Item>, n: nat, f: nat)
    ensures Span(items, n, f, f + 1) == Chunk(items, n, f)
  {
  }

  lemma SpanSplit(made: Processor, items: seq<Item>, n: nat, f: nat, g: nat, h: nat)
    requires f <= g <= h
    ensures Outputs(made, Span(items, n, f, g)) + Outputs(made, Span(items, n, g, h)) == Outputs(made, Span(items, n, f, h))
  {
    BoundaryMonotone(items, n, f, g);
    BoundaryMonotone(items, n, g, h);
    BoundariesOrdered(items, n, h);
    hide Outputs, Boundary;
    OutputsSplit(made, items, Boundary(items, n, f), Boundary(items, n, g), Boundary(items, n, h));
  }

  /** The run did not end between a write and its checkpoint. */
  ghost predicate EndsClean(log: seq<Event>) {
    log == [] || log[|log| - 1].Saved?
  }

  lemma {:induction false} SavesConcat(a: seq<Event>, b: seq<Event>)
    ensures Saves(a + b) == Saves(a) + Saves(b)
  {
    if a == [] {
      assert a + b == b;
    } else {
      assert (a + b)[1..] == a[1..] + b;
      SavesConcat(a[1..], b);
    }
  }

  // ---------------------------------------------------------------- the context row between runs

  ghost predicate DistinctKeys(config: StepConfig) {
    && config.readerKey != Some(LAST_CHUNK_INDEX) && config.writerKey != Some(LAST_CHUNK_INDEX)
    && (config.readerKey.Some? ==> config.writerKey != config.readerKey)
  }

  /** The row says that the first f chunks are behind us. */
  ghost predicate ContextAt(config: StepConfig, items: seq<Item>, n: nat, f: nat, context: Json) {
    && ReadLastCheckpoint(context) == (if f == 0 then None else Some(f - 1))
    && (config.readerKey.Some? ==>
        ReadCheckpointNumber(context, config.readerKey.value, "offset", 0) == Boundary(items, n, f))
  }

  lemma UpdateRecordsChunk(plan: Plan, env: Env, context: Json, chunk: nat, items: seq<Item>, n: nat)
    requires DistinctKeys(plan.config) && env.position == Boundary(items, n, chunk + 1)
    ensures var r := UpdateStreams(env, Streams(plan.config), 0, WithLastChunkIndex(context, chunk)).result;
            r.Ok? ==> ContextAt(plan.config, items, n, chunk + 1, r.value)
  {
    hide Boundary;
    var streams := Streams(plan.config);
    var c0 := WithLastChunkIndex(context, chunk);
    assert ReadLastCheckpoint(c0) == Some(chunk);
    if |streams| > 0 {
      var a := UpdateStream(env, streams[0], c0);
      if a.result.Ok? {
        UpdateOne(plan.config, env, streams[0], c0, chunk);
        if |streams| > 1 {
          assert streams == [ReaderStream(plan.config.readerKey.value), WriterStream(plan.config.writerKey.value)];
          var b := UpdateStream(a.env, streams[1], a.result.value);
          if b.result.Ok? {
            UpdateOne(plan.config, a.env, streams[1], a.result.value, chunk);
            assert UpdateStreams(b.env, streams, 2, b.result.value).result == b.result;
          }
        } else {
          assert UpdateStreams(a.env, streams, 1, a.result.value).result == a.result;
        }
      }
    }
  }

  /** One stream's update keeps the chunk index; a reader records its position, a writer leaves the reader's alone. */
  lemma UpdateOne(config: StepConfig, env: Env, stream: Stream, context: Json, chunk: int)
    requires DistinctKeys(config) && UpdateStream(env, stream, context).result.Ok?
    requires stream == (if stream.ReaderStream? then ReaderStream(stream.key) else WriterStream(stream.key))
    requires if stream.ReaderStream? then config.readerKey == Some(stream.key) else config.writerKey == Some(stream.key)
    requires ReadLastCheckpoint(context) == Some(chunk)
    ensures var c := UpdateStream(env, stream, context).result.value;
            && ReadLastCheckpoint(c) == Some(chunk)
            && (stream.ReaderStream? ==> ReadCheckpointNumber(c, stream.key, "offset", 0) == env.position)
            && (stream.WriterStream? && config.readerKey.Some? ==>
                ReadCheckpointNumber(c, config.readerKey.value, "offset", 0)
                == ReadCheckpointNumber(context, config.readerKey.value, "offset", 0))
    ensures UpdateStream(env, stream, context).env.position == env.position
  {
  }

  // ---------------------------------------------------------------- reading from a deterministic reader

  lemma {:induction false} ReadPhaseDelivers(policies: PolicySet, env: Env, skips: nat, items: seq<Item>)
    requires Delivers(env.source, items) && env.position <= |items|
    ensures var r := RunPhase(policies, Read, env, skips);
            && r.env.source == env.source
            && (|| r.outcome.Raised?
                || (env.position < |items| && r.outcome == Done(ItemValue(items[env.position])) && r.env.position == env.position + 1)
                || (env.position == |items| && r.outcome == Done(NoValue) && r.env.position == env.position))
  {
    var tried := Perform(Listen(env).env, Read);
    assert Listen(env).env.position == env.position;
    assert tried.result.Ok?;
    assert Attempt(policies, Read, env, skips, 1).Ends?;
    hide Attempt;
  }

  lemma {:induction false} ReadDelivers(plan: Plan, env: Env, c: Counters, got: seq<Item>, i: nat, cap: nat, items: seq<Item>)
    requires Delivers(env.source, items) && env.position <= |items| && i <= cap
    ensures var r := ReadItems(plan, env, c, got, i, cap);
            r.result.Ok? ==>
              var stop := Min(env.position + cap - i, |items|);
              r.env.source == env.source && r.env.position == stop && r.items == got + items[env.position..stop]
    decreases cap - i
  {
    hide RunPhase;
    if i < cap {
      ReadPhaseDelivers(plan.policies, env, c.skipped, items);
      var phase := RunPhase(plan.policies, Read, env, c.skipped);
      var c' := c.(skipped := phase.skips);
      if phase.outcome.Done? && phase.outcome.value.ItemValue? {
        var x := phase.outcome.value.item;
        ReadDelivers(plan, phase.env, c'.(read := c.read + 1), got + [x], i + 1, cap, items);
        var stop := Min(env.position + cap - i, |items|);
        assert got + items[env.position..stop] == (got + [x]) + items[env.position + 1..stop];
      }
    }
  }

  lemma {:induction false} DrainDelivers(env: Env, cap: nat, drained: nat, items: seq<Item>)
    requires Delivers(env.source, items) && env.position <= |items| && drained <= cap
    ensures var d := Drain(env, cap, drained);
            && d.result.Ok? && d.env.source == env.source
            && d.env.position == Min(env.position + cap - drained, |items|)
            && d.drained - drained == d.env.position - env.position
            && d.env.log == env.log && d.env.context == env.context && Lost(d.env.tally) == Lost(env.tally)
    decreases cap - drained
  {
    if drained < cap {
      var a := DrainOne(env);
      if a.result.value.Some? { DrainDelivers(a.env, cap, drained + 1, items); }
    }
  }

  // ---------------------------------------------------------------- one run

  /** The loop is about to assemble chunk k of the input. */
  ghost predicate AtChunk(plan: Plan, p: Progress, items: seq<Item>, n: nat, k: nat) {
    && Delivers(p.env.source, items) && p.env.position == Boundary(items, n, k)
    && p.chunkIndex == k && plan.budget.None? && plan.config.chunkSize == n > 0
    && plan.policies.skip.Some? == plan.config.skip.Some?
  }

  /** Everything before chunk f is checkpointed. */
  ghost predicate Behind(plan: Plan, p: Progress, items: seq<Item>, n: nat, f: nat) {
    p.context == p.env.context && ContextAt(plan.config, items, n, f, p.env.context) && DistinctKeys(plan.config)
  }

  /** From state `before`, about to assemble chunk f, the run logged `log` more and left the row `context`. */
  ghost predicate Advanced(plan: Plan, items: seq<Item>, n: nat, f: nat, before: Env, after: Env, log: seq<Event>) {
    && after.log == before.log + log
    && Segment(items, n, RuleOf(plan.config, before.processor), f, log)
    && ContextAt(plan.config, items, n, f + Saves(log), after.context)
    && Covers(Made(plan.config, before.processor), items, n, f, log, Lost(after.tally) - Lost(before.tally))
  }

  ghost function NewEvents(before: Env, after: Env): seq<Event> {
    if |before.log| <= |after.log| then after.log[|before.log|..] else []
  }

  /** What one pass over chunk f can do: stop with nothing, with a write, or with the chunk checkpointed; or go on. */
  ghost predicate PassAdvances(plan: Plan, items: seq<Item>, n: nat, f: nat, p: Progress, pass: Pass) {
    var log := NewEvents(p.env, pass.progress.env);
    && Advanced(plan, items, n, f, p.env, pass.progress.env, log)
    && match pass
       case Continues(p') =>
         && AtChunk(plan, p', items, n, f + 1) && Behind(plan, p', items, n, f + 1)
         && Saves(log) == 1 && EndsClean(log) && Boundary(items, n, f) < |items| && |log| <= 2
         && p'.env.processor == p.env.processor
       case Stops(p', Ok(_)) => log == [] && Boundary(items, n, f) == |items|
       case Stops(p', Thrown(_)) => true
  }

  lemma NoEvents(plan: Plan, items: seq<Item>, n: nat, f: nat, before: Env, after: Env)
    requires after.log == before.log && after.context == before.context && ContextAt(plan.config, items, n, f, before.context)
    requires Lost(before.tally) <= Lost(after.tally)
    ensures NewEvents(before, after) == [] && Advanced(plan, items, n, f, before, after, [])
  {
    NothingCovers(Made(plan.config, before.processor), items, n, f, [], Lost(after.tally) - Lost(before.tally));
    assert before.log + [] == before.log;
  }

  lemma ChunkPassAdvances(plan: Plan, p: Progress, items: seq<Item>, n: nat, f: nat)
    requires AtChunk(plan, p, items, n, f) && Behind(plan, p, items, n, f)
    ensures PassAdvances(plan, items, n, f, p, ChunkPass(plan, p))
  {
    hide ReadItems, ProcessItems, WriteItems, CommitChunk, Boundary, ContextAt, Segment, DistinctKeys;
    BoundariesOrdered(items, n, f);
    var before := Listen(p.env);
    NoEvents(plan, items, n, f, p.env, before.env);
    if before.result.Ok? {
      ReadDelivers(plan, before.env, p.counters, [], 0, n, items);
      ReadFrames(plan, before.env, p.counters, [], 0, n);
      var r := ReadItems(plan, before.env, p.counters, [], 0, n);
      NoEvents(plan, items, n, f, p.env, r.env);
      if r.result.Ok? {
        assert r.items == Chunk(items, n, f);
        if |r.items| == 0 {
          NoEvents(plan, items, n, f, p.env, Listen(r.env).env);
        } else {
          StagesAdvance(plan, p, r, items, n, f);
        }
      }
    }
  }

  /** The stages after a successful read of chunk f. */
  lemma StagesAdvance(plan: Plan, p: Progress, r: ReadRun, items: seq<Item>, n: nat, f: nat)
    requires AtChunk(plan, p, items, n, f) && Behind(plan, p, items, n, f)
    requires Listen(p.env).result.Ok? && r == ReadItems(plan, Listen(p.env).env, p.counters, [], 0, n) && r.result.Ok?
    requires r.items == Chunk(items, n, f) && |r.items| > 0 && Boundary(items, n, f) < |items|
    requires r.env.source == p.env.source && r.env.processor == p.env.processor && r.env.position == Boundary(items, n, f + 1)
    requires r.env.log == p.env.log && r.env.context == p.env.context && Lost(r.env.tally) == Lost(p.env.tally)
    ensures PassAdvances(plan, items, n, f, p, ChunkPass(plan, p))
  {
    hide ReadItems, ProcessItems, WriteItems, CommitChunk, Boundary, Chunk, ContextAt, Segment, DistinctKeys;
    hide Subsequence, Outputs, Lost, Covers, Confirmed, Saves, EndsClean, Made, MadeOf, MayBePassed, ChunkWritten;
    ProcessFrames(plan, r.env, r.counters, r.items, 0, []);
    var q := ProcessItems(plan, r.env, r.counters, r.items, 0, []);
    NoEvents(plan, items, n, f, p.env, q.env);
    if q.result.Ok? {
      WriteFrames(plan, q.env, q.counters, f, r.items, q.outputs);
      var w := WriteItems(plan, q.env, q.counters, f, r.items, q.outputs);
      var rule := RuleOf(plan.config, p.env.processor);
      if rule.made.Some? {
        var added := ProcessMakes(plan, r.env, r.counters, r.items, 0, []);
        assert r.items[0..] == r.items && [] + added == added;
      }
      var written := if w.env.log == q.env.log then [] else [Wrote(f, r.items, q.outputs)];
      assert w.env.log == p.env.log + written;
      OutputsWritten(plan.policies, rule, items, n, f, q.outputs, w.env.log != q.env.log, Lost(q.env.tally) - Lost(r.env.tally), Lost(w.env.tally) - Lost(q.env.tally));
      WriteAdvances(plan, items, n, f, p.env, w.env, written);
      if w.result.Ok? {
        CommitAdvances(plan, p, w.env, items, n, f, written);
      }
    }
  }

  /** The outputs of chunk f, written or not, agree with what is made of the chunk. */
  lemma OutputsWritten(policies: PolicySet, rule: Rule, items: seq<Item>, n: nat, f: nat, outputs: seq<Item>, wrote: bool, x: int, y: int)
    requires rule.strict ==> policies.skip.None?
    requires rule.made.Some? ==> MadeOf(policies, outputs, Outputs(rule.made.value, Chunk(items, n, f)), x)
    requires 0 <= x && 0 <= y && (wrote ==> outputs != [])
    ensures wrote ==> ChunkWritten(items, n, rule, f, Wrote(f, Chunk(items, n, f), outputs))
    ensures !wrote && (policies.skip.None? ==> outputs == []) ==> MayBePassed(items, n, rule, f)
    ensures rule.made.Some? && (!wrote ==> |outputs| <= y) ==>
      |Outputs(rule.made.value, Chunk(items, n, f))| <= (if wrote then |outputs| else 0) + x + y
  {
    hide Boundary, Chunk, Subsequence, Outputs;
  }

  lemma WriteAdvances(plan: Plan, items: seq<Item>, n: nat, f: nat, before: Env, after: Env, written: seq<Event>)
    requires after.log == before.log + written && after.context == before.context && Lost(before.tally) <= Lost(after.tally)
    requires ContextAt(plan.config, items, n, f, before.context) && Boundary(items, n, f) < |items|
    requires written == [] || (|written| == 1 && ChunkWritten(items, n, RuleOf(plan.config, before.processor), f, written[0]))
    ensures NewEvents(before, after) == written && Advanced(plan, items, n, f, before, after, written)
    ensures Saves(written) == 0
  {
    hide Boundary, Chunk, ContextAt, Segment, Saves, Covers, Outputs, Confirmed;
    NothingCoversWrite(Made(plan.config, before.processor), items, n, f, written, Lost(after.tally) - Lost(before.tally));
    UnsavedWrite(items, n, RuleOf(plan.config, before.processor), f, written);
    assert after.log[|before.log|..] == written;
  }

  lemma NothingCoversWrite(made: Option<Processor>, items: seq<Item>, n: nat, f: nat, written: seq<Event>, lost: int)
    requires 0 <= lost && (written == [] || (|written| == 1 && written[0].Wrote?))
    ensures Covers(made, items, n, f, written, lost)
  {
    hide Covers, Outputs;
    if written != [] { assert Saves(written[1..]) == 0; }
    NothingCovers(made, items, n, f, written, lost);
  }

  lemma UnsavedWrite(items: seq<Item>, n: nat, rule: Rule, f: nat, written: seq<Event>)
    requires Boundary(items, n, f) < |items|
    requires written == [] || (|written| == 1 && ChunkWritten(items, n, rule, f, written[0]))
    ensures Segment(items, n, rule, f, written) && Saves(written) == 0
  {
    hide Boundary, Chunk;
    if written != [] { assert Saves(written[1..]) == 0; }
  }

  lemma CommitAdvances(plan: Plan, p: Progress, env: Env, items: seq<Item>, n: nat, f: nat, written: seq<Event>)
    requires AtChunk(plan, p, items, n, f) && Behind(plan, p, items, n, f) && Boundary(items, n, f) < |items|
    requires env.log == p.env.log + written && env.context == p.env.context
    requires env.source == p.env.source && env.processor == p.env.processor && env.position == Boundary(items, n, f + 1)
    requires written == [] || (|written| == 1 && ChunkWritten(items, n, RuleOf(plan.config, p.env.processor), f, written[0]))
    requires written == [] ==> MayBePassed(items, n, RuleOf(plan.config, p.env.processor), f)
    requires Lost(p.env.tally) <= Lost(env.tally)
    requires Made(plan.config, p.env.processor).Some? ==>
      |Outputs(Made(plan.config, p.env.processor).value, Chunk(items, n, f))|
      <= (if written == [] then 0 else |written[0].outputs|) + Lost(env.tally) - Lost(p.env.tally)
    ensures var c := CommitChunk(plan, env, p.context, f);
            var log := NewEvents(p.env, c.env);
            && Advanced(plan, items, n, f, p.env, c.env, log)
            && (c.result.Ok? ==> Saves(log) == 1 && EndsClean(log) && |log| <= 2
                                 && ContextAt(plan.config, items, n, f + 1, c.env.context) && c.result.value == c.env.context)
            && c.env.source == env.source && c.env.position == env.position && c.env.processor == env.processor
  {
    hide Boundary, Chunk, ContextAt, CommitChunk;
    CommitAccounts(plan, env, p.context, f);
    UpdateRecordsChunk(plan, env, p.context, f, items, n);
    var c := CommitChunk(plan, env, p.context, f);
    if c.env.log == env.log {
      WriteAdvances(plan, items, n, f, p.env, c.env, written);
    } else {
      var log := written + [Saved(f)];
      assert c.env.log == p.env.log + log;
      assert NewEvents(p.env, c.env) == log;
      SavesConcat(written, [Saved(f)]);
      assert Saves([Saved(f)]) == 1 by { assert Saves([Saved(f)][1..]) == 0; }
      WriteAdvances(plan, items, n, f, p.env, env, written);
      SegmentOfChunk(items, n, RuleOf(plan.config, p.env.processor), f, written);
      ChunkCovers(Made(plan.config, p.env.processor), items, n, f, written, Lost(env.tally) - Lost(p.env.tally));
    }
  }

  lemma ChunkCovers(made: Option<Processor>, items: seq<Item>, n: nat, f: nat, written: seq<Event>, lost: int)
    requires 0 <= lost && (written == [] || (|written| == 1 && written[0].Wrote?))
    requires made.Some? ==> |Outputs(made.value, Chunk(items, n, f))| <= (if written == [] then 0 else |written[0].outputs|) + lost
    ensures Covers(made, items, n, f, written + [Saved(f)], lost)
  {
    hide Boundary, Chunk, Outputs, Span;
    ChunkIsSpan(items, n, f);
    var log := written + [Saved(f)];
    if written == [] {
      assert log == [Saved(f)] && log[1..] == [];
    } else {
      assert log == [written[0], Saved(f)] && log[2..] == [] && log[1..] == [Saved(f)] && log[1..][1..] == [];
      assert Saves(log) == Saves(log[1..]) == 1;
      assert Confirmed(log) == written[0].outputs + Confirmed(log[2..]);
    }
  }

  lemma SegmentOfChunk(items: seq<Item>, n: nat, rule: Rule, f: nat, written: seq<Event>)
    requires Boundary(items, n, f) < |items|
    requires written == [] || (|written| == 1 && ChunkWritten(items, n, rule, f, written[0]))
    requires written == [] ==> MayBePassed(items, n, rule, f)
    ensures Segment(items, n, rule, f, written + [Saved(f)])
  {
    hide Boundary, Chunk;
    var log := written + [Saved(f)];
    if written == [] {
      assert log[0] == Saved(f) && log[1..] == [];
    } else {
      assert log[0] == written[0] && log[1] == Saved(f) && log[2..] == [];
    }
  }

  /** A checkpointed chunk followed by the rest of the run. */
  lemma SegmentJoins(items: seq<Item>, n: nat, rule: Rule, f: nat, a: seq<Event>, b: seq<Event>)
    requires Segment(items, n, rule, f, a) && Saves(a) == 1 && EndsClean(a) && |a| <= 2
    requires Segment(items, n, rule, f + 1, b)
    ensures Segment(items, n, rule, f, a + b)
    ensures Saves(a + b) == 1 + Saves(b)
  {
    hide Boundary, Chunk;
    SavesConcat(a, b);
    if |a| == 1 {
      assert (a + b)[1..] == b;
    } else {
      assert (a + b)[2..] == b && (a + b)[0] == a[0] && (a + b)[1] == a[1];
    }
  }

  /** The loop from chunk f on, with nothing left to drain. */
  lemma {:induction false} LoopAdvances(plan: Plan, p: Progress, items: seq<Item>, n: nat, f: nat)
    requires AtChunk(plan, p, items, n, f) && Behind(plan, p, items, n, f)
    requires plan.config.resume.Some? && plan.config.readerKey.None? ==> plan.config.resume.value < f
    ensures var l := Loop(plan, p);
            var log := NewEvents(p.env, l.progress.env);
            && Advanced(plan, items, n, f, p.env, l.progress.env, log)
            && (l.result.Ok? ==> EndsClean(log) && Boundary(items, n, f + Saves(log)) == |items|)
    decreases |p.env.source| - p.env.position
  {
    hide DrainPass, ChunkPass, Segment, ContextAt, Boundary, Saves, EndsClean, DistinctKeys, Delivers, Covers;
    NothingEndsClean();
    ChunkPassAdvances(plan, p, items, n, f);
    var pass := OnePass(plan, p);
    assert pass == ChunkPass(plan, p);
    match pass
    case Stops(p', result) =>
    case Continues(p') =>
      LoopAdvances(plan, p', items, n, f + 1);
      var end := Loop(plan, p').progress.env;
      var a := NewEvents(p.env, p'.env);
      var b := NewEvents(p'.env, end);
      SegmentJoins(items, n, RuleOf(plan.config, p.env.processor), f, a, b);
      CoversJoin(Made(plan.config, p.env.processor), items, n, RuleOf(plan.config, p.env.processor), f, a, b,
                 Lost(p'.env.tally) - Lost(p.env.tally), Lost(end.tally) - Lost(p'.env.tally));
      assert end.log == p.env.log + (a + b);
      assert NewEvents(p.env, end) == a + b;
      if EndsClean(b) { EndsCleanJoins(a, b); }
  }

  /** What a checkpointed chunk misses and what the rest of the run misses add up. */
  lemma CoversJoin(made: Option<Processor>, items: seq<Item>, n: nat, rule: Rule, f: nat, a: seq<Event>, b: seq<Event>, x: int, y: int)
    requires Segment(items, n, rule, f, a) && Saves(a) == 1 && EndsClean(a) && |a| <= 2
    requires Covers(made, items, n, f, a, x) && Covers(made, items, n, f + 1, b, y)
    ensures Covers(made, items, n, f, a + b, x + y)
  {
    hide Segment, Boundary, Outputs, Confirmed, Saves, Span, EndsClean;
    ConfirmedJoins(items, n, rule, f, a, b);
    SavesConcat(a, b);
    if made.Some? { SpanSplit(made.value, items, n, f, f + 1, f + 1 + Saves(b)); }
  }

  lemma ConfirmedJoins(items: seq<Item>, n: nat, rule: Rule, f: nat, a: seq<Event>, b: seq<Event>)
    requires Segment(items, n, rule, f, a) && Saves(a) == 1 && EndsClean(a) && |a| <= 2
    ensures Confirmed(a + b) == Confirmed(a) + Confirmed(b)
  {
    hide Boundary, Chunk, Outputs;
    var log := a + b;
    if a[0].Saved? {
      assert |a| == 1 by { if |a| == 2 { TwoSaves(a); } }
      assert log[0] == a[0] && log[1..] == b;
      SavedFirst(log);
      SavedFirst(a);
      assert a[1..] == [] && Confirmed([]) == [];
    } else {
      assert |a| == 2;
      assert log[0] == a[0] && log[1] == a[1] && log[2..] == b;
      WrittenFirst(log);
      WrittenFirst(a);
      assert a[2..] == [] && Confirmed([]) == [];
    }
  }

  lemma TwoSaves(a: seq<Event>)
    requires |a| == 2 && a[0].Saved? && EndsClean(a)
    ensures Saves(a) == 2
  {
    assert a[1..][1..] == [];
    assert Saves(a[1..]) == 1;
  }

  lemma NothingEndsClean()
    ensures EndsClean([]) && Saves([]) == 0
  {
  }

  lemma EndsCleanJoins(a: seq<Event>, b: seq<Event>)
    requires EndsClean(a) && EndsClean(b)
    ensures EndsClean(a + b)
  {
    if b == [] { assert a + b == a; }
  }

  /**
   * A plain reader is drained from the start of the input to exactly the first chunk not yet checkpointed, and
   * the loop goes on from there, nothing being logged or saved on the way.
   */
  lemma {:induction false} DrainReaches(plan: Plan, p: Progress, items: seq<Item>, n: nat, k: nat, f: nat) returns (q: Progress)
    requires AtChunk(plan, p, items, n, k) && Behind(plan, p, items, n, f) && k <= f
    requires plan.config.readerKey.None? && plan.config.resume == (if f == 0 then None else Some(f - 1))
    requires f > 0 ==> Boundary(items, n, f - 1) < |items|
    ensures AtChunk(plan, q, items, n, f) && Behind(plan, q, items, n, f) && q.env.position == Boundary(items, n, f)
    ensures Loop(plan, p) == Loop(plan, q)
    ensures q.env.log == p.env.log && q.env.processor == p.env.processor && Lost(q.env.tally) == Lost(p.env.tally)
    decreases f - k
  {
    hide ChunkPass, Segment, ContextAt, Boundary;
    if k == f {
      q := p;
    } else {
      BoundariesOrdered(items, n, k);
      BoundaryMonotone(items, n, k, f - 1);
      DrainDelivers(p.env, n, 0, items);
      var p' := OnePass(plan, p).progress;
      assert OnePass(plan, p) == DrainPass(plan, p);
      assert OnePass(plan, p).Continues?;
      q := DrainReaches(plan, p', items, n, k + 1, f);
    }
  }

  lemma BoundaryMonotone(items: seq<Item>, n: nat, j: nat, k: nat)
    requires j <= k
    ensures Boundary(items, n, j) <= Boundary(items, n, k)
  {
    assert j * n <= k * n by { assert (k - j) * n >= 0; assert k * n == j * n + (k - j) * n; }
  }

  // ---------------------------------------------------------------- restarts

  /** The preconditions on the step: positive chunk size, no partition, checkpoint keys that do not collide. */
  ghost predicate Restartable(config: StepConfig) {
    config.chunkSize > 0 && config.partition.None? && DistinctKeys(config)
  }

  /** A run against a row that says f chunks are behind: chunk f - 1 existed. */
  ghost predicate RowAt(config: StepConfig, items: seq<Item>, f: nat, context: Json) {
    && Restartable(config) && ContextAt(config, items, config.chunkSize, f, context)
    && (f > 0 ==> Boundary(items, config.chunkSize, f - 1) < |items|)
  }

  /** JobExecutor's restart: the failed execution's row is copied, its chunk index passed on, the reader new. */
  ghost function Resume(config: StepConfig, items: seq<Item>, processor: Option<Processor>, script: seq<Reply>, context: Json): StepRun {
    RunStep(config.(resume := ReadLastCheckpoint(context)), Start(Source(items), processor, script, context))
  }

  /** What a run from chunk f logs and leaves behind. */
  ghost predicate Leaves(config: StepConfig, items: seq<Item>, processor: Option<Processor>, f: nat, env: Env)
    requires config.chunkSize > 0
  {
    && Segment(items, config.chunkSize, RuleOf(config, processor), f, env.log)
    && ContextAt(config, items, config.chunkSize, f + Saves(env.log), env.context)
    && Covers(Made(config, processor), items, config.chunkSize, f, env.log, Lost(env.tally))
  }

  /** The end of a run that completes: all of the input is behind it. */
  ghost predicate AllBehind(config: StepConfig, items: seq<Item>, f: nat, env: Env)
    requires config.chunkSize > 0
  {
    EndsClean(env.log) && Boundary(items, config.chunkSize, f + Saves(env.log)) == |items|
  }

  ghost predicate RunAdvances(config: StepConfig, items: seq<Item>, processor: Option<Processor>, f: nat, run: StepRun)
    requires config.chunkSize > 0
  {
    && Leaves(config, items, processor, f, run.env)
    && (CompletedRun(run) ==> AllBehind(config, items, f, run.env))
  }

  ghost predicate TryLeaves(config: StepConfig, items: seq<Item>, processor: Option<Processor>, f: nat, t: TryRun)
    requires config.chunkSize > 0
  {
    && Leaves(config, items, processor, f, t.env)
    && (t.result.Ok? ==> AllBehind(config, items, f, t.env))
  }

  /** The loop of a run whose streams are open: a plain reader is at the start, a stream reader at chunk f. */
  lemma OpenedAdvances(plan: Plan, p: Progress, items: seq<Item>, f: nat)
    requires plan.config.chunkSize > 0 && AtChunk(plan, p, items, plan.config.chunkSize, if plan.config.readerKey.Some? then f else 0)
    requires Behind(plan, p, items, plan.config.chunkSize, f) && p.env.log == [] && Lost(p.env.tally) == 0
    requires plan.config.resume == (if f == 0 then None else Some(f - 1))
    requires f > 0 ==> Boundary(items, plan.config.chunkSize, f - 1) < |items|
    ensures var l := Loop(plan, p);
            && Leaves(plan.config, items, p.env.processor, f, l.progress.env)
            && (l.result.Ok? ==> AllBehind(plan.config, items, f, l.progress.env))
  {
    hide Loop, Segment, Boundary, Covers, ContextAt, Delivers, DistinctKeys, Saves, EndsClean, Lost;
    var n := plan.config.chunkSize;
    var q := p;
    if plan.config.readerKey.None? {
      q := DrainReaches(plan, p, items, n, 0, f);
    }
    LoopAdvances(plan, q, items, n, f);
    var l := Loop(plan, p);
    assert l.progress.env.log == NewEvents(q.env, l.progress.env);
  }

  lemma TryAdvances(plan: Plan, env: Env, items: seq<Item>, f: nat)
    requires RowAt(plan.config, items, f, env.context) && plan.config.resume == ReadLastCheckpoint(env.context)
    requires Delivers(env.source, items) && env.position == 0 && env.log == [] && plan.budget.None? && Lost(env.tally) == 0
    requires plan.policies.skip.Some? == plan.config.skip.Some?
    ensures TryLeaves(plan.config, items, env.processor, f, Try(plan, env))
  {
    hide OpenAll, AfterLoop, Loop, Boundary, Leaves, AllBehind, DistinctKeys, Delivers, Lost;
    OpenAllKeepsBooks(plan, env);
    var o := OpenAll(plan, env);
    var n := plan.config.chunkSize;
    NothingLeaves(plan.config, items, env.processor, f, env);
    SameLeaves(plan.config, items, env.processor, f, env, o.env);
    if o.result.Ok? {
      OpenPosition(plan, env);
      BoundariesOrdered(items, n, f);
      BoundariesOrdered(items, n, 0);
      var p := Progress(o.env, NO_COUNTERS, FirstChunk(plan.config), o.env.context);
      OpenedAdvances(plan, p, items, f);
      var l := Loop(plan, p);
      AfterLoopKeepsBooks(l, |o.ready|);
      AfterLoopOk(l, |o.ready|);
      SameEnd(plan.config, items, env.processor, f, l.progress.env, AfterLoop(l, |o.ready|).env);
    }
  }

  lemma SameEnd(config: StepConfig, items: seq<Item>, processor: Option<Processor>, f: nat, before: Env, after: Env)
    requires config.chunkSize > 0 && Leaves(config, items, processor, f, before) && SameBooks(before, after)
    ensures Leaves(config, items, processor, f, after)
    ensures AllBehind(config, items, f, before) ==> AllBehind(config, items, f, after)
  {
    hide Segment, Covers, Boundary, ContextAt;
  }

  lemma EmptySegment(items: seq<Item>, n: nat, rule: Rule, f: nat)
    ensures Segment(items, n, rule, f, []) && Saves([]) == 0
  {
  }

  lemma AfterLoopOk(l: LoopRun, open: nat)
    ensures AfterLoop(l, open).result.Ok? ==> l.result.Ok?
  {
    hide CloseStreams;
  }

  /** After opening, a stream reader stands where it checkpointed, a plain reader where it was. */
  lemma OpenPosition(plan: Plan, env: Env)
    requires OpenAll(plan, env).result.Ok?
    ensures OpenAll(plan, env).env.position ==
            (if plan.config.readerKey.None? then env.position
             else Max(0, ReadCheckpointNumber(env.context, plan.config.readerKey.value, "offset", 0)))
  {
    hide ReadCheckpointNumber;
    var loaded := Call(Call(env).env);
    var streams := Streams(plan.config);
    if |streams| > 0 {
      var a := OpenStream(loaded.env, streams[0], loaded.env.context);
      assert [] + [streams[0]] == [streams[0]];
      assert OpenAll(plan, env) == OpenStreams(a.env, streams, [streams[0]], loaded.env.context);
      if |streams| > 1 {
        var b := OpenStream(a.env, streams[1], loaded.env.context);
        assert OpenAll(plan, env) == OpenStreams(b.env, streams, [streams[0]] + [streams[1]], loaded.env.context);
        assert OpenAll(plan, env).env == b.env;
      } else {
        assert OpenAll(plan, env).env == a.env;
      }
    }
  }

  lemma PlannedAdvances(plan: Plan, env: Env, items: seq<Item>, f: nat)
    requires RowAt(plan.config, items, f, env.context) && plan.config.resume == ReadLastCheckpoint(env.context)
    requires Delivers(env.source, items) && env.position == 0 && env.log == [] && plan.budget.None? && Lost(env.tally) == 0
    requires plan.policies.skip.Some? == plan.config.skip.Some?
    ensures RunAdvances(plan.config, items, env.processor, f, RunPlanned(plan, env))
  {
    hide *;
    ListenFrames(env);
    var before := Listen(env).env;
    PlannedUnfold(plan, env);
    NothingLeaves(plan.config, items, env.processor, f, env);
    SameLeaves(plan.config, items, env.processor, f, env, before);
    if Listen(env).result.Ok? {
      TryAdvances(plan, before, items, f);
      ConcludeAdvances(plan.config, items, env.processor, f, Try(plan, before));
    } else {
      NoCompletion(plan.config, items, env.processor, f, before, Listen(env).result.error);
    }
  }

  lemma PlannedUnfold(plan: Plan, env: Env)
    ensures var before := Listen(env);
      RunPlanned(plan, env) == if before.result.Thrown? then StepRun(before.env, Propagated(before.result.error))
                               else Conclude(Try(plan, before.env))
  {
  }

  lemma NoCompletion(config: StepConfig, items: seq<Item>, processor: Option<Processor>, f: nat, env: Env, error: Error)
    requires config.chunkSize > 0 && Leaves(config, items, processor, f, env)
    ensures RunAdvances(config, items, processor, f, StepRun(env, Propagated(error)))
  {
    hide Leaves;
  }

  lemma ConcludeAdvances(config: StepConfig, items: seq<Item>, processor: Option<Processor>, f: nat, t: TryRun)
    requires config.chunkSize > 0 && TryLeaves(config, items, processor, f, t)
    ensures RunAdvances(config, items, processor, f, Conclude(t))
  {
    hide Catch, Leaves, AllBehind;
    if t.result.Thrown? {
      CatchKeepsBooks(t, t.result.error);
      CatchFails(t, t.result.error);
      SameLeaves(config, items, processor, f, t.env, Catch(t, t.result.error).env);
    }
  }

  lemma NothingLeaves(config: StepConfig, items: seq<Item>, processor: Option<Processor>, f: nat, env: Env)
    requires RowAt(config, items, f, env.context) && env.log == [] && Lost(env.tally) == 0
    ensures config.chunkSize > 0 && Leaves(config, items, processor, f, env)
  {
    hide Boundary, Covers;
    EmptySegment(items, config.chunkSize, RuleOf(config, processor), f);
    NothingCovers(Made(config, processor), items, config.chunkSize, f, [], 0);
  }

  lemma SameLeaves(config: StepConfig, items: seq<Item>, processor: Option<Processor>, f: nat, before: Env, after: Env)
    requires config.chunkSize > 0 && Leaves(config, items, processor, f, before)
    requires after.log == before.log && after.context == before.context && after.tally == before.tally
    ensures Leaves(config, items, processor, f, after)
  {
  }

  lemma PlanOf(config: StepConfig)
    requires config.partition.None? && MakePlan(config).Ok?
    ensures var plan := MakePlan(config).value;
            plan.config == config && plan.budget.None? && plan.policies.skip.Some? == config.skip.Some?
  {
  }

  lemma ResumeAdvances(config: StepConfig, items: seq<Item>, processor: Option<Processor>, script: seq<Reply>, context: Json, f: nat)
    requires RowAt(config, items, f, context)
    ensures config.chunkSize > 0 && RunAdvances(config, items, processor, f, Resume(config, items, processor, script, context))
  {
    var config' := config.(resume := ReadLastCheckpoint(context));
    var env := Start(Source(items), processor, script, context);
    hide *;
    ResumeUnfold(config, items, processor, script, context);
    NewEnv(items, processor, script, context);
    NothingLeaves(config, items, processor, f, env);
    NoPartition(config, items, f, context);
    if MakePlan(config').Ok? {
      PlanOf(config');
      var plan := MakePlan(config').value;
      RowIgnoresResume(config, items, processor, f, context, RunPlanned(plan, env));
      PlannedAdvances(plan, env, items, f);
    } else {
      NoCompletion(config, items, processor, f, env, MakePlan(config').error);
    }
  }

  lemma NoPartition(config: StepConfig, items: seq<Item>, f: nat, context: Json)
    requires RowAt(config, items, f, context)
    ensures config.partition.None?
  {
  }

  lemma ResumeUnfold(config: StepConfig, items: seq<Item>, processor: Option<Processor>, script: seq<Reply>, context: Json)
    ensures var config' := config.(resume := ReadLastCheckpoint(context));
      var env := Start(Source(items), processor, script, context);
      Resume(config, items, processor, script, context)
      == if MakePlan(config').Thrown? then StepRun(env, Propagated(MakePlan(config').error)) else RunPlanned(MakePlan(config').value, env)
  {
    hide MakePlan, RunPlanned;
  }

  lemma NewEnv(items: seq<Item>, processor: Option<Processor>, script: seq<Reply>, context: Json)
    ensures Delivers(Start(Source(items), processor, script, context).source, items)
    ensures Start(Source(items), processor, script, context).position == 0
    ensures Start(Source(items), processor, script, context).log == []
    ensures Start(Source(items), processor, script, context).context == context
    ensures Start(Source(items), processor, script, context).processor == processor
    ensures Lost(Start(Source(items), processor, script, context).tally) == 0
  {
    hide Source, Delivers;
  }

  /** The chunk index passed on with the step changes nothing of what is asked of a row or left in it. */
  lemma RowIgnoresResume(config: StepConfig, items: seq<Item>, processor: Option<Processor>, f: nat, context: Json, run: StepRun)
    requires config.chunkSize > 0
    ensures var config' := config.(resume := ReadLastCheckpoint(context));
      && (RowAt(config, items, f, context) ==> RowAt(config', items, f, context))
      && (RunAdvances(config', items, processor, f, run) <==> RunAdvances(config, items, processor, f, run))
  {
    hide Segment, Covers, Boundary;
  }

  lemma CatchFails(t: TryRun, error: Error)
    ensures !CompletedRun(Catch(t, error))
  {
    hide CloseStreams;
  }

  /** Run after run: a completed step is not restarted. */
  ghost function Restarts(config: StepConfig, items: seq<Item>, processor: Option<Processor>, scripts: seq<seq<Reply>>, context: Json): seq<StepRun>
    decreases |scripts|
  {
    if scripts == [] then [] else
    var run := Resume(config, items, processor, scripts[0], context);
    [run] + (if CompletedRun(run) then [] else Restarts(config, items, processor, scripts[1..], run.env.context))
  }

  ghost function Logs(runs: seq<StepRun>): seq<seq<Event>> {
    if runs == [] then [] else [runs[0].env.log] + Logs(runs[1..])
  }

  /** Segment follows segment, each starting at the first chunk not yet checkpointed. */
  ghost predicate History(items: seq<Item>, n: nat, rule: Rule, f: nat, logs: seq<seq<Event>>)
    decreases |logs|
  {
    logs == [] || (Segment(items, n, rule, f, logs[0]) && History(items, n, rule, f + Saves(logs[0]), logs[1..]))
  }

  ghost function AllSaves(logs: seq<seq<Event>>): nat {
    if logs == [] then 0 else Saves(logs[0]) + AllSaves(logs[1..])
  }

  ghost predicate EndsCompleted(runs: seq<StepRun>) {
    |runs| > 0 && CompletedRun(runs[|runs| - 1])
  }

  lemma {:induction false} RestartsFrom(config: StepConfig, items: seq<Item>, processor: Option<Processor>, scripts: seq<seq<Reply>>, context: Json, f: nat)
    requires config.chunkSize > 0 && RowAt(config, items, f, context)
    ensures var runs := Restarts(config, items, processor, scripts, context);
            && History(items, config.chunkSize, RuleOf(config, processor), f, Logs(runs))
            && (EndsCompleted(runs) ==>
                && Boundary(items, config.chunkSize, f + AllSaves(Logs(runs))) == |items|
                && EndsClean(runs[|runs| - 1].env.log))
    decreases |scripts|
  {
    hide Resume, Segment, Boundary, ContextAt, RowAt, Restartable, Saves, EndsClean, CompletedRun, Logs, History, AllSaves;
    NoRuns(items, config.chunkSize, RuleOf(config, processor), f);
    if scripts != [] {
      var run := Resume(config, items, processor, scripts[0], context);
      ResumeAdvances(config, items, processor, scripts[0], context, f);
      var rest := if CompletedRun(run) then [] else Restarts(config, items, processor, scripts[1..], run.env.context);
      if !CompletedRun(run) {
        NextRow(config, items, processor, f, context, run);
        RestartsFrom(config, items, processor, scripts[1..], run.env.context, f + Saves(run.env.log));
      } else {
        NoRuns(items, config.chunkSize, RuleOf(config, processor), f + Saves(run.env.log));
      }
      RunThenRest(items, config.chunkSize, RuleOf(config, processor), f, run, rest);
    }
  }

  lemma NoRuns(items: seq<Item>, n: nat, rule: Rule, f: nat)
    ensures Logs([]) == [] && History(items, n, rule, f, []) && AllSaves([]) == 0
  {
  }

  lemma RunThenRest(items: seq<Item>, n: nat, rule: Rule, f: nat, run: StepRun, rest: seq<StepRun>)
    ensures var runs := [run] + rest;
      && runs[|runs| - 1] == (if rest == [] then run else rest[|rest| - 1])
      && AllSaves(Logs(runs)) == Saves(run.env.log) + AllSaves(Logs(rest))
      && (History(items, n, rule, f, Logs(runs)) <==>
          Segment(items, n, rule, f, run.env.log) && History(items, n, rule, f + Saves(run.env.log), Logs(rest)))
  {
    hide Segment, Saves;
    assert ([run] + rest)[1..] == rest;
    var logs := [run.env.log] + Logs(rest);
    assert Logs([run] + rest) == logs && logs[1..] == Logs(rest);
  }

  /** The row a run leaves is the row the next one starts from. */
  lemma NextRow(config: StepConfig, items: seq<Item>, processor: Option<Processor>, f: nat, context: Json, run: StepRun)
    requires config.chunkSize > 0 && RowAt(config, items, f, context) && RunAdvances(config, items, processor, f, run)
    ensures RowAt(config, items, f + Saves(run.env.log), run.env.context)
  {
    hide Boundary, ContextAt;
    SavedChunksExist(items, config.chunkSize, RuleOf(config, processor), f, run.env.log);
  }

  lemma {:induction false} SavedChunksExist(items: seq<Item>, n: nat, rule: Rule, f: nat, log: seq<Event>)
    requires Segment(items, n, rule, f, log)
    ensures Saves(log) > 0 ==> Boundary(items, n, f + Saves(log) - 1) < |items|
    decreases |log|
  {
    hide Boundary, Chunk;
    if log != [] {
      var k := if log[0].Saved? then 1 else 2;
      if |log| >= k {
        if k == 2 { assert log[1..][1..] == log[2..]; assert Saves(log) == Saves(log[1..]); }
        assert Saves(log) == 1 + Saves(log[k..]);
        SavedChunksExist(items, n, rule, f + 1, log[k..]);
      } else {
        assert Saves(log[1..]) == 0;
      }
    }
  }

  lemma FreshRow(config: StepConfig, items: seq<Item>)
    requires Restartable(config)
    ensures RowAt(config, items, 0, JNull)
  {
    BoundariesOrdered(items, config.chunkSize, 0);
  }

  /** The row that a step's last run left, or the one it was given if it never ran. */
  ghost function RowLeft(runs: seq<StepRun>, context: Json): Json {
    if runs == [] then context else runs[|runs| - 1].env.context
  }

  /** After any number of runs the row says how many chunks are behind, and a stream reader's position with them. */
  lemma {:induction false} RestartsLeave(config: StepConfig, items: seq<Item>, processor: Option<Processor>, scripts: seq<seq<Reply>>, context: Json, f: nat)
    requires config.chunkSize > 0 && RowAt(config, items, f, context)
    ensures var runs := Restarts(config, items, processor, scripts, context);
      RowAt(config, items, f + AllSaves(Logs(runs)), RowLeft(runs, context))
    decreases |scripts|
  {
    hide Resume, RunAdvances, RowAt, Saves, CompletedRun, Logs, AllSaves;
    NoRuns(items, config.chunkSize, RuleOf(config, processor), f);
    if scripts != [] {
      var run := Resume(config, items, processor, scripts[0], context);
      ResumeAdvances(config, items, processor, scripts[0], context, f);
      NextRow(config, items, processor, f, context, run);
      var g := f + Saves(run.env.log);
      var rest := if CompletedRun(run) then [] else Restarts(config, items, processor, scripts[1..], run.env.context);
      if !CompletedRun(run) {
        RestartsLeave(config, items, processor, scripts[1..], run.env.context, g);
      }
      RunThenRest(items, config.chunkSize, RuleOf(config, processor), f, run, rest);
    }
  }

  // ---------------------------------------------------------------- what the history means

  ghost function Flatten(logs: seq<seq<Event>>): seq<Event> {
    if logs == [] then [] else logs[0] + Flatten(logs[1..])
  }

  /** The i-th event is about the first chunk not yet checkpointed when it happened. */
  ghost predicate InPlace(items: seq<Item>, n: nat, f: nat, log: seq<Event>, i: nat)
    requires i < |log|
  {
    var next := f + Saves(log[..i]);
    log[i].chunk == next && (log[i].Wrote? ==> log[i].items == Chunk(items, n, next))
  }

  ghost predicate InOrder(items: seq<Item>, n: nat, f: nat, log: seq<Event>) {
    forall i: nat | i < |log| :: InPlace(items, n, f, log, i)
  }

  lemma {:induction false} SegmentInOrder(items: seq<Item>, n: nat, rule: Rule, f: nat, log: seq<Event>)
    requires Segment(items, n, rule, f, log)
    ensures InOrder(items, n, f, log)
    decreases |log|
  {
    hide Boundary, Chunk;
    if log != [] {
      var k := if log[0].Saved? then 1 else 2;
      if |log| >= k {
        SegmentInOrder(items, n, rule, f + 1, log[k..]);
        forall i: nat | i < |log| ensures InPlace(items, n, f, log, i) {
          PrefixSaves(log, i, k);
          if i >= k {
            assert InPlace(items, n, f + 1, log[k..], i - k);
            assert log[i] == log[k..][i - k];
          }
        }
      } else {
        assert log[..0] == [];
      }
    }
  }

  lemma PrefixSaves(log: seq<Event>, i: nat, k: nat)
    requires 1 <= k <= 2 && k <= |log| && i < |log|
    requires if k == 1 then log[0].Saved? else log[0].Wrote? && log[1].Saved?
    ensures Saves(log[..i]) == (if i < k then 0 else 1 + Saves(log[k..][..i - k]))
  {
    if i == 1 {
      assert log[..1] == [log[0]] && [log[0]][1..] == [];
      if k == 1 { assert log[k..][..0] == []; }
    } else if i > 1 {
      assert log[..i] == log[..k] + log[k..][..i - k];
      SavesConcat(log[..k], log[k..][..i - k]);
      assert log[..1] == [log[0]] && [log[0]][1..] == [];
      if k == 2 { assert log[..2] == [log[0]] + [log[1]]; SavesConcat([log[0]], [log[1]]); assert [log[1]][1..] == []; }
    }
  }

  lemma {:induction false} HistoryInOrder(items: seq<Item>, n: nat, rule: Rule, f: nat, logs: seq<seq<Event>>)
    requires History(items, n, rule, f, logs)
    ensures InOrder(items, n, f, Flatten(logs))
    decreases |logs|
  {
    hide Segment, InOrder, Saves;
    if logs == [] {
      NothingInOrder(items, n, f);
    } else {
      SegmentInOrder(items, n, rule, f, logs[0]);
      HistoryInOrder(items, n, rule, f + Saves(logs[0]), logs[1..]);
      InOrderJoins(items, n, f, logs[0], Flatten(logs[1..]));
    }
  }

  lemma NothingInOrder(items: seq<Item>, n: nat, f: nat)
    ensures InOrder(items, n, f, [])
  {
  }

  lemma InOrderJoins(items: seq<Item>, n: nat, f: nat, a: seq<Event>, b: seq<Event>)
    requires InOrder(items, n, f, a) && InOrder(items, n, f + Saves(a), b)
    ensures InOrder(items, n, f, a + b)
  {
    hide InPlace, Saves;
    forall i: nat | i < |a + b| ensures InPlace(items, n, f, a + b, i) {
      if i < |a| {
        InPlaceFirst(items, n, f, a, b, i);
      } else {
        InPlaceSecond(items, n, f, a, b, i - |a|);
      }
    }
  }

  lemma InPlaceFirst(items: seq<Item>, n: nat, f: nat, a: seq<Event>, b: seq<Event>, i: nat)
    requires i < |a| && InPlace(items, n, f, a, i)
    ensures InPlace(items, n, f, a + b, i)
  {
    hide Chunk, Saves;
    assert (a + b)[..i] == a[..i];
  }

  lemma InPlaceSecond(items: seq<Item>, n: nat, f: nat, a: seq<Event>, b: seq<Event>, i: nat)
    requires i < |b| && InPlace(items, n, f + Saves(a), b, i)
    ensures InPlace(items, n, f, a + b, |a| + i)
  {
    hide Chunk, Saves;
    assert (a + b)[..|a| + i] == a + b[..i];
    SavesConcat(a, b[..i]);
  }

  ghost function AllConfirmed(logs: seq<seq<Event>>): seq<Item> {
    if logs == [] then [] else Confirmed(logs[0]) + AllConfirmed(logs[1..])
  }

  /** Every output committed, confirmed or not. */
  ghost function Committed(log: seq<Event>): seq<Item> {
    if log == [] then [] else (if log[0].Wrote? then log[0].outputs else []) + Committed(log[1..])
  }

  /** What the confirmed writes hold: what is made of the chunks checkpointed, or part of it. */
  ghost predicate Holds(rule: Rule, outputs: seq<Item>, items: seq<Item>)
    requires rule.made.Some?
  {
    && Subsequence(outputs, Outputs(rule.made.value, items))
    && (rule.strict ==> outputs == Outputs(rule.made.value, items))
  }

  lemma HoldsNothing(rule: Rule, items: seq<Item>, n: nat, f: nat)
    requires rule.made.Some?
    ensures Holds(rule, [], Span(items, n, f, f))
  {
    NoOutputs(rule.made.value, items, Boundary(items, n, f));
  }

  lemma HoldsJoin(rule: Rule, a: seq<Item>, b: seq<Item>, items: seq<Item>, n: nat, f: nat, g: nat, h: nat)
    requires rule.made.Some? && f <= g <= h && Holds(rule, a, Span(items, n, f, g)) && Holds(rule, b, Span(items, n, g, h))
    ensures Holds(rule, a + b, Span(items, n, f, h))
  {
    hide Span, Outputs;
    var made := rule.made.value;
    PartsJoin(a, Outputs(made, Span(items, n, f, g)), b, Outputs(made, Span(items, n, g, h)));
    SpanSplit(made, items, n, f, g, h);
  }

  lemma {:induction false} ConfirmedIsMade(items: seq<Item>, n: nat, rule: Rule, f: nat, log: seq<Event>)
    requires Segment(items, n, rule, f, log) && rule.made.Some?
    ensures Holds(rule, Confirmed(log), Span(items, n, f, f + Saves(log)))
    decreases |log|
  {
    hide Boundary, Chunk, Span, Segment, Confirmed, Committed, Saves, Holds;
    if Unsaved(log) {
      UnsavedSegment(items, n, rule, f, log);
      HoldsNothing(rule, items, n, f);
    } else {
      var rest := AfterFirst(log);
      SavedSegment(items, n, rule, f, log);
      ConfirmedIsMade(items, n, rule, f + 1, rest);
      ChunkIsSpan(items, n, f);
      FirstHolds(items, n, rule, f, log);
      HoldsJoin(rule, FirstOutputs(log), Confirmed(rest), items, n, f, f + 1, f + Saves(log));
    }
  }

  /** Nothing, or a write alone. */
  ghost predicate Unsaved(log: seq<Event>) {
    log == [] || (|log| == 1 && !log[0].Saved?)
  }

  /** What follows the first chunk of a log. */
  ghost function AfterFirst(log: seq<Event>): (rest: seq<Event>)
    requires !Unsaved(log)
    ensures |rest| < |log|
  {
    if log[0].Saved? then log[1..] else log[2..]
  }

  ghost function FirstOutputs(log: seq<Event>): seq<Item>
    requires !Unsaved(log)
  {
    if log[0].Saved? then [] else log[0].outputs
  }

  lemma UnsavedSegment(items: seq<Item>, n: nat, rule: Rule, f: nat, log: seq<Event>)
    requires Segment(items, n, rule, f, log) && Unsaved(log)
    ensures Saves(log) == 0 && Confirmed(log) == []
    ensures if log == [] then EndsClean(log) && Committed(log) == [] else !EndsClean(log) && |Committed(log)| > 0
  {
    hide Boundary, Chunk, Outputs;
    if |log| == 1 {
      assert Saves(log[1..]) == 0;
      assert Committed(log) == log[0].outputs + Committed(log[1..]);
    }
  }

  lemma SavedSegment(items: seq<Item>, n: nat, rule: Rule, f: nat, log: seq<Event>)
    requires Segment(items, n, rule, f, log) && !Unsaved(log)
    ensures Segment(items, n, rule, f + 1, AfterFirst(log)) && Saves(log) == 1 + Saves(AfterFirst(log))
    ensures Confirmed(log) == FirstOutputs(log) + Confirmed(AfterFirst(log))
    ensures Committed(log) == FirstOutputs(log) + Committed(AfterFirst(log))
    ensures EndsClean(log) <==> EndsClean(AfterFirst(log))
  {
    hide Boundary, Chunk, Outputs, Saves, Confirmed, Committed, EndsClean;
    if log[0].Saved? { SavedFirst(log); } else { WrittenFirst(log); }
  }

  lemma FirstHolds(items: seq<Item>, n: nat, rule: Rule, f: nat, log: seq<Event>)
    requires Segment(items, n, rule, f, log) && !Unsaved(log) && rule.made.Some?
    ensures Holds(rule, FirstOutputs(log), Chunk(items, n, f))
  {
    hide Boundary, Chunk, Outputs;
  }

  lemma SavedFirst(log: seq<Event>)
    requires log != [] && log[0].Saved?
    ensures Saves(log) == 1 + Saves(log[1..]) && Confirmed(log) == [] + Confirmed(log[1..])
    ensures Committed(log) == [] + Committed(log[1..]) && (EndsClean(log) <==> EndsClean(log[1..]))
  {
  }

  lemma WrittenFirst(log: seq<Event>)
    requires |log| >= 2 && log[0].Wrote? && log[1].Saved?
    ensures Saves(log) == 1 + Saves(log[2..]) && Confirmed(log) == log[0].outputs + Confirmed(log[2..])
    ensures Committed(log) == log[0].outputs + Committed(log[2..]) && (EndsClean(log) <==> EndsClean(log[2..]))
  {
    WriteUnfold(log);
    SavedFirst(log[1..]);
    hide Saves, Confirmed, Committed;
    assert log[1..][1..] == log[2..];
  }

  lemma WriteUnfold(log: seq<Event>)
    requires |log| >= 2 && log[0].Wrote? && log[1].Saved?
    ensures Saves(log) == Saves(log[1..]) && Committed(log) == log[0].outputs + Committed(log[1..])
    ensures Confirmed(log) == log[0].outputs + Confirmed(log[2..])
  {
    hide EndsClean;
  }

  lemma {:induction false} HistoryHolds(items: seq<Item>, n: nat, rule: Rule, f: nat, logs: seq<seq<Event>>)
    requires History(items, n, rule, f, logs) && rule.made.Some?
    ensures Holds(rule, AllConfirmed(logs), Span(items, n, f, f + AllSaves(logs)))
    decreases |logs|
  {
    hide Boundary, Segment, Confirmed, Saves, Holds, Span;
    if logs == [] {
      HoldsNothing(rule, items, n, f);
    } else {
      ConfirmedIsMade(items, n, rule, f, logs[0]);
      var g := f + Saves(logs[0]);
      HistoryHolds(items, n, rule, g, logs[1..]);
      HoldsJoin(rule, Confirmed(logs[0]), AllConfirmed(logs[1..]), items, n, f, g, g + AllSaves(logs[1..]));
    }
  }

  lemma NoOutputs(made: Processor, items: seq<Item>, i: nat)
    requires i <= |items|
    ensures Outputs(made, items[i..i]) == []
  {
  }

  lemma OutputsSplit(made: Processor, items: seq<Item>, from: nat, mid: nat, to: nat)
    requires from <= mid <= to <= |items|
    ensures Outputs(made, items[from..mid]) + Outputs(made, items[mid..to]) == Outputs(made, items[from..to])
  {
    OutputsConcat(made, items[from..mid], items[mid..to]);
    assert items[from..to] == items[from..mid] + items[mid..to];
  }

  /** A run that ends between a write and its checkpoint commits more than it confirms, any other the same. */
  lemma {:induction false} UncleanRepeats(items: seq<Item>, n: nat, rule: Rule, f: nat, log: seq<Event>)
    requires Segment(items, n, rule, f, log)
    ensures |Committed(log)| >= |Confirmed(log)|
    ensures EndsClean(log) <==> |Committed(log)| == |Confirmed(log)|
    ensures EndsClean(log) ==> Committed(log) == Confirmed(log)
    decreases |log|
  {
    hide Boundary, Segment, Confirmed, Committed, Saves, EndsClean, Outputs;
    if Unsaved(log) {
      UnsavedSegment(items, n, rule, f, log);
    } else {
      SavedSegment(items, n, rule, f, log);
      UncleanRepeats(items, n, rule, f + 1, AfterFirst(log));
    }
  }

  lemma {:induction false} CleanHistoryCommits(items: seq<Item>, n: nat, rule: Rule, f: nat, logs: seq<seq<Event>>)
    requires History(items, n, rule, f, logs) && forall i :: 0 <= i < |logs| ==> EndsClean(logs[i])
    ensures Committed(Flatten(logs)) == AllConfirmed(logs)
    decreases |logs|
  {
    hide Boundary, Segment, Confirmed, Committed, EndsClean;
    if logs == [] {
      NothingCommitted();
    } else {
      UncleanRepeats(items, n, rule, f, logs[0]);
      assert forall i :: 0 <= i < |logs[1..]| ==> logs[1..][i] == logs[i + 1];
      CleanHistoryCommits(items, n, rule, f + Saves(logs[0]), logs[1..]);
      CommittedConcat(logs[0], Flatten(logs[1..]));
    }
  }

  lemma NothingCommitted()
    ensures Committed([]) == []
  {
  }

  lemma {:induction false} HistoryRepeats(items: seq<Item>, n: nat, rule: Rule, f: nat, logs: seq<seq<Event>>)
    requires History(items, n, rule, f, logs)
    ensures |Committed(Flatten(logs))| >= |AllConfirmed(logs)|
    ensures |Committed(Flatten(logs))| == |AllConfirmed(logs)| ==> forall i :: 0 <= i < |logs| ==> EndsClean(logs[i])
    decreases |logs|
  {
    hide Segment, Confirmed, Committed, EndsClean;
    if logs == [] {
      NothingCommitted();
    } else {
      UncleanRepeats(items, n, rule, f, logs[0]);
      HistoryRepeats(items, n, rule, f + Saves(logs[0]), logs[1..]);
      CommittedConcat(logs[0], Flatten(logs[1..]));
      if |Committed(Flatten(logs))| == |AllConfirmed(logs)| {
        forall i | 0 <= i < |logs| ensures EndsClean(logs[i]) {
          if i > 0 { assert logs[i] == logs[1..][i - 1]; }
        }
      }
    }
  }

  lemma {:induction false} CommittedConcat(a: seq<Event>, b: seq<Event>)
    ensures Committed(a + b) == Committed(a) + Committed(b)
  {
    if a == [] {
      assert a + b == b;
    } else {
      assert (a + b)[1..] == a[1..] + b;
      CommittedConcat(a[1..], b);
    }
  }

  // ---------------------------------------------------------------- what skips take away

  /** The items that skips took out of the outputs, over all runs. */
  ghost function TotalLost(runs: seq<StepRun>): nat {
    if runs == [] then 0 else Lost(runs[0].env.tally) + TotalLost(runs[1..])
  }

  ghost predicate AllCover(made: Processor, items: seq<Item>, n: nat, f: nat, logs: seq<seq<Event>>, lost: int) {
    |Outputs(made, Span(items, n, f, f + AllSaves(logs)))| <= |AllConfirmed(logs)| + lost
  }

  lemma CoverThenRest(made: Processor, items: seq<Item>, n: nat, f: nat, log: seq<Event>, logs: seq<seq<Event>>, x: int, y: int)
    requires Covers(Some(made), items, n, f, log, x) && AllCover(made, items, n, f + Saves(log), logs, y)
    ensures AllCover(made, items, n, f, [log] + logs, x + y)
  {
    hide Outputs, Span, Confirmed, Saves;
    assert ([log] + logs)[1..] == logs;
    SpanSplit(made, items, n, f, f + Saves(log), f + Saves(log) + AllSaves(logs));
  }

  lemma NoneCover(made: Processor, items: seq<Item>, n: nat, f: nat)
    ensures AllCover(made, items, n, f, [], 0)
  {
    NoOutputs(made, items, Boundary(items, n, f));
  }

  lemma {:induction false} RestartsCover(config: StepConfig, items: seq<Item>, processor: Option<Processor>, scripts: seq<seq<Reply>>, context: Json, f: nat)
    requires config.chunkSize > 0 && RowAt(config, items, f, context) && Made(config, processor).Some?
    ensures var runs := Restarts(config, items, processor, scripts, context);
      AllCover(Made(config, processor).value, items, config.chunkSize, f, Logs(runs), TotalLost(runs))
    decreases |scripts|
  {
    hide Resume, Segment, Boundary, ContextAt, RowAt, Restartable, Saves, EndsClean, CompletedRun, Logs, Covers, AllCover, TotalLost, Lost;
    var (made, n) := (Made(config, processor).value, config.chunkSize);
    NoRuns(items, n, RuleOf(config, processor), f);
    NothingLost();
    NoneCover(made, items, n, f);
    if scripts != [] {
      var run := Resume(config, items, processor, scripts[0], context);
      ResumeAdvances(config, items, processor, scripts[0], context, f);
      var g := f + Saves(run.env.log);
      var rest := if CompletedRun(run) then [] else Restarts(config, items, processor, scripts[1..], run.env.context);
      if !CompletedRun(run) {
        NextRow(config, items, processor, f, context, run);
        RestartsCover(config, items, processor, scripts[1..], run.env.context, g);
      } else {
        NoneCover(made, items, n, g);
      }
      LogsAndLost(run, rest);
      CoverThenRest(made, items, n, f, run.env.log, Logs(rest), Lost(run.env.tally), TotalLost(rest));
    }
  }

  lemma NothingLost()
    ensures TotalLost([]) == 0
  {
  }

  lemma LogsAndLost(run: StepRun, rest: seq<StepRun>)
    ensures Logs([run] + rest) == [run.env.log] + Logs(rest)
    ensures TotalLost([run] + rest) == Lost(run.env.tally) + TotalLost(rest)
  {
    assert ([run] + rest)[1..] == rest;
  }

  // ---------------------------------------------------------------- main results

  /**
   * Over any number of failed runs each followed by a restart, every write and every checkpoint concerns
   * the first chunk not yet checkpointed: checkpoints are 0, 1, 2, ... without gap or repetition, and a
   * chunk is written again only if no checkpoint followed its earlier write.  A step that completes has
   * passed every chunk of the input.
   */
  lemma RestartOrder(config: StepConfig, items: seq<Item>, processor: Option<Processor>, scripts: seq<seq<Reply>>)
    requires Restartable(config)
    ensures var logs := Logs(Restarts(config, items, processor, scripts, JNull));
            && InOrder(items, config.chunkSize, 0, Flatten(logs))
            && (EndsCompleted(Restarts(config, items, processor, scripts, JNull)) ==>
                Boundary(items, config.chunkSize, AllSaves(logs)) == |items|)
  {
    hide Restarts, History, Boundary, InOrder;
    FreshRow(config, items);
    RestartsFrom(config, items, processor, scripts, JNull, 0);
    HistoryInOrder(items, config.chunkSize, RuleOf(config, processor), 0, Logs(Restarts(config, items, processor, scripts, JNull)));
  }

  /**
   * At least once, for a step without a processor or with one that is a function of the item.  When the last run
   * completes, the writes that were followed by their checkpoint hold what the step makes of the input, in order,
   * but for what the skip policy took away: they are a part of it, no more is missing than process skips and
   * skipped writes account for, and without a skip policy nothing is.
   */
  lemma RestartDelivers(config: StepConfig, items: seq<Item>, processor: Option<Processor>, scripts: seq<seq<Reply>>)
    requires Restartable(config) && Made(config, processor).Some?
    requires EndsCompleted(Restarts(config, items, processor, scripts, JNull))
    ensures var runs := Restarts(config, items, processor, scripts, JNull);
      var (confirmed, all) := (AllConfirmed(Logs(runs)), Outputs(Made(config, processor).value, items));
      && Subsequence(confirmed, all) && |all| <= |confirmed| + TotalLost(runs)
      && (config.skip.None? ==> confirmed == all)
    ensures !config.hasProcessor ==> Outputs(Made(config, processor).value, items) == items
  {
    hide Restarts, History, Boundary, Outputs, AllConfirmed, AllSaves;
    var logs := Logs(Restarts(config, items, processor, scripts, JNull));
    FreshRow(config, items);
    RestartsFrom(config, items, processor, scripts, JNull, 0);
    RestartsCover(config, items, processor, scripts, JNull, 0);
    HistoryHolds(items, config.chunkSize, RuleOf(config, processor), 0, logs);
    BoundariesOrdered(items, config.chunkSize, 0);
    assert Span(items, config.chunkSize, 0, 0 + AllSaves(logs)) == items;
    if !config.hasProcessor { NothingMade(Made(config, processor).value, items); }
  }

  /**
   * Exactly once, for every step.  The outputs committed over all runs are the confirmed ones, none of them
   * committed twice, if and only if no run failed between the commit of a write and its checkpoint.
   */
  lemma RestartExactlyOnce(config: StepConfig, items: seq<Item>, processor: Option<Processor>, scripts: seq<seq<Reply>>)
    requires Restartable(config)
    ensures var logs := Logs(Restarts(config, items, processor, scripts, JNull));
      Committed(Flatten(logs)) == AllConfirmed(logs) <==> forall i :: 0 <= i < |logs| ==> EndsClean(logs[i])
  {
    hide Restarts, History, Boundary, Outputs;
    var logs := Logs(Restarts(config, items, processor, scripts, JNull));
    FreshRow(config, items);
    RestartsFrom(config, items, processor, scripts, JNull, 0);
    HistoryRepeats(items, config.chunkSize, RuleOf(config, processor), 0, logs);
    if forall i :: 0 <= i < |logs| ==> EndsClean(logs[i]) {
      CleanHistoryCommits(items, config.chunkSize, RuleOf(config, processor), 0, logs);
    }
  }

  /**
   * Without a skip policy therefore: what a completed step committed over all its runs is exactly what it makes
   * of its input, in order and without repetition, if and only if no run failed in that window.
   */
  lemma RestartDeliversExactlyOnce(config: StepConfig, items: seq<Item>, processor: Option<Processor>, scripts: seq<seq<Reply>>)
    requires Restartable(config) && Made(config, processor).Some? && config.skip.None?
    requires EndsCompleted(Restarts(config, items, processor, scripts, JNull))
    ensures var logs := Logs(Restarts(config, items, processor, scripts, JNull));
            Committed(Flatten(logs)) == Outputs(Made(config, processor).value, items)
            <==> forall i :: 0 <= i < |logs| ==> EndsClean(logs[i])
  {
    hide Restarts, Outputs, Committed, Flatten, AllConfirmed, EndsClean;
    RestartDelivers(config, items, processor, scripts);
    RestartExactlyOnce(config, items, processor, scripts);
  }

  /**
   * The checkpoint never moves back: a restarted run leaves a chunk index at least as large as the one it
   * was given, even if it fails before it commits anything, and a stream reader's position moves with it.
   */
  lemma CheckpointNeverDecreases(config: StepConfig, items: seq<Item>, processor: Option<Processor>, script: seq<Reply>, context: Json, f: nat)
    requires RowAt(config, items, f, context)
    ensures var run := Resume(config, items, processor, script, context);
            var f' := f + Saves(run.env.log);
            && RowAt(config, items, f', run.env.context)
            && (ReadLastCheckpoint(context).Some? ==>
                && ReadLastCheckpoint(run.env.context).Some?
                && ReadLastCheckpoint(context).value <= ReadLastCheckpoint(run.env.context).value)
  {
    hide Resume, Boundary;
    ResumeAdvances(config, items, processor, script, context, f);
    NextRow(config, items, processor, f, context, Resume(config, items, processor, script, context));
  }
}
