/**
 * What the counters of a chunk step mean: conservation of items and the skip budget, for every run of
 * every step, whatever the components do (packages/core/src/execution/chunk-step-executor.ts:196-535).
 */
module ChunkAccounting {
  import opened Common
  import opened Checkpoint
  import opened Environment
  import opened Policies
  import opened PhaseRunner
  import opened ChunkStep
  import opened Statuses
  import opened ChunkFrames

  /** Skips the policy granted, over all phases. */
  ghost function Honoured(t: Tally): nat {
    t.readSkips + t.processSkips + t.writeSkips
  }

  /** Items whose fate is known: skipped or filtered by the processor, in a skipped write, in a committed write. */
  ghost function Settled(t: Tally): nat {
    t.processSkips + t.filtered + t.writeSkippedItems + t.handed
  }

  ghost predicate VoidWriter(t: Tally) {
    t.reports == 0
  }

  /** The limits hold: skips granted, the partition's share, and no report from a writer that made none. */
  ghost predicate WithinBudget(plan: Plan, t: Tally) {
    && Honoured(t) <= SkipLimit(plan.policies)
    && (plan.budget.Some? ==> t.delivered <= plan.budget.value)
    && (VoidWriter(t) ==> t.handed == t.voidOutputs && t.reportedWritten == 0 && t.reportedSkipped == 0)
  }

  /** The one event an error may leave in the books but not in the counters: its listener threw, or the read-back. */
  datatype Uncounted = NothingUncounted | ItemRead | ItemFiltered | WriteDone(written: nat, skipped: nat) | CheckpointSaved

  ghost predicate CountedBut(plan: Plan, c: Counters, t: Tally, u: Uncounted) {
    && c.read + (if u.ItemRead? then 1 else 0) == t.delivered >= Settled(t)
    && c.written + (if u.WriteDone? then u.written else 0) == t.voidOutputs + t.reportedWritten
    && c.skipped + (if u.ItemFiltered? then 1 else if u.WriteDone? then u.skipped else 0)
       == Honoured(t) + t.filtered + t.reportedSkipped
    && c.committed + (if u.CheckpointSaved? then 1 else 0) == t.saves
    && WithinBudget(plan, t)
  }

  /** The counters agree with the books, and all but `inFlight` delivered items are settled. */
  ghost predicate Exact(plan: Plan, c: Counters, t: Tally, inFlight: nat) {
    CountedBut(plan, c, t, NothingUncounted) && t.delivered == Settled(t) + inFlight
  }

  /** From t to t' at most so many items were delivered and so many outputs written, and no book ran backwards. */
  ghost predicate Moved(t: Tally, t': Tally, delivered: nat, handed: nat) {
    && t.delivered <= t'.delivered <= t.delivered + delivered
    && t.handed <= t'.handed <= t.handed + handed
    && Settled(t) <= Settled(t')
    && t.saves <= t'.saves
    && Grown(t, t')
  }

  /** Skips granted, items filtered and reports only add up, reports only with outputs written. */
  ghost predicate Grown(t: Tally, t': Tally) {
    && t.readSkips <= t'.readSkips && t.processSkips <= t'.processSkips && t.writeSkips <= t'.writeSkips
    && t.filtered <= t'.filtered && t.reportedSkipped <= t'.reportedSkipped
    && t.voidOutputs + t.reportedWritten <= t'.voidOutputs + t'.reportedWritten
    && (t.handed == t'.handed ==>
          t.voidOutputs + t.reportedWritten == t'.voidOutputs + t'.reportedWritten && t.reportedSkipped == t'.reportedSkipped)
  }

  /** The uncounted event happened between t and t'; an uncounted write is the only one, with what it wrote and reported. */
  ghost predicate Happened(t: Tally, t': Tally, u: Uncounted) {
    match u
    case NothingUncounted => true
    case ItemRead => t.delivered < t'.delivered
    case ItemFiltered => t.filtered < t'.filtered
    case WriteDone(written, skipped) =>
      && t.handed < t'.handed
      && t'.voidOutputs + t'.reportedWritten == t.voidOutputs + t.reportedWritten + written
      && t'.reportedSkipped == t.reportedSkipped + skipped
    case CheckpointSaved => t.saves < t'.saves
  }

  /**
   * A pass that an error cut short, from where it began: every counter is exact but for one event of this pass,
   * a missing write is the only one of the pass, and the items not settled were read in it, within its cap.
   */
  ghost predicate CutShort(plan: Plan, began: Progress, c: Counters, t: Tally) {
    && (exists u :: CountedBut(plan, c, t, u) && Happened(began.env.tally, t, u))
    && Exact(plan, began.counters, began.env.tally, 0)
    && Moved(began.env.tally, t, Max(0, Cap(plan, began.counters)), Max(0, Cap(plan, began.counters)))
    && t.saves <= began.env.tally.saves + 1
  }

  /** A part of a pass that wrote nothing, and what follows it. */
  lemma PartsMove(t: Tally, t': Tally, t'': Tally, delivered: nat, more: nat, handed: nat, u: Uncounted)
    requires Moved(t, t', delivered, 0) && Moved(t', t'', more, handed)
    ensures Moved(t, t'', delivered + more, handed)
    ensures Happened(t', t'', u) ==> Happened(t, t'', u)
  {
    hide Settled;
  }

  lemma NothingMoves(t: Tally)
    ensures forall delivered: nat, handed: nat :: Moved(t, t, delivered, handed)
    ensures Happened(t, t, NothingUncounted)
  {
    hide Settled;
  }

  /** The books after one read phase with `n` items in flight before it. */
  lemma ReadPhaseAccounts(plan: Plan, env: Env, c: Counters, r: PhaseResult, n: nat) returns (u: Uncounted)
    requires Exact(plan, c, env.tally, n) && Booked(plan.policies, Read, env, c.skipped, r)
    requires plan.budget.Some? ==> c.read < plan.budget.value
    ensures Moved(env.tally, r.env.tally, 1, 0) && r.env.tally.saves == env.tally.saves && !u.WriteDone? && Happened(env.tally, r.env.tally, u)
    ensures var c' := c.(skipped := r.skips);
      match r.outcome
      case Raised(_) => CountedBut(plan, c', r.env.tally, u)
      case Skipped => Exact(plan, c', r.env.tally, n) && r.env.tally.delivered == env.tally.delivered
      case Done(value) =>
        if value.ItemValue? then Exact(plan, c'.(read := c.read + 1), r.env.tally, n + 1)
        else Exact(plan, c', r.env.tally, n) && r.env.tally.delivered == env.tally.delivered
  {
    hide SkipLimit;
    u := if r.outcome.Raised? && r.env.tally.delivered > env.tally.delivered then ItemRead else NothingUncounted;
  }

  /** The books after one process phase with `n` items in flight before it. */
  lemma ProcessPhaseAccounts(plan: Plan, env: Env, c: Counters, op: Operation, r: PhaseResult, n: nat) returns (u: Uncounted)
    requires op.Process? && n > 0 && Exact(plan, c, env.tally, n) && Booked(plan.policies, op, env, c.skipped, r)
    ensures Moved(env.tally, r.env.tally, 0, 0) && r.env.tally.saves == env.tally.saves && !u.WriteDone? && Happened(env.tally, r.env.tally, u)
    ensures var c' := c.(skipped := r.skips);
      match r.outcome
      case Raised(_) => CountedBut(plan, c', r.env.tally, u)
      case Skipped => Exact(plan, c', r.env.tally, n - 1)
      case Done(value) =>
        if value.ItemValue? then Exact(plan, c', r.env.tally, n)
        else Exact(plan, c'.(skipped := r.skips + 1), r.env.tally, n - 1)
  {
    hide SkipLimit;
    u := if r.outcome.Raised? && r.env.tally.filtered > env.tally.filtered then ItemFiltered else NothingUncounted;
  }

  /** The books after one write phase. */
  lemma WritePhaseAccounts(plan: Plan, env: Env, c: Counters, op: Operation, r: PhaseResult) returns (u: Uncounted)
    requires op.Write? && op.outputs != [] && Exact(plan, c, env.tally, |op.outputs|)
    requires Booked(plan.policies, op, env, c.skipped, r)
    ensures Moved(env.tally, r.env.tally, 0, |op.outputs|) && r.env.tally.saves == env.tally.saves
    ensures Happened(env.tally, r.env.tally, u)
    ensures var c' := c.(skipped := r.skips);
      match r.outcome
      case Raised(_) => CountedBut(plan, c', r.env.tally, u)
      case Skipped => Exact(plan, c', r.env.tally, 0)
      case Done(value) =>
        if value.Report?
        then Exact(plan, c'.(written := c.written + value.written, skipped := r.skips + value.skipped), r.env.tally, 0)
        else Exact(plan, c'.(written := c.written + |op.outputs|), r.env.tally, 0)
  {
    hide SkipLimit;
    var (t, t') := (env.tally, r.env.tally);
    u := if r.outcome.Raised? && t'.handed > t.handed
         then WriteDone(t'.voidOutputs + t'.reportedWritten - t.voidOutputs - t.reportedWritten, t'.reportedSkipped - t.reportedSkipped)
         else NothingUncounted;
  }

  lemma {:induction false} ReadAccounts(plan: Plan, env: Env, c: Counters, items: seq<Item>, i: nat, cap: int) returns (u: Uncounted)
    requires Exact(plan, c, env.tally, |items|) && |items| <= i && (i == 0 || i <= cap)
    requires plan.budget.Some? && i < cap ==> c.read + cap - i <= plan.budget.value
    ensures var r := ReadItems(plan, env, c, items, i, cap);
            && (|r.items| == 0 || |r.items| <= cap)
            && Moved(env.tally, r.env.tally, Max(0, cap - i), 0) && r.env.tally.saves == env.tally.saves
            && r.counters.written == c.written && r.counters.committed == c.committed
            && |r.items| - |items| <= Max(0, cap - i)
            && (r.result.Ok? ==> Exact(plan, r.counters, r.env.tally, |r.items|))
            && (r.result.Thrown? ==> !u.WriteDone? && CountedBut(plan, r.counters, r.env.tally, u) && Happened(env.tally, r.env.tally, u))
    decreases cap - i
  {
    hide RunPhase, CountedBut, Booked, Logged, Moved, Happened;
    u := NothingUncounted;
    NothingMoves(env.tally);
    if i < cap {
      PhaseFacts(plan.policies, Read, env, c.skipped);
      var phase := RunPhase(plan.policies, Read, env, c.skipped);
      u := ReadPhaseAccounts(plan, env, c, phase, |items|);
      NothingMoves(phase.env.tally);
      var (next, c') := (phase.env.tally, c.(skipped := phase.skips));
      match phase.outcome
      case Raised(error) =>
        PartsMove(env.tally, next, next, 1, cap - i - 1, 0, u);
      case Skipped =>
        u := ReadAccounts(plan, phase.env, c', items, i + 1, cap);
        PartsMove(env.tally, next, ReadItems(plan, phase.env, c', items, i + 1, cap).env.tally, 1, cap - i - 1, 0, u);
      case Done(value) =>
        if value.ItemValue? {
          var c'' := c'.(read := c.read + 1);
          u := ReadAccounts(plan, phase.env, c'', items + [value.item], i + 1, cap);
          PartsMove(env.tally, next, ReadItems(plan, phase.env, c'', items + [value.item], i + 1, cap).env.tally, 1, cap - i - 1, 0, u);
        } else {
          PartsMove(env.tally, next, next, 1, cap - i - 1, 0, u);
        }
    }
  }

  lemma {:induction false} ProcessAccounts(plan: Plan, env: Env, c: Counters, items: seq<Item>, k: nat, outputs: seq<Item>)
    returns (u: Uncounted)
    requires k <= |items| && |outputs| <= k
    requires Exact(plan, c, env.tally, |outputs| + |items| - k)
    ensures var r := ProcessItems(plan, env, c, items, k, outputs);
            && |r.outputs| <= |items|
            && Moved(env.tally, r.env.tally, 0, 0) && r.env.tally.saves == env.tally.saves
            && r.counters.written == c.written && r.counters.committed == c.committed
            && (r.result.Ok? ==> Exact(plan, r.counters, r.env.tally, |r.outputs|))
            && (r.result.Thrown? ==> !u.WriteDone? && CountedBut(plan, r.counters, r.env.tally, u) && Happened(env.tally, r.env.tally, u))
    decreases |items| - k
  {
    hide RunPhase, CountedBut, Booked, Logged, Moved, Happened;
    u := NothingUncounted;
    NothingMoves(env.tally);
    if k < |items| {
      if !plan.config.hasProcessor {
        u := ProcessAccounts(plan, env, c, items, k + 1, outputs + [items[k]]);
      } else {
        var op := Process(items[k]);
        PhaseFacts(plan.policies, op, env, c.skipped);
        var phase := RunPhase(plan.policies, op, env, c.skipped);
        u := ProcessPhaseAccounts(plan, env, c, op, phase, |outputs| + |items| - k);
        var (next, c') := (phase.env.tally, c.(skipped := phase.skips));
        match phase.outcome
        case Raised(error) =>
        case Skipped =>
          u := ProcessAccounts(plan, phase.env, c', items, k + 1, outputs);
          PartsMove(env.tally, next, ProcessItems(plan, phase.env, c', items, k + 1, outputs).env.tally, 0, 0, 0, u);
        case Done(value) =>
          var c'' := if value.ItemValue? then c' else c'.(skipped := phase.skips + 1);
          var outputs' := if value.ItemValue? then outputs + [value.item] else outputs;
          u := ProcessAccounts(plan, phase.env, c'', items, k + 1, outputs');
          PartsMove(env.tally, next, ProcessItems(plan, phase.env, c'', items, k + 1, outputs').env.tally, 0, 0, 0, u);
      }
    }
  }

  lemma WriteAccounts(plan: Plan, env: Env, c: Counters, chunk: int, items: seq<Item>, outputs: seq<Item>) returns (u: Uncounted)
    requires Exact(plan, c, env.tally, |outputs|)
    ensures var r := WriteItems(plan, env, c, chunk, items, outputs);
            && Moved(env.tally, r.env.tally, 0, |outputs|) && r.env.tally.saves == env.tally.saves
            && r.counters.committed == c.committed
            && (r.result.Ok? ==> Exact(plan, r.counters, r.env.tally, 0))
            && (r.result.Thrown? ==> CountedBut(plan, r.counters, r.env.tally, u) && Happened(env.tally, r.env.tally, u))
  {
    hide RunPhase, CountedBut, Booked, Logged, Moved, Happened;
    u := NothingUncounted;
    NothingMoves(env.tally);
    if outputs != [] {
      var op := Write(chunk, items, outputs);
      PhaseFacts(plan.policies, op, env, c.skipped);
      u := WritePhaseAccounts(plan, env, c, op, RunPhase(plan.policies, op, env, c.skipped));
    }
  }

  lemma {:induction false} DrainAccounts(env: Env, cap: int, drained: nat)
    ensures var r := Drain(env, cap, drained);
            r.env.tally == env.tally.(drained := r.env.tally.drained) && r.env.log == env.log && r.env.context == env.context
    decreases cap - drained
  {
    if drained < cap {
      var a := DrainOne(env);
      if a.result.Ok? && a.result.value.Some? { DrainAccounts(a.env, cap, drained + 1); }
    }
  }

  /** One pass of the loop keeps the books exact, or ends the run with them cut short. */
  ghost predicate PassAccounted(plan: Plan, began: Progress, pass: Pass) {
    match pass
    case Continues(p) => Exact(plan, p.counters, p.env.tally, 0)
    case Stops(p, Ok(_)) => Exact(plan, p.counters, p.env.tally, 0)
    case Stops(p, Thrown(_)) => CutShort(plan, began, p.counters, p.env.tally)
  }

  lemma DrainPassAccounts(plan: Plan, p: Progress)
    requires Exact(plan, p.counters, p.env.tally, 0)
    ensures PassAccounted(plan, p, DrainPass(plan, p))
  {
    hide Drain;
    DrainAccounts(p.env, Cap(plan, p.counters), 0);
    var d := Drain(p.env, Cap(plan, p.counters), 0);
    assert CountedBut(plan, p.counters, d.env.tally, NothingUncounted);
  }

  lemma ChunkPassAccounts(plan: Plan, p: Progress)
    requires Exact(plan, p.counters, p.env.tally, 0)
    ensures PassAccounted(plan, p, ChunkPass(plan, p))
  {
    hide ReadItems, ProcessItems, WriteItems, CommitChunk, CountedBut;
    var cap := Cap(plan, p.counters);
    CapFits(plan, p.counters, p.env.tally);
    var before := Listen(p.env);
    if cap != 0 {
      NothingMissing(plan, p);
      if before.result.Ok? {
        var u := ReadAccounts(plan, before.env, p.counters, [], 0, cap);
        var r := ReadItems(plan, before.env, p.counters, [], 0, cap);
        if r.result.Ok? && |r.items| > 0 {
          StagesAccount(plan, p, r);
        }
      }
    }
  }

  /** A pass that has only read, or done nothing, is cut short with nothing missing. */
  lemma NothingMissing(plan: Plan, began: Progress)
    requires Exact(plan, began.counters, began.env.tally, 0)
    ensures CutShort(plan, began, began.counters, began.env.tally)
  {
  }

  /** Process, write and checkpoint the items read. */
  lemma StagesAccount(plan: Plan, p: Progress, r: ReadRun)
    requires Exact(plan, p.counters, p.env.tally, 0) && Exact(plan, r.counters, r.env.tally, |r.items|)
    requires 0 < |r.items| <= Max(0, Cap(plan, p.counters))
    requires Moved(p.env.tally, r.env.tally, Max(0, Cap(plan, p.counters)), 0) && r.env.tally.saves == p.env.tally.saves
    requires r.counters.written == p.counters.written && r.counters.committed == p.counters.committed
    requires Cap(plan, p.counters) != 0 && Listen(p.env).result.Ok?
    requires r == ReadItems(plan, Listen(p.env).env, p.counters, [], 0, Cap(plan, p.counters)) && r.result.Ok?
    ensures PassAccounted(plan, p, ChunkPass(plan, p))
  {
    hide ReadItems, ProcessItems, WriteItems, CommitChunk, CountedBut, Cap, Moved, Happened;
    var most := Max(0, Cap(plan, p.counters));
    var u := ProcessAccounts(plan, r.env, r.counters, r.items, 0, []);
    var q := ProcessItems(plan, r.env, r.counters, r.items, 0, []);
    PartsMove(p.env.tally, r.env.tally, q.env.tally, most, 0, 0, u);
    MoreHanded(p.env.tally, q.env.tally, most, 0, most);
    if q.result.Ok? {
      var v := WriteAccounts(plan, q.env, q.counters, p.chunkIndex, r.items, q.outputs);
      var w := WriteItems(plan, q.env, q.counters, p.chunkIndex, r.items, q.outputs);
      PartsMove(p.env.tally, q.env.tally, w.env.tally, most, 0, |q.outputs|, v);
      MoreHanded(p.env.tally, w.env.tally, most, |q.outputs|, most);
      if w.result.Ok? {
        CommitAccounts(plan, w.env, p.context, p.chunkIndex);
        SavedCounts(plan, w.counters, w.env.tally);
        SavedHappened(p.env.tally, w.env.tally, most, most);
      }
    }
  }

  lemma MoreHanded(t: Tally, t': Tally, delivered: nat, handed: nat, more: nat)
    requires Moved(t, t', delivered, handed) && handed <= more
    ensures Moved(t, t', delivered, more)
    ensures Happened(t, t', NothingUncounted)
  {
    hide Settled;
  }

  lemma SavedHappened(t: Tally, t': Tally, delivered: nat, handed: nat)
    requires Moved(t, t', delivered, handed) && t.saves == t'.saves
    ensures Moved(t, t'.(saves := t'.saves + 1), delivered, handed)
    ensures Happened(t, t'.(saves := t'.saves + 1), CheckpointSaved) && Happened(t, t', NothingUncounted)
    ensures Happened(t, t'.(saves := t'.saves + 1), NothingUncounted)
  {
  }

  /** The cap of a chunk fits the partition's share. */
  lemma CapFits(plan: Plan, c: Counters, t: Tally)
    requires Exact(plan, c, t, 0)
    ensures plan.budget.Some? && Cap(plan, c) > 0 ==> c.read + Cap(plan, c) <= plan.budget.value
  {
  }

  /** Around the checkpoint: saved but not yet counted, saved and counted. */
  lemma SavedCounts(plan: Plan, c: Counters, t: Tally)
    requires Exact(plan, c, t, 0)
    ensures CountedBut(plan, c, t.(saves := t.saves + 1), CheckpointSaved)
    ensures Exact(plan, c.(committed := c.committed + 1), t.(saves := t.saves + 1), 0)
    ensures Settled(t.(saves := t.saves + 1)) == Settled(t)
  {
  }

  /** The state in which the last pass of the loop began. */
  ghost function LastBegun(plan: Plan, p: Progress): Progress
    decreases |p.env.source| - p.env.position
  {
    match OnePass(plan, p)
    case Stops(_, _) => p
    case Continues(p') => LastBegun(plan, p')
  }

  lemma {:induction false} LoopAccounts(plan: Plan, p: Progress)
    requires Exact(plan, p.counters, p.env.tally, 0)
    ensures var l := Loop(plan, p);
            && (l.result.Ok? ==> Exact(plan, l.progress.counters, l.progress.env.tally, 0))
            && (l.result.Thrown? ==> CutShort(plan, LastBegun(plan, p), l.progress.counters, l.progress.env.tally))
    decreases |p.env.source| - p.env.position
  {
    hide DrainPass, ChunkPass, Exact, CutShort;
    if Draining(plan, p) { DrainPassAccounts(plan, p); } else { ChunkPassAccounts(plan, p); }
    match OnePass(plan, p)
    case Stops(p', result) =>
    case Continues(p') => LoopAccounts(plan, p');
  }

  lemma LimitNotNegative(policies: PolicySet)
    requires Compiled(policies)
    ensures SkipLimit(policies) >= 0
  {
  }

  ghost predicate NoBooks(c: Counters, t: Tally) {
    && c.read == 0 && c.written == 0 && c.skipped == 0 && c.committed == 0
    && t.delivered == 0 && t.saves == 0 && t.filtered == 0
    && t.handed == 0 && t.voidOutputs == 0 && t.reportedWritten == 0 && t.reportedSkipped == 0
    && Settled(t) == 0 && Honoured(t) == 0
  }

  lemma NoBooksYet()
    ensures NoBooks(NO_COUNTERS, NO_TALLY)
  {
  }

  lemma NothingYet(plan: Plan)
    requires SkipLimit(plan.policies) >= 0
    ensures Exact(plan, NO_COUNTERS, NO_TALLY, 0)
  {
    hide *;
    NoBooksYet();
    NothingIsExact(plan, NO_COUNTERS, NO_TALLY);
  }

  lemma NothingIsExact(plan: Plan, c: Counters, t: Tally)
    requires SkipLimit(plan.policies) >= 0 && NoBooks(c, t)
    ensures Exact(plan, c, t, 0)
  {
    hide SkipLimit, Settled, Honoured;
  }

  /** Where the loop of a run begins. */
  ghost function FirstPass(plan: Plan, env: Env): Progress {
    var o := OpenAll(plan, env);
    Progress(o.env, NO_COUNTERS, FirstChunk(plan.config), o.env.context)
  }

  /** Exact, or the pass in which the run ended was cut short. */
  ghost predicate FailedCounts(plan: Plan, env: Env, c: Counters, t: Tally) {
    || Exact(plan, c, t, 0)
    || (OpenAll(plan, env).result.Ok? && CutShort(plan, LastBegun(plan, FirstPass(plan, env)), c, t))
  }

  lemma TryAccounts(plan: Plan, env: Env)
    requires env.tally == NO_TALLY && SkipLimit(plan.policies) >= 0
    ensures var t := Try(plan, env);
            && (t.result.Ok? ==> Exact(plan, t.counters, t.env.tally, 0))
            && FailedCounts(plan, env, t.counters, t.env.tally)
  {
    hide OpenAll, AfterLoop, Loop, LastBegun, Exact, CutShort, SkipLimit;
    OpenAllKeepsBooks(plan, env);
    NothingYet(plan);
    var o := OpenAll(plan, env);
    if o.result.Ok? {
      var p := FirstPass(plan, env);
      LoopAccounts(plan, p);
      var l := Loop(plan, p);
      AfterLoopCounts(l, |o.ready|);
      AfterLoopKeepsBooks(l, |o.ready|);
    }
  }

  lemma AfterLoopCounts(l: LoopRun, open: nat)
    ensures AfterLoop(l, open).counters == l.progress.counters
    ensures AfterLoop(l, open).result.Ok? ==> l.result.Ok?
  {
    hide CloseStreams;
  }

  ghost predicate Accounted(plan: Plan, env: Env, run: StepRun) {
    && (CompletedRun(run) ==> Exact(plan, run.outcome.result.counters, run.env.tally, 0))
    && (run.outcome.Returned? ==> FailedCounts(plan, Listen(env).env, run.outcome.result.counters, run.env.tally))
    && WithinBudget(plan, run.env.tally)
  }

  lemma ConcludeAccounts(plan: Plan, env: Env, t: TryRun)
    requires t.result.Ok? ==> Exact(plan, t.counters, t.env.tally, 0)
    requires FailedCounts(plan, Listen(env).env, t.counters, t.env.tally)
    ensures Accounted(plan, env, Conclude(t))
  {
    hide Catch, FailedCounts, Exact, WithinBudget, Listen;
    FailedWithin(plan, Listen(env).env, t.counters, t.env.tally);
    if t.result.Thrown? {
      CatchKeepsBooks(t, t.result.error);
      CatchCounts(t, t.result.error);
    }
  }

  lemma PlannedAccounts(plan: Plan, env: Env)
    requires env.tally == NO_TALLY && SkipLimit(plan.policies) >= 0
    ensures Accounted(plan, env, RunPlanned(plan, env))
  {
    hide Try, Conclude, Exact, FailedCounts, WithinBudget, SkipLimit;
    var before := Listen(env);
    if before.result.Ok? {
      TryAccounts(plan, before.env);
      ConcludeAccounts(plan, env, Try(plan, before.env));
    } else {
      NothingYet(plan);
      ExactWithin(plan, NO_COUNTERS, NO_TALLY);
    }
  }

  /**
   * Conservation.  At COMPLETED every item read was written, skipped by the policy, filtered, or part of
   * a skipped write, the skip counter is the sum of its four causes, and there was one checkpoint per
   * committed chunk.  At FAILED the same holds of the state in which the last pass began, every counter is
   * exact but for at most one event of that pass, and the items unaccounted for were read in it.
   */
  lemma RunAccounts(config: StepConfig, env: Env)
    requires env.tally == NO_TALLY && MakePlan(config).Ok?
    ensures Accounted(MakePlan(config).value, env, RunStep(config, env))
  {
    PlanCompiled(config);
    hide MakePlan, RunPlanned, Accounted, SkipLimit, Compiled;
    LimitNotNegative(MakePlan(config).value.policies);
    PlannedAccounts(MakePlan(config).value, env);
  }

  // ---------------------------------------------------------------- what a FAILED step reports

  ghost predicate FailedRun(run: StepRun) {
    run.outcome.Returned? && run.outcome.result.status == StepFailed
  }

  /** The state in which the last pass of a run began. */
  ghost function LastPass(config: StepConfig, env: Env): Progress
    requires MakePlan(config).Ok?
  {
    LastBegun(MakePlan(config).value, FirstPass(MakePlan(config).value, Listen(env).env))
  }

  /**
   * The items a FAILED step loses sight of: none if no pass was cut short; else all was settled when the last
   * pass began, and they are some of the items that pass read, at most as many as its cap.
   */
  lemma InFlightOfLastPass(config: StepConfig, env: Env)
    requires env.tally == NO_TALLY && FailedRun(RunStep(config, env))
    ensures MakePlan(config).Ok?
    ensures var (t, began) := (RunStep(config, env).env.tally, LastPass(config, env));
      || t.delivered == Settled(t)
      || (&& began.env.tally.delivered == Settled(began.env.tally)
          && 0 < t.delivered - Settled(t) <= t.delivered - began.env.tally.delivered <= Max(0, Cap(MakePlan(config).value, began.counters)))
  {
    FailedRunCounts(config, env);
    hide RunStep, LastPass, MakePlan, WithinBudget, Cap, Happened;
  }

  lemma FailedRunCounts(config: StepConfig, env: Env)
    requires env.tally == NO_TALLY && FailedRun(RunStep(config, env))
    ensures MakePlan(config).Ok?
    ensures var run := RunStep(config, env);
      var (plan, c, t) := (MakePlan(config).value, run.outcome.result.counters, run.env.tally);
      Exact(plan, c, t, 0) || CutShort(plan, LastPass(config, env), c, t)
  {
    hide MakePlan, RunPlanned, Exact, CutShort, WithinBudget;
    RunAccounts(config, env);
  }

  /** All skips that were to be counted: granted, filtered, reported by the writer. */
  ghost function SkipsDue(t: Tally): int {
    Honoured(t) + t.filtered + t.reportedSkipped
  }

  /**
   * The counters of a FAILED step against the books: none has run backwards since the last pass began.  Reads
   * and commits are short by at most one, written outputs by nothing or by the one write of the pass, skips by
   * at most one item or what that write reported, and all that is missing is of one event.
   */
  ghost predicate ShortByOneEvent(began: Progress, c: Counters, t: Tally) {
    var b := began.env.tally;
    && began.counters.read <= c.read <= t.delivered <= c.read + 1
    && began.counters.committed <= c.committed <= t.saves <= c.committed + 1
    && began.counters.written <= c.written <= t.voidOutputs + t.reportedWritten
    && (c.written == t.voidOutputs + t.reportedWritten || (c.written == began.counters.written && b.handed < t.handed))
    && began.counters.skipped <= c.skipped <= SkipsDue(t)
    && SkipsDue(t) - c.skipped <= Max(if b.filtered < t.filtered then 1 else 0, t.reportedSkipped - b.reportedSkipped)
    && (c.read != t.delivered ==> c.written == t.voidOutputs + t.reportedWritten && c.skipped == SkipsDue(t) && c.committed == t.saves)
    && (c.committed != t.saves ==> c.written == t.voidOutputs + t.reportedWritten && c.skipped == SkipsDue(t) && c.read == t.delivered)
  }

  lemma FailedReports(config: StepConfig, env: Env)
    requires env.tally == NO_TALLY && FailedRun(RunStep(config, env))
    ensures MakePlan(config).Ok?
    ensures var run := RunStep(config, env);
      var (plan, c, t) := (MakePlan(config).value, run.outcome.result.counters, run.env.tally);
      || Exact(plan, c, t, 0)
      || (Exact(plan, LastPass(config, env).counters, LastPass(config, env).env.tally, 0) && ShortByOneEvent(LastPass(config, env), c, t))
  {
    FailedRunCounts(config, env);
    hide RunStep, MakePlan, LastPass, Exact, CutShort, ShortByOneEvent;
    var run := RunStep(config, env);
    var (plan, c, t) := (MakePlan(config).value, run.outcome.result.counters, run.env.tally);
    if !Exact(plan, c, t, 0) { CutShortMeans(plan, LastPass(config, env), c, t); }
  }

  lemma CutShortMeans(plan: Plan, began: Progress, c: Counters, t: Tally)
    requires CutShort(plan, began, c, t)
    ensures Exact(plan, began.counters, began.env.tally, 0) && ShortByOneEvent(began, c, t)
  {
    hide WithinBudget, Cap, Settled;
  }

  lemma PlanCompiled(config: StepConfig)
    requires MakePlan(config).Ok?
    ensures Compiled(MakePlan(config).value.policies)
  {
  }

  lemma ExactWithin(plan: Plan, c: Counters, t: Tally)
    requires Exact(plan, c, t, 0)
    ensures WithinBudget(plan, t)
  {
  }

  lemma FailedWithin(plan: Plan, env: Env, c: Counters, t: Tally)
    requires FailedCounts(plan, env, c, t)
    ensures WithinBudget(plan, t)
    ensures c.skipped <= Honoured(t) + t.filtered + t.reportedSkipped
  {
    hide OpenAll, LastBegun, WithinBudget;
  }

  lemma CatchCounts(t: TryRun, error: Error)
    ensures var run := Catch(t, error);
            run.outcome.Returned? ==> run.outcome.result.status == StepFailed && run.outcome.result.counters == t.counters
  {
    hide CloseStreams;
  }

  /** Conservation for a writer that returns nothing, in the step's own counters. */
  lemma CompletedConserves(config: StepConfig, env: Env)
    requires env.tally == NO_TALLY && CompletedRun(RunStep(config, env)) && VoidWriter(RunStep(config, env).env.tally)
    ensures var run := RunStep(config, env);
            var (c, t) := (run.outcome.result.counters, run.env.tally);
            && c.read == c.written + t.processSkips + t.filtered + t.writeSkippedItems
            && c.skipped == t.readSkips + t.processSkips + t.writeSkips + t.filtered
            && c.committed == t.saves
  {
    hide MakePlan, RunPlanned, SkipLimit, FailedCounts;
    assert MakePlan(config).Ok?;
    RunAccounts(config, env);
  }

  /**
   * The skip budget.  However a run ends, the policy granted at most `limit` skips over all phases, and
   * the skip counter exceeds the limit by at most the filtered and the writer-reported items.
   */
  lemma SkipBudget(config: StepConfig, env: Env)
    requires env.tally == NO_TALLY && MakePlan(config).Ok?
    ensures var run := RunStep(config, env);
            var limit := SkipLimit(MakePlan(config).value.policies);
            && Honoured(run.env.tally) <= limit
            && (run.outcome.Returned? ==>
                run.outcome.result.counters.skipped <= limit + run.env.tally.filtered + run.env.tally.reportedSkipped)
  {
    hide RunStep, FailedCounts;
    RunAccounts(config, env);
    var run := RunStep(config, env);
    if run.outcome.Returned? {
      FailedWithin(MakePlan(config).value, Listen(env).env, run.outcome.result.counters, run.env.tally);
    }
  }

  /** A granted skip leaves the counter within the limit, whatever the phase and the attempt. */
  lemma SkipsWithinLimit(policies: PolicySet, op: Operation, env: Env, skips: nat)
    ensures var r := RunPhase(policies, op, env, skips);
            r.skips > skips ==> r.skips == skips + 1 <= SkipLimit(policies)
  {
    hide RunPhase;
    PhaseFacts(policies, op, env, skips);
  }

  /** A partitioned run never reads more than its share, in any reachable state. */
  lemma PartitionBounded(config: StepConfig, env: Env)
    requires env.tally == NO_TALLY
    requires MakePlan(config).Ok? && MakePlan(config).value.budget.Some?
    ensures RunStep(config, env).env.tally.delivered <= MakePlan(config).value.budget.value
  {
    hide RunStep, MakePlan, FailedCounts;
    RunAccounts(config, env);
  }
}
