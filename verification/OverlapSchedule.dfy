/**
 * One schedule of the in-process scheduler: ticks, completions of launched jobs and shutdown
 * (packages/core/src/execution/in-process-schedule.ts:62-121).  Ticks carry their time; the list
 * `history` of what was deferred and launched is kept for the properties only.
 */
module OverlapSchedule {
  import opened Common
  import opened Statuses

  datatype Event = Tick(at: int) | Completion | Shutdown

  /** What a step of the scheduler did: launched a job with a stamp, deferred a tick, or dropped it. */
  datatype Entry = Launched(stamp: int) | Deferred(at: int) | Dropped(at: int)

  datatype State = State(stopped: bool, runningCount: nat, queued: bool, queuedAt: Option<int>, history: seq<Entry>)

  const BOOTED := State(false, 0, false, None, [])

  // ---------------------------------------------------------------- the step function

  function Dispatched(overlap: Overlap, s: State, at: int): State {
    if s.stopped then s
    else if s.runningCount > 0 && overlap.Skip? then s.(history := s.history + [Dropped(at)])
    else if s.runningCount > 0 && overlap.Queue? then
      s.(queued := true,
         queuedAt := if s.queuedAt.None? then Some(at) else s.queuedAt,
         history := s.history + [Deferred(at)])
    else s.(runningCount := s.runningCount + 1, history := s.history + [Launched(at)])
  }

  /** `now` stands for the clock in the fallback for a missing queue time. */
  function Finished(overlap: Overlap, s: State, now: int): State
    requires s.runningCount > 0
  {
    var s' := s.(runningCount := s.runningCount - 1);
    if s.stopped then s'
    else if s'.runningCount == 0 && s.queued then
      Dispatched(overlap, s'.(queued := false, queuedAt := None), if s.queuedAt.Some? then s.queuedAt.value else now)
    else s'
  }

  predicate Possible(s: State, e: Event) {
    e.Completion? ==> s.runningCount > 0
  }

  function Next(overlap: Overlap, s: State, e: Event, now: int): State
    requires Possible(s, e)
  {
    match e
    case Tick(at) => Dispatched(overlap, s, at)
    case Completion => Finished(overlap, s, now)
    case Shutdown => s.(stopped := true)
  }

  /** The scheduler with its fields updated in place; each method makes exactly one step. */
  class Schedule {
    const overlap: Overlap
    var stopped: bool
    var runningCount: nat
    var queued: bool
    var queuedAt: Option<int>
    ghost var history: seq<Entry>

    ghost function View(): State
      reads this
    {
      State(stopped, runningCount, queued, queuedAt, history)
    }

    constructor (overlap: Option<Overlap>)
      ensures View() == BOOTED && this.overlap == (if overlap.Some? then overlap.value else Skip)
    {
      this.overlap := if overlap.Some? then overlap.value else Skip;
      stopped, runningCount, queued, queuedAt := false, 0, false, None;
      history := [];
    }

    method OnTick(at: int)
      modifies this
      ensures View() == Next(overlap, old(View()), Tick(at), at)
    {
      if stopped {
        return;
      }
      Dispatch(at);
    }

    method Dispatch(at: int)
      modifies this
      ensures View() == Dispatched(overlap, old(View()), at)
    {
      if stopped {
        return;
      }
      if runningCount > 0 {
        if overlap == Skip {
          history := history + [Dropped(at)];
          return;
        }
        if overlap == Queue {
          queued := true;
          if queuedAt.None? {
            queuedAt := Some(at);
          }
          history := history + [Deferred(at)];
          return;
        }
      }
      runningCount := runningCount + 1;
      history := history + [Launched(at)];
    }

    /** The callback after a launch has finished, with or without an error. */
    method OnCompletion(now: int)
      requires runningCount > 0
      modifies this
      ensures View() == Next(overlap, old(View()), Completion, now)
    {
      runningCount := runningCount - 1;
      if stopped {
        return;
      }
      if runningCount == 0 && queued {
        queued := false;
        var at := if queuedAt.Some? then queuedAt.value else now;
        queuedAt := None;
        Dispatch(at);
      }
    }

    method OnShutdown()
      modifies this
      ensures View() == Next(overlap, old(View()), Shutdown, 0)
    {
      stopped := true;
    }
  }

  // ---------------------------------------------------------------- runs

  /** Some state the scheduler is in after the events; `clock` gives the time of each event. */
  ghost predicate Runs(overlap: Overlap, s: State, events: seq<Event>, clock: seq<int>, end: State)
    decreases |events|
  {
    if events == [] then end == s
    else |clock| > 0 && Possible(s, events[0])
         && (events[0].Tick? ==> events[0].at == clock[0])
         && Runs(overlap, Next(overlap, s, events[0], clock[0]), events[1..], clock[1..], end)
  }

  /** Time does not run backwards from `now` on. */
  ghost predicate Monotone(now: int, clock: seq<int>) {
    forall i, j :: 0 <= i <= j < |clock| ==> now <= clock[i] <= clock[j]
  }

  /** The earliest tick deferred since the last launch. */
  ghost function Waiting(history: seq<Entry>): Option<int> {
    if history == [] then None else
    var before := Waiting(history[..|history| - 1]);
    match history[|history| - 1]
    case Launched(_) => None
    case Dropped(_) => before
    case Deferred(at) => if before.None? then Some(at) else before
  }

  /** Every launch that follows deferred ticks carries the time of the earliest of them. */
  ghost predicate LaunchesCover(history: seq<Entry>) {
    forall k :: 0 <= k < |history| && history[k].Launched? && Waiting(history[..k]).Some? ==>
      history[k].stamp == Waiting(history[..k]).value
  }

  ghost function Time(e: Entry): int {
    match e case Launched(stamp) => stamp case Deferred(at) => at case Dropped(at) => at
  }

  ghost predicate StampsInOrder(history: seq<Entry>) {
    forall i, j :: 0 <= i < j < |history| && history[i].Launched? && history[j].Launched? ==> history[i].stamp <= history[j].stamp
  }

  /** Ticks come in order of time, so deferrals do. */
  ghost predicate DeferralsInOrder(history: seq<Entry>) {
    forall i, j :: 0 <= i < j < |history| && history[i].Deferred? && history[j].Deferred? ==> history[i].at <= history[j].at
  }

  /** The invariant of the scheduler, with the current time. */
  ghost predicate Sound(overlap: Overlap, s: State, now: int) {
    && (!overlap.Allow? ==> s.runningCount <= 1)
    && s.queuedAt.Some? == s.queued
    && (s.queued ==> overlap.Queue? && (s.runningCount > 0 || s.stopped))
    && s.queuedAt == Waiting(s.history)
    && LaunchesCover(s.history)
    && StampsInOrder(s.history)
    && DeferralsInOrder(s.history)
    && (forall i :: 0 <= i < |s.history| ==> Time(s.history[i]) <= now)
    && (s.queuedAt.Some? ==> forall i :: 0 <= i < |s.history| && s.history[i].Launched? ==> s.history[i].stamp <= s.queuedAt.value)
  }

  lemma HistoryExtends(history: seq<Entry>, e: Entry)
    ensures Waiting(history + [e]) ==
      match e
      case Launched(_) => None
      case Dropped(_) => Waiting(history)
      case Deferred(at) => if Waiting(history).None? then Some(at) else Waiting(history)
    ensures forall k :: 0 <= k <= |history| ==> (history + [e])[..k] == history[..k]
    ensures history[..|history|] == history
  {
    assert (history + [e])[..|history + [e]| - 1] == history;
  }

  lemma DispatchSound(overlap: Overlap, s: State, at: int, now: int)
    requires Sound(overlap, s, now) && at <= now
    requires forall i :: 0 <= i < |s.history| && s.history[i].Launched? ==> s.history[i].stamp <= at
    requires s.queued ==> s.runningCount > 0
    requires s.runningCount > 0 ==> at == now
    ensures Sound(overlap, Dispatched(overlap, s, at), now)
  {
    HistoryExtends(s.history, Dropped(at));
    HistoryExtends(s.history, Deferred(at));
    HistoryExtends(s.history, Launched(at));
    hide Waiting;
  }

  /** The queued tick is launched at last, stamped with the earliest tick it stands for. */
  lemma CompletionSound(overlap: Overlap, s: State, now: int)
    requires Sound(overlap, s, now) && s.runningCount > 0
    ensures Sound(overlap, Finished(overlap, s, now), now)
  {
    if !s.stopped && s.runningCount == 1 && s.queued {
      HistoryExtends(s.history, Launched(s.queuedAt.value));
      WaitingIsDeferral(s.history);
      hide Waiting;
    }
  }

  lemma StepSound(overlap: Overlap, s: State, e: Event, now: int)
    requires Sound(overlap, s, now) && Possible(s, e) && (e.Tick? ==> e.at == now)
    ensures Sound(overlap, Next(overlap, s, e, now), now)
  {
    hide Waiting, LaunchesCover, StampsInOrder, DeferralsInOrder;
    match e
    case Tick(at) => if !s.stopped { DispatchSound(overlap, s, at, now); }
    case Completion => CompletionSound(overlap, s, now);
    case Shutdown =>
  }

  lemma LaterSound(overlap: Overlap, s: State, now: int, later: int)
    requires Sound(overlap, s, now) && now <= later
    ensures Sound(overlap, s, later)
  {
    hide Waiting, LaunchesCover, StampsInOrder, DeferralsInOrder;
  }

  lemma {:induction false} RunsSound(overlap: Overlap, s: State, events: seq<Event>, clock: seq<int>, end: State, now: int)
    requires Sound(overlap, s, now) && Monotone(now, clock) && Runs(overlap, s, events, clock, end)
    ensures exists later :: now <= later && Sound(overlap, end, later)
    ensures s.history <= end.history
    ensures s.stopped ==> end.history == s.history
    decreases |events|
  {
    hide Sound;
    if events != [] {
      assert now <= clock[0];
      LaterSound(overlap, s, now, clock[0]);
      StepSound(overlap, s, events[0], clock[0]);
      var s' := Next(overlap, s, events[0], clock[0]);
      assert Monotone(clock[0], clock[1..]);
      RunsSound(overlap, s', events[1..], clock[1..], end, clock[0]);
    }
  }

  /**
   * Over every sequence of ticks, completions and a shutdown: skip and queue never have two jobs running,
   * a queue time is set exactly when a tick is queued, a queued tick implies a running job or a shutdown,
   * every launch stands for the earliest tick deferred before it, and stamps come in order of time.
   */
  lemma SchedulerInvariant(overlap: Overlap, events: seq<Event>, clock: seq<int>, end: State, now: int)
    requires Monotone(now, clock) && Runs(overlap, BOOTED, events, clock, end)
    ensures !overlap.Allow? ==> end.runningCount <= 1
    ensures end.queuedAt.Some? <==> end.queued
    ensures end.queued ==> overlap.Queue? && (end.runningCount > 0 || end.stopped)
    ensures LaunchesCover(end.history) && StampsInOrder(end.history) && DeferralsInOrder(end.history)
    ensures end.queuedAt == Waiting(end.history)
  {
    hide LaunchesCover, StampsInOrder, DeferralsInOrder, Runs;
    assert Sound(overlap, BOOTED, now) by { NothingYet(overlap, now); }
    RunsSound(overlap, BOOTED, events, clock, end, now);
  }

  lemma NothingYet(overlap: Overlap, now: int)
    ensures Sound(overlap, BOOTED, now)
  {
  }

  /**
   * No deferred tick is lost.  Unless the scheduler was stopped, a tick deferred at position i is followed
   * by a launch whose stamp is not later than it, or it is covered by the time still queued while a job runs.
   */
  lemma DeferredTicksServed(overlap: Overlap, events: seq<Event>, clock: seq<int>, end: State, now: int, i: nat)
    requires Monotone(now, clock) && Runs(overlap, BOOTED, events, clock, end) && !end.stopped
    requires i < |end.history| && end.history[i].Deferred?
    ensures || (exists k :: i < k < |end.history| && end.history[k].Launched? && end.history[k].stamp <= end.history[i].at)
            || (end.queuedAt.Some? && end.runningCount == 1 && end.queuedAt.value <= end.history[i].at)
  {
    hide Runs;
    SchedulerInvariant(overlap, events, clock, end, now);
    if k :| i < k < |end.history| && end.history[k].Launched? && forall j :: i < j < k ==> !end.history[j].Launched? {
      WaitingCovers(end.history[..k], i);
    } else {
      FirstLaunch(end.history, i);
      WaitingCovers(end.history, i);
    }
  }

  lemma {:induction false} WaitingCovers(history: seq<Entry>, i: nat)
    requires i < |history| && history[i].Deferred? && DeferralsInOrder(history)
    requires forall j :: i < j < |history| ==> !history[j].Launched?
    ensures Waiting(history).Some? && Waiting(history).value <= history[i].at
  {
    var n := |history| - 1;
    if i < n {
      WaitingCovers(history[..n], i);
    } else if Waiting(history[..n]).Some? {
      WaitingIsDeferral(history[..n]);
    }
  }

  lemma {:induction false} WaitingIsDeferral(history: seq<Entry>)
    requires Waiting(history).Some?
    ensures exists j :: 0 <= j < |history| && history[j] == Deferred(Waiting(history).value)
  {
    var n := |history| - 1;
    if Waiting(history[..n]).Some? {
      WaitingIsDeferral(history[..n]);
      var j :| 0 <= j < n && history[..n][j] == Deferred(Waiting(history[..n]).value);
      assert history[j] == Deferred(Waiting(history).value);
    }
  }

  lemma {:induction false} FirstLaunch(history: seq<Entry>, i: nat)
    requires i < |history|
    requires !exists k :: i < k < |history| && history[k].Launched? && forall j :: i < j < k ==> !history[j].Launched?
    ensures forall j :: i < j < |history| ==> !history[j].Launched?
  {
    if j :| i < j < |history| && history[j].Launched? {
      LeastLaunch(history, i, j);
    }
  }

  lemma {:induction false} LeastLaunch(history: seq<Entry>, i: nat, k: nat)
    requires i < k < |history| && history[k].Launched?
    ensures exists m :: i < m < |history| && history[m].Launched? && forall j :: i < j < m ==> !history[j].Launched?
    decreases k
  {
    if j :| i < j < k && history[j].Launched? {
      LeastLaunch(history, i, j);
    }
  }

  /** After shutdown nothing is launched, deferred or dropped any more, from whatever state. */
  lemma {:induction false} NothingAfterShutdown(overlap: Overlap, s: State, events: seq<Event>, clock: seq<int>, end: State)
    requires s.stopped && Runs(overlap, s, events, clock, end)
    ensures end.stopped && end.history == s.history
    decreases |events|
  {
    if events != [] {
      NothingAfterShutdown(overlap, Next(overlap, s, events[0], clock[0]), events[1..], clock[1..], end);
    }
  }

  // ---------------------------------------------------------------- the history from the events alone

  ghost function Launches(history: seq<Entry>): nat {
    if history == [] then 0
    else Launches(history[..|history| - 1]) + (if history[|history| - 1].Launched? then 1 else 0)
  }

  /**
   * What the last of the events does, given the history before it: a job is still running for every launch that
   * no completion has answered.  A tick launches if overlap is allowed or nothing runs, and otherwise is dropped
   * or deferred; the completion of the last running job launches the earliest deferred tick.
   */
  ghost function Effect(overlap: Overlap, past: seq<Event>, history: seq<Entry>, last: Event): seq<Entry> {
    var running := Launches(history) - multiset(past)[Completion];
    if Shutdown in past then []
    else match last
      case Tick(at) =>
        if running == 0 then [Launched(at)] else (match overlap
          case Allow => [Launched(at)]
          case Skip => [Dropped(at)]
          case Queue => [Deferred(at)])
      case Completion => if running == 1 && Waiting(history).Some? then [Launched(Waiting(history).value)] else []
      case Shutdown => []
  }

  ghost function Story(overlap: Overlap, events: seq<Event>): seq<Entry> {
    if events == [] then [] else
    var (past, last) := (events[..|events| - 1], events[|events| - 1]);
    Story(overlap, past) + Effect(overlap, past, Story(overlap, past), last)
  }

  /** A state in which the events have left the scheduler. */
  ghost predicate Tells(overlap: Overlap, events: seq<Event>, s: State) {
    && s.history == Story(overlap, events)
    && s.runningCount == Launches(s.history) - multiset(events)[Completion]
    && (s.stopped <==> Shutdown in events)
  }

  lemma StoryExtends(overlap: Overlap, events: seq<Event>, e: Event)
    ensures Story(overlap, events + [e]) == Story(overlap, events) + Effect(overlap, events, Story(overlap, events), e)
    ensures multiset(events + [e])[Completion] == multiset(events)[Completion] + (if e.Completion? then 1 else 0)
    ensures Shutdown in events + [e] <==> Shutdown in events || e.Shutdown?
  {
    assert (events + [e])[..|events + [e]| - 1] == events;
  }

  lemma LaunchesExtend(history: seq<Entry>, e: Entry)
    ensures Launches(history + [e]) == Launches(history) + (if e.Launched? then 1 else 0)
  {
    assert (history + [e])[..|history + [e]| - 1] == history;
  }

  lemma SoundQueue(overlap: Overlap, s: State, now: int)
    requires Sound(overlap, s, now)
    ensures s.queuedAt == Waiting(s.history) && s.queued == s.queuedAt.Some? && (s.queued ==> overlap.Queue?)
  {
    hide Waiting, LaunchesCover, StampsInOrder, DeferralsInOrder;
  }

  /** One step adds the effect of its event, launches of it counted. */
  lemma StepEffect(overlap: Overlap, events: seq<Event>, s: State, e: Event, now: int)
    requires s.runningCount == Launches(s.history) - multiset(events)[Completion] && (s.stopped <==> Shutdown in events)
    requires Sound(overlap, s, now) && Possible(s, e)
    ensures var (s', effect) := (Next(overlap, s, e, now), Effect(overlap, events, s.history, e));
      && s'.history == s.history + effect && (s'.stopped <==> s.stopped || e.Shutdown?)
      && |effect| <= 1
      && s'.runningCount == s.runningCount + (if |effect| == 1 && effect[0].Launched? then 1 else 0) - (if e.Completion? then 1 else 0)
  {
    SoundQueue(overlap, s, now);
    hide Waiting, Launches, Story, Sound;
  }

  lemma StepTells(overlap: Overlap, events: seq<Event>, s: State, e: Event, now: int)
    requires Tells(overlap, events, s) && Sound(overlap, s, now) && Possible(s, e)
    ensures Tells(overlap, events + [e], Next(overlap, s, e, now))
  {
    StoryExtends(overlap, events, e);
    StepEffect(overlap, events, s, e, now);
    hide Waiting, Launches, Story, Sound, Next, Effect;
    var effect := Effect(overlap, events, s.history, e);
    if effect == [] {
      assert s.history + effect == s.history;
    } else {
      assert effect == [effect[0]];
      LaunchesExtend(s.history, effect[0]);
    }
  }

  lemma {:induction false} RunsTell(overlap: Overlap, past: seq<Event>, s: State, events: seq<Event>, clock: seq<int>, end: State, now: int)
    requires Tells(overlap, past, s) && Sound(overlap, s, now) && Monotone(now, clock) && Runs(overlap, s, events, clock, end)
    ensures Tells(overlap, past + events, end)
    decreases |events|
  {
    hide Sound, Tells, Next, Possible;
    if events == [] {
      assert past + events == past;
    } else {
      LaterSound(overlap, s, now, clock[0]);
      StepSound(overlap, s, events[0], clock[0]);
      StepTells(overlap, past, s, events[0], clock[0]);
      assert Monotone(clock[0], clock[1..]);
      RunsTell(overlap, past + [events[0]], Next(overlap, s, events[0], clock[0]), events[1..], clock[1..], end, clock[0]);
      assert past + [events[0]] + events[1..] == past + events;
    }
  }

  /**
   * The history is the one told by the events alone, so every tick of a run has its fate from the events before
   * it: it launches a job exactly if the schedule is not shut down and overlap is allowed or no job runs.
   */
  lemma HistoryFromEvents(overlap: Overlap, events: seq<Event>, clock: seq<int>, end: State, now: int)
    requires Monotone(now, clock) && Runs(overlap, BOOTED, events, clock, end)
    ensures end.history == Story(overlap, events)
    ensures end.runningCount == Launches(end.history) - multiset(events)[Completion]
    ensures end.stopped <==> Shutdown in events
  {
    NothingYet(overlap, now);
    hide Sound, Runs;
    RunsTell(overlap, [], BOOTED, events, clock, end, now);
    assert [] + events == events;
  }
}
