/**
 * The flow loop over the step graph (packages/core/src/execution/job-executor.ts).
 *
 * How the steps and deciders behave is a list of replies, one per step executed; a list that runs out
 * is a run observed up to there.  The repository is the job row and the step rows in insertion order.
 */
module JobExecutor {
  import opened Common
  import opened Text
  import opened Checkpoint
  import opened Statuses
  import opened FlowEvaluator

  datatype StepKind = ChunkKind | TaskletKind
  datatype StepDef = StepDef(id: string, kind: StepKind)

  /**
   * Steps in declaration order; `deciders` holds the ids of the steps a decider follows, `rewritten` those of the
   * steps whose result an after-step listener may change.
   */
  datatype JobDef = JobDef(
    steps: seq<StepDef>, startStepId: string, transitions: seq<Transition>, deciders: set<string>, rewritten: set<string>,
    restartable: bool)

  datatype Decision = Decides(text: string) | DeciderThrows

  /** A step returned (a listener may have changed what) or threw; either way its context row is left behind. */
  datatype StepReply =
    | Returns(status: StepStatus, exitCode: string, decision: Decision, context: Json)
    | Throws(context: Json)

  /** `initial` is the context the row held when the step started, `context` the one it holds now. */
  datatype StepRow = StepRow(stepId: string, status: StepStatus, initial: Json, context: Json)

  datatype Outcome = NotRestartable | Finished(status: JobStatus) | Interrupted

  // ---------------------------------------------------------------- one routing decision

  function StepIndex(steps: seq<StepDef>, id: string): (i: nat)
    ensures i <= |steps|
    ensures i < |steps| ==> steps[i].id == id
    ensures forall j :: 0 <= j < i ==> steps[j].id != id
  {
    if steps == [] || steps[0].id == id then 0 else
    var i := StepIndex(steps[1..], id);
    assert forall j :: 1 <= j <= i ==> steps[j].id == steps[1..][j - 1].id;
    1 + i
  }

  predicate HasStep(def: JobDef, id: string) {
    StepIndex(def.steps, id) < |def.steps|
  }

  /** Declaration order: the step after `id`, or END. */
  function NextDeclared(def: JobDef, id: string): Option<string> {
    var next := StepIndex(def.steps, id) + 1;
    if next < |def.steps| then Some(def.steps[next].id) else None
  }

  function FlowStatus(status: StepStatus): string {
    match status
    case StepCompleted => "COMPLETED"
    case StepFailed => "FAILED"
    case _ => "UNKNOWN"
  }

  /** The decider's trimmed answer if there is one, else the exit code, else the mapped status. */
  function ExitStatus(def: JobDef, id: string, status: StepStatus, exitCode: string, text: string): string {
    if id in def.deciders && Trim(text) != "" then Trim(text)
    else if exitCode != "" then exitCode
    else FlowStatus(status)
  }

  datatype Choice = NoTransition | Follow(target: Option<string>) | Clash

  function Choose(def: JobDef, id: string, status: string): Choice {
    if !HasMatch(def.transitions, id, status) then NoTransition else
    match Evaluate(def.transitions, id, status)
    case Thrown(_) => Clash
    case Ok(target) => Follow(target)
  }

  datatype Route = Continue(next: Option<string>) | Unrouted | RouteError

  /** Exit status first, then the mapped status, then declaration order - but never past an unrouted failure. */
  function Routed(def: JobDef, id: string, status: StepStatus, exitStatus: string): Route {
    var first := Choose(def, id, exitStatus);
    var choice := if first.NoTransition? && exitStatus != FlowStatus(status) then Choose(def, id, FlowStatus(status)) else first;
    match choice
    case Clash => RouteError
    case Follow(target) => Continue(target)
    case NoTransition => if status == StepFailed then Unrouted else Continue(NextDeclared(def, id))
  }

  // ---------------------------------------------------------------- the path of a run

  datatype Visit = Visit(stepId: string, status: StepStatus)

  datatype Ending = ReachedEnd | NoSuchStep | FailedUnrouted(exitCode: string) | Errored | CutOff

  datatype Path = Path(visits: seq<Visit>, ending: Ending)

  function AfterStep(def: JobDef, id: string, reply: StepReply): Route {
    if reply.Throws? || (id in def.deciders && reply.decision.DeciderThrows?) then RouteError
    else Routed(def, id, reply.status,
                ExitStatus(def, id, reply.status, reply.exitCode, if reply.decision.Decides? then reply.decision.text else ""))
  }

  /** What the executors return of themselves: COMPLETED or FAILED, with the exit code of the same name. */
  predicate Unchanged(reply: StepReply) {
    reply.Returns? ==> (reply.status == StepCompleted && reply.exitCode == "COMPLETED") || (reply.status == StepFailed && reply.exitCode == "FAILED")
  }

  /** The replies a step can give: anything only where a listener may change its result. */
  predicate CanReply(def: JobDef, id: string, reply: StepReply) {
    id in def.rewritten || Unchanged(reply)
  }

  function FinalStatus(reply: StepReply): StepStatus {
    if reply.Throws? then StepFailed else reply.status
  }

  function ExitCode(reply: StepReply): string {
    if reply.Throws? then "" else reply.exitCode
  }

  function Then(visit: Visit, path: Path): Path {
    Path([visit] + path.visits, path.ending)
  }

  function Walk(def: JobDef, current: Option<string>, replies: seq<StepReply>): Path
    decreases |replies|
  {
    if current.None? then Path([], ReachedEnd)
    else if !HasStep(def, current.value) then Path([], NoSuchStep)
    else if replies == [] then Path([], CutOff)
    else
      var visit := Visit(current.value, FinalStatus(replies[0]));
      match AfterStep(def, current.value, replies[0])
      case RouteError => Path([visit], Errored)
      case Unrouted => Path([visit], FailedUnrouted(ExitCode(replies[0])))
      case Continue(next) => Then(visit, Walk(def, next, replies[1..]))
  }

  // ---------------------------------------------------------------- restart

  /** The latest row of a step, by insertion. */
  function Latest(rows: seq<StepRow>, id: string): Option<StepRow> {
    if rows == [] then None
    else if rows[|rows| - 1].stepId == id then Some(rows[|rows| - 1])
    else Latest(rows[..|rows| - 1], id)
  }

  /** A restarted chunk step starts from the row of its latest execution if that one failed; anything else starts empty. */
  function InitialContext(restart: bool, step: StepDef, rows: seq<StepRow>): Json {
    var latest := Latest(rows, step.id);
    if restart && step.kind.ChunkKind? && latest.Some? && latest.value.status == StepFailed then latest.value.context else JNull
  }

  // ---------------------------------------------------------------- the executor

  /** Row i was created for visit i, from the context the rows before it prescribe, and holds its final status. */
  ghost predicate RowsRecord(def: JobDef, restart: bool, before: seq<StepRow>, rows: seq<StepRow>, visits: seq<Visit>, replies: seq<StepReply>) {
    && |rows| == |visits| <= |replies|
    && forall i :: 0 <= i < |rows| ==>
         && rows[i].stepId == visits[i].stepId && rows[i].status == visits[i].status
         && rows[i].context == replies[i].context
         && HasStep(def, visits[i].stepId)
         && rows[i].initial == InitialContext(restart, def.steps[StepIndex(def.steps, visits[i].stepId)], before + rows[..i])
  }

  /** The job's row and the rows of its step executions, updated in place. */
  class StepRepository {
    var status: JobStatus
    var exitCode: string
    var steps: seq<StepRow>

    constructor (status: JobStatus, exitCode: string, steps: seq<StepRow>)
      ensures this.status == status && this.exitCode == exitCode && this.steps == steps
    {
      this.status, this.exitCode, this.steps := status, exitCode, steps;
    }

    /** A missing exit code leaves the column as it is. */
    method UpdateJob(status: JobStatus, exitCode: Option<string>)
      modifies this`status, this`exitCode
      ensures this.status == status
      ensures this.exitCode == if exitCode.Some? then exitCode.value else old(this.exitCode)
    {
      this.status := status;
      if exitCode.Some? {
        this.exitCode := exitCode.value;
      }
    }

    method CreateStep(stepId: string) returns (row: nat)
      modifies this`steps
      ensures row == |old(steps)| && steps == old(steps) + [StepRow(stepId, StepStarting, JNull, JNull)]
    {
      row := |steps|;
      steps := steps + [StepRow(stepId, StepStarting, JNull, JNull)];
    }

    /** The context copied into a new row before its step runs. */
    method CarryContext(row: nat, context: Json)
      requires row < |steps|
      modifies this`steps
      ensures steps == old(steps)[row := old(steps)[row].(initial := context, context := context)]
    {
      steps := steps[row := steps[row].(initial := context, context := context)];
    }

    /** What the step itself saved while it ran. */
    method SaveContext(row: nat, context: Json)
      requires row < |steps|
      modifies this`steps
      ensures steps == old(steps)[row := old(steps)[row].(context := context)]
    {
      steps := steps[row := steps[row].(context := context)];
    }

    method UpdateStep(row: nat, status: StepStatus)
      requires row < |steps|
      modifies this`steps
      ensures steps == old(steps)[row := old(steps)[row].(status := status)]
    {
      steps := steps[row := steps[row].(status := status)];
    }
  }

  /** One step: its row is created, given the context of a failed predecessor on a restart, run and updated. */
  method RunStep(step: StepDef, restart: bool, repository: StepRepository, reply: StepReply)
    modifies repository`steps
    ensures repository.steps == old(repository.steps)
      + [StepRow(step.id, FinalStatus(reply), InitialContext(restart, step, old(repository.steps)), reply.context)]
  {
    hide Latest;
    var carried: Option<Json> := None;
    if restart && step.kind.ChunkKind? {
      var priorFailed := Latest(repository.steps, step.id);
      if priorFailed.Some? && priorFailed.value.status == StepFailed {
        carried := Some(priorFailed.value.context);
      }
    }
    var row := repository.CreateStep(step.id);
    if carried.Some? {
      repository.CarryContext(row, carried.value);
    }
    repository.SaveContext(row, reply.context);
    if reply.Throws? {
      repository.UpdateStep(row, StepFailed);
    } else {
      repository.UpdateStep(row, reply.status);
    }
  }

  /**
   * The flow loop writes exactly the rows of the path, each with its final status.  The job is COMPLETED exactly if the
   * path reached END, still STARTED if it was cut off, and FAILED for a missing step, an unrouted failure and an error;
   * a restart of a job that is not restartable changes nothing.
   */
  method Execute(def: JobDef, repository: StepRepository, replies: seq<StepReply>) returns (outcome: Outcome)
    modifies repository
    ensures outcome.NotRestartable? <==>
      (old(repository.status) == JobFailed || old(repository.status) == JobStopped) && !def.restartable
    ensures outcome.NotRestartable? ==>
      repository.status == old(repository.status) && repository.exitCode == old(repository.exitCode) && repository.steps == old(repository.steps)
    ensures !outcome.NotRestartable? ==>
      var path := Walk(def, Some(def.startStepId), replies);
      && (repository.status == JobCompleted <==> path.ending == ReachedEnd)
      && (repository.status == JobStarted <==> path.ending == CutOff)
      && (repository.status == JobCompleted || repository.status == JobStarted || repository.status == JobFailed)
      && repository.exitCode == (match path.ending
                                 case ReachedEnd => "COMPLETED"
                                 case NoSuchStep => "NO_SUCH_STEP"
                                 case FailedUnrouted(code) => code
                                 case _ => old(repository.exitCode))
      && old(repository.steps) <= repository.steps
      && RowsRecord(def, old(repository.status) == JobFailed || old(repository.status) == JobStopped, old(repository.steps),
                    repository.steps[|old(repository.steps)|..], path.visits, replies)
      && (if path.ending.CutOff? then outcome == Interrupted else outcome == Finished(repository.status))
  {
    hide Walk, AfterStep, InitialContext, HasStep, StepIndex, RowsRecord, Append, FinalStatus, ExitCode;
    var restart := repository.status == JobFailed || repository.status == JobStopped;
    if restart && !def.restartable {
      return NotRestartable;
    }
    repository.UpdateJob(JobStarted, None);
    var current := Some(def.startStepId);
    ghost var before := repository.steps;
    ghost var visits: seq<Visit> := [];
    ghost var rows: seq<StepRow> := [];
    var i := 0;
    ghost var path := Walk(def, current, replies);
    NoRows(def, restart, before, replies);
    AppendNothing(path);
    assert replies[0..] == replies;
    while current.Some?
      invariant i == |visits| == |rows| && i <= |replies|
      invariant repository.status == JobStarted && repository.exitCode == old(repository.exitCode)
      invariant repository.steps == before + rows
      invariant RowsRecord(def, restart, before, rows, visits, replies)
      invariant path == Append(visits, Walk(def, current, replies[i..]))
      decreases |replies| - i, current.Some?
    {
      var id := current.value;
      WalkFrom(def, visits, current, replies, i);
      if !HasStep(def, id) {
        repository.UpdateJob(JobFailed, Some("NO_SUCH_STEP"));
        assert repository.steps[|before|..] == rows;
        return Finished(JobFailed);
      }
      if i == |replies| {
        assert repository.steps[|before|..] == rows;
        return Interrupted;
      }
      HasStepMeans(def, id);
      var step := def.steps[StepIndex(def.steps, id)];
      var reply := replies[i];
      ghost var row := StepRow(id, FinalStatus(reply), InitialContext(restart, step, repository.steps), reply.context);
      RunStep(step, restart, repository, reply);
      RowsExtend(def, restart, before, rows, visits, replies, row);
      rows, visits := rows + [row], visits + [Visit(id, FinalStatus(reply))];
      assert repository.steps == before + rows;
      assert repository.steps[|before|..] == rows;
      i := i + 1;
      match AfterStep(def, id, reply)
      case RouteError =>
        repository.UpdateJob(JobFailed, None);
        return Finished(JobFailed);
      case Unrouted =>
        repository.UpdateJob(JobFailed, Some(ExitCode(reply)));
        return Finished(JobFailed);
      case Continue(next) =>
        current := next;
    }
    WalkFrom(def, visits, current, replies, i);
    assert repository.steps[|before|..] == rows;
    repository.UpdateJob(JobCompleted, Some("COMPLETED"));
    outcome := Finished(JobCompleted);
  }

  ghost function Append(visits: seq<Visit>, path: Path): Path {
    Path(visits + path.visits, path.ending)
  }

  lemma AppendNothing(path: Path)
    ensures Append([], path) == path
  {
    assert [] + path.visits == path.visits;
  }

  /** The rest of a path from reply i on, behind the visits made so far. */
  lemma WalkFrom(def: JobDef, visits: seq<Visit>, current: Option<string>, replies: seq<StepReply>, i: nat)
    requires i <= |replies|
    ensures Append(visits, Walk(def, current, replies[i..])) ==
      if current.None? then Path(visits, ReachedEnd)
      else if !HasStep(def, current.value) then Path(visits, NoSuchStep)
      else if i == |replies| then Path(visits, CutOff)
      else
        var more := visits + [Visit(current.value, FinalStatus(replies[i]))];
        match AfterStep(def, current.value, replies[i])
        case RouteError => Path(more, Errored)
        case Unrouted => Path(more, FailedUnrouted(ExitCode(replies[i])))
        case Continue(next) => Append(more, Walk(def, next, replies[i + 1..]))
  {
    hide Walk, AfterStep, HasStep, FinalStatus, ExitCode;
    WalkUnfolds(def, current, replies[i..]);
    assert visits + [] == visits;
    if i < |replies| {
      assert replies[i..][0] == replies[i] && replies[i..][1..] == replies[i + 1..];
      if current.Some? && AfterStep(def, current.value, replies[i]).Continue? {
        var rest := Walk(def, AfterStep(def, current.value, replies[i]).next, replies[i + 1..]);
        assert visits + ([Visit(current.value, FinalStatus(replies[i]))] + rest.visits)
            == visits + [Visit(current.value, FinalStatus(replies[i]))] + rest.visits;
      }
    }
  }

  lemma WalkUnfolds(def: JobDef, current: Option<string>, replies: seq<StepReply>)
    ensures Walk(def, current, replies) ==
      if current.None? then Path([], ReachedEnd)
      else if !HasStep(def, current.value) then Path([], NoSuchStep)
      else if replies == [] then Path([], CutOff)
      else match AfterStep(def, current.value, replies[0])
           case RouteError => Path([Visit(current.value, FinalStatus(replies[0]))], Errored)
           case Unrouted => Path([Visit(current.value, FinalStatus(replies[0]))], FailedUnrouted(ExitCode(replies[0])))
           case Continue(next) => Then(Visit(current.value, FinalStatus(replies[0])), Walk(def, next, replies[1..]))
  {
    hide AfterStep, HasStep;
  }

  lemma HasStepMeans(def: JobDef, id: string)
    ensures HasStep(def, id) ==> StepIndex(def.steps, id) < |def.steps|
  {
  }

  lemma NoRows(def: JobDef, restart: bool, before: seq<StepRow>, replies: seq<StepReply>)
    ensures RowsRecord(def, restart, before, [], [], replies)
  {
  }

  lemma RowsExtend(def: JobDef, restart: bool, before: seq<StepRow>, rows: seq<StepRow>, visits: seq<Visit>, replies: seq<StepReply>, row: StepRow)
    requires RowsRecord(def, restart, before, rows, visits, replies) && |rows| < |replies| && HasStep(def, row.stepId)
    requires row.context == replies[|rows|].context
    requires row.initial == InitialContext(restart, def.steps[StepIndex(def.steps, row.stepId)], before + rows)
    ensures RowsRecord(def, restart, before, rows + [row], visits + [Visit(row.stepId, row.status)], replies)
  {
    hide InitialContext, StepIndex;
    var rows' := rows + [row];
    forall i | 0 <= i < |rows'| ensures rows'[..i] == rows[..i] {
    }
    assert rows[..|rows|] == rows;
  }

  /** What a restart hands a chunk step: the context of the latest failed execution of that very step, whichever rows follow it. */
  lemma {:induction false} LatestIsLast(rows: seq<StepRow>, id: string)
    ensures Latest(rows, id) == None <==> forall i :: 0 <= i < |rows| ==> rows[i].stepId != id
    ensures Latest(rows, id).Some? ==>
      exists i :: 0 <= i < |rows| && rows[i] == Latest(rows, id).value && rows[i].stepId == id
                  && forall j :: i < j < |rows| ==> rows[j].stepId != id
  {
    if rows != [] {
      var n := |rows| - 1;
      LatestIsLast(rows[..n], id);
      if rows[n].stepId != id && Latest(rows[..n], id).Some? {
        var i :| 0 <= i < n && rows[..n][i] == Latest(rows[..n], id).value && rows[..n][i].stepId == id
                 && forall j :: i < j < n ==> rows[..n][j].stepId != id;
        assert rows[i] == Latest(rows, id).value;
        assert forall j :: i < j < |rows| ==> rows[j].stepId != id by {
          forall j | i < j < |rows| ensures rows[j].stepId != id { if j < n { assert rows[j] == rows[..n][j]; } }
        }
      } else if rows[n].stepId != id {
        forall i | 0 <= i < |rows| ensures rows[i].stepId != id { if i < n { assert rows[i] == rows[..n][i]; } }
      }
    }
  }

  /** Row k is the last one of the step. */
  ghost predicate LastRow(rows: seq<StepRow>, id: string, k: nat) {
    k < |rows| && rows[k].stepId == id && forall j :: k < j < |rows| ==> rows[j].stepId != id
  }

  /** A step starts from the context of its last row if it is a chunk step, that row FAILED and the job is restarted; else from nothing. */
  lemma InitialMeaning(restart: bool, step: StepDef, rows: seq<StepRow>)
    ensures forall k: nat :: LastRow(rows, step.id, k) && restart && step.kind == ChunkKind && rows[k].status == StepFailed ==>
      InitialContext(restart, step, rows) == rows[k].context
    ensures (!restart || step.kind != ChunkKind || forall k: nat :: LastRow(rows, step.id, k) ==> rows[k].status != StepFailed) ==>
      InitialContext(restart, step, rows) == JNull
  {
    LatestIsLast(rows, step.id);
    hide Latest;
    if Latest(rows, step.id).Some? {
      var i :| 0 <= i < |rows| && rows[i] == Latest(rows, step.id).value && rows[i].stepId == step.id
               && forall j :: i < j < |rows| ==> rows[j].stepId != step.id;
      assert LastRow(rows, step.id, i);
      forall k: nat | LastRow(rows, step.id, k) ensures k == i {
      }
    }
  }

  // ---------------------------------------------------------------- what a routing decision means

  /** The word for a status, in the flow's own terms. */
  ghost function StatusWord(status: StepStatus): string {
    if status == StepCompleted then "COMPLETED" else if status == StepFailed then "FAILED" else "UNKNOWN"
  }

  /**
   * The text whose transitions count.  Asked first is the decider's trimmed answer, if there is a decider and it says
   * anything, else the exit code if there is one, else the word of the status; if no transition matches what is asked
   * first, the word of the status counts.
   */
  ghost function Deciding(def: JobDef, id: string, reply: StepReply): string
    requires reply.Returns?
  {
    var answer := if id in def.deciders && reply.decision.Decides? then Trim(reply.decision.text) else "";
    var first := if answer != "" then answer else if reply.exitCode != "" then reply.exitCode else StatusWord(reply.status);
    if HasMatch(def.transitions, id, first) then first else StatusWord(reply.status)
  }

  lemma ExitIsAsked(def: JobDef, id: string, reply: StepReply)
    requires reply.Returns?
    ensures var exit := ExitStatus(def, id, reply.status, reply.exitCode, if reply.decision.Decides? then reply.decision.text else "");
      Deciding(def, id, reply) == if HasMatch(def.transitions, id, exit) then exit else FlowStatus(reply.status)
  {
    hide HasMatch;
    assert Trim("") == "";
  }

  /**
   * Where the flow goes after a step that returned: to the target of the one most specific matching transition;
   * nowhere if there are several; and if nothing matches, on in declaration order unless the step failed.
   * A failed step therefore ends the job COMPLETED exactly if its winning transition says END.
   */
  lemma RouteMeaning(def: JobDef, id: string, reply: StepReply, target: Option<string>)
    requires reply.Returns? && (id in def.deciders ==> !reply.decision.DeciderThrows?)
    ensures var status := Deciding(def, id, reply);
      var route := AfterStep(def, id, reply);
      if HasMatch(def.transitions, id, status) then
        && (route == Continue(target) <==> exists t :: Winner(def.transitions, id, status, t) && t.toStepId == target)
        && (route == RouteError <==> !exists t :: Winner(def.transitions, id, status, t))
        && !route.Unrouted?
      else route == if reply.status == StepFailed then Unrouted else Continue(NextDeclared(def, id))
  {
    ExitIsAsked(def, id, reply);
    hide HasMatch, Evaluate, Winner, StepIndex, FlowStatus, ExitStatus, Deciding;
    var status := Deciding(def, id, reply);
    if HasMatch(def.transitions, id, status) {
      EvaluateFollowsWinner(def.transitions, id, status, target);
      var result := Evaluate(def.transitions, id, status);
      if result.Ok? {
        EvaluateFollowsWinner(def.transitions, id, status, result.value);
      } else if t :| Winner(def.transitions, id, status, t) {
        EvaluateFollowsWinner(def.transitions, id, status, t.toStepId);
      }
    }
  }

  // ---------------------------------------------------------------- how a job ends

  /** The step names a declared one. */
  ghost predicate Declared(def: JobDef, id: string) {
    exists i :: 0 <= i < |def.steps| && def.steps[i].id == id
  }

  /** Step and decider returned, and the transitions lead on to the target, or declaration order does. */
  ghost predicate LeadsTo(def: JobDef, id: string, reply: StepReply, target: Option<string>) {
    && reply.Returns? && (id in def.deciders ==> !reply.decision.DeciderThrows?)
    && if HasMatch(def.transitions, id, Deciding(def, id, reply))
       then exists t :: Winner(def.transitions, id, Deciding(def, id, reply), t) && t.toStepId == target
       else reply.status != StepFailed && NextDeclared(def, id) == target
  }

  /** Step and decider returned, the step failed, and no transition matches. */
  ghost predicate LeadsNowhere(def: JobDef, id: string, reply: StepReply) {
    && reply.Returns? && (id in def.deciders ==> !reply.decision.DeciderThrows?)
    && reply.status == StepFailed && !HasMatch(def.transitions, id, Deciding(def, id, reply))
  }

  /** The step or its decider threw, or transitions match but none of them wins. */
  ghost predicate LeadsAstray(def: JobDef, id: string, reply: StepReply) {
    || reply.Throws? || (id in def.deciders && reply.decision.DeciderThrows?)
    || (HasMatch(def.transitions, id, Deciding(def, id, reply)) && !exists t :: Winner(def.transitions, id, Deciding(def, id, reply), t))
  }

  /** Where the flow stands after the visits of a path, read off the last of them. */
  ghost predicate StandsAt(def: JobDef, current: Option<string>, replies: seq<StepReply>, path: Path, target: Option<string>)
    requires |path.visits| <= |replies|
  {
    var n := |path.visits|;
    if n == 0 then target == current else LeadsTo(def, path.visits[n - 1].stepId, replies[n - 1], target)
  }

  /** The ending of a path, from the reply of its last step alone. */
  ghost predicate EndsBy(def: JobDef, current: Option<string>, replies: seq<StepReply>, path: Path) {
    var n := |path.visits|;
    && n <= |replies|
    && match path.ending
       case ReachedEnd => StandsAt(def, current, replies, path, None)
       case NoSuchStep => exists id :: StandsAt(def, current, replies, path, Some(id)) && !Declared(def, id)
       case CutOff => n == |replies| && exists id :: StandsAt(def, current, replies, path, Some(id)) && Declared(def, id)
       case FailedUnrouted(code) =>
         n > 0 && LeadsNowhere(def, path.visits[n - 1].stepId, replies[n - 1]) && code == replies[n - 1].exitCode
       case Errored => n > 0 && LeadsAstray(def, path.visits[n - 1].stepId, replies[n - 1])
  }

  lemma DeclaredHasStep(def: JobDef, id: string)
    ensures HasStep(def, id) <==> Declared(def, id)
  {
    var i := StepIndex(def.steps, id);
    if HasStep(def, id) { assert def.steps[i].id == id; }
  }

  lemma AfterLeads(def: JobDef, id: string, reply: StepReply)
    ensures match AfterStep(def, id, reply)
            case Continue(next) => LeadsTo(def, id, reply, next)
            case Unrouted => LeadsNowhere(def, id, reply)
            case RouteError => LeadsAstray(def, id, reply)
  {
    if reply.Returns? && (id in def.deciders ==> !reply.decision.DeciderThrows?) {
      RouteMeaning(def, id, reply, if AfterStep(def, id, reply).Continue? then AfterStep(def, id, reply).next else None);
      hide AfterStep, HasMatch, Winner, Deciding, NextDeclared;
    } else {
      hide HasMatch, Winner, Deciding, NextDeclared, Routed, ExitStatus;
    }
  }

  /**
   * How a job ends, from the reply of its last step: at END exactly if that step leads there, or there was none to
   * run; for a missing step if it leads to a step that is not declared; unrouted, with the exit code of that step,
   * if it failed and no transition matches; with an error if it or its decider threw, or the match is ambiguous.
   */
  lemma {:induction false} PathEnds(def: JobDef, current: Option<string>, replies: seq<StepReply>)
    ensures EndsBy(def, current, replies, Walk(def, current, replies))
    decreases |replies|
  {
    hide Walk, AfterStep, HasStep, Declared, LeadsTo, LeadsNowhere, LeadsAstray;
    WalkUnfolds(def, current, replies);
    if current.Some? {
      DeclaredHasStep(def, current.value);
      if HasStep(def, current.value) && replies != [] {
        AfterLeads(def, current.value, replies[0]);
        match AfterStep(def, current.value, replies[0])
        case Continue(next) =>
          PathEnds(def, next, replies[1..]);
          OneMoreVisit(def, current.value, next, replies, Walk(def, next, replies[1..]));
        case Unrouted => UnroutedReturns(def, current.value, replies[0]);
        case RouteError =>
      }
    }
  }

  lemma UnroutedReturns(def: JobDef, id: string, reply: StepReply)
    requires LeadsNowhere(def, id, reply)
    ensures reply.Returns? && ExitCode(reply) == reply.exitCode
  {
  }

  lemma OneMoreVisit(def: JobDef, id: string, next: Option<string>, replies: seq<StepReply>, rest: Path)
    requires replies != [] && LeadsTo(def, id, replies[0], next) && EndsBy(def, next, replies[1..], rest)
    ensures EndsBy(def, Some(id), replies, Then(Visit(id, FinalStatus(replies[0])), rest))
  {
    hide LeadsTo, LeadsNowhere, LeadsAstray, Declared, FinalStatus;
    var path := Then(Visit(id, FinalStatus(replies[0])), rest);
    var n := |rest.visits|;
    forall target ensures StandsAt(def, Some(id), replies, path, target) <== StandsAt(def, next, replies[1..], rest, target) {
      if n > 0 { assert path.visits[n] == rest.visits[n - 1] && replies[n] == replies[1..][n - 1]; }
    }
    if n > 0 { assert path.visits[n] == rest.visits[n - 1] && replies[n] == replies[1..][n - 1]; }
  }

  // ---------------------------------------------------------------- termination of the flow

  /** Every edge the loop can follow: a transition, or declaration order. */
  ghost predicate Edge(def: JobDef, a: string, b: string) {
    || (exists t :: t in def.transitions && t.fromStepId == a && t.toStepId == Some(b))
    || (HasStep(def, a) && NextDeclared(def, a) == Some(b))
  }

  ghost predicate Falls(def: JobDef, rank: string -> nat) {
    forall a, b :: Edge(def, a, b) ==> rank(b) < rank(a)
  }

  lemma RouteIsEdge(def: JobDef, id: string, reply: StepReply)
    requires HasStep(def, id)
    ensures match AfterStep(def, id, reply)
            case Continue(Some(next)) => Edge(def, id, next)
            case _ => true
  {
    hide StepIndex, Evaluate, HasMatch, FlowStatus, ExitStatus;
    if AfterStep(def, id, reply).Continue? && AfterStep(def, id, reply).next.Some? {
      var exit := ExitStatus(def, id, reply.status, reply.exitCode, if reply.decision.Decides? then reply.decision.text else "");
      TargetIsEdge(def, id, exit);
      TargetIsEdge(def, id, FlowStatus(reply.status));
    }
  }

  lemma TargetIsEdge(def: JobDef, id: string, status: string)
    ensures Choose(def, id, status).Follow? && Choose(def, id, status).target.Some? ==>
      Edge(def, id, Choose(def, id, status).target.value)
  {
    if Choose(def, id, status).Follow? && Choose(def, id, status).target.Some? {
      hide HasMatch, Matches, StepIndex;
      EvaluateFollowsWinner(def.transitions, id, status, Choose(def, id, status).target);
      var t :| Winner(def.transitions, id, status, t) && t.toStepId == Choose(def, id, status).target;
      WinnerDeclared(def.transitions, id, status, t);
    }
  }

  lemma WinnerDeclared(ts: seq<Transition>, id: string, status: string, t: Transition)
    requires Winner(ts, id, status, t)
    ensures t in ts && t.fromStepId == id
  {
    assert t in multiset(ts);
  }

  ghost function Ids(visits: seq<Visit>): seq<string> {
    seq(|visits|, i requires 0 <= i < |visits| => visits[i].stepId)
  }

  ghost predicate Distinct(ids: seq<string>) {
    forall i, j :: 0 <= i < j < |ids| ==> ids[i] != ids[j]
  }

  /** The steps visited exist and their ranks fall; a path cut off was about to visit a step of still lower rank. */
  ghost predicate Descends(def: JobDef, current: Option<string>, path: Path, rank: string -> nat) {
    && (forall i :: 0 <= i < |path.visits| ==> HasStep(def, path.visits[i].stepId))
    && (forall i, j :: 0 <= i < j < |path.visits| ==> rank(path.visits[j].stepId) < rank(path.visits[i].stepId))
    && (path.visits != [] ==> current == Some(path.visits[0].stepId))
    && (path.ending.CutOff? ==> exists next :: Pending(def, current, path, rank, next))
  }

  ghost predicate Pending(def: JobDef, current: Option<string>, path: Path, rank: string -> nat, next: string) {
    && HasStep(def, next)
    && (path.visits == [] ==> current == Some(next))
    && forall i :: 0 <= i < |path.visits| ==> rank(next) < rank(path.visits[i].stepId)
  }

  lemma DescendsThen(def: JobDef, id: string, status: StepStatus, next: Option<string>, rest: Path, rank: string -> nat)
    requires Descends(def, next, rest, rank) && HasStep(def, id) && (next.Some? ==> rank(next.value) < rank(id))
    ensures Descends(def, Some(id), Then(Visit(id, status), rest), rank)
  {
    hide HasStep;
    var path := Then(Visit(id, status), rest);
    forall i | 1 <= i < |path.visits|
      ensures path.visits[i] == rest.visits[i - 1] && rank(path.visits[i].stepId) < rank(id)
    {
      assert rank(rest.visits[i - 1].stepId) <= rank(rest.visits[0].stepId);
    }
    if path.ending.CutOff? {
      var last :| Pending(def, next, rest, rank, last);
      if rest.visits != [] { assert rank(last) < rank(rest.visits[0].stepId); }
      forall i | 0 <= i < |path.visits| ensures rank(last) < rank(path.visits[i].stepId) {
        if i > 0 { assert rank(last) < rank(rest.visits[i - 1].stepId); }
      }
      assert Pending(def, Some(id), path, rank, last);
    }
  }

  lemma {:induction false} RankFallsAlong(def: JobDef, current: Option<string>, replies: seq<StepReply>, rank: string -> nat)
    requires Falls(def, rank)
    ensures Descends(def, current, Walk(def, current, replies), rank)
    ensures Walk(def, current, replies).ending.CutOff? ==> |Walk(def, current, replies).visits| == |replies|
    decreases |replies|
  {
    hide Walk, HasStep, AfterStep, Edge, Falls, Descends;
    WalkUnfolds(def, current, replies);
    if current.Some? && HasStep(def, current.value) && replies != [] {
      var visit := Visit(current.value, FinalStatus(replies[0]));
      OneVisit(def, visit, rank);
      match AfterStep(def, current.value, replies[0])
      case Continue(next) =>
        RankFallsAlong(def, next, replies[1..], rank);
        if next.Some? {
          RouteIsEdge(def, current.value, replies[0]);
          EdgeFalls(def, rank, current.value, next.value);
        }
        DescendsThen(def, current.value, visit.status, next, Walk(def, next, replies[1..]), rank);
      case _ =>
    } else {
      NoVisit(def, current, rank, Walk(def, current, replies));
    }
  }

  lemma OneVisit(def: JobDef, visit: Visit, rank: string -> nat)
    requires HasStep(def, visit.stepId)
    ensures forall ending: Ending :: !ending.CutOff? ==> Descends(def, Some(visit.stepId), Path([visit], ending), rank)
  {
    hide HasStep;
  }

  lemma NoVisit(def: JobDef, current: Option<string>, rank: string -> nat, path: Path)
    requires path.visits == [] && (path.ending.CutOff? ==> current.Some? && HasStep(def, current.value))
    ensures Descends(def, current, path, rank)
  {
    hide HasStep;
    if path.ending.CutOff? { assert Pending(def, current, path, rank, current.value); }
  }

  lemma EdgeFalls(def: JobDef, rank: string -> nat, a: string, b: string)
    requires Falls(def, rank) && Edge(def, a, b)
    ensures rank(b) < rank(a)
  {
    hide Edge;
  }

  ghost function StepIds(steps: seq<StepDef>): set<string> {
    set i | 0 <= i < |steps| :: steps[i].id
  }

  lemma {:induction false} StepIdsBounded(steps: seq<StepDef>)
    ensures |StepIds(steps)| <= |steps|
  {
    if steps != [] {
      var n := |steps| - 1;
      StepIdsBounded(steps[..n]);
      assert StepIds(steps) == StepIds(steps[..n]) + {steps[n].id};
    }
  }

  lemma {:induction false} DistinctFit(ids: seq<string>, pool: set<string>)
    requires Distinct(ids) && forall i :: 0 <= i < |ids| ==> ids[i] in pool
    ensures |ids| <= |pool|
  {
    if ids != [] {
      var n := |ids| - 1;
      assert Distinct(ids[..n]);
      DistinctFit(ids[..n], pool - {ids[n]});
    }
  }

  /**
   * If some rank falls along every transition and along declaration order, then whatever the steps and the
   * deciders do no step runs twice, at most |steps| step executions are created, and the job ends.
   */
  lemma FlowTerminates(def: JobDef, replies: seq<StepReply>, rank: string -> nat)
    requires Falls(def, rank)
    ensures var path := Walk(def, Some(def.startStepId), replies);
            && Distinct(Ids(path.visits))
            && |path.visits| <= |def.steps|
            && (|replies| >= |def.steps| ==> !path.ending.CutOff?)
  {
    hide Walk, Falls;
    var path := Walk(def, Some(def.startStepId), replies);
    RankFallsAlong(def, Some(def.startStepId), replies, rank);
    var ids := Ids(path.visits);
    assert Distinct(ids) by {
      forall i, j | 0 <= i < j < |ids| ensures ids[i] != ids[j] {
        assert rank(path.visits[j].stepId) < rank(path.visits[i].stepId);
      }
    }
    StepIdsBounded(def.steps);
    DistinctFit(ids, StepIds(def.steps));
    if path.ending.CutOff? {
      var next :| Pending(def, Some(def.startStepId), path, rank, next);
      var more := ids + [next];
      assert Distinct(more) by {
        forall i, j | 0 <= i < j < |more| ensures more[i] != more[j] {
          if j == |ids| { assert rank(next) < rank(path.visits[i].stepId); }
        }
      }
      DistinctFit(more, StepIds(def.steps));
    }
  }

  ghost predicate DistinctSteps(steps: seq<StepDef>) {
    forall i, j :: 0 <= i < j < |steps| ==> steps[i].id != steps[j].id
  }

  lemma IndexOfStep(def: JobDef, k: nat)
    requires DistinctSteps(def.steps) && k < |def.steps|
    ensures HasStep(def, def.steps[k].id)
    ensures NextDeclared(def, def.steps[k].id) == if k + 1 < |def.steps| then Some(def.steps[k + 1].id) else None
  {
    var i := StepIndex(def.steps, def.steps[k].id);
    hide StepIndex;
    assert i == k;
  }

  /** The declared steps from k on, each with the status it returned, and then the end. */
  ghost predicate VisitsFrom(steps: seq<StepDef>, k: nat, replies: seq<StepReply>, path: Path) {
    && path.ending == ReachedEnd && |path.visits| == |steps| - k <= |replies|
    && forall i :: 0 <= i < |path.visits| ==> path.visits[i] == Visit(steps[k + i].id, FinalStatus(replies[i]))
  }

  /** The step returned without failing, and so did its decider, if it has one. */
  ghost predicate Succeeds(def: JobDef, id: string, reply: StepReply) {
    reply.Returns? && reply.status != StepFailed && (id in def.deciders ==> !reply.decision.DeciderThrows?)
  }

  /** Without transitions and failures the job runs the declared steps from the start step on, in order, and completes. */
  lemma {:induction false} LinearFlow(def: JobDef, k: nat, replies: seq<StepReply>)
    requires def.transitions == [] && k < |def.steps| && |replies| >= |def.steps| - k
    requires DistinctSteps(def.steps)
    requires forall i :: 0 <= i < |def.steps| - k ==> Succeeds(def, def.steps[k + i].id, replies[i])
    ensures VisitsFrom(def.steps, k, replies, Walk(def, Some(def.steps[k].id), replies))
    decreases |def.steps| - k
  {
    hide StepIndex, AfterStep, HasStep, NextDeclared, Walk, DistinctSteps, Succeeds, FinalStatus;
    var id := def.steps[k].id;
    assert Succeeds(def, def.steps[k + 0].id, replies[0]);
    LinearRoute(def, id, replies[0]);
    IndexOfStep(def, k);
    WalkUnfolds(def, Some(id), replies);
    WalkUnfolds(def, None, replies[1..]);
    var path := Walk(def, Some(id), replies);
    var visit := Visit(id, FinalStatus(replies[0]));
    if k + 1 < |def.steps| {
      forall i | 0 <= i < |def.steps| - (k + 1) ensures Succeeds(def, def.steps[k + 1 + i].id, replies[1..][i]) {
        assert Succeeds(def, def.steps[k + (i + 1)].id, replies[i + 1]);
      }
      LinearFlow(def, k + 1, replies[1..]);
      var rest := Walk(def, Some(def.steps[k + 1].id), replies[1..]);
      assert path == Then(visit, rest);
      forall i | 0 <= i < |path.visits| ensures path.visits[i] == Visit(def.steps[k + i].id, FinalStatus(replies[i])) {
        if i > 0 { assert path.visits[i] == rest.visits[i - 1] && replies[1..][i - 1] == replies[i]; }
      }
    } else {
      assert path == Then(visit, Path([], ReachedEnd));
    }
  }

  lemma LinearRoute(def: JobDef, id: string, reply: StepReply)
    requires def.transitions == [] && Succeeds(def, id, reply)
    ensures AfterStep(def, id, reply) == Continue(NextDeclared(def, id))
  {
    hide StepIndex, ExitStatus, Evaluate;
  }

  // ---------------------------------------------------------------- what the definition check leaves open

  /** Acyclic in the sense of the definition check: along explicit transitions only. */
  ghost predicate TransitionsFall(def: JobDef, rank: string -> nat) {
    forall t :: t in def.transitions && t.toStepId.Some? ==> rank(t.toStepId.value) < rank(t.fromStepId)
  }

  const BACKWARD := JobDef(
    [StepDef("a", TaskletKind), StepDef("b", TaskletKind)], "b", [Transition("b", "COMPLETED", Some("a"))], {}, {}, false)

  const SUCCESS := Returns(StepCompleted, "COMPLETED", Decides(""), JNull)

  ghost function Successes(n: nat): seq<StepReply> {
    if n == 0 then [] else [SUCCESS] + Successes(n - 1)
  }

  lemma BackwardRoutes()
    ensures HasStep(BACKWARD, "a") && HasStep(BACKWARD, "b")
    ensures AfterStep(BACKWARD, "b", SUCCESS) == Continue(Some("a"))
    ensures AfterStep(BACKWARD, "a", SUCCESS) == Continue(Some("b"))
  {
    BackwardEvaluates();
    BackwardSteps();
    hide HasMatch, Evaluate, StepIndex;
  }

  lemma BackwardSteps()
    ensures StepIndex(BACKWARD.steps, "a") == 0 && StepIndex(BACKWARD.steps, "b") == 1
  {
    assert BACKWARD.steps[1..][0].id == "b";
  }

  lemma BackwardEvaluates()
    ensures Evaluate(BACKWARD.transitions, "b", "COMPLETED") == Ok(Some("a"))
    ensures HasMatch(BACKWARD.transitions, "b", "COMPLETED") && !HasMatch(BACKWARD.transitions, "a", "COMPLETED")
  {
    var t := Transition("b", "COMPLETED", Some("a"));
    var ts := BACKWARD.transitions;
    assert ts == [t] && ts[1..] == [];
    assert !HasWildcard("COMPLETED");
    assert Matches(t, "b", "COMPLETED") && !Matches(t, "a", "COMPLETED");
    assert Matching(ts, "b", "COMPLETED") == [t] + Matching([], "b", "COMPLETED") == [t];
    assert [t][1..] == [];
    assert OfSpecificity([t], Specificity(t.onStatus)) == [t] + OfSpecificity([], Specificity(t.onStatus)) == [t];
    assert MaxSpecificity([t]) == Max(Specificity(t.onStatus), MaxSpecificity([])) == Specificity(t.onStatus);
    assert Evaluate(ts, "b", "COMPLETED") == Ok(Some("a"));
    assert Matches(ts[0], "b", "COMPLETED");
  }

  lemma {:induction false} BackwardRuns(n: nat)
    ensures Walk(BACKWARD, Some("a"), Successes(n)).ending == CutOff && |Walk(BACKWARD, Some("a"), Successes(n)).visits| == n
    ensures Walk(BACKWARD, Some("b"), Successes(n)).ending == CutOff && |Walk(BACKWARD, Some("b"), Successes(n)).visits| == n
  {
    hide AfterStep, HasStep;
    BackwardRoutes();
    if n > 0 {
      BackwardRuns(n - 1);
      assert Successes(n)[1..] == Successes(n - 1) && Successes(n)[0] == SUCCESS;
    }
  }

  /**
   * Acyclic transitions do not make the flow terminate: this job, whose transitions are acyclic and reach
   * every step, runs n steps for every n, each of them successful, because declaration order closes the cycle.
   */
  lemma AcyclicTransitionsMayLoop(n: nat)
    ensures TransitionsFall(BACKWARD, id => if id == "b" then 1 else 0)
    ensures var path := Walk(BACKWARD, Some(BACKWARD.startStepId), Successes(n));
            path.ending == CutOff && |path.visits| == n
  {
    BackwardRuns(n);
  }
}
