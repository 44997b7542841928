/**
 * Exactly when the job flow ends (packages/core/src/execution/job-executor.ts:154-363): the edges the loop can
 * really follow, and the cycles among them.  The definition check looks at other edges
 * (packages/core/src/core/validation/definition-validator.ts:192-214).
 */
module FlowTermination {
  import opened Common
  import opened Text
  import opened Checkpoint
  import opened Statuses
  import opened FlowEvaluator
  import opened JobExecutor

  // ---------------------------------------------------------------- the edges of the flow

  /** Some reply that step a can give takes the flow on to b. */
  ghost predicate CanFollow(def: JobDef, a: string, b: string) {
    exists reply :: CanReply(def, a, reply) && AfterStep(def, a, reply) == Continue(Some(b))
  }

  /**
   * The texts a step can be routed by: its status and exit code are COMPLETED or FAILED, a decider may answer
   * any trimmed text, and a listener may set any exit code.
   */
  predicate CanDecide(def: JobDef, a: string, status: string) {
    || status == "COMPLETED" || status == "FAILED"
    || (status != "" && (a in def.rewritten || (a in def.deciders && Trimmed(status))))
  }

  /** For some text that step a can be routed by a transition to b wins. */
  ghost predicate Wins(def: JobDef, a: string, b: string) {
    exists status, t :: CanDecide(def, a, status) && Winner(def.transitions, a, status, t) && t.toStepId == Some(b)
  }

  /** A step that did not fail may match no transition; one that is neither COMPLETED nor FAILED, only if a listener made it so. */
  predicate FallsThrough(def: JobDef, a: string) {
    !HasMatch(def.transitions, a, "COMPLETED") || (a in def.rewritten && !HasMatch(def.transitions, a, "UNKNOWN"))
  }

  /** The edges read off the definition: winning transitions, and declaration order where it is ever consulted. */
  lemma CanFollowIff(def: JobDef, a: string, b: string)
    ensures CanFollow(def, a, b) <==> Wins(def, a, b) || (FallsThrough(def, a) && NextDeclared(def, a) == Some(b))
  {
    hide AfterStep, HasMatch, Winner, StepIndex, FallsThrough, NextDeclared, CanReply, CanDecide;
    if reply :| CanReply(def, a, reply) && AfterStep(def, a, reply) == Continue(Some(b)) {
      FollowedIsEdge(def, a, b, reply);
    }
    if status, t :| CanDecide(def, a, status) && Winner(def.transitions, a, status, t) && t.toStepId == Some(b) {
      WinnerFollowed(def, a, b, status, t);
    }
    if FallsThrough(def, a) && NextDeclared(def, a) == Some(b) {
      FallFollowed(def, a, b);
    }
  }

  lemma ThrowsNowhere(def: JobDef, a: string, reply: StepReply)
    requires AfterStep(def, a, reply).Continue?
    ensures reply.Returns? && (a in def.deciders ==> !reply.decision.DeciderThrows?)
  {
  }

  /** What decides after a possible reply; without any match it is the mapped status, UNKNOWN only by a listener. */
  lemma DecidingPossible(def: JobDef, a: string, reply: StepReply)
    requires reply.Returns? && CanReply(def, a, reply)
    ensures CanDecide(def, a, Deciding(def, a, reply))
    ensures !HasMatch(def.transitions, a, Deciding(def, a, reply)) ==>
      Deciding(def, a, reply) == FlowStatus(reply.status)
    ensures reply.status != StepFailed ==> FlowStatus(reply.status) == "COMPLETED" || (FlowStatus(reply.status) == "UNKNOWN" && a in def.rewritten)
  {
    hide HasMatch, Trim, Trimmed;
    EmptyTrim();
    if reply.decision.Decides? { TrimmedIff(reply.decision.text); }
  }

  lemma FollowedIsEdge(def: JobDef, a: string, b: string, reply: StepReply)
    requires CanReply(def, a, reply) && AfterStep(def, a, reply) == Continue(Some(b))
    ensures Wins(def, a, b) || (FallsThrough(def, a) && NextDeclared(def, a) == Some(b))
  {
    ThrowsNowhere(def, a, reply);
    RouteMeaning(def, a, reply, Some(b));
    DecidingPossible(def, a, reply);
    hide AfterStep, HasMatch, Winner, NextDeclared, Deciding, CanDecide, CanReply;
    var status := Deciding(def, a, reply);
    if HasMatch(def.transitions, a, status) {
      var t :| Winner(def.transitions, a, status, t) && t.toStepId == Some(b);
      assert Wins(def, a, b);
    }
  }

  /** A reply that is routed by a given text: the exit code, or else the answer of the decider. */
  lemma WinnerFollowed(def: JobDef, a: string, b: string, status: string, t: Transition)
    requires CanDecide(def, a, status) && Winner(def.transitions, a, status, t) && t.toStepId == Some(b)
    ensures CanFollow(def, a, b)
  {
    WinnerMatches(def.transitions, a, status, t);
    var reply := ReplyFor(def, a, status);
    ReplyDecides(def, a, status);
    RouteMeaning(def, a, reply, Some(b));
    hide AfterStep, CanReply;
    assert AfterStep(def, a, reply) == Continue(Some(b));
  }

  function ReplyFor(def: JobDef, a: string, status: string): StepReply {
    if status == "FAILED" then Returns(StepFailed, status, Decides(""), JNull)
    else if status == "COMPLETED" || a in def.rewritten then Returns(StepCompleted, status, Decides(""), JNull)
    else Returns(StepCompleted, "COMPLETED", Decides(status), JNull)
  }

  lemma ReplyDecides(def: JobDef, a: string, status: string)
    requires CanDecide(def, a, status) && HasMatch(def.transitions, a, status)
    ensures var reply := ReplyFor(def, a, status);
      CanReply(def, a, reply) && reply.decision.Decides? && Deciding(def, a, reply) == status
  {
    hide HasMatch, Trimmed, Trim;
    EmptyTrim();
    TrimmedIff(status);
  }

  lemma EmptyTrim()
    ensures Trim("") == ""
  {
  }

  lemma WinnerMatches(ts: seq<Transition>, a: string, status: string, t: Transition)
    requires Winner(ts, a, status, t)
    ensures HasMatch(ts, a, status)
  {
    assert t in multiset(ts);
    var i :| 0 <= i < |ts| && ts[i] == t;
    assert Matches(ts[i], a, status);
  }

  lemma FallFollowed(def: JobDef, a: string, b: string)
    requires FallsThrough(def, a) && NextDeclared(def, a) == Some(b)
    ensures CanFollow(def, a, b)
  {
    var reply := if HasMatch(def.transitions, a, "COMPLETED") then Returns(StepStopped, "", Decides(""), JNull)
                 else Returns(StepCompleted, "COMPLETED", Decides(""), JNull);
    UnmatchedDecides(def, a, reply);
    RouteMeaning(def, a, reply, Some(b));
    hide AfterStep, HasMatch, NextDeclared;
    assert CanReply(def, a, reply);
    assert AfterStep(def, a, reply) == Continue(Some(b));
  }

  lemma UnmatchedDecides(def: JobDef, a: string, reply: StepReply)
    requires reply.Returns? && reply.decision == Decides("") && (reply.exitCode == "" || reply.exitCode == FlowStatus(reply.status))
    ensures Deciding(def, a, reply) == FlowStatus(reply.status)
  {
    hide HasMatch, Trim;
    EmptyTrim();
  }

  // ---------------------------------------------------------------- paths and cycles

  ghost predicate Connected(def: JobDef, path: seq<string>) {
    && path != [] && (forall k :: 0 <= k < |path| ==> HasStep(def, path[k]))
    && forall k :: 0 <= k < |path| - 1 ==> CanFollow(def, path[k], path[k + 1])
  }

  ghost predicate FlowPath(def: JobDef, path: seq<string>) {
    Connected(def, path) && path[0] == def.startStepId
  }

  /** No path of the flow comes back to a step: no cycle is reachable from the start step. */
  ghost predicate NoCycle(def: JobDef) {
    forall path :: FlowPath(def, path) ==> Distinct(path)
  }

  /** Each step of a run gives a reply that it can give. */
  ghost predicate Possible(def: JobDef, current: Option<string>, replies: seq<StepReply>)
    decreases |replies|
  {
    current.Some? && HasStep(def, current.value) && replies != [] ==>
      && CanReply(def, current.value, replies[0])
      && match AfterStep(def, current.value, replies[0])
         case Continue(next) => Possible(def, next, replies[1..])
         case _ => true
  }

  /** Whatever the steps and deciders do, the job ends after at most as many steps as are declared. */
  ghost predicate AlwaysEnds(def: JobDef) {
    forall replies :: |replies| >= |def.steps| && Possible(def, Some(def.startStepId), replies) ==>
      !Walk(def, Some(def.startStepId), replies).ending.CutOff?
  }

  /** For every n some replies of n steps leave the job still running. */
  ghost predicate MayRunForEver(def: JobDef) {
    forall n: nat :: RunsFor(def, n)
  }

  ghost predicate RunsFor(def: JobDef, n: nat) {
    exists replies :: |replies| == n && Possible(def, Some(def.startStepId), replies) && GoesOn(Walk(def, Some(def.startStepId), replies), n)
  }

  ghost predicate GoesOn(path: Path, n: nat) {
    path.ending.CutOff? && |path.visits| == n
  }

  /** The steps of a run that is still going, and the step it would run next. */
  lemma {:induction false} StepsOfRun(def: JobDef, current: string, replies: seq<StepReply>) returns (path: seq<string>)
    requires Walk(def, Some(current), replies).ending.CutOff? && Possible(def, Some(current), replies)
    ensures Connected(def, path) && path[0] == current && |path| == |replies| + 1
    decreases |replies|
  {
    hide Walk, AfterStep, HasStep, CanReply;
    WalkUnfolds(def, Some(current), replies);
    if replies == [] {
      path := [current];
    } else {
      var next := AfterStep(def, current, replies[0]).next;
      WalkUnfolds(def, next, replies[1..]);
      var rest := StepsOfRun(def, next.value, replies[1..]);
      assert CanFollow(def, current, rest[0]);
      path := [current] + rest;
      Prepended(def, current, rest);
    }
  }

  lemma Prepended(def: JobDef, first: string, rest: seq<string>)
    requires Connected(def, rest) && HasStep(def, first) && CanFollow(def, first, rest[0])
    ensures Connected(def, [first] + rest)
  {
    hide CanFollow, HasStep;
    var path := [first] + rest;
    forall k | 0 <= k < |path| - 1 ensures CanFollow(def, path[k], path[k + 1]) {
      if k > 0 { assert path[k] == rest[k - 1] && path[k + 1] == rest[k]; }
    }
  }

  /** Every path of the flow is run by some outcomes of its steps. */
  lemma {:induction false} RunOfSteps(def: JobDef, path: seq<string>) returns (replies: seq<StepReply>)
    requires Connected(def, path)
    ensures |replies| == |path| - 1 && GoesOn(Walk(def, Some(path[0]), replies), |replies|)
    ensures Possible(def, Some(path[0]), replies)
    decreases |path|
  {
    hide Walk, AfterStep, HasStep, CanReply;
    if |path| == 1 {
      replies := [];
      WalkUnfolds(def, Some(path[0]), []);
    } else {
      Rest(def, path);
      var rest := RunOfSteps(def, path[1..]);
      assert CanFollow(def, path[0], path[1]);
      var reply :| CanReply(def, path[0], reply) && AfterStep(def, path[0], reply) == Continue(Some(path[1]));
      replies := [reply] + rest;
      assert replies[1..] == rest;
      WalkUnfolds(def, Some(path[0]), replies);
    }
  }

  lemma Rest(def: JobDef, path: seq<string>)
    requires Connected(def, path) && |path| > 1
    ensures Connected(def, path[1..]) && CanFollow(def, path[0], path[1])
  {
    hide CanFollow, HasStep;
    forall k | 0 <= k < |path[1..]| - 1 ensures CanFollow(def, path[1..][k], path[1..][k + 1]) {
      assert path[1..][k] == path[k + 1] && path[1..][k + 1] == path[k + 2];
    }
  }

  /** Going round a cycle: a path to a step visited twice can be made as long as one likes. */
  lemma {:induction false} GoRound(def: JobDef, path: seq<string>, i: nat, j: nat, extra: nat) returns (longer: seq<string>, at: nat)
    requires FlowPath(def, path) && i < j < |path| && path[i] == path[j]
    ensures FlowPath(def, longer) && |longer| == j + 1 + extra
    ensures i <= at <= j && longer[|longer| - 1] == path[at]
    decreases extra
  {
    hide CanFollow, HasStep;
    if extra == 0 {
      longer, at := path[..j + 1], j;
    } else {
      longer, at := GoRound(def, path, i, j, extra - 1);
      var from := if at == j then i else at;
      assert CanFollow(def, path[from], path[from + 1]);
      Appended(def, longer, path[from + 1]);
      longer, at := longer + [path[from + 1]], from + 1;
    }
  }

  lemma Appended(def: JobDef, path: seq<string>, last: string)
    requires FlowPath(def, path) && HasStep(def, last) && CanFollow(def, path[|path| - 1], last)
    ensures FlowPath(def, path + [last])
  {
    hide CanFollow, HasStep;
  }

  lemma PrefixPath(def: JobDef, path: seq<string>, n: nat)
    requires FlowPath(def, path) && 0 < n <= |path|
    ensures FlowPath(def, path[..n])
  {
    hide CanFollow, HasStep;
  }

  /** A path longer than the number of steps visits one of them twice. */
  lemma TooLongRepeats(def: JobDef, path: seq<string>)
    requires Connected(def, path) && |path| > |def.steps|
    ensures !Distinct(path)
  {
    if Distinct(path) {
      forall k | 0 <= k < |path| ensures path[k] in StepIds(def.steps) {
        HasStepMeans(def, path[k]);
        var i := StepIndex(def.steps, path[k]);
        assert def.steps[i].id == path[k];
      }
      StepIdsBounded(def.steps);
      DistinctFit(path, StepIds(def.steps));
    }
  }

  lemma CycleRunsFor(def: JobDef, path: seq<string>, n: nat)
    requires FlowPath(def, path) && !Distinct(path)
    ensures RunsFor(def, n)
  {
    hide FlowPath, Walk, Possible;
    var i, j :| 0 <= i < j < |path| && path[i] == path[j];
    var longer, at := GoRound(def, path, i, j, n);
    PrefixPath(def, longer, n + 1);
    StartsAtStart(def, longer[..n + 1]);
    var replies := RunOfSteps(def, longer[..n + 1]);
    assert |replies| == n;
  }

  lemma StartsAtStart(def: JobDef, path: seq<string>)
    requires FlowPath(def, path)
    ensures Connected(def, path) && path[0] == def.startStepId
  {
  }

  /**
   * The flow of a job always ends, and then within as many steps as are declared, if and only if no cycle of
   * edges that the loop can follow is reachable from the start step.  Otherwise it may run for ever.
   */
  lemma FlowEndsIff(def: JobDef)
    ensures AlwaysEnds(def) <==> NoCycle(def)
    ensures MayRunForEver(def) <==> !NoCycle(def)
  {
    hide Walk, FlowPath, Distinct, Possible;
    if NoCycle(def) {
      forall replies | |replies| >= |def.steps| && Possible(def, Some(def.startStepId), replies)
        ensures !Walk(def, Some(def.startStepId), replies).ending.CutOff? {
        if Walk(def, Some(def.startStepId), replies).ending.CutOff? {
          CutOffHasCycle(def, replies);
        }
      }
      assert !RunsFor(def, |def.steps|);
    } else {
      var path :| FlowPath(def, path) && !Distinct(path);
      forall n: nat ensures RunsFor(def, n) { CycleRunsFor(def, path, n); }
      assert RunsFor(def, |def.steps|);
    }
  }

  lemma CutOffHasCycle(def: JobDef, replies: seq<StepReply>)
    requires |replies| >= |def.steps| && Possible(def, Some(def.startStepId), replies)
    requires Walk(def, Some(def.startStepId), replies).ending.CutOff?
    ensures !NoCycle(def)
  {
    hide Walk, Possible;
    var path := StepsOfRun(def, def.startStepId, replies);
    TooLongRepeats(def, path);
    assert FlowPath(def, path);
  }

  /** A rank that falls along every edge is a reason for there to be no cycle, but not the only one. */
  lemma RankedHasNoCycle(def: JobDef, rank: string -> nat)
    requires Falls(def, rank)
    ensures NoCycle(def)
  {
    hide Walk, Falls, Possible;
    forall replies | |replies| >= |def.steps| ensures !Walk(def, Some(def.startStepId), replies).ending.CutOff? {
      FlowTerminates(def, replies, rank);
    }
    FlowEndsIff(def);
  }

  /** b goes on to a, and a always ends the job, though b is declared after it. */
  const WITHOUT_RANK := JobDef(
    [StepDef("a", ChunkKind), StepDef("b", ChunkKind)], "b",
    [Transition("b", "COMPLETED", Some("a")), Transition("a", "COMPLETED", None), Transition("a", "FAILED", None)], {}, {}, false)

  lemma WithoutRankEdges(a: string, b: string)
    requires CanFollow(WITHOUT_RANK, a, b)
    ensures a == "b" && b == "a"
  {
    hide Winner, CanDecide, FallsThrough, NextDeclared, CanFollow;
    var ts := WITHOUT_RANK.transitions;
    CanFollowIff(WITHOUT_RANK, a, b);
    if status, t :| CanDecide(WITHOUT_RANK, a, status) && Winner(ts, a, status, t) && t.toStepId == Some(b) {
      WinnerDeclared(ts, a, status, t);
    } else {
      NeverFallsThrough();
      DeclaredOrder(a, b);
    }
  }

  lemma NeverFallsThrough()
    ensures !FallsThrough(WITHOUT_RANK, "a")
  {
    assert Matches(WITHOUT_RANK.transitions[1], "a", "COMPLETED");
  }

  lemma DeclaredOrder(a: string, b: string)
    requires NextDeclared(WITHOUT_RANK, a) == Some(b)
    ensures a == "a"
  {
    assert WITHOUT_RANK.steps[1..][0].id == "b" && |WITHOUT_RANK.steps[1..]| == 1;
  }

  /** No rank falls along all transitions and declaration order, yet the job always ends. */
  lemma EndsWithoutRank()
    ensures AlwaysEnds(WITHOUT_RANK) && forall rank :: !Falls(WITHOUT_RANK, rank)
  {
    forall path | FlowPath(WITHOUT_RANK, path) ensures Distinct(path) {
      if |path| > 1 {
        assert CanFollow(WITHOUT_RANK, path[0], path[1]);
        WithoutRankEdges(path[0], path[1]);
        if |path| > 2 {
          assert CanFollow(WITHOUT_RANK, path[1], path[2]);
          WithoutRankEdges(path[1], path[2]);
        }
      }
    }
    FlowEndsIff(WITHOUT_RANK);
    forall rank ensures !Falls(WITHOUT_RANK, rank) { NoRankFalls(rank); }
  }

  /** The same job with a listener that may rewrite the result of a: a result that is neither of the two goes on to b. */
  const LISTENED := WITHOUT_RANK.(rewritten := {"a"})

  lemma ListenerMayLoop()
    ensures MayRunForEver(LISTENED)
  {
    ListenedEdges();
    hide CanFollow;
    var path := ["b", "a", "b"];
    assert StepIndex(LISTENED.steps[1..], "b") == 0 && HasStep(LISTENED, "a") && HasStep(LISTENED, "b");
    assert FlowPath(LISTENED, path) && path[0] == path[2];
    FlowEndsIff(LISTENED);
  }

  lemma ListenedEdges()
    ensures CanFollow(LISTENED, "b", "a") && CanFollow(LISTENED, "a", "b")
  {
    hide CanFollow, Wins, FallsThrough;
    ListenedWins();
    ListenedFalls();
    CanFollowIff(LISTENED, "b", "a");
    CanFollowIff(LISTENED, "a", "b");
  }

  lemma ListenedWins()
    ensures Wins(LISTENED, "b", "a")
  {
    var ts := LISTENED.transitions;
    assert Matches(ts[0], "b", "COMPLETED") && multiset(ts)[ts[0]] == 1;
    assert Winner(ts, "b", "COMPLETED", ts[0]);
  }

  lemma ListenedFalls()
    ensures FallsThrough(LISTENED, "a") && NextDeclared(LISTENED, "a") == Some("b")
  {
    var ts := LISTENED.transitions;
    assert LISTENED.steps[1..][0].id == "b";
    forall t | t in ts ensures !Matches(t, "a", "UNKNOWN") {}
  }

  lemma NoRankFalls(rank: string -> nat)
    ensures !Falls(WITHOUT_RANK, rank)
  {
    assert WITHOUT_RANK.transitions[0] in WITHOUT_RANK.transitions;
    assert Edge(WITHOUT_RANK, "b", "a");
    assert WITHOUT_RANK.steps[1..][0].id == "b";
    assert NextDeclared(WITHOUT_RANK, "a") == Some("b");
    assert Edge(WITHOUT_RANK, "a", "b");
  }
}
