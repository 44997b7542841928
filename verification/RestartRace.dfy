/**
 * Both ways in which a restart that takes no lock breaks mutual exclusion, as runs of the launch protocol: one job
 * instance whose first execution failed, and a second launch of it.
 */
module RestartRace {
  import opened Common
  import opened Statuses
  import opened LaunchProtocol

  const PAIR := InstanceRow("job", "key", None)
  const OWN := InstanceRow("job", "key", Some(0))

  /** The k-th statement of the story: the first launch and its failure, then the second launch. */
  ghost function Statement(k: nat): Action {
    match k
    case 0 => Begin(0, "job", "key")
    case 1 => InsertInstance(0, 0)
    case 2 => LockInstance(0, 0)
    case 3 => FindNoneRunning(0)
    case 4 => CreateExecution(0, 0)
    case 5 => Commit(0)
    case 6 => UpdateStatus(0, JobFailed)
    case 7 => Begin(1, "job", "key")
    case 8 => InsertInstance(1, 1)
    case 9 => LockInstance(1, 0)
    case 10 => FindNoneRunning(1)
    case 11 => CreateExecution(1, 1)
    case _ => Commit(1)
  }

  ghost function FirstLaunch(instances: map<InstanceId, InstanceRow>, locked: bool, stage: Stage): Database {
    Database(instances, if locked then map[0 := 0] else map[], map[], map[0 := Launch("job", "key", stage)])
  }

  /** The database with the first execution in a given status and the second launch at a given stage. */
  ghost function SecondLaunch(status: JobStatus, locked: bool, stage: Stage): Database {
    Database(map[0 := PAIR], if locked then map[0 := 1] else map[], map[0 := ExecutionRow(0, status, None)],
             map[1 := Launch("job", "key", stage)])
  }

  ghost function BothExecutions(status: JobStatus, committed: bool): Database {
    Database(map[0 := PAIR], if committed then map[] else map[0 := 1],
             map[0 := ExecutionRow(0, status, None), 1 := ExecutionRow(0, JobStarting, if committed then None else Some(1))],
             if committed then map[] else map[1 := Launch("job", "key", CommitNext(0, 1))])
  }

  /** The database after the first k statements. */
  ghost function After(k: nat): Database {
    match k
    case 0 => EMPTY
    case 1 => FirstLaunch(map[], false, InsertNext)
    case 2 => FirstLaunch(map[0 := OWN], false, LockNext)
    case 3 => FirstLaunch(map[0 := OWN], true, CheckNext(0))
    case 4 => FirstLaunch(map[0 := OWN], true, CreateNext(0))
    case 5 => FirstLaunch(map[0 := OWN], true, CommitNext(0, 0)).(executions := map[0 := ExecutionRow(0, JobStarting, Some(0))])
    case 6 => Database(map[0 := PAIR], map[], map[0 := ExecutionRow(0, JobStarting, None)], map[])
    case 7 => Database(map[0 := PAIR], map[], map[0 := ExecutionRow(0, JobFailed, None)], map[])
    case 8 => SecondLaunch(JobFailed, false, InsertNext)
    case 9 => SecondLaunch(JobFailed, false, LockNext)
    case 10 => SecondLaunch(JobFailed, true, CheckNext(0))
    case 11 => SecondLaunch(JobFailed, true, CreateNext(0))
    case 12 => BothExecutions(JobFailed, false)
    case _ => BothExecutions(JobFailed, true)
  }

  ghost predicate Leads(before: Database, a: Action, after: Database) {
    Enabled(before, a) && Apply(before, a) == after
  }

  lemma FirstHalf()
    ensures Leads(After(0), Statement(0), After(1)) && Leads(After(1), Statement(1), After(2))
    ensures Leads(After(2), Statement(2), After(3)) && Leads(After(3), Statement(3), After(4))
  {
    hide Finish;
  }

  lemma FirstCommit()
    ensures Leads(After(4), Statement(4), After(5)) && Leads(After(5), Statement(5), After(6))
  {
  }

  lemma FirstFails()
    ensures Leads(After(6), Statement(6), After(7)) && Leads(After(7), Statement(7), After(8))
  {
    hide Finish;
  }

  lemma SecondLocks()
    ensures Leads(After(8), Statement(8), After(9)) && Leads(After(9), Statement(9), After(10))
  {
    hide Finish;
    assert 0 in After(8).instances && SamePair(After(8).instances[0], After(8).launches[1]);
  }

  lemma SecondChecks()
    ensures Leads(After(10), Statement(10), After(11))
  {
    hide Finish;
    forall e | e in After(10).executions ensures !SeenRunning(After(10), 1, 0, e) {
      assert e == 0;
    }
  }

  /** The second launch inserts and commits, whatever has become of the first execution. */
  lemma SecondInserts(status: JobStatus)
    ensures Leads(SecondLaunch(status, true, CreateNext(0)), Statement(11), BothExecutions(status, false))
    ensures Leads(BothExecutions(status, false), Statement(12), BothExecutions(status, true))
  {
    hide SamePair, Lockable, SeenRunning;
    SecondCommits(status);
    hide Finish;
  }

  lemma SecondCommits(status: JobStatus)
    ensures Finish(BothExecutions(status, false), 1, true) == BothExecutions(status, true)
  {
  }

  ghost function Story(k: nat): seq<Action> {
    if k == 0 then [] else Story(k - 1) + [Statement(k - 1)]
  }

  lemma {:induction false} ReachesThen(before: Database, actions: seq<Action>, mid: Database, a: Action, after: Database)
    requires Reaches(before, actions, mid) && Leads(mid, a, after)
    ensures Reaches(before, actions + [a], after)
    decreases |actions|
  {
    hide Apply, Enabled;
    if actions == [] {
      assert actions + [a] == [a] && [a][1..] == [];
    } else {
      ReachesThen(Apply(before, actions[0]), actions[1..], mid, a, after);
      assert (actions + [a])[1..] == actions[1..] + [a];
    }
  }

  lemma {:induction false} StoryHappens(k: nat)
    requires k <= 13
    ensures Reaches(EMPTY, Story(k), After(k))
  {
    hide Statement, Leads, Reaches;
    if k == 0 {
      NoStep(EMPTY);
    } else {
      hide After;
      StoryHappens(k - 1);
      EachLeads(k - 1);
      ReachesThen(EMPTY, Story(k - 1), After(k - 1), Statement(k - 1), After(k));
    }
  }

  lemma EachLeads(k: nat)
    requires k < 13
    ensures Leads(After(k), Statement(k), After(k + 1))
  {
    FirstHalf();
    FirstCommit();
    FirstFails();
    SecondLocks();
    SecondChecks();
    SecondInserts(JobFailed);
    hide Leads, Statement, BothExecutions, SecondLaunch, FirstLaunch;
    assert After(11) == SecondLaunch(JobFailed, true, CreateNext(0));
    assert After(12) == BothExecutions(JobFailed, false) && After(13) == BothExecutions(JobFailed, true);
  }

  lemma BothRun(committed: bool)
    ensures !OneRunning(BothExecutions(JobStarted, committed))
  {
    var db := BothExecutions(JobStarted, committed);
    assert Running(db.executions[0].status) && Running(db.executions[1].status);
  }

  /** The first way: another execution runs at the restart, and two run at once. */
  lemma RestartBesideRunning()
    ensures Reaches(EMPTY, Story(13), After(13)) && 0 in After(13).executions && !Running(After(13).executions[0].status)
    ensures !OneRunning(Resumed(After(13), 0))
  {
    StoryHappens(13);
    BothRun(true);
    ResumedBeside();
    hide *;
  }

  lemma ResumedBeside()
    ensures 0 in After(13).executions && !Running(After(13).executions[0].status)
    ensures Resumed(After(13), 0) == BothExecutions(JobStarted, true)
  {
  }

  /** The second way: nothing runs at the restart, but a launch past its check then inserts and commits. */
  lemma RestartPastCheck()
    ensures Reaches(EMPTY, Story(11), After(11)) && 0 in After(11).executions && !Running(After(11).executions[0].status)
    ensures OneRunning(Resumed(After(11), 0))
    ensures Reaches(Resumed(After(11), 0), [Statement(11), Statement(12)], BothExecutions(JobStarted, true))
    ensures !OneRunning(BothExecutions(JobStarted, true))
  {
    StoryHappens(11);
    BothRun(true);
    SecondInserts(JobStarted);
    ResumedAlone();
    hide Story, Leads, Statement, BothExecutions, OneRunning, After, Resumed, Reaches, SecondLaunch;
    var db := Resumed(After(11), 0);
    NoStep(db);
    ReachesThen(db, [], db, Statement(11), BothExecutions(JobStarted, false));
    ReachesThen(db, [] + [Statement(11)], BothExecutions(JobStarted, false), Statement(12), BothExecutions(JobStarted, true));
    assert [] + [Statement(11)] + [Statement(12)] == [Statement(11), Statement(12)];
  }

  lemma ResumedAlone()
    ensures 0 in After(11).executions && !Running(After(11).executions[0].status)
    ensures Resumed(After(11), 0) == SecondLaunch(JobStarted, true, CreateNext(0)) && OneRunning(Resumed(After(11), 0))
  {
  }

  lemma NoStep(db: Database)
    ensures Reaches(db, [], db)
  {
  }
}
