/**
 * Concurrent launches: `createExecutionAtomic`, statement by statement, as interleaved transactions
 * (packages/drizzle/src/repository/drizzle-job-repository.ts:228-282; the same statements in
 * packages/mikro-orm/src/mikroorm-job-repository.ts:159-204).
 *
 * Assumed of the database: a statement is atomic, sees committed rows and its own, (job_name, job_key) is
 * unique - an insert waits for an uncommitted row with the same pair -, row locks last to the end of the
 * transaction, SKIP LOCKED passes over rows locked by others, and a rollback undoes a transaction's rows.
 */
module LaunchProtocol {
  import opened Common
  import opened Statuses

  type InstanceId = nat
  type ExecutionId = nat
  type TransactionId = nat

  predicate Running(status: JobStatus) {
    status == JobStarting || status == JobStarted
  }

  /** `owner` is the transaction that inserted the row and has not committed yet. */
  datatype InstanceRow = InstanceRow(name: string, key: string, owner: Option<TransactionId>)
  datatype ExecutionRow = ExecutionRow(instance: InstanceId, status: JobStatus, owner: Option<TransactionId>)

  /** The next statement of a launch. */
  datatype Stage =
    | InsertNext
    | LockNext
    | CheckNext(instance: InstanceId)
    | CreateNext(instance: InstanceId)
    | CommitNext(instance: InstanceId, execution: ExecutionId)

  datatype Launch = Launch(name: string, key: string, stage: Stage)

  datatype Database = Database(
    instances: map<InstanceId, InstanceRow>,
    locks: map<InstanceId, TransactionId>,
    executions: map<ExecutionId, ExecutionRow>,
    launches: map<TransactionId, Launch>)

  const EMPTY := Database(map[], map[], map[], map[])

  datatype Action =
    | Begin(t: TransactionId, name: string, key: string)
    | InsertInstance(t: TransactionId, newInstance: InstanceId)      // ON CONFLICT DO NOTHING
    | LockInstance(t: TransactionId, found: InstanceId)        // FOR UPDATE SKIP LOCKED returns a row
    | LockNothing(t: TransactionId)                            // ... or none: JobExecutionAlreadyRunningError
    | FindNoneRunning(t: TransactionId)
    | FindRunning(t: TransactionId, running: ExecutionId)      // JobExecutionAlreadyRunningError
    | CreateExecution(t: TransactionId, newExecution: ExecutionId)
    | Commit(t: TransactionId)
    | Abort(t: TransactionId)                                  // connection lost, at any point
    | UpdateStatus(execution: ExecutionId, status: JobStatus)  // updateJobExecution of a first execution

  // ---------------------------------------------------------------- statements

  predicate SamePair(row: InstanceRow, launch: Launch) {
    row.name == launch.name && row.key == launch.key
  }

  predicate VisibleTo(owner: Option<TransactionId>, t: TransactionId) {
    owner.None? || owner == Some(t)
  }

  predicate At(db: Database, t: TransactionId, stage: Stage) {
    t in db.launches && db.launches[t].stage == stage
  }

  /** A row FOR UPDATE SKIP LOCKED may return to t. */
  predicate Lockable(db: Database, t: TransactionId, i: InstanceId)
    requires t in db.launches
  {
    && i in db.instances && SamePair(db.instances[i], db.launches[t]) && VisibleTo(db.instances[i].owner, t)
    && (i in db.locks ==> db.locks[i] == t)
  }

  /** A running execution the check of t may see. */
  predicate SeenRunning(db: Database, t: TransactionId, i: InstanceId, e: ExecutionId) {
    e in db.executions && db.executions[e].instance == i && Running(db.executions[e].status) && VisibleTo(db.executions[e].owner, t)
  }

  predicate Enabled(db: Database, a: Action) {
    match a
    case Begin(t, _, _) => t !in db.launches
    case InsertInstance(t, newInstance) =>
      && At(db, t, InsertNext) && newInstance !in db.instances
      && forall i :: i in db.instances && SamePair(db.instances[i], db.launches[t]) ==> VisibleTo(db.instances[i].owner, t)
    case LockInstance(t, found) => At(db, t, LockNext) && Lockable(db, t, found)
    case LockNothing(t) => At(db, t, LockNext) && forall i :: i in db.instances ==> !Lockable(db, t, i)
    case FindNoneRunning(t) =>
      && t in db.launches && db.launches[t].stage.CheckNext?
      && forall e :: e in db.executions ==> !SeenRunning(db, t, db.launches[t].stage.instance, e)
    case FindRunning(t, running) =>
      t in db.launches && db.launches[t].stage.CheckNext? && SeenRunning(db, t, db.launches[t].stage.instance, running)
    case CreateExecution(t, newExecution) =>
      t in db.launches && db.launches[t].stage.CreateNext? && newExecution !in db.executions
    case Commit(t) => t in db.launches && db.launches[t].stage.CommitNext?
    case Abort(t) => t in db.launches
    case UpdateStatus(e, _) =>
      e in db.executions && db.executions[e].owner.None? && Running(db.executions[e].status)
  }

  function Advance(db: Database, t: TransactionId, stage: Stage): Database
    requires t in db.launches
  {
    db.(launches := db.launches[t := db.launches[t].(stage := stage)])
  }

  /** The end of a transaction: its locks go, and its rows become everybody's or vanish. */
  function Finish(db: Database, t: TransactionId, commit: bool): Database {
    Database(
      map i | i in db.instances && (commit || db.instances[i].owner != Some(t)) ::
        if db.instances[i].owner == Some(t) then db.instances[i].(owner := None) else db.instances[i],
      map i | i in db.locks && db.locks[i] != t :: db.locks[i],
      map e | e in db.executions && (commit || db.executions[e].owner != Some(t)) ::
        if db.executions[e].owner == Some(t) then db.executions[e].(owner := None) else db.executions[e],
      db.launches - {t})
  }

  function Apply(db: Database, a: Action): Database
    requires Enabled(db, a)
  {
    match a
    case Begin(t, name, key) => db.(launches := db.launches[t := Launch(name, key, InsertNext)])
    case InsertInstance(t, newInstance) =>
      var launch := db.launches[t];
      var db' := if exists i :: i in db.instances && SamePair(db.instances[i], launch) then db
                 else db.(instances := db.instances[newInstance := InstanceRow(launch.name, launch.key, Some(t))]);
      Advance(db', t, LockNext)
    case LockInstance(t, found) => Advance(db.(locks := db.locks[found := t]), t, CheckNext(found))
    case LockNothing(t) => Finish(db, t, false)
    case FindNoneRunning(t) => Advance(db, t, CreateNext(db.launches[t].stage.instance))
    case FindRunning(t, _) => Finish(db, t, false)
    case CreateExecution(t, e) =>
      var i := db.launches[t].stage.instance;
      Advance(db.(executions := db.executions[e := ExecutionRow(i, JobStarting, Some(t))]), t, CommitNext(i, e))
    case Commit(t) => Finish(db, t, true)
    case Abort(t) => Finish(db, t, false)
    case UpdateStatus(e, status) => db.(executions := db.executions[e := db.executions[e].(status := status)])
  }

  // ---------------------------------------------------------------- the invariant

  ghost predicate PairsUnique(db: Database) {
    forall i, j | i in db.instances && j in db.instances ::
      db.instances[i].name == db.instances[j].name && db.instances[i].key == db.instances[j].key ==> i == j
  }

  /** Of the executions of an instance at most one is STARTING or STARTED. */
  ghost predicate OneRunning(db: Database) {
    forall e, f | e in db.executions && f in db.executions && db.executions[e].instance == db.executions[f].instance
               && (db.executions[e].status == JobStarting || db.executions[e].status == JobStarted)
               && (db.executions[f].status == JobStarting || db.executions[f].status == JobStarted) :: e == f
  }

  /** The instance a launch past its lock statement works on. */
  ghost function Target(stage: Stage): Option<InstanceId> {
    match stage
    case CheckNext(i) => Some(i)
    case CreateNext(i) => Some(i)
    case CommitNext(i, _) => Some(i)
    case _ => None
  }

  /** Locks belong to live launches that are past their lock statement, and such a launch holds its lock. */
  ghost predicate LocksHeld(db: Database) {
    && (forall i :: i in db.locks ==> db.locks[i] in db.launches && Target(db.launches[db.locks[i]].stage) == Some(i))
    && (forall t :: t in db.launches && Target(db.launches[t].stage).Some? ==>
          var i := Target(db.launches[t].stage).value;
          && i in db.locks && db.locks[i] == t && i in db.instances
          && SamePair(db.instances[i], db.launches[t]) && VisibleTo(db.instances[i].owner, t))
  }

  /** Uncommitted rows belong to live launches; an uncommitted execution is the one its launch created. */
  ghost predicate OwnersLive(db: Database) {
    && (forall i :: i in db.instances && db.instances[i].owner.Some? ==> db.instances[i].owner.value in db.launches)
    && (forall e :: e in db.executions && db.executions[e].owner.Some? ==>
          var t := db.executions[e].owner.value;
          t in db.launches && db.launches[t].stage == CommitNext(db.executions[e].instance, e))
  }

  /** An execution refers to an instance row that lasts as long as it does. */
  ghost predicate Referential(db: Database) {
    forall e :: e in db.executions ==>
      && db.executions[e].instance in db.instances
      && (db.instances[db.executions[e].instance].owner.Some? ==>
          db.executions[e].owner == db.instances[db.executions[e].instance].owner)
  }

  /** Between the check and the insert nothing is running, committed or not. */
  ghost predicate CheckedStays(db: Database) {
    forall t, e | t in db.launches && db.launches[t].stage.CreateNext? && e in db.executions ::
      db.executions[e].instance == db.launches[t].stage.instance ==> !Running(db.executions[e].status)
  }

  ghost predicate Invariant(db: Database) {
    PairsUnique(db) && OneRunning(db) && LocksHeld(db) && OwnersLive(db) && Referential(db) && CheckedStays(db)
  }

  lemma BeginKeeps(db: Database, a: Action)
    requires Invariant(db) && a.Begin? && Enabled(db, a)
    ensures Invariant(Apply(db, a))
  {
  }

  lemma InsertInstanceKeeps(db: Database, a: Action)
    requires Invariant(db) && a.InsertInstance? && Enabled(db, a)
    ensures Invariant(Apply(db, a))
  {
    var launch := db.launches[a.t];
    if exists i :: i in db.instances && SamePair(db.instances[i], launch) {
      ToLockKeeps(db, a.t);
    } else {
      NewInstanceKeeps(db, a.t, a.newInstance);
      ToLockKeeps(db.(instances := db.instances[a.newInstance := InstanceRow(launch.name, launch.key, Some(a.t))]), a.t);
    }
  }

  lemma ToLockKeeps(db: Database, t: TransactionId)
    requires Invariant(db) && At(db, t, InsertNext)
    ensures Invariant(Advance(db, t, LockNext))
  {
  }

  lemma NewInstanceKeeps(db: Database, t: TransactionId, newInstance: InstanceId)
    requires Invariant(db) && t in db.launches && newInstance !in db.instances
    requires forall i :: i in db.instances ==> !SamePair(db.instances[i], db.launches[t])
    ensures Invariant(db.(instances := db.instances[newInstance := InstanceRow(db.launches[t].name, db.launches[t].key, Some(t))]))
  {
  }

  /** Moving one launch on and giving it a lock touches no row. */
  lemma LockRows(db: Database, a: Action)
    requires Invariant(db) && a.LockInstance? && Enabled(db, a)
    ensures PairsUnique(Apply(db, a)) && OneRunning(Apply(db, a)) && Referential(Apply(db, a))
    ensures OwnersLive(Apply(db, a)) && CheckedStays(Apply(db, a))
  {
    hide LocksHeld, Lockable;
    assert forall u :: u in db.launches && u != a.t ==> Apply(db, a).launches[u] == db.launches[u];
  }

  lemma LockLocks(db: Database, a: Action)
    requires Invariant(db) && a.LockInstance? && Enabled(db, a)
    ensures LocksHeld(Apply(db, a))
  {
    hide PairsUnique, OneRunning, OwnersLive, Referential, CheckedStays;
    assert forall i :: i in db.locks ==> db.locks[i] != a.t;
    var db' := Apply(db, a);
    assert db'.instances == db.instances && db'.locks == db.locks[a.found := a.t];
    assert db'.launches == db.launches[a.t := db.launches[a.t].(stage := CheckNext(a.found))];
    hide Apply;
  }

  lemma LockInstanceKeeps(db: Database, a: Action)
    requires Invariant(db) && a.LockInstance? && Enabled(db, a)
    ensures Invariant(Apply(db, a))
  {
    LockRows(db, a);
    LockLocks(db, a);
    hide Apply, PairsUnique, OneRunning, LocksHeld, CheckedStays, OwnersLive, Referential;
  }

  lemma CheckLinks(db: Database, a: Action)
    requires Invariant(db) && a.FindNoneRunning? && Enabled(db, a)
    ensures PairsUnique(Apply(db, a)) && OneRunning(Apply(db, a)) && Referential(Apply(db, a))
    ensures LocksHeld(Apply(db, a)) && OwnersLive(Apply(db, a))
  {
    hide CheckedStays, SeenRunning, LocksHeld, OwnersLive;
    var stage := CreateNext(db.launches[a.t].stage.instance);
    AdvanceLocks(db, a.t, stage);
    AdvanceOwners(db, a.t, stage);
  }

  lemma AdvanceLocks(db: Database, t: TransactionId, stage: Stage)
    requires LocksHeld(db) && t in db.launches && Target(stage) == Target(db.launches[t].stage)
    ensures LocksHeld(Advance(db, t, stage))
  {
    hide Target;
    assert forall u :: u in db.launches && u != t ==> Advance(db, t, stage).launches[u] == db.launches[u];
  }

  lemma AdvanceOwners(db: Database, t: TransactionId, stage: Stage)
    requires OwnersLive(db) && t in db.launches && !db.launches[t].stage.CommitNext?
    ensures OwnersLive(Advance(db, t, stage))
  {
    assert forall u :: u in db.launches && u != t ==> Advance(db, t, stage).launches[u] == db.launches[u];
  }

  lemma CheckKeeps(db: Database, a: Action)
    requires Invariant(db) && a.FindNoneRunning? && Enabled(db, a)
    ensures Invariant(Apply(db, a))
  {
    CheckLinks(db, a);
    hide PairsUnique, OneRunning, LocksHeld, OwnersLive, Referential;
    var i := db.launches[a.t].stage.instance;
    forall e | e in db.executions && db.executions[e].instance == i ensures !Running(db.executions[e].status) {
      assert !SeenRunning(db, a.t, i, e);
    }
  }

  /** The lock makes t the only launch past its check, so the execution it creates is the only one running. */
  lemma CreateRows(db: Database, a: Action)
    requires Invariant(db) && a.CreateExecution? && Enabled(db, a)
    ensures OneRunning(Apply(db, a)) && CheckedStays(Apply(db, a))
  {
    hide PairsUnique, OwnersLive, Referential, Finish;
    var db' := Apply(db, a);
    assert forall e :: e in db.executions ==> db'.executions[e] == db.executions[e];
    assert forall u :: u in db.launches && u != a.t ==> db'.launches[u] == db.launches[u];
  }

  lemma CreateLinks(db: Database, a: Action)
    requires Invariant(db) && a.CreateExecution? && Enabled(db, a)
    ensures PairsUnique(Apply(db, a)) && LocksHeld(Apply(db, a))
  {
    hide OneRunning, CheckedStays, OwnersLive, Referential, Finish;
    var db' := Apply(db, a);
    assert forall u :: u in db.launches && u != a.t ==> db'.launches[u] == db.launches[u];
  }

  lemma CreateOwners(db: Database, a: Action)
    requires Invariant(db) && a.CreateExecution? && Enabled(db, a)
    ensures OwnersLive(Apply(db, a)) && Referential(Apply(db, a))
  {
    hide OneRunning, CheckedStays, PairsUnique, Finish;
    var db' := Apply(db, a);
    assert forall e :: e in db.executions ==> db'.executions[e] == db.executions[e];
    assert forall u :: u in db.launches && u != a.t ==> db'.launches[u] == db.launches[u];
  }

  lemma CreateKeeps(db: Database, a: Action)
    requires Invariant(db) && a.CreateExecution? && Enabled(db, a)
    ensures Invariant(Apply(db, a))
  {
    CreateRows(db, a);
    CreateLinks(db, a);
    CreateOwners(db, a);
    hide Apply, PairsUnique, OneRunning, LocksHeld, CheckedStays, OwnersLive, Referential;
  }

  /** What is left after a transaction ended was there before, with the same pair, instance and status. */
  lemma FinishSubset(db: Database, t: TransactionId, commit: bool)
    ensures var db' := Finish(db, t, commit);
            && (forall i :: i in db'.instances ==>
                  && i in db.instances && db'.instances[i].name == db.instances[i].name
                  && db'.instances[i].key == db.instances[i].key
                  && db'.instances[i].owner == (if db.instances[i].owner == Some(t) then None else db.instances[i].owner))
            && (forall e :: e in db'.executions ==>
                  && e in db.executions && db'.executions[e].instance == db.executions[e].instance
                  && db'.executions[e].status == db.executions[e].status
                  && db'.executions[e].owner == (if db.executions[e].owner == Some(t) then None else db.executions[e].owner))
            && (forall i :: i in db'.locks <==> i in db.locks && db.locks[i] != t)
            && (forall i :: i in db'.locks ==> db'.locks[i] == db.locks[i])
            && (forall u :: u in db'.launches <==> u in db.launches && u != t)
            && (forall u :: u in db'.launches ==> db'.launches[u] == db.launches[u])
            && (forall i :: i in db.instances && (commit || db.instances[i].owner != Some(t)) ==> i in db'.instances)
            && (forall e :: e in db'.executions ==> commit || db.executions[e].owner != Some(t))
  {
  }

  lemma FinishRows(db: Database, t: TransactionId, commit: bool)
    requires Invariant(db) && t in db.launches
    ensures PairsUnique(Finish(db, t, commit)) && OneRunning(Finish(db, t, commit)) && CheckedStays(Finish(db, t, commit))
  {
    FinishSubset(db, t, commit);
    hide Finish, LocksHeld, OwnersLive, Referential;
  }

  lemma FinishLocks(db: Database, t: TransactionId, commit: bool)
    requires Invariant(db) && t in db.launches
    ensures LocksHeld(Finish(db, t, commit))
  {
    FinishSubset(db, t, commit);
    hide Finish, PairsUnique, OneRunning, Referential, CheckedStays, OwnersLive;
  }

  lemma FinishOwners(db: Database, t: TransactionId, commit: bool)
    requires Invariant(db) && t in db.launches
    ensures OwnersLive(Finish(db, t, commit)) && Referential(Finish(db, t, commit))
  {
    FinishSubset(db, t, commit);
    hide Finish, PairsUnique, OneRunning, LocksHeld, CheckedStays;
  }

  lemma FinishKeeps(db: Database, t: TransactionId, commit: bool)
    requires Invariant(db) && t in db.launches
    ensures Invariant(Finish(db, t, commit))
  {
    FinishRows(db, t, commit);
    FinishLocks(db, t, commit);
    FinishOwners(db, t, commit);
    hide Finish, PairsUnique, OneRunning, LocksHeld, CheckedStays, OwnersLive, Referential;
  }

  lemma UpdateKeeps(db: Database, a: Action)
    requires Invariant(db) && a.UpdateStatus? && Enabled(db, a)
    ensures Invariant(Apply(db, a))
  {
  }

  lemma StepKeeps(db: Database, a: Action)
    requires Invariant(db) && Enabled(db, a)
    ensures Invariant(Apply(db, a))
  {
    match a
    case Begin(_, _, _) => BeginKeeps(db, a);
    case InsertInstance(_, _) => InsertInstanceKeeps(db, a);
    case LockInstance(_, _) => LockInstanceKeeps(db, a);
    case FindNoneRunning(_) => CheckKeeps(db, a);
    case CreateExecution(_, _) => CreateKeeps(db, a);
    case UpdateStatus(_, _) => UpdateKeeps(db, a);
    case Commit(t) => FinishKeeps(db, t, true);
    case LockNothing(t) => FinishKeeps(db, t, false);
    case FindRunning(t, _) => FinishKeeps(db, t, false);
    case Abort(t) => FinishKeeps(db, t, false);
  }

  // ---------------------------------------------------------------- runs

  /** Some interleaving of any number of launches and status updates leads from one database to the other. */
  ghost predicate Reaches(before: Database, actions: seq<Action>, after: Database)
    decreases |actions|
  {
    if actions == [] then after == before
    else Enabled(before, actions[0]) && Reaches(Apply(before, actions[0]), actions[1..], after)
  }

  lemma {:induction false} RunKeeps(before: Database, actions: seq<Action>, after: Database)
    requires Invariant(before) && Reaches(before, actions, after)
    ensures Invariant(after)
    decreases |actions|
  {
    hide Invariant, Apply, Enabled;
    if actions != [] {
      StepKeeps(before, actions[0]);
      RunKeeps(Apply(before, actions[0]), actions[1..], after);
    }
  }

  ghost predicate RunningFor(db: Database, e: ExecutionId, name: string, key: string) {
    && e in db.executions && (db.executions[e].status == JobStarting || db.executions[e].status == JobStarted)
    && db.executions[e].instance in db.instances
    && db.instances[db.executions[e].instance].name == name && db.instances[db.executions[e].instance].key == key
  }

  /**
   * Mutual exclusion.  In every interleaving each (job name, job key) has at most one instance row and at
   * most one execution that is STARTING or STARTED, rows not yet committed included.
   */
  lemma MutualExclusion(actions: seq<Action>, db: Database, name: string, key: string)
    requires Reaches(EMPTY, actions, db)
    ensures PairsUnique(db)
    ensures forall e, f :: RunningFor(db, e, name, key) && RunningFor(db, f, name, key) ==> e == f
  {
    assert Invariant(EMPTY);
    RunKeeps(EMPTY, actions, db);
  }

  // ---------------------------------------------------------------- outside the protocol

  /** The restart of a finished execution: a status update that takes no lock. */
  function Resumed(db: Database, e: ExecutionId): Database
    requires e in db.executions
  {
    db.(executions := db.executions[e := db.executions[e].(status := JobStarted)])
  }

  /**
   * What a restart must find: no other execution of the instance is starting or started, and no launch of the
   * instance stands between its check, which saw nothing running, and its insert.
   */
  ghost predicate RestartSafe(db: Database, e: ExecutionId)
    requires e in db.executions
  {
    var i := db.executions[e].instance;
    && (forall f :: f in db.executions && db.executions[f].instance == i ==>
          db.executions[f].status != JobStarting && db.executions[f].status != JobStarted)
    && (forall t :: t in db.launches ==> db.launches[t].stage != CreateNext(i))
  }

  lemma SafeRestartKeeps(db: Database, e: ExecutionId)
    requires Invariant(db) && e in db.executions && !Running(db.executions[e].status) && RestartSafe(db, e)
    ensures Invariant(Resumed(db, e))
  {
    var db' := Resumed(db, e);
    assert forall f :: f in db.executions && f != e ==> db'.executions[f] == db.executions[f];
    assert db'.executions[e] == db.executions[e].(status := JobStarted);
    RestartLinks(db, e);
    hide LocksHeld, OwnersLive, Referential;
  }

  lemma RestartLinks(db: Database, e: ExecutionId)
    requires Invariant(db) && e in db.executions
    ensures LocksHeld(Resumed(db, e)) && OwnersLive(Resumed(db, e)) && Referential(Resumed(db, e))
  {
    var db' := Resumed(db, e);
    assert forall f :: f in db.executions ==>
      db'.executions[f].owner == db.executions[f].owner && db'.executions[f].instance == db.executions[f].instance;
    hide OneRunning, CheckedStays, PairsUnique;
  }

  lemma {:induction false} Bounded(ids: set<nat>) returns (bound: nat)
    ensures forall id :: id in ids ==> id < bound
    decreases |ids|
  {
    if ids == {} {
      bound := 0;
    } else {
      var id :| id in ids;
      var rest := Bounded(ids - {id});
      bound := if id < rest then rest else id + 1;
      assert forall other :: other in ids ==> other == id || other in ids - {id};
    }
  }

  /** A launch that is past its check goes on to insert, whatever has been restarted meanwhile. */
  lemma CheckedLaunchInserts(db: Database, e: ExecutionId, t: TransactionId) returns (later: seq<Action>, end: Database)
    requires e in db.executions && t in db.launches && db.launches[t].stage == CreateNext(db.executions[e].instance)
    ensures Reaches(Resumed(db, e), later, end) && !OneRunning(end)
  {
    var db' := Resumed(db, e);
    var newExecution := Bounded(db.executions.Keys);
    var a := CreateExecution(t, newExecution);
    assert newExecution !in db.executions;
    later, end := [a], Apply(db', a);
    assert [a][1..] == [];
    assert end.executions[e].status == JobStarted && end.executions[newExecution].status == JobStarting;
    assert end.executions[e].instance == end.executions[newExecution].instance;
  }

  /**
   * A restart is outside the protocol.  Mutual exclusion holds in every state that can follow it, if and only
   * if at the restart no other execution of the instance is running and no launch of it is past its check.
   */
  lemma RestartExclusiveIff(actions: seq<Action>, db: Database, e: ExecutionId)
    requires Reaches(EMPTY, actions, db) && e in db.executions
    requires db.executions[e].status != JobStarting && db.executions[e].status != JobStarted
    ensures (forall later, end :: Reaches(Resumed(db, e), later, end) ==> OneRunning(end)) <==> RestartSafe(db, e)
  {
    assert Invariant(EMPTY);
    RunKeeps(EMPTY, actions, db);
    hide Invariant, Reaches, Running, OneRunning, RestartSafe, Resumed;
    if RestartSafe(db, e) {
      SafeRestartKeeps(db, e);
      forall later, end | Reaches(Resumed(db, e), later, end) ensures OneRunning(end) {
        RunKeeps(Resumed(db, e), later, end);
        InvariantMeans(end);
      }
    } else {
      var later, end := UnsafeRestartFails(db, e);
    }
  }

  lemma UnsafeRestartFails(db: Database, e: ExecutionId) returns (later: seq<Action>, end: Database)
    requires e in db.executions && !Running(db.executions[e].status) && !RestartSafe(db, e)
    ensures Reaches(Resumed(db, e), later, end) && !OneRunning(end)
  {
    hide Reaches, OneRunning, Resumed;
    var i := db.executions[e].instance;
    if f :| f in db.executions && db.executions[f].instance == i && Running(db.executions[f].status) {
      RunningBesides(db, e, f);
      later, end := [], Resumed(db, e);
    } else {
      var t :| t in db.launches && db.launches[t].stage == CreateNext(i);
      later, end := CheckedLaunchInserts(db, e, t);
    }
  }

  lemma InvariantMeans(db: Database)
    requires Invariant(db)
    ensures OneRunning(db)
  {
  }

  lemma RunningBesides(db: Database, e: ExecutionId, f: ExecutionId)
    requires e in db.executions && f in db.executions && db.executions[e].instance == db.executions[f].instance
    requires !Running(db.executions[e].status) && Running(db.executions[f].status)
    ensures Reaches(Resumed(db, e), [], Resumed(db, e)) && !OneRunning(Resumed(db, e))
  {
    var db' := Resumed(db, e);
    assert db'.executions[f] == db.executions[f] && db'.executions[e].status == JobStarted;
  }
}
