/**
 * `createExecutionAtomic` as one call, its statements one after the other
 * (packages/drizzle/src/repository/drizzle-job-repository.ts:228-282).
 */
module LaunchRepository {
  import opened Common
  import opened LaunchProtocol
  import opened Statuses

  /** A call returns an execution, is refused, or waits at its insert for the transaction that owns the pair's row. */
  datatype LaunchOutcome = Created(execution: ExecutionId) | AlreadyRunning | Waits

  /** The committed or own instance row of a pair, if there is one. */
  ghost predicate InstanceOf(db: Database, i: InstanceId, name: string, key: string) {
    i in db.instances && db.instances[i].name == name && db.instances[i].key == key
  }

  /** Another launch of the same instance is in flight, or an execution of it is running. */
  ghost predicate Busy(db: Database, name: string, key: string) {
    exists i :: InstanceOf(db, i, name, key) && (i in db.locks || exists e :: RunningIn(db, e, i))
  }

  ghost predicate RunningIn(db: Database, e: ExecutionId, i: InstanceId) {
    && e in db.executions && db.executions[e].instance == i
    && (db.executions[e].status == JobStarting || db.executions[e].status == JobStarted)
  }

  /** No launch of the pair holds its instance, and every execution of it has one of the other six statuses. */
  ghost predicate Rests(db: Database, name: string, key: string) {
    && (forall i :: InstanceOf(db, i, name, key) ==> i !in db.locks)
    && forall e :: e in db.executions && InstanceOf(db, db.executions[e].instance, name, key) ==>
         db.executions[e].status in {JobCompleted, JobFailed, JobStopping, JobStopped, JobAbandoned, JobUnknown}
  }

  lemma RestsIffNotBusy(db: Database, name: string, key: string)
    ensures Rests(db, name, key) <==> !Busy(db, name, key)
  {
    if !Rests(db, name, key) && forall i :: InstanceOf(db, i, name, key) ==> i !in db.locks {
      var e :| e in db.executions && InstanceOf(db, db.executions[e].instance, name, key)
        && db.executions[e].status !in {JobCompleted, JobFailed, JobStopping, JobStopped, JobAbandoned, JobUnknown};
      assert RunningIn(db, e, db.executions[e].instance);
    }
  }

  /** A new transaction with fresh ids, which no other statement interleaves with. */
  ghost predicate Ready(db: Database, t: TransactionId, newInstance: InstanceId, newExecution: ExecutionId) {
    Invariant(db) && t !in db.launches && newInstance !in db.instances && newExecution !in db.executions
  }

  /** No transaction has an uncommitted row of the pair, so an insert need not wait. */
  ghost predicate Settled(db: Database, name: string, key: string) {
    forall i :: InstanceOf(db, i, name, key) ==> db.instances[i].owner.None?
  }

  // ---------------------------------------------------------------- the statements in sequence

  /** Every instance row is kept, and at most one is new: the given row of the pair. */
  ghost predicate Grown(before: Database, db: Database, owner: Option<TransactionId>, name: string, key: string, newInstance: InstanceId) {
    && (forall i :: i in before.instances ==> i in db.instances && db.instances[i] == before.instances[i])
    && (forall i :: i in db.instances ==>
          i in before.instances || (i == newInstance && db.instances[i] == InstanceRow(name, key, owner)))
  }

  /** After the insert the pair has an instance row, and nothing else has changed. */
  ghost predicate Inserted(before: Database, db: Database, t: TransactionId, name: string, key: string, newInstance: InstanceId) {
    && Invariant(db) && db.executions == before.executions && db.locks == before.locks
    && db.launches == before.launches[t := Launch(name, key, LockNext)]
    && Grown(before, db, Some(t), name, key, newInstance)
    && exists i :: InstanceOf(db, i, name, key)
  }

  lemma InsertStatement(before: Database, t: TransactionId, name: string, key: string, newInstance: InstanceId, newExecution: ExecutionId)
    requires Ready(before, t, newInstance, newExecution) && Settled(before, name, key)
    ensures Enabled(before, Begin(t, name, key))
    ensures var db := Apply(before, Begin(t, name, key));
            Enabled(db, InsertInstance(t, newInstance)) && Inserted(before, Apply(db, InsertInstance(t, newInstance)), t, name, key, newInstance)
  {
    hide *;
    IsReady(before, t, newInstance, newExecution);
    BeginStatement(before, t, name, key, newInstance);
    var db := Apply(before, Begin(t, name, key));
    StepKeeps(db, InsertInstance(t, newInstance));
    RowInserted(before, db, t, name, key, newInstance);
    MakeInserted(before, Apply(db, InsertInstance(t, newInstance)), t, name, key, newInstance);
  }

  lemma IsReady(db: Database, t: TransactionId, newInstance: InstanceId, newExecution: ExecutionId)
    requires Ready(db, t, newInstance, newExecution)
    ensures Invariant(db) && t !in db.launches && newInstance !in db.instances
  {
    hide Invariant;
  }

  ghost predicate HasInstance(db: Database, name: string, key: string) {
    exists i :: InstanceOf(db, i, name, key)
  }

  lemma MakeInserted(before: Database, db: Database, t: TransactionId, name: string, key: string, newInstance: InstanceId)
    requires Invariant(db) && db.executions == before.executions && db.locks == before.locks
    requires db.launches == before.launches[t := Launch(name, key, LockNext)]
    requires Grown(before, db, Some(t), name, key, newInstance) && HasInstance(db, name, key)
    ensures Inserted(before, db, t, name, key, newInstance)
  {
    hide Invariant, Grown;
  }

  lemma RowInserted(before: Database, db: Database, t: TransactionId, name: string, key: string, newInstance: InstanceId)
    requires t !in before.launches && newInstance !in before.instances
    requires Enabled(before, Begin(t, name, key)) && db == Apply(before, Begin(t, name, key)) && Enabled(db, InsertInstance(t, newInstance))
    ensures var db' := Apply(db, InsertInstance(t, newInstance));
      && db'.executions == before.executions && db'.locks == before.locks
      && db'.launches == before.launches[t := Launch(name, key, LockNext)]
      && Grown(before, db', Some(t), name, key, newInstance) && HasInstance(db', name, key)
  {
    hide Finish, Lockable, SeenRunning;
    var db' := Apply(db, InsertInstance(t, newInstance));
    if i :| i in db.instances && SamePair(db.instances[i], db.launches[t]) {
      assert InstanceOf(db', i, name, key);
    } else {
      assert InstanceOf(db', newInstance, name, key);
    }
  }

  /** After the begin nothing has changed but that the launch exists; its own rows are nobody's yet. */
  lemma BeginStatement(before: Database, t: TransactionId, name: string, key: string, newInstance: InstanceId)
    requires Invariant(before) && t !in before.launches && newInstance !in before.instances
    ensures Enabled(before, Begin(t, name, key))
    ensures var db := Apply(before, Begin(t, name, key));
      && Invariant(db) && db.instances == before.instances && t in db.launches
      && (forall i :: i in db.instances && SamePair(db.instances[i], db.launches[t]) <==> InstanceOf(before, i, name, key))
      && (forall i :: InstanceOf(before, i, name, key) ==> before.instances[i].owner != Some(t))
      && (Enabled(db, InsertInstance(t, newInstance)) <==> Settled(before, name, key))
  {
    hide Finish;
    StepKeeps(before, Begin(t, name, key));
    NoOwnInstances(before, t);
    hide Invariant;
    var db := Apply(before, Begin(t, name, key));
    if Enabled(db, InsertInstance(t, newInstance)) {
      forall i | InstanceOf(before, i, name, key) ensures before.instances[i].owner.None? {
        assert VisibleTo(db.instances[i].owner, t);
      }
    }
  }

  lemma NoOwnInstances(before: Database, t: TransactionId)
    requires Invariant(before) && t !in before.launches
    ensures forall i :: i in before.instances ==> before.instances[i].owner != Some(t)
  {
    hide PairsUnique, OneRunning, LocksHeld, Referential, CheckedStays;
  }

  /** The state a refused launch leaves: everything but the transaction's own rows as before. */
  ghost predicate Undone(before: Database, db: Database) {
    Invariant(db) && db.instances == before.instances && db.executions == before.executions && db.locks == before.locks && db.launches == before.launches
  }

  lemma NothingLockable(before: Database, db: Database, t: TransactionId, name: string, key: string, newInstance: InstanceId)
    requires Invariant(before) && t !in before.launches && Inserted(before, db, t, name, key, newInstance)
    requires forall i :: i in db.instances ==> !Lockable(db, t, i)
    requires Settled(before, name, key)
    ensures Enabled(db, LockNothing(t)) && Busy(before, name, key)
    ensures Undone(before, Apply(db, LockNothing(t)))
  {
    hide Invariant, Finish;
    StepKeeps(db, LockNothing(t));
    var i :| InstanceOf(db, i, name, key);
    assert !Lockable(db, t, i);
    NoOwnLock(before, t, i);
    assert InstanceOf(before, i, name, key) && i in before.locks;
    FinishUndoes(before, db, t, name, key, newInstance);
  }

  lemma NoOwnLock(before: Database, t: TransactionId, i: InstanceId)
    requires Invariant(before) && t !in before.launches
    ensures i in before.locks ==> before.locks[i] != t
    ensures i !in before.instances ==> i !in before.locks
  {
  }

  lemma NoOwnRows(before: Database, t: TransactionId)
    requires Invariant(before) && t !in before.launches
    ensures forall e :: e in before.executions ==> before.executions[e].owner != Some(t)
    ensures forall i :: i in before.locks ==> before.locks[i] != t
  {
  }

  lemma FinishUndoes(before: Database, db: Database, t: TransactionId, name: string, key: string, newInstance: InstanceId)
    requires Invariant(before) && t !in before.launches && Grown(before, db, Some(t), name, key, newInstance)
    requires db.executions == before.executions && db.launches.Keys == before.launches.Keys + {t}
    requires forall u :: u in before.launches ==> db.launches[u] == before.launches[u]
    requires forall i :: i in before.locks ==> i in db.locks && db.locks[i] == before.locks[i]
    requires forall i :: i in db.locks ==> i in before.locks || db.locks[i] == t
    ensures var db' := Finish(db, t, false);
            && db'.instances == before.instances && db'.executions == before.executions
            && db'.locks == before.locks && db'.launches == before.launches
  {
    NoOwnRows(before, t);
    InstancesUndone(before, db, t, name, key, newInstance);
    hide Invariant, Grown;
  }

  lemma InstancesUndone(before: Database, db: Database, t: TransactionId, name: string, key: string, newInstance: InstanceId)
    requires Invariant(before) && t !in before.launches && Grown(before, db, Some(t), name, key, newInstance)
    ensures Finish(db, t, false).instances == before.instances
  {
    NoOwnInstances(before, t);
    hide Invariant;
  }

  /** The lock taken on the pair's instance row, and nothing else changed. */
  lemma LockStatement(before: Database, db: Database, t: TransactionId, name: string, key: string, newInstance: InstanceId, i: InstanceId)
    requires Invariant(before) && t !in before.launches && Inserted(before, db, t, name, key, newInstance)
    requires i in db.instances && Lockable(db, t, i)
    ensures Enabled(db, LockInstance(t, i))
    ensures var db' := Apply(db, LockInstance(t, i));
            Invariant(db') && i !in before.locks && InstanceOf(db', i, name, key)
            && (InstanceOf(before, i, name, key) || i !in before.instances)
            && db' == db.(locks := before.locks[i := t], launches := before.launches[t := Launch(name, key, CheckNext(i))])
  {
    hide Invariant, Finish;
    StepKeeps(db, LockInstance(t, i));
    NoOwnLock(before, t, i);
  }

  lemma OnlyInstance(before: Database, i: InstanceId, j: InstanceId, name: string, key: string)
    requires Invariant(before) && InstanceOf(before, i, name, key) && InstanceOf(before, j, name, key)
    ensures i == j
  {
  }

  class JobRepository {
    var db: Database

    constructor ()
      ensures db == EMPTY && Invariant(db)
    {
      db := EMPTY;
    }

    /**
     * The call waits exactly when another transaction has an uncommitted row of the pair; else it is refused
     * exactly when another launch holds the instance or an execution of it is STARTING or STARTED, and goes
     * through when none does and all its executions have other statuses.  A refused launch changes no row and
     * no lock, an accepted one adds one committed STARTING execution of the pair's instance, which it creates
     * if there is none, a waiting one has only begun.
     */
    method CreateExecutionAtomic(t: TransactionId, name: string, key: string, newInstance: InstanceId, newExecution: ExecutionId)
      returns (r: LaunchOutcome)
      requires Ready(db, t, newInstance, newExecution)
      modifies this
      ensures Invariant(db)
      ensures r.Waits? <==> !Settled(old(db), name, key)
      ensures r.Waits? ==> db == Apply(old(db), Begin(t, name, key)) && !Enabled(db, InsertInstance(t, newInstance))
      ensures !r.Waits? ==> (r.AlreadyRunning? <==> Busy(old(db), name, key))
      ensures !r.Waits? ==> db.launches == old(db.launches) && db.locks == old(db.locks)
      ensures Settled(old(db), name, key) && Rests(old(db), name, key) ==> r.Created?
      ensures r.AlreadyRunning? ==> db.executions == old(db.executions) && db.instances == old(db.instances)
      ensures r.Created? ==>
        && r.execution == newExecution && RunningFor(db, newExecution, name, key)
        && Grown(old(db), db, None, name, key, newInstance)
        && db.executions == old(db.executions)[newExecution := db.executions[newExecution]]
        && db.executions[newExecution].owner.None? && db.executions[newExecution].status == JobStarting
    {
      hide Invariant, Apply;
      ghost var db0 := db;
      RestsIffNotBusy(db0, name, key);
      BeginStatement(db0, t, name, key, newInstance);
      db := Apply(db, Begin(t, name, key));
      var foreign := set i | i in db.instances && SamePair(db.instances[i], db.launches[t]) && !VisibleTo(db.instances[i].owner, t);
      if foreign != {} {
        var i :| i in foreign;
        assert InstanceOf(db0, i, name, key);
        return Waits;
      }
      forall i | InstanceOf(db0, i, name, key) ensures db0.instances[i].owner.None? {
        assert i !in foreign;
      }
      InsertStatement(db0, t, name, key, newInstance, newExecution);
      db := Apply(db, InsertInstance(t, newInstance));
      var candidates := set i | i in db.instances && Lockable(db, t, i);
      if candidates == {} {
        forall i | i in db.instances ensures !Lockable(db, t, i) {
          assert i !in candidates;
        }
        NothingLockable(db0, db, t, name, key, newInstance);
        db := Apply(db, LockNothing(t));
        return AlreadyRunning;
      }
      var i :| i in candidates;
      LockStatement(db0, db, t, name, key, newInstance, i);
      db := Apply(db, LockInstance(t, i));
      r := CheckAndCreate(t, name, key, i, newExecution, db0, newInstance);
    }

    /** The statements under the lock: check, create, commit. */
    method CheckAndCreate(t: TransactionId, name: string, key: string, i: InstanceId, newExecution: ExecutionId,
                          ghost before: Database, ghost newInstance: InstanceId)
      returns (r: LaunchOutcome)
      requires Grown(before, db, Some(t), name, key, newInstance)
      requires Invariant(before) && t !in before.launches && newExecution !in before.executions
      requires Settled(before, name, key)
      requires Invariant(db) && InstanceOf(db, i, name, key) && i !in before.locks
      requires InstanceOf(before, i, name, key) || i !in before.instances
      requires forall j :: InstanceOf(before, j, name, key) ==> InstanceOf(db, j, name, key)
      requires db.executions == before.executions && db.locks == before.locks[i := t]
      requires db.launches == before.launches[t := Launch(name, key, CheckNext(i))]
      modifies this
      ensures Invariant(db) && !r.Waits?
      ensures r.AlreadyRunning? <==> Busy(before, name, key)
      ensures db.launches == before.launches && db.locks == before.locks
      ensures r.AlreadyRunning? ==> db.executions == before.executions && db.instances == before.instances
      ensures r.Created? ==>
        && r.execution == newExecution && RunningFor(db, newExecution, name, key)
        && Grown(before, db, None, name, key, newInstance)
        && db.executions == before.executions[newExecution := db.executions[newExecution]]
        && db.executions[newExecution].owner.None? && db.executions[newExecution].status == JobStarting
    {
      var running := set e | e in db.executions && SeenRunning(db, t, i, e);
      ghost var locked := db;
      NoOwnLock(before, t, i);
      if running != {} {
        var e :| e in running;
        RunningMeansBusy(before, locked, t, name, key, newInstance, i, e);
        hide Invariant;
        db := Apply(db, FindRunning(t, e));
        return AlreadyRunning;
      }
      forall e | e in db.executions ensures !SeenRunning(db, t, i, e) {
        assert e !in running;
      }
      CreateStatement(before, locked, t, name, key, newInstance, i, newExecution);
      hide Invariant, Busy, RunningFor, Grown;
      db := Apply(db, FindNoneRunning(t));
      db := Apply(db, CreateExecution(t, newExecution));
      db := Apply(db, Commit(t));
      return Created(newExecution);
    }
  }

  lemma RunningMeansBusy(before: Database, db: Database, t: TransactionId, name: string, key: string, newInstance: InstanceId,
                         i: InstanceId, e: ExecutionId)
    requires Grown(before, db, Some(t), name, key, newInstance)
    requires Invariant(before) && t !in before.launches && Invariant(db)
    requires db.executions == before.executions && db.locks == before.locks[i := t]
    requires db.launches == before.launches[t := Launch(name, key, CheckNext(i))]
    requires InstanceOf(before, i, name, key) || i !in before.instances
    requires i !in before.locks && SeenRunning(db, t, i, e)
    ensures Enabled(db, FindRunning(t, e)) && Busy(before, name, key) && Undone(before, Apply(db, FindRunning(t, e)))
  {
    hide Invariant, Finish;
    StepKeeps(db, FindRunning(t, e));
    InstanceExists(before, e);
    assert RunningIn(before, e, i);
    FinishUndoes(before, db, t, name, key, newInstance);
  }

  lemma InstanceExists(db: Database, e: ExecutionId)
    requires Invariant(db) && e in db.executions
    ensures db.executions[e].instance in db.instances
  {
    hide PairsUnique, OneRunning, LocksHeld, OwnersLive, CheckedStays;
  }

  /** An uncommitted execution belongs to a launch that still holds the lock of its instance. */
  lemma UnlockedRunsCommitted(db: Database, i: InstanceId, e: ExecutionId)
    requires Invariant(db) && i !in db.locks && RunningIn(db, e, i)
    ensures db.executions[e].owner.None?
  {
    hide PairsUnique, OneRunning, Referential, CheckedStays;
  }

  /** Check, insert and commit, when nothing is running: the launch's execution is the only change that stays. */
  lemma CreateStatement(before: Database, db: Database, t: TransactionId, name: string, key: string, newInstance: InstanceId,
                        i: InstanceId, newExecution: ExecutionId)
    requires Grown(before, db, Some(t), name, key, newInstance)
    requires Invariant(before) && t !in before.launches && Invariant(db) && newExecution !in before.executions
    requires InstanceOf(db, i, name, key) && (InstanceOf(before, i, name, key) || i !in before.instances)
    requires forall j :: InstanceOf(before, j, name, key) ==> InstanceOf(db, j, name, key)
    requires db.executions == before.executions && db.locks == before.locks[i := t] && i !in before.locks
    requires db.launches == before.launches[t := Launch(name, key, CheckNext(i))]
    requires forall e :: e in db.executions ==> !SeenRunning(db, t, i, e)
    ensures Enabled(db, FindNoneRunning(t))
    ensures var checked := Apply(db, FindNoneRunning(t));
            && Enabled(checked, CreateExecution(t, newExecution))
            && var created := Apply(checked, CreateExecution(t, newExecution));
            && Enabled(created, Commit(t))
            && var done := Apply(created, Commit(t));
            && Invariant(done) && !Busy(before, name, key)
            && done.launches == before.launches && done.locks == before.locks
            && done.executions == before.executions[newExecution := ExecutionRow(i, JobStarting, None)]
            && RunningFor(done, newExecution, name, key) && Grown(before, done, None, name, key, newInstance)
  {
    hide Invariant, Busy, Finish, Grown, SeenRunning, Lockable, SamePair, VisibleTo;
    NotBusy(before, db, t, name, key, i);
    NoOwnRows(before, t);
    StepKeeps(db, FindNoneRunning(t));
    var checked := Apply(db, FindNoneRunning(t));
    StepKeeps(checked, CreateExecution(t, newExecution));
    var created := Apply(checked, CreateExecution(t, newExecution));
    StepKeeps(created, Commit(t));
    CommitLeaves(before, created, t, i, newExecution);
    InstanceStays(created, t, i);
    GrownCommits(before, db, created, t, name, key, newInstance);
  }

  lemma CommitLeaves(before: Database, created: Database, t: TransactionId, i: InstanceId, newExecution: ExecutionId)
    requires t !in before.launches && newExecution !in before.executions && i !in before.locks
    requires created.executions == before.executions[newExecution := ExecutionRow(i, JobStarting, Some(t))]
    requires created.locks == before.locks[i := t] && created.launches.Keys == before.launches.Keys + {t}
    requires forall u :: u in before.launches ==> created.launches[u] == before.launches[u]
    requires forall e :: e in before.executions ==> before.executions[e].owner != Some(t)
    requires forall j :: j in before.locks ==> before.locks[j] != t
    ensures var done := Finish(created, t, true);
      && done.launches == before.launches && done.locks == before.locks
      && done.executions == before.executions[newExecution := ExecutionRow(i, JobStarting, None)]
  {
  }

  lemma GrownCommits(before: Database, db: Database, created: Database, t: TransactionId, name: string, key: string, newInstance: InstanceId)
    requires Invariant(before) && t !in before.launches && Grown(before, db, Some(t), name, key, newInstance)
    requires created.instances == db.instances
    ensures Grown(before, Finish(created, t, true), None, name, key, newInstance)
  {
    NoOwnInstances(before, t);
    hide Invariant;
  }

  lemma InstanceStays(db: Database, t: TransactionId, i: InstanceId)
    requires i in db.instances
    ensures i in Finish(db, t, true).instances
    ensures Finish(db, t, true).instances[i].name == db.instances[i].name && Finish(db, t, true).instances[i].key == db.instances[i].key
  {
  }

  lemma NotBusy(before: Database, db: Database, t: TransactionId, name: string, key: string, i: InstanceId)
    requires Invariant(before) && t !in before.launches && Invariant(db)
    requires InstanceOf(db, i, name, key) && db.executions == before.executions && i !in before.locks
    requires forall j :: InstanceOf(before, j, name, key) ==> InstanceOf(db, j, name, key)
    requires forall e :: e in db.executions ==> !SeenRunning(db, t, i, e)
    requires db.locks == before.locks[i := t]
    ensures !Busy(before, name, key)
  {
    hide Invariant;
    forall j | InstanceOf(before, j, name, key) ensures j == i {
      OnlyInstance(db, i, j, name, key);
    }
    forall e ensures !RunningIn(before, e, i) {
      if RunningIn(before, e, i) {
        UnlockedRunsCommitted(before, i, e);
      }
    }
  }
}
