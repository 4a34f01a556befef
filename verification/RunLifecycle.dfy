/** Job locks, run rows and crash recovery: the database operations and the service's use of them. */
module RunLifecycle {
  import opened Domain

  datatype Row = Row(job: string, status: RunStatus, recovery: RecoveryOutcome, message: string)

  const AlreadyRunningNote := "Job already running"
  const StoppedNote := "service stopped unexpectedly while this run was in progress"
  const CleanupNote := "the service stopped unexpectedly while this run was in progress; "
                       + "any pending critical cleanup or recovery actions may not have completed"

  /** The row beginRun inserts, for a run that starts and for one whose job is locked. */
  function StartedRow(job: string): Row {
    Row(job, RunRunning, RecoveryNotApplicable, "")
  }

  function SkippedRow(job: string): Row {
    Row(job, RunSkipped, RecoveryNotApplicable, AlreadyRunningNote)
  }

  /** The two tables: job_locks (job to run) and backup_runs. */
  datatype Db = Db(locks: map<string, string>, rows: map<string, Row>)

  function WithLock(db: Db, job: string, run: string): Db {
    db.(locks := db.locks[job := run])
  }

  function WithoutLock(db: Db, job: string): Db {
    db.(locks := db.locks - {job})
  }

  function WithRow(db: Db, run: string, row: Row): Db {
    db.(rows := db.rows[run := row])
  }

  function RunningIds(db: Db): set<string> {
    set r | r in db.rows && db.rows[r].status == RunRunning
  }

  /** UPDATE backup_runs SET status = INTERRUPTED WHERE status = RUNNING. */
  function Interrupted(db: Db): Db {
    db.(rows := map r | r in db.rows ::
        if db.rows[r].status == RunRunning
        then db.rows[r].(status := RunInterrupted, message := StoppedNote) else db.rows[r])
  }

  /** The rewrite of these runs: recovery is reported as failed, since nobody verified it. */
  function Rewritten(db: Db, ids: set<string>): Db {
    db.(rows := map r | r in db.rows :: if r in ids then Unrecovered(db.rows[r]) else db.rows[r])
  }

  function Unrecovered(row: Row): Row {
    row.(recovery := RecoveryFailed, message := CleanupNote)
  }

  /** What beginRun does to the tables. */
  ghost predicate Begins(before: Db, after: Db, job: string, run: string, result: BeginResult) {
    match result
    case Begun => job !in before.locks && after == WithRow(WithLock(before, job, run), run, StartedRow(job))
    case BeginSkipped => after == WithRow(before, run, SkippedRow(job))
    case BeginFailed => after == before || (job !in before.locks && after == WithLock(before, job, run))
  }

  /** What releaseStaleLocks does: only locks whose release failed remain, or all if they could not be listed. */
  ghost predicate Released(before: Db, after: Db, kept: set<string>) {
    after == before.(locks := map j | j in before.locks && j in kept :: before.locks[j])
  }

  /** What recoverInterruptedRuns does: nothing, or every RUNNING row interrupted and some of them rewritten. */
  ghost predicate Recovers(before: Db, after: Db, ok: bool, rewritten: set<string>) {
    rewritten <= RunningIds(before) && after == if ok then Rewritten(Interrupted(before), rewritten) else before
  }

  datatype AcquireResult = Acquired | AlreadyRunning | LockError

  datatype BeginResult = Begun | BeginSkipped | BeginFailed

  class Store {
    var locks: map<string, string>
    var rows: map<string, Row>

    /** Whether everything asked of the database so far worked. */
    ghost var healthy: bool

    ghost function Contents(): Db
      reads this`locks, this`rows
    {
      Db(locks, rows)
    }

    /** Whether the database executes a statement. */
    method Works() returns (ok: bool)
      modifies this`healthy
      ensures healthy == (old(healthy) && ok)
    {
      ok := *;
      healthy := healthy && ok;
    }

    /**
     * The insert fails on the primary key of a locked job; any other constraint, such as a foreign key, is
     * answered the same way.
     */
    method Acquire(job: string, run: string)
      returns (r: AcquireResult, ghost executed: bool, ghost otherConstraint: bool)
      modifies this`locks, this`healthy
      ensures healthy == (old(healthy) && executed && !otherConstraint)
      ensures r == Acquired <==> executed && job !in old(locks) && !otherConstraint
      ensures r == AlreadyRunning <==> executed && (job in old(locks) || otherConstraint)
      ensures r == LockError <==> !executed
      ensures Contents() == if r == Acquired then WithLock(old(Contents()), job, run) else old(Contents())
    {
      otherConstraint := false;
      var ok := Works();
      executed := ok;
      if !ok {
        return LockError, executed, otherConstraint;
      }
      if job in locks {
        return AlreadyRunning, executed, otherConstraint;
      }
      var holds := Works();
      otherConstraint := !holds;
      if !holds {
        return AlreadyRunning, executed, otherConstraint;
      }
      locks := locks[job := run];
      return Acquired, executed, otherConstraint;
    }

    method Release(job: string) returns (ok: bool)
      modifies this`locks, this`healthy
      ensures healthy == (old(healthy) && ok)
      ensures Contents() == if ok then WithoutLock(old(Contents()), job) else old(Contents())
    {
      ok := Works();
      if ok {
        locks := locks - {job};
      }
    }

    method CreateRun(run: string, row: Row) returns (ok: bool)
      requires run !in rows
      modifies this`rows, this`healthy
      ensures healthy == (old(healthy) && ok)
      ensures Contents() == if ok then WithRow(old(Contents()), run, row) else old(Contents())
    {
      ok := Works();
      if ok {
        rows := rows[run := row];
      }
    }

    /** An update that matches no row is an error. */
    method UpdateRun(run: string, row: Row) returns (ok: bool)
      modifies this`rows, this`healthy
      ensures healthy ==> old(healthy) && (ok <==> run in old(rows))
      ensures ok ==> run in old(rows) && Contents() == WithRow(old(Contents()), run, row)
      ensures !ok ==> Contents() == old(Contents())
    {
      ok := Works();
      ok := ok && run in rows;
      if ok {
        rows := rows[run := row];
      }
    }

    method InterruptRunningRuns() returns (ok: bool, ids: seq<string>)
      modifies this`rows, this`healthy
      ensures healthy ==> old(healthy) && ok
      ensures ok ==> Contents() == Interrupted(old(Contents()))
      ensures !ok ==> Contents() == old(Contents()) && ids == []
      ensures forall id :: id in ids <==> ok && id in old(rows) && old(rows)[id].status == RunRunning
    {
      ok := Works();
      ids := [];
      if !ok {
        return;
      }
      var todo := rows.Keys;
      while todo != {}
        invariant todo <= rows.Keys
        invariant forall id :: id in ids <==> id in rows && id !in todo && rows[id].status == RunRunning
        decreases |todo|
      {
        var id :| id in todo;
        todo := todo - {id};
        if rows[id].status == RunRunning {
          ids := ids + [id];
        }
      }
      if ids == [] {
        assert Interrupted(Contents()).rows == rows;
        return;
      }
      ok := Works();
      if !ok {
        ids := [];
        return;
      }
      rows := Interrupted(Db(locks, rows)).rows;
    }

    // ----- the engine's begin and the service's startup -----

    /**
     * beginRun: lock the job, then insert the run; a failed insert gives the lock back. The ghost results
     * are the answers of the outside: whether an id was made, whether the lock insert was executed and met
     * another constraint, whether the run row was stored, and whether a lock was given back.
     */
    method BeginRun(job: string, run: string)
      returns (result: BeginResult, ghost built: bool, ghost executed: bool, ghost otherConstraint: bool,
               ghost stored: bool, ghost released: bool)
      requires run !in rows
      modifies this
      ensures result == Begun <==> built && executed && job !in old(locks) && !otherConstraint && stored
      ensures result == BeginSkipped <==> built && executed && (job in old(locks) || otherConstraint) && stored
      ensures healthy ==> old(healthy) && result == if job in old(locks) then BeginSkipped else Begun
      ensures Begins(old(Contents()), Contents(), job, run, result)
      ensures result == Begun ==> run in rows && rows[run].status == RunRunning && job in locks && locks[job] == run
      ensures result == BeginSkipped ==> run in rows && rows[run].status == RunSkipped && locks == old(locks)
      ensures result == BeginFailed ==> rows == old(rows)
      ensures result == BeginFailed ==>
                (locks == old(locks) <==>
                 !(built && executed && job !in old(locks) && !otherConstraint && !stored) || released)
    {
      executed, otherConstraint, stored, released := false, false, false, false;
      var made := Works();
      built := made;
      if !made {
        return BeginFailed, built, executed, otherConstraint, stored, released;
      }
      var acquired;
      acquired, executed, otherConstraint := Acquire(job, run);
      if acquired != Acquired {
        if acquired == AlreadyRunning {
          var skippedStored := CreateRun(run, SkippedRow(job));
          stored := skippedStored;
          result := if skippedStored then BeginSkipped else BeginFailed;
          return result, built, executed, otherConstraint, stored, released;
        }
        return BeginFailed, built, executed, otherConstraint, stored, released;
      }
      var rowStored := CreateRun(run, StartedRow(job));
      stored := rowStored;
      if !rowStored {
        var ok := Release(job);
        released := ok;
        assert ok ==> locks == old(locks);
        assert !ok ==> job in locks;
        return BeginFailed, built, executed, otherConstraint, stored, released;
      }
      return Begun, built, executed, otherConstraint, stored, released;
    }

    /** releaseStaleLocks: every lock found at startup is released; failures are logged and passed over. */
    method ReleaseStaleLocks() returns (listed: bool, ghost kept: set<string>)
      modifies this`locks, this`healthy
      ensures healthy ==> old(healthy) && listed && kept == {} && locks == map[]
      ensures kept <= old(locks).Keys && Released(old(Contents()), Contents(), kept)
      ensures !listed ==> kept == old(locks).Keys
    {
      kept := {};
      listed := Works();
      if !listed {
        kept := locks.Keys;
        assert locks == map j | j in locks && j in kept :: locks[j];
        return;
      }
      var existing := locks.Keys;
      while existing != {}
        invariant listed && (healthy ==> old(healthy) && kept == {})
        invariant existing <= old(locks).Keys && kept <= old(locks).Keys - existing
        invariant locks == map j | j in old(locks) && (j in kept || j in existing) :: old(locks)[j]
        decreases |existing|
      {
        var j :| j in existing;
        existing := existing - {j};
        var ok := Release(j);
        if !ok {
          kept := kept + {j};
        }
      }
    }

    /** recoverInterruptedRuns: bulk interruption, then one rewrite of each interrupted run that loads and stores. */
    method RecoverInterruptedRuns() returns (ok: bool, ghost rewritten: set<string>)
      modifies this`rows, this`healthy
      ensures healthy ==> old(healthy) && ok && rewritten == RunningIds(old(Contents()))
      ensures Recovers(old(Contents()), Contents(), ok, rewritten)
    {
      rewritten := {};
      var ids;
      ok, ids := InterruptRunningRuns();
      ghost var after := Contents();
      assert Rewritten(after, {}).rows == after.rows;
      for i := 0 to |ids|
        invariant rewritten <= RunningIds(old(Contents())) && (!ok ==> rewritten == {})
        invariant healthy ==> old(healthy) && ok && forall j :: 0 <= j < i ==> ids[j] in rewritten
        invariant Contents() == Rewritten(after, rewritten)
      {
        var loaded := Works();
        if loaded && ids[i] in rows {
          var stored := UpdateRun(ids[i], Unrecovered(rows[ids[i]]));
          if stored {
            OneMoreRewritten(after, rewritten, ids[i]);
            rewritten := rewritten + {ids[i]};
          }
        }
      }
    }
  }

  lemma OneMoreRewritten(db: Db, ids: set<string>, id: string)
    requires id in db.rows
    ensures WithRow(Rewritten(db, ids), id, Unrecovered(Rewritten(db, ids).rows[id])) == Rewritten(db, ids + {id})
  {
    assert WithRow(Rewritten(db, ids), id, Unrecovered(Rewritten(db, ids).rows[id])).rows ==
           Rewritten(db, ids + {id}).rows;
  }
}
