/**
 * One service process over its database: every interleaving of begin, failed begin, retention,
 * finish, crash and restart. The database effects are those of module RunLifecycle.
 */
module ServiceProcess {
  import opened Domain
  import opened RunLifecycle

  /** Where a run's goroutine is. */
  datatype Phase =
    | Locked                                // lock row inserted
    | Refused                               // run row could not be inserted; the lock is to be given back
    | Recorded                              // run row inserted as RUNNING
    | Working(snapshot: map<string, Row>)   // RunStarted sent; rows of its job read by retention, if any
    | Finished(result: Row)                 // workflow over, the final row decided in memory
    | Saved                                 // final update tried
    | Announced                             // RunFinished sent; the lock is still to be released

  datatype Active = Active(job: string, phase: Phase)

  datatype State = State(
    up: bool,
    db: Db,
    active: map<string, Active>,
    waiting: int,          // the shutdown wait group
    used: set<string>)     // run ids handed out so far; NewID never repeats one

  datatype Step =
    | Acquire(run: string, job: string)
    | Skip(run: string, job: string, stored: bool)
    | RefuseLock(run: string)
    | Insert(run: string)
    | FailInsert(run: string)
    | GiveBack(run: string, ok: bool)
    | Announce(run: string)
    | Persist(run: string, message: string, ok: bool)
    | ReadHistory(run: string, ids: set<string>)
    | RewriteHistory(run: string, past: string, ok: bool)
    | Finish(run: string, result: Row)
    | Save(run: string, ok: bool)
    | AnnounceEnd(run: string)
    | Unlock(run: string, ok: bool)
    | Crash
    | Restart(kept: set<string>, interrupted: bool, rewritten: set<string>)

  /** Whether run is at this phase of its goroutine. */
  predicate At(s: State, run: string, p: Phase -> bool) {
    run in s.active && p(s.active[run].phase)
  }

  predicate Enabled(s: State, step: Step) {
    match step
    case Acquire(run, job) => s.up && run !in s.used && job !in s.db.locks
    case Skip(run, job, _) => s.up && run !in s.used
    case RefuseLock(run) => s.up && run !in s.used
    case Insert(run) => At(s, run, p => p == Locked)
    case FailInsert(run) => At(s, run, p => p == Locked)
    case GiveBack(run, _) => At(s, run, p => p == Refused)
    case Announce(run) => At(s, run, p => p == Recorded)
    case Persist(run, _, _) => At(s, run, p => p == Working(map[]))
    case ReadHistory(run, _) => At(s, run, (p: Phase) => p.Working?)
    case RewriteHistory(run, past, _) => At(s, run, (p: Phase) => p.Working? && past in p.snapshot)
    case Finish(run, result) =>
      At(s, run, (p: Phase) => p.Working?) && result.status.IsTerminal() && result.job == s.active[run].job
    case Save(run, _) => At(s, run, (p: Phase) => p.Finished?)
    case AnnounceEnd(run) => At(s, run, p => p == Saved)
    case Unlock(run, _) => At(s, run, p => p == Announced)
    case Crash => s.up
    case Restart(_, _, rewritten) => !s.up && rewritten <= RunningIds(s.db)
  }

  function Move(s: State, run: string, phase: Phase): State
    requires run in s.active
  {
    s.(active := s.active[run := s.active[run].(phase := phase)])
  }

  /** The run's goroutine ends; its lock is removed if the delete worked. */
  function Leave(s: State, run: string, ok: bool): State
    requires run in s.active
  {
    s.(active := s.active - {run}, db := if ok then WithoutLock(s.db, s.active[run].job) else s.db)
  }

  function Next(s: State, step: Step): State
    requires Enabled(s, step)
  {
    match step
    case Acquire(run, job) =>
      s.(db := WithLock(s.db, job, run), active := s.active[run := Active(job, Locked)], used := s.used + {run})
    case Skip(run, job, stored) =>
      s.(db := if stored then WithRow(s.db, run, SkippedRow(job)) else s.db, used := s.used + {run})
    case RefuseLock(run) => s.(used := s.used + {run})
    case Insert(run) => Move(s, run, Recorded).(db := WithRow(s.db, run, StartedRow(s.active[run].job)))
    case FailInsert(run) => Move(s, run, Refused)
    case GiveBack(run, ok) => Leave(s, run, ok)
    case Announce(run) => Move(s, run, Working(map[])).(waiting := s.waiting + 1)
    case Persist(run, message, ok) =>
      s.(db := if ok then WithRow(s.db, run, StartedRow(s.active[run].job).(message := message)) else s.db)
    case ReadHistory(run, ids) =>
      Move(s, run, Working(map q | q in s.db.rows && q in ids && s.db.rows[q].job == s.active[run].job :: s.db.rows[q]))
    case RewriteHistory(run, past, ok) =>
      s.(db := if ok then WithRow(s.db, past, s.active[run].phase.snapshot[past]) else s.db)
    case Finish(run, result) => Move(s, run, Finished(result))
    case Save(run, ok) =>
      Move(s, run, Saved).(db := if ok then WithRow(s.db, run, s.active[run].phase.result) else s.db)
    case AnnounceEnd(run) => Move(s, run, Announced).(waiting := s.waiting - 1)
    case Unlock(run, ok) => Leave(s, run, ok)
    case Crash => s.(up := false, active := map[], waiting := 0)
    case Restart(kept, interrupted, rewritten) =>
      s.(up := true,
         db := (if interrupted then Rewritten(Interrupted(s.db), rewritten) else s.db)
               .(locks := map j | j in s.db.locks && j in kept :: s.db.locks[j]))
  }

  // ----- the invariant -----

  /** Runs the shutdown has to wait for: started and not yet reported finished. */
  ghost function Unfinished(s: State): set<string> {
    WaitedFor(s.active)
  }

  ghost function WaitedFor(active: map<string, Active>): set<string> {
    set r | r in active && Waits(active[r].phase)
  }

  predicate Waits(phase: Phase) {
    phase.Working? || phase.Finished? || phase.Saved?
  }

  /** An active run's job lock names that run. */
  ghost predicate HoldsLock(s: State, r: string) {
    r in s.active ==> s.active[r].job in s.db.locks && s.db.locks[s.active[r].job] == r
  }

  ghost predicate IsRunningRow(s: State, r: string)
    requires r in s.active
  {
    r in s.db.rows && s.db.rows[r].job == s.active[r].job && s.db.rows[r].status == RunRunning
  }

  /** A run row exists exactly from insertion on, and stays RUNNING until the final update. */
  ghost predicate RowMatches(s: State, r: string) {
    r in s.active ==>
      match s.active[r].phase
      case Locked => r !in s.db.rows
      case Refused => r !in s.db.rows
      case Saved => r in s.db.rows && s.db.rows[r].job == s.active[r].job
      case Announced => r in s.db.rows && s.db.rows[r].job == s.active[r].job
      case Finished(result) => IsRunningRow(s, r) && result.job == s.active[r].job && result.status.IsTerminal()
      case _ => IsRunningRow(s, r)
  }

  /** The rows retention read are still what the table holds, so rewriting one changes no status. */
  ghost predicate SnapshotCurrent(s: State, r: string) {
    r in s.active && s.active[r].phase.Working? ==>
      forall q :: q in s.active[r].phase.snapshot ==>
                    && q in s.db.rows && s.db.rows[q] == s.active[r].phase.snapshot[q]
                    && s.db.rows[q].job == s.active[r].job
  }

  ghost predicate Inv(s: State) {
    && (forall r :: HoldsLock(s, r))
    && (forall r :: RowMatches(s, r))
    && (forall r :: SnapshotCurrent(s, r))
    && s.active.Keys <= s.used && s.db.rows.Keys <= s.used
    && (!s.up ==> s.active == map[])
    && s.waiting == |Unfinished(s)|
  }

  ghost predicate Init(s: State) {
    !s.up && s.active == map[] && s.waiting == 0 && s.db.rows.Keys <= s.used
  }

  lemma InitInv(s: State)
    requires Init(s)
    ensures Inv(s)
  {
    assert Unfinished(s) == {};
  }

  lemma LocksKept(s: State, step: Step)
    requires Inv(s) && Enabled(s, step)
    ensures forall r :: HoldsLock(Next(s, step), r)
  {
    var s' := Next(s, step);
    forall r
      ensures HoldsLock(s', r)
    {
      assert HoldsLock(s, r);
      if step.GiveBack? || step.Unlock? {
        assert HoldsLock(s, step.run);
      }
    }
  }

  lemma RowsKept(s: State, step: Step)
    requires Inv(s) && Enabled(s, step)
    ensures forall r :: RowMatches(Next(s, step), r)
  {
    var s' := Next(s, step);
    forall r
      ensures RowMatches(s', r)
    {
      assert RowMatches(s, r);
      if step.RewriteHistory? {
        assert SnapshotCurrent(s, step.run);
      }
    }
  }

  /** Two active runs of one job are the same run. */
  lemma OneRunPerJob(s: State, r1: string, r2: string)
    requires Inv(s) && r1 in s.active && r2 in s.active && s.active[r1].job == s.active[r2].job
    ensures r1 == r2
  {
    assert HoldsLock(s, r1) && HoldsLock(s, r2);
  }

  lemma SnapshotsKept(s: State, step: Step)
    requires Inv(s) && Enabled(s, step)
    ensures forall r :: SnapshotCurrent(Next(s, step), r)
  {
    var s' := Next(s, step);
    forall r
      ensures SnapshotCurrent(s', r)
    {
      assert SnapshotCurrent(s, r);
      if r in s'.active && s'.active[r].phase.Working? {
        match step
        case RewriteHistory(run, _, _) => assert SnapshotCurrent(s, run);
        case Insert(run) => assert RowMatches(s, run);
        case Persist(run, _, _) => assert RowMatches(s, run) && HoldsLock(s, run) && HoldsLock(s, r);
        case Save(run, _) =>
          assert RowMatches(s, run) && HoldsLock(s, run) && HoldsLock(s, r);
        case _ =>
      }
    }
  }

  lemma WaitedAfterMove(active: map<string, Active>, run: string, a: Active)
    ensures WaitedFor(active[run := a]) ==
            if Waits(a.phase) then WaitedFor(active) + {run} else WaitedFor(active) - {run}
    ensures run in WaitedFor(active) <==> run in active && Waits(active[run].phase)
  {
  }

  lemma WaitedAfterLeave(active: map<string, Active>, run: string)
    requires run in active && !Waits(active[run].phase)
    ensures WaitedFor(active - {run}) == WaitedFor(active)
  {
  }

  lemma WaitCounterKept(s: State, step: Step)
    requires Inv(s) && Enabled(s, step)
    ensures Next(s, step).waiting == |Unfinished(Next(s, step))|
  {
    hide WaitedFor, HoldsLock, RowMatches, SnapshotCurrent, WithRow, WithLock, WithoutLock, Interrupted, Rewritten;
    var s' := Next(s, step);
    match step
    case Crash => NoneWaited();
    case GiveBack(run, _) => WaitedAfterLeave(s.active, run);
    case Unlock(run, _) => WaitedAfterLeave(s.active, run);
    case Skip(_, _, _) =>
    case RefuseLock(_) =>
    case Restart(_, _, _) =>
    case Persist(_, _, _) =>
    case RewriteHistory(_, _, _) =>
    case _ => WaitedAfterMove(s.active, step.run, s'.active[step.run]);
  }

  lemma NoneWaited()
    ensures WaitedFor(map[]) == {}
  {
  }

  /** Every step keeps the invariant. */
  lemma StepInv(s: State, step: Step)
    requires Inv(s) && Enabled(s, step)
    ensures Inv(Next(s, step))
  {
    LocksKept(s, step);
    RowsKept(s, step);
    SnapshotsKept(s, step);
    WaitCounterKept(s, step);
    if step.RewriteHistory? {
      assert SnapshotCurrent(s, step.run);
    }
  }

  // ----- whole runs -----

  /** The states passed through by a list of steps, each enabled where it is taken. */
  ghost predicate Execution(s: State, steps: seq<Step>, t: State)
    decreases |steps|
  {
    if steps == [] then t == s
    else Enabled(s, steps[0]) && Execution(Next(s, steps[0]), steps[1..], t)
  }

  /** A status once terminal in the table is the same ever after, and no run row disappears. */
  lemma TerminalStays(s: State, step: Step, q: string)
    requires Inv(s) && Enabled(s, step) && q in s.db.rows
    ensures q in Next(s, step).db.rows && Next(s, step).db.rows[q].job == s.db.rows[q].job
    ensures s.db.rows[q].status.IsTerminal() ==> Next(s, step).db.rows[q] == s.db.rows[q]
  {
    match step
    case RewriteHistory(run, _, _) => assert SnapshotCurrent(s, run);
    case Insert(run) => assert RowMatches(s, run);
    case Persist(run, _, _) => assert RowMatches(s, run);
    case Save(run, _) => assert RowMatches(s, run);
    case _ =>
  }

  /** Safety over every execution of the service, crashes and restarts included. */
  lemma {:induction false} EveryExecution(s: State, steps: seq<Step>, t: State)
    requires Inv(s) && Execution(s, steps, t)
    ensures Inv(t)
    ensures forall r1, r2 :: r1 in t.active && r2 in t.active && t.active[r1].job == t.active[r2].job ==> r1 == r2
    ensures forall r :: r in t.active ==> t.active[r].job in t.db.locks && t.db.locks[t.active[r].job] == r
    ensures t.waiting == |Unfinished(t)|
    ensures forall q :: q in s.db.rows ==> q in t.db.rows
                                           && (s.db.rows[q].status.IsTerminal() ==> t.db.rows[q] == s.db.rows[q])
    decreases |steps|
  {
    if steps == [] {
      forall r1, r2 | r1 in t.active && r2 in t.active && t.active[r1].job == t.active[r2].job
        ensures r1 == r2
      {
        OneRunPerJob(t, r1, r2);
      }
      assert forall r :: r in t.active ==> HoldsLock(t, r);
    } else {
      StepInv(s, steps[0]);
      forall q | q in s.db.rows
        ensures q in Next(s, steps[0]).db.rows
        ensures s.db.rows[q].status.IsTerminal() ==> Next(s, steps[0]).db.rows[q] == s.db.rows[q]
      {
        TerminalStays(s, steps[0], q);
      }
      EveryExecution(Next(s, steps[0]), steps[1..], t);
    }
  }

  /** Removing a lock by job only ever removes the run's own lock, and leaves every other lock alone. */
  lemma ReleaseFreesOwnLock(s: State, step: Step)
    requires Inv(s) && Enabled(s, step) && (step.GiveBack? || step.Unlock?)
    ensures var job := s.active[step.run].job;
            && job in s.db.locks && s.db.locks[job] == step.run
            && (job !in Next(s, step).db.locks <==> step.ok)
            && (forall j :: j in s.db.locks && j != job ==>
                              j in Next(s, step).db.locks && Next(s, step).db.locks[j] == s.db.locks[j])
            && (forall r :: r in s.active && r != step.run ==> s.active[r].job != job)
  {
    assert HoldsLock(s, step.run);
    forall r | r in s.active && r != step.run
      ensures s.active[r].job != s.active[step.run].job
    {
      if s.active[r].job == s.active[step.run].job {
        OneRunPerJob(s, r, step.run);
      }
    }
  }

  /**
   * A restart whose interruption worked leaves no RUNNING row; with every release done, no lock either.
   * An interrupted run's recovery reads FAILED exactly when its rewrite worked or it read FAILED before.
   */
  lemma RestartCleans(s: State, kept: set<string>, rewritten: set<string>)
    requires Inv(s) && Enabled(s, Restart(kept, true, rewritten))
    ensures var t := Next(s, Restart(kept, true, rewritten));
            && RunningIds(t.db) == {}
            && (kept == {} ==> t.db.locks == map[])
            && (forall q :: q in RunningIds(s.db) ==>
                  && t.db.rows[q].status == RunInterrupted
                  && (t.db.rows[q].recovery == RecoveryFailed <==>
                      q in rewritten || s.db.rows[q].recovery == RecoveryFailed))
  {
    var t := Next(s, Restart(kept, true, rewritten));
    forall q | q in t.db.rows
      ensures t.db.rows[q].status != RunRunning
    {
    }
  }

  /**
   * The final status reaches the table if and only if the final update worked: otherwise the row
   * still says RUNNING when the run is reported finished, and the next restart calls it INTERRUPTED.
   */
  lemma UnsavedRunIsInterrupted(s: State, run: string, ok: bool, kept: set<string>)
    requires Inv(s) && s.up && Enabled(s, Save(run, ok))
    ensures var t := Next(Next(s, Save(run, ok)), AnnounceEnd(run));
            && Enabled(Next(s, Save(run, ok)), AnnounceEnd(run))
            && run in t.db.rows
            && (t.db.rows[run].status == if ok then s.active[run].phase.result.status else RunRunning)
            && Enabled(t, Crash) && Enabled(Next(t, Crash), Restart(kept, true, {}))
            && (!ok ==> Next(Next(t, Crash), Restart(kept, true, {})).db.rows[run].status == RunInterrupted)
  {
    assert RowMatches(s, run);
  }

  // ----- the store's methods are sequences of these steps -----

  /** One step. */
  lemma Step1(s: State, a: Step)
    requires Enabled(s, a)
    ensures Execution(s, [a], Next(s, a))
  {
    assert [a][1..] == [];
    assert Execution(Next(s, a), [], Next(s, a));
  }

  lemma StepThen(s: State, a: Step, rest: seq<Step>, t: State)
    requires Enabled(s, a) && Execution(Next(s, a), rest, t)
    ensures Execution(s, [a] + rest, t)
  {
    assert ([a] + rest)[1..] == rest;
  }

  /**
   * Whatever BeginRun does to the tables, some steps of the service do, and the run is then active
   * exactly when begun.
   */
  lemma BeginIsSteps(s: State, job: string, run: string, result: BeginResult, after: Db)
    returns (steps: seq<Step>, t: State)
    requires s.up && run !in s.used && run !in s.active && Begins(s.db, after, job, run, result)
    ensures Execution(s, steps, t) && t.db == after
            && t.active.Keys == s.active.Keys + (if result == Begun then {run} else {})
  {
    hide Execution;
    match result
    case Begun => steps, t := BegunSteps(s, job, run);
    case BeginSkipped =>
      steps, t := [Skip(run, job, true)], Next(s, Skip(run, job, true));
      Step1(s, Skip(run, job, true));
    case BeginFailed =>
      if after == s.db {
        steps, t := [RefuseLock(run)], Next(s, RefuseLock(run));
        Step1(s, RefuseLock(run));
      } else {
        steps, t := AbandonedSteps(s, job, run);
      }
  }

  lemma BegunSteps(s: State, job: string, run: string) returns (steps: seq<Step>, t: State)
    requires Enabled(s, Acquire(run, job)) && run !in s.active
    ensures Execution(s, steps, t) && t.active.Keys == s.active.Keys + {run}
    ensures t.db == WithRow(WithLock(s.db, job, run), run, StartedRow(job))
  {
    var u := Next(s, Acquire(run, job));
    t := Next(u, Insert(run));
    steps := [Acquire(run, job)] + [Insert(run)];
    hide Execution;
    Step1(u, Insert(run));
    StepThen(s, Acquire(run, job), [Insert(run)], t);
  }

  /** The run row could not be inserted and the lock could not be given back. */
  lemma AbandonedSteps(s: State, job: string, run: string) returns (steps: seq<Step>, t: State)
    requires Enabled(s, Acquire(run, job)) && run !in s.active
    ensures Execution(s, steps, t) && t.active.Keys == s.active.Keys && t.db == WithLock(s.db, job, run)
  {
    var u := Next(s, Acquire(run, job));
    var v := Next(u, FailInsert(run));
    t := Next(v, GiveBack(run, false));
    var rest := [FailInsert(run)] + [GiveBack(run, false)];
    steps := [Acquire(run, job)] + rest;
    hide Execution;
    Step1(v, GiveBack(run, false));
    StepThen(u, FailInsert(run), [GiveBack(run, false)], t);
    StepThen(s, Acquire(run, job), rest, t);
  }

  /** Startup, releasing locks and then recovering runs, is one restart step. */
  lemma StartupIsRestart(s: State, mid: Db, after: Db, kept: set<string>, ok: bool, rewritten: set<string>)
    requires !s.up && Released(s.db, mid, kept) && Recovers(mid, after, ok, rewritten)
    ensures Enabled(s, Restart(kept, ok, rewritten)) && Next(s, Restart(kept, ok, rewritten)).db == after
  {
    assert RunningIds(mid) == RunningIds(s.db);
  }

  /** The end of finishRun, the final update and then the release, is the last three steps of a run. */
  lemma FinishIsSteps(s: State, run: string, saved: bool, released: bool) returns (t: State)
    requires Inv(s) && Enabled(s, Save(run, saved))
    ensures Execution(s, [Save(run, saved)] + ([AnnounceEnd(run)] + [Unlock(run, released)]), t)
    ensures var stored := if saved then WithRow(s.db, run, s.active[run].phase.result) else s.db;
            t.db == if released then WithoutLock(stored, s.active[run].job) else stored
    ensures t.active == s.active - {run} && t.waiting == s.waiting - 1
  {
    var u := Next(s, Save(run, saved));
    var v := Next(u, AnnounceEnd(run));
    t := Next(v, Unlock(run, released));
    hide Execution;
    Step1(v, Unlock(run, released));
    StepThen(u, AnnounceEnd(run), [Unlock(run, released)], t);
    StepThen(s, Save(run, saved), [AnnounceEnd(run)] + [Unlock(run, released)], t);
  }
}
