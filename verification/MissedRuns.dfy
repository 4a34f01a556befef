/** Missed-run detection at startup: which jobs it acts on, and what each policy consumes. */
module MissedRuns {
  import opened Domain
  import opened Occurrences
  import opened Timestamps
  import Calendar
  import Monthly = MonthlySchedule
  import Dispatcher

  /** A job as detection uses it; next is NextRun on the job's schedule. */
  datatype Job = Job(id: string, enabled: bool, automatic: bool, skip: bool, next: int -> Option<int>)

  datatype Row = Row(job: string, startedAt: int, status: RunStatus)

  /** The run table, the dispatcher's baselines and the Runner calls made so far. */
  datatype State = State(rows: seq<Row>, baseline: map<string, int>, calls: seq<string>)

  /** What the outside answers while one job is handled; catchUp is the start of the run the Runner recorded. */
  datatype Answer = Answer(lastRunLoads: bool, created: bool, serverLoads: bool, catchUp: Option<Row>)

  /** The catch-up run, when it is recorded, starts after detection read the clock. */
  ghost predicate Plausible(a: Answer, job: Job, now: int) {
    a.catchUp.Some? ==>
      && a.catchUp.value.job == job.id && now <= a.catchUp.value.startedAt
      && FourDigitYear(a.catchUp.value.startedAt)
  }

  ghost predicate WholeSeconds(occurs: iset<int>) {
    forall u :: u in occurs ==> Nanos(u) == 0
  }

  /** Every schedule fires on whole seconds, and NextRun finds its least later occurrence. */
  ghost predicate Follows(job: Job, occurs: iset<int>) {
    NextOf(occurs, job.next) && WholeSeconds(occurs)
  }

  /** The instant the cron library answers with when it finds no date: 1 January of year 1. */
  const ZERO_TIME := 0

  /** What holds of every schedule: NextRun reads its argument to the second, and only the zero time is not after it. */
  ghost predicate Regular(job: Job) {
    && (forall a, b :: WholeSecond(a) == WholeSecond(b) ==> job.next(a) == job.next(b))
    && (forall t :: job.next(t).Some? && job.next(t).value <= t ==> job.next(t).value == ZERO_TIME)
  }

  /** Schedules that always find a date are regular. */
  lemma FollowsIsRegular(job: Job, occurs: iset<int>)
    requires Follows(job, occurs)
    ensures Regular(job)
  {
    forall a, b | WholeSecond(a) == WholeSecond(b)
      ensures job.next(a) == job.next(b)
    {
      if a <= b {
        SameNext(job, occurs, a, b);
      } else {
        SameNext(job, occurs, b, a);
      }
    }
  }

  ghost predicate Sortable(rows: seq<Row>) {
    forall i :: 0 <= i < |rows| ==> FourDigitYear(rows[i].startedAt)
  }

  // ----- the specification, on time rather than on stored text -----

  /** The latest start among a job's rows. */
  ghost function LastStart(rows: seq<Row>, id: string): (t: Option<int>)
    ensures t.None? <==> forall i :: 0 <= i < |rows| ==> rows[i].job != id
    ensures t.Some? ==> exists i :: 0 <= i < |rows| && rows[i].job == id && rows[i].startedAt == t.value
    ensures forall i :: 0 <= i < |rows| && rows[i].job == id ==> t.Some? && rows[i].startedAt <= t.value
  {
    if rows == [] then None
    else
      var n := |rows| - 1;
      var rest := LastStart(rows[..n], id);
      assert forall i :: 0 <= i < n ==> rows[..n][i] == rows[i];
      if rows[n].job == id && (rest.None? || rest.value < rows[n].startedAt) then Some(rows[n].startedAt) else rest
  }

  ghost function Missed(rows: seq<Row>, job: Job, now: int): Option<int> {
    match LastStart(rows, job.id)
    case None => None
    case Some(last) =>
      match job.next(last)
      case None => None
      case Some(n) => if n <= now then Some(n) else None
  }

  ghost function JobStep(s: State, job: Job, now: int, a: Answer): State {
    var missed := Missed(s.rows, job, now);
    if !a.lastRunLoads || missed.None? then s
    else if job.skip then
      s.(baseline := s.baseline[job.id := now],
         rows := if a.created then s.rows + [Row(job.id, missed.value, RunSkipped)] else s.rows)
    else if !a.serverLoads then
      s.(baseline := s.baseline[job.id := now])
    else
      s.(baseline := s.baseline[job.id := now],
         calls := s.calls + [job.id],
         rows := if a.catchUp.Some? then s.rows + [a.catchUp.value] else s.rows)
  }

  ghost function Pass(s: State, jobs: seq<Job>, now: int, answers: seq<Answer>): State
    requires |answers| == |jobs|
  {
    if jobs == [] then s
    else
      var n := |jobs| - 1;
      var before := Pass(s, jobs[..n], now, answers[..n]);
      if jobs[n].enabled && jobs[n].automatic then JobStep(before, jobs[n], now, answers[n]) else before
  }

  // ----- the code, on stored text -----

  /** No row of the job has a later key than row k: what ORDER BY started_at DESC LIMIT 1 returns. */
  ghost predicate FirstListed(rows: seq<Row>, id: string, k: nat)
    requires Sortable(rows)
  {
    && k < |rows| && rows[k].job == id
    && forall i :: 0 <= i < |rows| && rows[i].job == id ==>
       !Less(FormatTime(rows[k].startedAt), FormatTime(rows[i].startedAt))
  }

  class Detector {
    var rows: seq<Row>
    var scheduledUpTo: map<string, int>
    ghost var calls: seq<string>

    constructor ()
      ensures rows == [] && scheduledUpTo == map[] && calls == []
    {
      rows, scheduledUpTo, calls := [], map[], [];
    }

    ghost function Abstract(): State
      reads this
    {
      State(rows, scheduledUpTo, calls)
    }

    /** The listing's first row; the stored text decides the order. */
    method LastRun(id: string) returns (last: Option<Row>)
      requires Sortable(rows)
      ensures last.None? <==> forall i :: 0 <= i < |rows| ==> rows[i].job != id
      ensures last.Some? ==> exists k: nat :: k < |rows| && FirstListed(rows, id, k) && rows[k] == last.value
    {
      hide FormatTime, FourDigitYear, Less;
      last := None;
      ghost var at := 0;
      for i := 0 to |rows|
        invariant last.None? <==> forall j :: 0 <= j < i ==> rows[j].job != id
        invariant last.Some? ==> at < i && rows[at] == last.value && last.value.job == id
        invariant last.Some? ==> forall j :: 0 <= j < i && rows[j].job == id ==>
                  !Less(FormatTime(last.value.startedAt), FormatTime(rows[j].startedAt))
      {
        if rows[i].job == id {
          if last.None? {
            last, at := Some(rows[i]), i;
            LessIrreflexive(FormatTime(rows[i].startedAt));
          } else if Less(FormatTime(last.value.startedAt), FormatTime(rows[i].startedAt)) {
            forall j | 0 <= j < i && rows[j].job == id
              ensures !Less(FormatTime(rows[i].startedAt), FormatTime(rows[j].startedAt))
            {
              Dominates(last.value.startedAt, rows[i].startedAt, rows[j].startedAt);
            }
            last, at := Some(rows[i]), i;
            LessIrreflexive(FormatTime(rows[i].startedAt));
          }
        }
      }
      assert last.Some? ==> FirstListed(rows, id, at);
    }

    method DetectMissedRuns(settingsOk: bool, paused: bool, jobsOk: bool, jobs: seq<Job>, now: int,
                            answers: seq<Answer>)
      requires Sortable(rows) && FourDigitYear(now) && |answers| == |jobs|
      requires forall i :: 0 <= i < |jobs| ==> Regular(jobs[i]) && Plausible(answers[i], jobs[i], now)
      modifies this
      ensures Sortable(rows)
      ensures Abstract() ==
              if settingsOk && !paused && jobsOk then Pass(old(Abstract()), jobs, now, answers) else old(Abstract())
    {
      hide JobStep, Follows, FourDigitYear;
      if !settingsOk {
        return;
      }
      if paused {
        return;
      }
      if !jobsOk {
        return;
      }
      for i := 0 to |jobs|
        invariant Sortable(rows)
        invariant Abstract() == Pass(old(Abstract()), jobs[..i], now, answers[..i])
      {
        assert jobs[..i + 1][..i] == jobs[..i] && answers[..i + 1][..i] == answers[..i];
        if jobs[i].enabled && jobs[i].automatic {
          DetectForJob(jobs[i], now, answers[i]);
        }
      }
      assert jobs[..|jobs|] == jobs && answers[..|jobs|] == answers;
    }

    method DetectForJob(job: Job, now: int, a: Answer)
      requires Sortable(rows) && FourDigitYear(now) && Regular(job) && Plausible(a, job, now)
      modifies this
      ensures Sortable(rows)
      ensures Abstract() == JobStep(old(Abstract()), job, now, a)
    {
      hide Follows, FourDigitYear, FirstListed, Less, FormatTime, LastStart;
      if !a.lastRunLoads {
        return;
      }
      var last := LastRun(job.id);
      if last.None? {
        assert LastStart(rows, job.id).None?;
        return;
      }
      ghost var k: nat :| k < |rows| && FirstListed(rows, job.id, k) && rows[k] == last.value;
      KeyOrderIsHarmless(rows, job, k, now);
      var missed := job.next(last.value.startedAt);
      if missed.None? || missed.value > now {
        return;
      }
      scheduledUpTo := scheduledUpTo[job.id := now];
      if job.skip {
        RecordSkipped(job, missed.value, a.created);
        return;
      }
      if !a.serverLoads {
        return;
      }
      calls := calls + [job.id];
      if a.catchUp.Some? {
        rows := rows + [a.catchUp.value];
      }
    }

    method RecordSkipped(job: Job, missedAt: int, created: bool)
      modifies this`rows
      ensures rows == if created then old(rows) + [Row(job.id, missedAt, RunSkipped)] else old(rows)
    {
      if created {
        rows := rows + [Row(job.id, missedAt, RunSkipped)];
      }
    }
  }

  // ----- stored order against time order -----

  /** Byte order and time order of two instants can only disagree inside one second. */
  lemma KeysAndSeconds(t1: int, t2: int)
    requires FourDigitYear(t1) && FourDigitYear(t2)
    ensures Less(FormatTime(t1), FormatTime(t2)) ==> WholeSecond(t1) <= WholeSecond(t2)
    ensures Less(FormatTime(t1), FormatTime(t2)) || Less(FormatTime(t2), FormatTime(t1)) || t1 == t2
    ensures !(Less(FormatTime(t1), FormatTime(t2)) && Less(FormatTime(t2), FormatTime(t1)))
    ensures FormatTime(t1) == FormatTime(t2) ==> t1 == t2
  {
    hide FormatTime, FourDigitYear, Less, Fraction;
    if t1 < t2 {
      KeyOrder(t1, t2);
    } else if t2 < t1 {
      KeyOrder(t2, t1);
    }
    LessIrreflexive(FormatTime(t1));
  }

  lemma Dominates(best: int, better: int, other: int)
    requires FourDigitYear(best) && FourDigitYear(better) && FourDigitYear(other)
    requires Less(FormatTime(best), FormatTime(better)) && !Less(FormatTime(best), FormatTime(other))
    ensures !Less(FormatTime(better), FormatTime(other))
  {
    hide FormatTime, Less;
    AboveEqual(FormatTime(best), FormatTime(other), FormatTime(better));
    LessAsymmetric(FormatTime(other), FormatTime(better));
  }

  /** The row listed first starts in the same second as the latest one. */
  lemma FirstListedSecond(rows: seq<Row>, id: string, k: nat)
    requires Sortable(rows) && FirstListed(rows, id, k)
    ensures LastStart(rows, id).Some?
    ensures FourDigitYear(LastStart(rows, id).value)
    ensures rows[k].startedAt <= LastStart(rows, id).value
    ensures WholeSecond(rows[k].startedAt) == WholeSecond(LastStart(rows, id).value)
  {
    hide FormatTime, FourDigitYear, Less, LastStart;
    var last := LastStart(rows, id);
    var i :| 0 <= i < |rows| && rows[i].job == id && rows[i].startedAt == last.value;
    KeysAndSeconds(rows[i].startedAt, rows[k].startedAt);
  }

  /** Whole-second occurrences cannot fall between two instants of one second. */
  lemma SameNext(job: Job, occurs: iset<int>, a: int, b: int)
    requires Follows(job, occurs) && a <= b && WholeSecond(a) == WholeSecond(b)
    ensures job.next(a) == job.next(b)
  {
    assert forall u :: u in occurs ==> !(a < u <= b);
  }

  lemma OnTheSecond(day: int, hour: int, minute: int, offset: int)
    ensures (day * Monthly.DAY + hour * Monthly.HOUR + minute * Monthly.MINUTE - offset * SECOND) % SECOND == 0
  {
    var n := day * 86_400 + hour * 3600 + minute * 60 - offset;
    assert day * Monthly.DAY + hour * Monthly.HOUR + minute * Monthly.MINUTE - offset * SECOND == n * SECOND;
  }

  lemma MonthlyOnTheSecond(y: int, m: int, s: Monthly.Monthly)
    requires s.offset % SECOND == 0
    ensures Nanos(Monthly.MonthlyOccurrence(y, m, s)) == 0
  {
    hide Monthly.LastDayOfMonth, Calendar.DateDay;
    var last := Monthly.LastDayOfMonth(y, m);
    var day := if s.dayOfMonth > last then last else s.dayOfMonth;
    OnTheSecond(Calendar.DateDay(y, m, day), s.hour, s.minute, s.offset / SECOND);
    assert s.offset == s.offset / SECOND * SECOND;
  }

  /** Monthly schedules are such schedules, in any zone offset by whole seconds. */
  lemma MonthlyFollows(job: Job, s: Monthly.Monthly)
    requires s.Valid() && s.offset % SECOND == 0
    requires forall t :: job.next(t) == Some(Monthly.NextMonthly(s, t))
    ensures Follows(job, Monthly.OccurrencesOf(s))
  {
    hide Monthly.MonthlyOccurrence, Monthly.NextMonthly, LeastAfter, Nanos;
    forall t
      ensures LeastAfter(Monthly.OccurrencesOf(s), t, Monthly.NextMonthly(s, t))
    {
      Monthly.NextMonthlyIsLeast(s, t);
    }
    forall u | u in Monthly.OccurrencesOf(s)
      ensures Nanos(u) == 0
    {
      var y, m :| 1 <= m <= 12 && u == Monthly.MonthlyOccurrence(y, m, s);
      MonthlyOnTheSecond(y, m, s);
    }
  }

  /**
   * Reading the last run through the text order of the stored timestamps changes nothing: the
   * detection sees exactly the missed occurrence that the true latest start gives.
   */
  lemma KeyOrderIsHarmless(rows: seq<Row>, job: Job, k: nat, now: int)
    requires Sortable(rows) && FirstListed(rows, job.id, k) && Regular(job) && FourDigitYear(now)
    ensures var n := job.next(rows[k].startedAt);
            Missed(rows, job, now) == (if n.Some? && n.value <= now then n else None)
    ensures Missed(rows, job, now).Some? ==> FourDigitYear(Missed(rows, job, now).value)
  {
    FirstListedSecond(rows, job.id, k);
    hide LastStart, FirstListed, FourDigitYear;
    var last := LastStart(rows, job.id).value;
    assert job.next(rows[k].startedAt) == job.next(last);
    if Missed(rows, job, now).Some? {
      if Missed(rows, job, now).value == ZERO_TIME {
        ZeroTimeYear();
      } else {
        YearsBetween(last, Missed(rows, job, now).value, now);
      }
    }
  }

  lemma ZeroTimeYear()
    ensures FourDigitYear(ZERO_TIME)
  {
  }

  lemma YearsBetween(a: int, m: int, b: int)
    requires FourDigitYear(a) && FourDigitYear(b) && a <= m <= b
    ensures FourDigitYear(m)
  {
  }

  // ----- what detection does -----

  /** Occurrences a pass at this time would still find missed. */
  ghost function Remaining(rows: seq<Row>, job: Job, occurs: iset<int>, now: int): nat {
    match LastStart(rows, job.id)
    case None => 0
    case Some(last) => Count(occurs, last, now)
  }

  /**
   * Detection acts on a job exactly when it has run before and an occurrence has passed since, and then
   * on the earliest.
   */
  lemma ActsIffMissed(rows: seq<Row>, job: Job, occurs: iset<int>, now: int)
    requires Follows(job, occurs)
    ensures var last := LastStart(rows, job.id);
            var missed := Missed(rows, job, now);
            && (missed.Some? <==> last.Some? && OccursIn(occurs, last.value, now))
            && (missed.Some? ==> LeastAfter(occurs, last.value, missed.value) && missed.value <= now)
    ensures Missed(rows, job, now).Some? <==> Remaining(rows, job, occurs, now) > 0
  {
    hide LastStart;
    var last := LastStart(rows, job.id);
    if last.Some? {
      DueIffOccurs(occurs, job.next, last.value, now);
      CountZero(occurs, last.value, now);
    }
  }

  /**
   * Whatever the next-run function answers, detection acts exactly when the job has run before and an
   * occurrence has passed since, or the answer is not after the last start.
   */
  lemma ActsUnderAnyAnswer(rows: seq<Row>, job: Job, occurs: iset<int>, now: int)
    requires LooseNextOf(occurs, job.next)
    ensures var last := LastStart(rows, job.id);
            Missed(rows, job, now).Some? <==>
            && last.Some? && job.next(last.value).Some? && job.next(last.value).value <= now
            && (OccursIn(occurs, last.value, now) || job.next(last.value).value <= last.value)
  {
    hide LastStart;
  }

  /** Answered with the zero time, a SKIP job gets one more row dated year 1 at every pass, and nothing is consumed. */
  lemma {:induction false} ZeroTimeNeverConsumed(s: State, job: Job, now: int, a: Answer, n: nat)
    requires job.skip && a.lastRunLoads && a.created && ZERO_TIME <= now
    requires LastStart(s.rows, job.id).Some? && ZERO_TIME <= LastStart(s.rows, job.id).value
    requires job.next(LastStart(s.rows, job.id).value) == Some(ZERO_TIME)
    ensures var after := Passes(s, job, now, a, n);
            && |after.rows| == |s.rows| + n && after.rows[..|s.rows|] == s.rows
            && (forall i :: |s.rows| <= i < |after.rows| ==> after.rows[i] == Row(job.id, ZERO_TIME, RunSkipped))
            && LastStart(after.rows, job.id) == LastStart(s.rows, job.id)
            && Missed(after.rows, job, now) == Some(ZERO_TIME)
  {
    hide LastStart;
    if n > 0 {
      ZeroTimeNeverConsumed(s, job, now, a, n - 1);
      var before := Passes(s, job, now, a, n - 1);
      LastStartMore(before.rows, Row(job.id, ZERO_TIME, RunSkipped), job.id);
    }
  }

  lemma LastStartMore(rows: seq<Row>, row: Row, id: string)
    ensures LastStart(rows + [row], id) ==
            var rest := LastStart(rows, id);
            if row.job == id && (rest.None? || rest.value < row.startedAt) then Some(row.startedAt) else rest
  {
    assert (rows + [row])[..|rows|] == rows;
  }

  /** One recorded SKIP consumes exactly the earliest missed occurrence. */
  lemma SkipConsumesOne(s: State, job: Job, occurs: iset<int>, now: int, a: Answer)
    requires Follows(job, occurs) && job.skip && a.lastRunLoads && a.created
    ensures var after := JobStep(s, job, now, a);
            && after.calls == s.calls
            && |after.rows| == |s.rows| + (if Remaining(s.rows, job, occurs, now) == 0 then 0 else 1)
            && Remaining(after.rows, job, occurs, now) ==
               (if Remaining(s.rows, job, occurs, now) == 0 then 0 else Remaining(s.rows, job, occurs, now) - 1)
  {
    ActsIffMissed(s.rows, job, occurs, now);
    hide LastStart, Follows, Count;
    var missed := Missed(s.rows, job, now);
    if missed.Some? {
      LastStartMore(s.rows, Row(job.id, missed.value, RunSkipped), job.id);
      CountFromLeast(occurs, LastStart(s.rows, job.id).value, missed.value, now);
    }
  }

  /** Detection repeated n times over one job, at the same time and with the same answers. */
  ghost function Passes(s: State, job: Job, now: int, a: Answer, n: nat): State {
    if n == 0 then s else JobStep(Passes(s, job, now, a, n - 1), job, now, a)
  }

  /** Under SKIP, k missed occurrences take exactly k recorded passes to clear. */
  lemma {:induction false} SkipTakesOnePassEach(s: State, job: Job, occurs: iset<int>, now: int, a: Answer, n: nat)
    requires Follows(job, occurs) && job.skip && a.lastRunLoads && a.created
    ensures var k := Remaining(s.rows, job, occurs, now);
            && Remaining(Passes(s, job, now, a, n).rows, job, occurs, now) == (if n < k then k - n else 0)
            && |Passes(s, job, now, a, n).rows| == |s.rows| + (if n < k then n else k)
  {
    hide Remaining, JobStep, Follows;
    if n > 0 {
      SkipTakesOnePassEach(s, job, occurs, now, a, n - 1);
      SkipConsumesOne(Passes(s, job, now, a, n - 1), job, occurs, now, a);
    }
  }

  /** One catch-up is one Runner call, and once recorded it consumes every missed occurrence. */
  lemma CatchUpConsumesAll(s: State, job: Job, occurs: iset<int>, now: int, a: Answer)
    requires Follows(job, occurs) && !job.skip && a.lastRunLoads && a.serverLoads && Plausible(a, job, now)
    ensures var after := JobStep(s, job, now, a);
            && after.calls == (if Remaining(s.rows, job, occurs, now) > 0 then s.calls + [job.id] else s.calls)
            && (Remaining(after.rows, job, occurs, now) == 0 <==>
                Remaining(s.rows, job, occurs, now) == 0 || a.catchUp.Some?)
  {
    ActsIffMissed(s.rows, job, occurs, now);
    hide LastStart, Follows, Missed, FourDigitYear;
    if Missed(s.rows, job, now).Some? && a.catchUp.Some? {
      var row := a.catchUp.value;
      LastStartMore(s.rows, row, job.id);
    }
  }

  /** Whether the handling of a missed occurrence left a row behind. */
  ghost predicate Recorded(job: Job, a: Answer) {
    if job.skip then a.created else a.serverLoads && a.catchUp.Some?
  }

  /**
   * The live dispatcher's baseline moves to now even when the insert or the server load failed. The
   * missed occurrences then make the job due no more; only a later pass finds the earliest again.
   */
  lemma UnrecordedIsLostToDispatch(s: State, job: Job, occurs: iset<int>, now: int, a: Answer, d: Dispatcher.State,
                                   live: Dispatcher.Job, later: int)
    requires Follows(job, occurs) && a.lastRunLoads && Remaining(s.rows, job, occurs, now) > 0 && now <= later
    requires d.baseline == JobStep(s, job, now, a).baseline && live.id == job.id && live.next == job.next
    ensures Dispatcher.Due(d, live, later) <==> OccursIn(occurs, now, later)
    ensures OccursIn(occurs, LastStart(s.rows, job.id).value, later)
    ensures JobStep(s, job, now, a).rows == s.rows <==> !Recorded(job, a)
    ensures !Recorded(job, a) ==> Missed(JobStep(s, job, now, a).rows, job, later) == Missed(s.rows, job, now)
  {
    ActsIffMissed(s.rows, job, occurs, now);
    DueIffOccurs(occurs, job.next, now, later);
    hide LastStart;
    assert forall row: Row :: s.rows + [row] != s.rows by {
      forall row: Row
        ensures |s.rows + [row]| == |s.rows| + 1
      {
      }
    }
  }

  /** What a pass writes into the live dispatcher's map is one detection action, at the time the pass began with. */
  lemma StepIsDetect(s: State, job: Job, now: int, a: Answer, d: Dispatcher.State)
    requires d.baseline == s.baseline && a.lastRunLoads && Missed(s.rows, job, now).Some?
    ensures Dispatcher.Next(d, Dispatcher.Detect(job.id, now)).baseline == JobStep(s, job, now, a).baseline
  {
  }

  /** Without a missed occurrence nothing is written at all. */
  lemma NothingMissedNothingDone(s: State, job: Job, occurs: iset<int>, now: int, a: Answer)
    requires Follows(job, occurs)
    ensures Remaining(s.rows, job, occurs, now) == 0 ==> JobStep(s, job, now, a) == s
  {
    ActsIffMissed(s.rows, job, occurs, now);
  }

  // ----- jobs are handled independently -----

  ghost function RowsOf(rows: seq<Row>, id: string): seq<Row> {
    if rows == [] then []
    else
      var n := |rows| - 1;
      RowsOf(rows[..n], id) + (if rows[n].job == id then [rows[n]] else [])
  }

  lemma RowsOfMore(rows: seq<Row>, row: Row, id: string)
    ensures RowsOf(rows + [row], id) == RowsOf(rows, id) + (if row.job == id then [row] else [])
  {
    assert (rows + [row])[..|rows|] == rows;
  }

  lemma {:induction false} LastStartOfOwnRows(rows: seq<Row>, id: string)
    ensures LastStart(RowsOf(rows, id), id) == LastStart(rows, id)
  {
    if rows != [] {
      var n := |rows| - 1;
      LastStartOfOwnRows(rows[..n], id);
      if rows[n].job == id {
        LastStartMore(RowsOf(rows[..n], id), rows[n], id);
      } else {
        assert RowsOf(rows, id) == RowsOf(rows[..n], id);
      }
    }
  }

  /** What one job's step adds is decided by that job's rows alone, and no other job's rows change. */
  lemma StepIsLocal(s: State, t: State, job: Job, now: int, a: Answer, id: string)
    requires Plausible(a, job, now)
    requires RowsOf(s.rows, job.id) == RowsOf(t.rows, job.id)
    ensures id != job.id ==> RowsOf(JobStep(s, job, now, a).rows, id) == RowsOf(s.rows, id)
    ensures RowsOf(JobStep(s, job, now, a).rows, job.id) == RowsOf(JobStep(t, job, now, a).rows, job.id)
  {
    LastStartOfOwnRows(s.rows, job.id);
    LastStartOfOwnRows(t.rows, job.id);
    hide LastStart, RowsOf, FourDigitYear;
    var missed := Missed(s.rows, job, now);
    assert missed == Missed(t.rows, job, now);
    if missed.Some? {
      var row := Row(job.id, missed.value, RunSkipped);
      RowsOfMore(s.rows, row, job.id);
      RowsOfMore(t.rows, row, job.id);
      RowsOfMore(s.rows, row, id);
    }
    if a.catchUp.Some? {
      RowsOfMore(s.rows, a.catchUp.value, job.id);
      RowsOfMore(t.rows, a.catchUp.value, job.id);
      RowsOfMore(s.rows, a.catchUp.value, id);
    }
  }

  /** A job's own step, taken only when detection considers the job. */
  ghost function Considered(s: State, job: Job, now: int, a: Answer): State {
    if job.enabled && job.automatic then JobStep(s, job, now, a) else s
  }

  ghost predicate DistinctIds(jobs: seq<Job>) {
    forall i, j :: 0 <= i < j < |jobs| ==> jobs[i].id != jobs[j].id
  }

  ghost predicate AllPlausible(jobs: seq<Job>, now: int, answers: seq<Answer>) {
    |answers| == |jobs| && forall i :: 0 <= i < |jobs| ==> Plausible(answers[i], jobs[i], now)
  }

  lemma {:induction false} OtherJobsKeepRows(s: State, jobs: seq<Job>, now: int, answers: seq<Answer>, id: string)
    requires AllPlausible(jobs, now, answers)
    requires forall i :: 0 <= i < |jobs| ==> jobs[i].id != id
    ensures RowsOf(Pass(s, jobs, now, answers).rows, id) == RowsOf(s.rows, id)
  {
    if jobs != [] {
      hide JobStep, RowsOf, Plausible;
      var n := |jobs| - 1;
      OtherJobsKeepRows(s, jobs[..n], now, answers[..n], id);
      var before := Pass(s, jobs[..n], now, answers[..n]);
      StepIsLocal(before, before, jobs[n], now, answers[n], id);
    }
  }

  /** Over a whole pass, every job ends with the rows it would have had if it were the only job. */
  lemma {:induction false} PassIsIndependent(s: State, jobs: seq<Job>, now: int, answers: seq<Answer>, k: nat)
    requires AllPlausible(jobs, now, answers) && DistinctIds(jobs) && k < |jobs|
    ensures RowsOf(Pass(s, jobs, now, answers).rows, jobs[k].id) ==
            RowsOf(Considered(s, jobs[k], now, answers[k]).rows, jobs[k].id)
    decreases |jobs|
  {
    hide JobStep, RowsOf, Plausible;
    var n := |jobs| - 1;
    var before := Pass(s, jobs[..n], now, answers[..n]);
    if k == n {
      OtherJobsKeepRows(s, jobs[..n], now, answers[..n], jobs[n].id);
      StepIsLocal(before, s, jobs[n], now, answers[n], jobs[n].id);
    } else {
      PassIsIndependent(s, jobs[..n], now, answers[..n], k);
      assert jobs[..n][k] == jobs[k] && answers[..n][k] == answers[k];
      StepIsLocal(before, before, jobs[n], now, answers[n], jobs[k].id);
    }
  }

  /** A job that is disabled or has no automatic schedule is left alone by every pass. */
  lemma DisabledIsLeftAlone(s: State, jobs: seq<Job>, now: int, answers: seq<Answer>, k: nat)
    requires AllPlausible(jobs, now, answers) && DistinctIds(jobs) && k < |jobs|
    requires !jobs[k].enabled || !jobs[k].automatic
    ensures RowsOf(Pass(s, jobs, now, answers).rows, jobs[k].id) == RowsOf(s.rows, jobs[k].id)
  {
    PassIsIndependent(s, jobs, now, answers, k);
  }
}
