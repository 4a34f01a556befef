/** The live dispatcher: due jobs, per-job baselines and concurrency slots. */
module Dispatcher {
  import opened Domain
  import opened Occurrences

  /** A job as the dispatcher uses it; next is NextRun on the job's schedule. */
  datatype Job = Job(id: string, server: string, enabled: bool, automatic: bool, next: int -> Option<int>)

  datatype Start = Start(job: string, time: int)

  /** Dispatched runs in flight by token, with their server, and what has happened so far. */
  datatype State = State(
    baseline: map<string, int>,      // scheduledUpTo
    inflight: map<nat, string>,
    nextToken: nat,
    firstSeen: map<string, int>,
    starts: seq<Start>,
    largestLimit: int)

  const Idle := State(map[], map[], 0, map[], [], 0)

  /**
   * The atomic actions of the dispatcher goroutine, of the runs it started, and of missed-run detection,
   * which runs beside it and writes the time it began with.
   */
  datatype Action =
    | Consider(job: Job, now: int, limit: int, serverLoads: bool)
    | Release(token: nat)
    | Detect(id: string, at: int)

  predicate Due(s: State, job: Job, now: int) {
    job.id in s.baseline && job.next(s.baseline[job.id]).Some? && job.next(s.baseline[job.id]).value <= now
  }

  predicate SlotFree(s: State, server: string, limit: int) {
    |s.inflight| < limit && server !in s.inflight.Values
  }

  function Started(s: State, job: Job, now: int, limit: int): State {
    s.(baseline := s.baseline[job.id := now],
       inflight := s.inflight[s.nextToken := job.server],
       nextToken := s.nextToken + 1,
       starts := s.starts + [Start(job.id, now)],
       largestLimit := if limit > s.largestLimit then limit else s.largestLimit)
  }

  predicate Starts(s: State, a: Action) {
    a.Consider? && Due(s, a.job, a.now) && a.serverLoads && SlotFree(s, a.job.server, a.limit)
  }

  function Next(s: State, a: Action): State {
    match a
    case Consider(job, now, limit, _) =>
      if job.id !in s.baseline then
        s.(baseline := s.baseline[job.id := now], firstSeen := s.firstSeen[job.id := now])
      else if Starts(s, a) then Started(s, job, now, limit)
      else s
    case Release(token) => s.(inflight := s.inflight - {token})
    case Detect(id, at) =>
      s.(baseline := s.baseline[id := at],
         firstSeen := if id in s.firstSeen then s.firstSeen else s.firstSeen[id := at])
  }

  function Run(s: State, actions: seq<Action>): State
    decreases |actions|
  {
    if actions == [] then s else Next(Run(s, actions[..|actions| - 1]), actions[|actions| - 1])
  }

  // ----- the dispatcher itself, with its counters -----

  function Lookup(m: map<string, int>, key: string): int {
    if key in m then m[key] else 0
  }

  /** The tokens in flight on a server. */
  ghost function On(inflight: map<nat, string>, server: string): set<nat> {
    set t | t in inflight && inflight[t] == server
  }

  class Dispatcher {
    var scheduledUpTo: map<string, int>
    var runningCount: int
    var runningServers: map<string, int>

    ghost var inflight: map<nat, string>
    ghost var nextToken: nat
    ghost var firstSeen: map<string, int>
    ghost var starts: seq<Start>
    ghost var largestLimit: int

    constructor ()
      ensures Valid() && Abstract() == Idle
    {
      scheduledUpTo, runningCount, runningServers := map[], 0, map[];
      inflight, nextToken, firstSeen, starts, largestLimit := map[], 0, map[], [], 0;
      new;
      assert forall s :: On(inflight, s) == {};
    }

    ghost function Abstract(): State
      reads this
    {
      State(scheduledUpTo, inflight, nextToken, firstSeen, starts, largestLimit)
    }

    /** The counters count the dispatched runs in flight, at most one per server and within the limits. */
    ghost predicate Valid()
      reads this
    {
      && SlotInv(Abstract())
      && runningCount == |inflight|
      && (forall s :: Lookup(runningServers, s) == |On(inflight, s)|)
    }

    /** What the counters show: 0 or 1 on each server, and never negative or above the largest limit. */
    lemma CountersInRange(server: string)
      requires Valid()
      ensures Lookup(runningServers, server) == (if server in inflight.Values then 1 else 0)
      ensures 0 <= runningCount <= largestLimit
    {
      OnEmpty(inflight, server);
      OnePerServer(Abstract(), server);
    }

    /** One dispatch tick. Settings or job-list errors and a pause leave everything as it is. */
    method Tick(settingsOk: bool, paused: bool, limit: int, jobsOk: bool, jobs: seq<Job>, now: int,
                serverLoads: seq<bool>)
      requires Valid() && |serverLoads| == |jobs|
      modifies this
      ensures Valid()
      ensures Abstract() ==
              if settingsOk && !paused && jobsOk
              then Run(old(Abstract()), TickActions(jobs, now, limit, serverLoads))
              else old(Abstract())
    {
      if !settingsOk {
        return;
      }
      if paused {
        return;
      }
      if !jobsOk {
        return;
      }
      for i := 0 to |jobs|
        invariant Valid()
        invariant Abstract() == Run(old(Abstract()), TickActions(jobs[..i], now, limit, serverLoads[..i]))
      {
        TickActionsMore(jobs, i, now, limit, serverLoads);
        if jobs[i].enabled && jobs[i].automatic {
          RunMore(old(Abstract()), TickActions(jobs[..i], now, limit, serverLoads[..i]),
                  Consider(jobs[i], now, limit, serverLoads[i]));
          ConsiderJob(jobs[i], now, limit, serverLoads[i]);
        }
      }
      assert jobs[..|jobs|] == jobs && serverLoads[..|jobs|] == serverLoads;
    }

    method ConsiderJob(job: Job, now: int, limit: int, serverLoads: bool)
      requires Valid()
      modifies this
      ensures Valid() && Abstract() == Next(old(Abstract()), Consider(job, now, limit, serverLoads))
    {
      hide SlotsFit, On;
      if job.id !in scheduledUpTo {
        scheduledUpTo := scheduledUpTo[job.id := now];
        firstSeen := firstSeen[job.id := now];
        return;
      }
      var next := job.next(scheduledUpTo[job.id]);
      if next.None? || next.value > now {
        return;
      }
      var started := TryStart(job, limit, serverLoads);
      if started {
        scheduledUpTo := scheduledUpTo[job.id := now];
        starts := starts + [Start(job.id, now)];
      }
    }

    method TryStart(job: Job, limit: int, serverLoads: bool) returns (started: bool)
      requires Valid()
      modifies this`runningCount, this`runningServers, this`inflight, this`nextToken, this`largestLimit
      ensures Valid()
      ensures started == (serverLoads && SlotFree(old(Abstract()), job.server, limit))
      ensures if started
              then inflight == old(inflight)[old(nextToken) := job.server] && nextToken == old(nextToken) + 1
                   && largestLimit == (if limit > old(largestLimit) then limit else old(largestLimit))
              else Abstract() == old(Abstract())
    {
      hide SlotsFit;
      if !serverLoads {
        return false;
      }
      if runningCount >= limit {
        return false;
      }
      OnEmpty(inflight, job.server);
      if Lookup(runningServers, job.server) > 0 {
        return false;
      }
      SlotStart(inflight, nextToken, largestLimit, job.server, limit);
      ghost var grown := inflight[nextToken := job.server];
      forall server
        ensures |On(grown, server)| == |On(inflight, server)| + (if server == job.server then 1 else 0)
      {
        GrowOn(inflight, nextToken, job.server, server);
      }
      OneMore(inflight, nextToken, job.server);
      runningCount := runningCount + 1;
      runningServers := runningServers[job.server := Lookup(runningServers, job.server) + 1];
      inflight := inflight[nextToken := job.server];
      nextToken := nextToken + 1;
      largestLimit := if limit > largestLimit then limit else largestLimit;
      return true;
    }

    /** The deferred release of runAndRelease. */
    method ReleaseSlot(ghost token: nat, server: string)
      requires Valid() && token in inflight && inflight[token] == server
      modifies this`runningCount, this`runningServers, this`inflight
      ensures Valid() && Abstract() == Next(old(Abstract()), Release(token))
    {
      hide SlotsFit;
      ghost var shrunk := inflight - {token};
      forall other
        ensures |On(shrunk, other)| == |On(inflight, other)| - (if other == server then 1 else 0)
      {
        ShrinkOn(inflight, token, other);
      }
      OneLess(inflight, token);
      SlotRelease(inflight, nextToken, largestLimit, token);
      runningCount := runningCount - 1;
      runningServers := runningServers[server := Lookup(runningServers, server) - 1];
      inflight := inflight - {token};
    }
  }

  /** The considerations of one tick: the enabled jobs with an automatic schedule, in order. */
  function TickActions(jobs: seq<Job>, now: int, limit: int, serverLoads: seq<bool>): seq<Action>
    requires |serverLoads| == |jobs|
  {
    if jobs == [] then []
    else
      var n := |jobs| - 1;
      TickActions(jobs[..n], now, limit, serverLoads[..n])
      + (if jobs[n].enabled && jobs[n].automatic then [Consider(jobs[n], now, limit, serverLoads[n])] else [])
  }

  lemma TickActionsMore(jobs: seq<Job>, i: nat, now: int, limit: int, loads: seq<bool>)
    requires |loads| == |jobs| && i < |jobs|
    ensures TickActions(jobs[..i + 1], now, limit, loads[..i + 1]) ==
            TickActions(jobs[..i], now, limit, loads[..i])
            + (if jobs[i].enabled && jobs[i].automatic then [Consider(jobs[i], now, limit, loads[i])] else [])
    ensures !(jobs[i].enabled && jobs[i].automatic) ==>
              TickActions(jobs[..i + 1], now, limit, loads[..i + 1]) == TickActions(jobs[..i], now, limit, loads[..i])
  {
    assert jobs[..i + 1][..i] == jobs[..i] && loads[..i + 1][..i] == loads[..i];
  }

  lemma RunMore(s: State, actions: seq<Action>, a: Action)
    ensures Run(s, actions + [a]) == Next(Run(s, actions), a)
  {
    assert (actions + [a])[..|actions|] == actions;
  }

  lemma OnEmpty(inflight: map<nat, string>, server: string)
    ensures |On(inflight, server)| == 0 <==> server !in inflight.Values
  {
    if server in inflight.Values {
      var t :| t in inflight && inflight[t] == server;
      assert t in On(inflight, server);
    } else {
      assert forall t :: t in inflight ==> inflight[t] in inflight.Values;
      assert On(inflight, server) == {};
    }
  }

  lemma OneMore(inflight: map<nat, string>, token: nat, server: string)
    requires token !in inflight
    ensures |inflight[token := server]| == |inflight| + 1
  {
    assert inflight[token := server].Keys == inflight.Keys + {token};
  }

  lemma GrowOn(inflight: map<nat, string>, token: nat, server: string, s: string)
    requires token !in inflight
    ensures |On(inflight[token := server], s)| == |On(inflight, s)| + (if s == server then 1 else 0)
  {
    if s == server {
      assert On(inflight[token := server], s) == On(inflight, s) + {token};
    } else {
      assert On(inflight[token := server], s) == On(inflight, s);
    }
  }

  lemma OneLess(inflight: map<nat, string>, token: nat)
    requires token in inflight
    ensures |inflight - {token}| == |inflight| - 1
  {
    assert (inflight - {token}).Keys == inflight.Keys - {token};
  }

  lemma ShrinkOn(inflight: map<nat, string>, token: nat, s: string)
    requires token in inflight
    ensures |On(inflight - {token}, s)| == |On(inflight, s)| - (if s == inflight[token] then 1 else 0)
  {
    if s == inflight[token] {
      assert On(inflight - {token}, s) == On(inflight, s) - {token};
    } else {
      assert On(inflight - {token}, s) == On(inflight, s);
    }
  }

  // ----- slots, over every interleaving of starts and releases -----

  ghost predicate SlotInv(s: State) {
    SlotsFit(s.inflight, s.nextToken, s.largestLimit)
  }

  /** Tokens are used once, no two runs share a server, and the total is within the largest limit. */
  ghost predicate SlotsFit(inflight: map<nat, string>, nextToken: nat, largestLimit: int) {
    && (forall t :: t in inflight ==> t < nextToken)
    && (forall t, u :: t in inflight && u in inflight && inflight[t] == inflight[u] ==> t == u)
    && 0 <= |inflight| <= largestLimit
  }

  lemma SlotStart(inflight: map<nat, string>, token: nat, largest: int, server: string, limit: int)
    requires SlotsFit(inflight, token, largest) && |inflight| < limit && server !in inflight.Values
    ensures token !in inflight
    ensures SlotsFit(inflight[token := server], token + 1, if limit > largest then limit else largest)
  {
    OneMore(inflight, token, server);
    forall t | t in inflight
      ensures inflight[t] != server
    {
      assert inflight[t] in inflight.Values;
    }
  }

  lemma SlotRelease(inflight: map<nat, string>, nextToken: nat, largest: int, token: nat)
    requires SlotsFit(inflight, nextToken, largest)
    ensures SlotsFit(inflight - {token}, nextToken, largest)
  {
    if token in inflight {
      OneLess(inflight, token);
    } else {
      assert inflight - {token} == inflight;
    }
  }

  lemma SlotStep(s: State, a: Action)
    requires SlotInv(s)
    ensures SlotInv(Next(s, a))
  {
    if a.Release? {
      SlotRelease(s.inflight, s.nextToken, s.largestLimit, a.token);
    } else if Starts(s, a) {
      SlotStart(s.inflight, s.nextToken, s.largestLimit, a.job.server, a.limit);
    }
  }

  /** At most one dispatched run per server, and never more in all than the largest limit at any start. */
  lemma {:induction false} SlotsConserved(actions: seq<Action>)
    ensures SlotInv(Run(Idle, actions))
    ensures forall server :: |On(Run(Idle, actions).inflight, server)| <= 1
    decreases |actions|
  {
    if actions != [] {
      SlotsConserved(actions[..|actions| - 1]);
      SlotStep(Run(Idle, actions[..|actions| - 1]), actions[|actions| - 1]);
    }
    forall server
      ensures |On(Run(Idle, actions).inflight, server)| <= 1
    {
      OnePerServer(Run(Idle, actions), server);
    }
  }

  lemma OnePerServer(s: State, server: string)
    requires SlotInv(s)
    ensures |On(s.inflight, server)| <= 1
  {
    var on := On(s.inflight, server);
    if on != {} {
      var t :| t in on;
      assert on == {t};
    }
  }

  // ----- pacing: no occurrence fires twice and none is lost -----

  /** The last start of the job before position n, or the moment it was first seen. */
  ghost function LastBefore(starts: seq<Start>, n: nat, job: string, firstSeen: int): int
    requires n <= |starts|
  {
    if n == 0 then firstSeen
    else if starts[n - 1].job == job then starts[n - 1].time
    else LastBefore(starts, n - 1, job, firstSeen)
  }

  ghost function StartCount(starts: seq<Start>, n: nat, job: string): nat
    requires n <= |starts|
  {
    if n == 0 then 0 else StartCount(starts, n - 1, job) + (if starts[n - 1].job == job then 1 else 0)
  }

  /** Every start of a job comes after an occurrence that its previous start had not reached. */
  ghost predicate Spaced(s: State, occurs: string -> iset<int>) {
    forall n :: 0 <= n < |s.starts| ==> SpacedAt(s.starts, s.firstSeen, occurs, n)
  }

  ghost predicate SpacedAt(starts: seq<Start>, firstSeen: map<string, int>, occurs: string -> iset<int>, n: nat)
    requires n < |starts|
  {
    var job := starts[n].job;
    job in firstSeen && OccursIn(occurs(job), LastBefore(starts, n, job, firstSeen[job]), starts[n].time)
  }

  /** The job's last start, or the moment it was first seen. */
  ghost function LastStart(s: State, j: string): int
    requires j in s.firstSeen
  {
    LastBefore(s.starts, |s.starts|, j, s.firstSeen[j])
  }

  /** No occurrence lies between a job's baseline and its last start, so none can fire again. */
  ghost predicate Covered(s: State, occurs: string -> iset<int>) {
    && s.baseline.Keys == s.firstSeen.Keys
    && forall j :: j in s.baseline ==> !OccursIn(occurs(j), s.baseline[j], LastStart(s, j))
  }

  /** What detection writes is not before an occurrence that the job has already started for. */
  ghost predicate SafeDetect(s: State, a: Action, occurs: string -> iset<int>) {
    a.Detect? && a.id in s.firstSeen ==> !OccursIn(occurs(a.id), a.at, LastStart(s, a.id))
  }

  /** The considered job's next-run function keeps its contract. */
  ghost predicate Honest(a: Action, occurs: string -> iset<int>) {
    a.Consider? ==> NextOf(occurs(a.job.id), a.job.next)
  }

  lemma {:induction false} LastBeforeAppend(starts: seq<Start>, x: Start, n: nat, job: string, f: int)
    requires n <= |starts|
    ensures LastBefore(starts + [x], n, job, f) == LastBefore(starts, n, job, f)
    ensures StartCount(starts + [x], n, job) == StartCount(starts, n, job)
    decreases n
  {
    if n > 0 {
      LastBeforeAppend(starts, x, n - 1, job, f);
    }
  }

  /** Before a job is seen it has no start. */
  lemma {:induction false} UnseenNeverStarted(s: State, occurs: string -> iset<int>, job: string, f: int, n: nat)
    requires Spaced(s, occurs) && job !in s.firstSeen && n <= |s.starts|
    ensures LastBefore(s.starts, n, job, f) == f
    decreases n
  {
    if n > 0 {
      assert SpacedAt(s.starts, s.firstSeen, occurs, n - 1);
      UnseenNeverStarted(s, occurs, job, f, n - 1);
    }
  }

  lemma PacedStep(s: State, a: Action, occurs: string -> iset<int>)
    requires Spaced(s, occurs) && Covered(s, occurs) && Honest(a, occurs) && SafeDetect(s, a, occurs)
    ensures Spaced(Next(s, a), occurs) && Covered(Next(s, a), occurs)
  {
    if (a.Consider? && a.job.id !in s.baseline) || (a.Detect? && a.id !in s.baseline) {
      PacedFirstSight(s, a, occurs);
    } else if Starts(s, a) {
      SpacedStart(s, a, occurs);
      CoveredStart(s, a, occurs);
    }
  }

  /** A job's first baseline, whoever writes it. */
  lemma PacedFirstSight(s: State, a: Action, occurs: string -> iset<int>)
    requires Spaced(s, occurs) && Covered(s, occurs)
    requires (a.Consider? && a.job.id !in s.baseline) || (a.Detect? && a.id !in s.baseline)
    ensures Spaced(Next(s, a), occurs) && Covered(Next(s, a), occurs)
  {
    var s' := Next(s, a);
    var id, now := if a.Consider? then a.job.id else a.id, if a.Consider? then a.now else a.at;
    UnseenNeverStarted(s, occurs, id, now, |s.starts|);
    EmptyInterval(occurs(id), now);
    hide OccursIn, LastBefore;
    forall n | 0 <= n < |s.starts|
      ensures SpacedAt(s'.starts, s'.firstSeen, occurs, n)
    {
      assert SpacedAt(s.starts, s.firstSeen, occurs, n);
    }
  }

  lemma EmptyInterval(occurs: iset<int>, t: int)
    ensures !OccursIn(occurs, t, t)
  {
  }

  /** With no occurrence in (a, b], one in (a, now] lies in (b, now]. */
  lemma OccursLater(occurs: iset<int>, a: int, b: int, now: int)
    requires !OccursIn(occurs, a, b) && OccursIn(occurs, a, now)
    ensures OccursIn(occurs, b, now)
  {
    var u :| a < u <= now && u in occurs;
    assert b < u;
  }

  /**
   * A start keeps the spacing: the job was due, so an occurrence had passed since its baseline, and
   * since its last start.
   */
  lemma SpacedStart(s: State, a: Action, occurs: string -> iset<int>)
    requires Spaced(s, occurs) && Covered(s, occurs) && Honest(a, occurs) && Starts(s, a)
    ensures Spaced(Next(s, a), occurs)
  {
    var x := Start(a.job.id, a.now);
    DueIffOccurs(occurs(a.job.id), a.job.next, s.baseline[a.job.id], a.now);
    OccursLater(occurs(a.job.id), s.baseline[a.job.id], LastStart(s, a.job.id), a.now);
    hide OccursIn, LastBefore, NextOf;
    forall n | 0 <= n < |s.starts + [x]|
      ensures SpacedAt(s.starts + [x], s.firstSeen, occurs, n)
    {
      if n < |s.starts| {
        assert SpacedAt(s.starts, s.firstSeen, occurs, n);
      }
      var job := (s.starts + [x])[n].job;
      LastBeforeAppend(s.starts, x, n, job, s.firstSeen[job]);
    }
  }

  /** A start makes its moment both the job's baseline and its last start, and leaves every other job. */
  lemma CoveredStart(s: State, a: Action, occurs: string -> iset<int>)
    requires Covered(s, occurs) && Starts(s, a)
    ensures Covered(Next(s, a), occurs)
  {
    hide LastBefore, OccursIn;
    var x := Start(a.job.id, a.now);
    EmptyInterval(occurs(a.job.id), a.now);
    forall j | j in s.baseline
      ensures LastBefore(s.starts + [x], |s.starts| + 1, j, s.firstSeen[j]) ==
              if j == a.job.id then a.now else LastStart(s, j)
    {
      LastBeforeNow(s.starts, x, j, s.firstSeen[j]);
    }
  }

  lemma LastBeforeNow(starts: seq<Start>, x: Start, job: string, f: int)
    ensures LastBefore(starts + [x], |starts| + 1, job, f) ==
            if x.job == job then x.time else LastBefore(starts, |starts|, job, f)
  {
    LastBeforeAppend(starts, x, |starts|, job, f);
  }

  /** Starts of a job never exceed the occurrences since it was first seen. */
  lemma {:induction false} StartsBounded(s: State, occurs: string -> iset<int>, job: string, n: nat)
    requires Spaced(s, occurs) && job in s.firstSeen && n <= |s.starts|
    ensures s.firstSeen[job] <= LastBefore(s.starts, n, job, s.firstSeen[job])
    ensures StartCount(s.starts, n, job) <=
            Count(occurs(job), s.firstSeen[job], LastBefore(s.starts, n, job, s.firstSeen[job]))
    decreases n
  {
    if n > 0 {
      StartsBounded(s, occurs, job, n - 1);
      assert SpacedAt(s.starts, s.firstSeen, occurs, n - 1);
      if s.starts[n - 1].job == job {
        var f, p, t := s.firstSeen[job], LastBefore(s.starts, n - 1, job, s.firstSeen[job]), s.starts[n - 1].time;
        CountSplits(occurs(job), f, p, t);
        CountZero(occurs(job), p, t);
      }
    }
  }

  /** Every detection in the run was safe when it was made. */
  ghost predicate SafeDetects(actions: seq<Action>, occurs: string -> iset<int>) {
    forall i :: 0 <= i < |actions| ==> SafeDetect(Run(Idle, actions[..i]), actions[i], occurs)
  }

  /** Over every run of dispatcher and detection: pacing holds, and starts are bounded by occurrences. */
  lemma {:induction false} NeverOverFires(actions: seq<Action>, occurs: string -> iset<int>)
    requires forall i :: 0 <= i < |actions| ==> Honest(actions[i], occurs)
    requires SafeDetects(actions, occurs)
    ensures Spaced(Run(Idle, actions), occurs) && Covered(Run(Idle, actions), occurs)
    ensures forall j :: j in Run(Idle, actions).firstSeen ==>
                          StartCount(Run(Idle, actions).starts, |Run(Idle, actions).starts|, j)
                          <= Count(occurs(j), Run(Idle, actions).firstSeen[j], LastStart(Run(Idle, actions), j))
    decreases |actions|
  {
    if actions != [] {
      var n := |actions| - 1;
      assert SafeDetects(actions[..n], occurs) by {
        forall i | 0 <= i < n
          ensures SafeDetect(Run(Idle, actions[..n][..i]), actions[..n][i], occurs)
        {
          assert actions[..n][..i] == actions[..i];
        }
      }
      NeverOverFires(actions[..n], occurs);
      PacedStep(Run(Idle, actions[..n]), actions[n], occurs);
    }
    var s := Run(Idle, actions);
    forall j | j in s.firstSeen
      ensures StartCount(s.starts, |s.starts|, j) <= Count(occurs(j), s.firstSeen[j], LastStart(s, j))
    {
      StartsBounded(s, occurs, j, |s.starts|);
    }
  }

  /** Actions of the live dispatcher alone. */
  ghost predicate Live(actions: seq<Action>, occurs: string -> iset<int>) {
    forall i :: 0 <= i < |actions| ==> Honest(actions[i], occurs) && !actions[i].Detect?
  }

  /** Without detection beside it, the live dispatcher needs no condition, and its baselines are the last starts. */
  lemma {:induction false} LiveNeverOverFires(actions: seq<Action>, occurs: string -> iset<int>)
    requires Live(actions, occurs)
    ensures Spaced(Run(Idle, actions), occurs) && Covered(Run(Idle, actions), occurs)
    ensures forall j :: j in Run(Idle, actions).baseline ==>
            Run(Idle, actions).baseline[j] == LastStart(Run(Idle, actions), j)
    decreases |actions|
  {
    NeverOverFires(actions, occurs);
    if actions != [] {
      var n := |actions| - 1;
      LiveNeverOverFires(actions[..n], occurs);
      BaselineStep(Run(Idle, actions[..n]), actions[n], occurs);
    }
  }

  lemma BaselineStep(s: State, a: Action, occurs: string -> iset<int>)
    requires Spaced(s, occurs) && Covered(s, occurs) && !a.Detect?
    requires forall j :: j in s.baseline ==> s.baseline[j] == LastStart(s, j)
    ensures Next(s, a).baseline.Keys == Next(s, a).firstSeen.Keys
    ensures forall j :: j in Next(s, a).baseline ==> Next(s, a).baseline[j] == LastStart(Next(s, a), j)
  {
    hide LastBefore, OccursIn;
    if a.Consider? && a.job.id !in s.baseline {
      UnseenNeverStarted(s, occurs, a.job.id, a.now, |s.starts|);
    } else if Starts(s, a) {
      forall j | j in s.baseline
        ensures Next(s, a).baseline[j] == LastStart(Next(s, a), j)
      {
        LastBeforeNow(s.starts, Start(a.job.id, a.now), j, s.firstSeen[j]);
      }
    }
  }

  // ----- detection beside the dispatcher -----

  lemma {:induction false} LiveStaysPaced(s: State, actions: seq<Action>, occurs: string -> iset<int>)
    requires Spaced(s, occurs) && Covered(s, occurs) && Live(actions, occurs)
    ensures Spaced(Run(s, actions), occurs) && Covered(Run(s, actions), occurs)
    decreases |actions|
  {
    if actions != [] {
      var n := |actions| - 1;
      LiveStaysPaced(s, actions[..n], occurs);
      PacedStep(Run(s, actions[..n]), actions[n], occurs);
    }
  }

  /**
   * Detection beside the dispatcher is harmless if and only if it writes nothing older than an occurrence
   * the job has started for: otherwise that occurrence can fire a second time.
   */
  lemma DetectSafeIff(s: State, job: Job, at: int, occurs: string -> iset<int>)
    requires Spaced(s, occurs) && Covered(s, occurs) && SlotInv(s) && job.id in s.firstSeen
    requires NextOf(occurs(job.id), job.next)
    ensures SafeDetect(s, Detect(job.id, at), occurs) <==>
            forall actions :: Live(actions, occurs) ==> Spaced(Run(Next(s, Detect(job.id, at)), actions), occurs)
  {
    var d := Detect(job.id, at);
    if SafeDetect(s, d, occurs) {
      PacedStep(s, d, occurs);
      forall actions | Live(actions, occurs)
        ensures Spaced(Run(Next(s, d), actions), occurs)
      {
        LiveStaysPaced(Next(s, d), actions, occurs);
      }
    } else {
      var actions := FiresAgain(Next(s, d), job, occurs);
      assert !Spaced(Run(Next(s, d), actions), occurs);
    }
  }

  /** A baseline older than an occurrence already started for: free the server, consider the job, and it fires again. */
  lemma FiresAgain(s: State, job: Job, occurs: string -> iset<int>) returns (actions: seq<Action>)
    requires SlotInv(s) && job.id in s.firstSeen && job.id in s.baseline && NextOf(occurs(job.id), job.next)
    requires OccursIn(occurs(job.id), s.baseline[job.id], LastStart(s, job.id))
    ensures Live(actions, occurs) && !Spaced(Run(s, actions), occurs)
  {
    var now := LastStart(s, job.id);
    var free, u := FreeServer(s, job.server);
    var a := Consider(job, now, |u.inflight| + 1, true);
    actions := free + [a];
    RunMore(s, free, a);
    DueIffOccurs(occurs(job.id), job.next, s.baseline[job.id], now);
    StartsTooSoon(u, a, occurs);
  }

  /** Releasing the run on a server, if there is one, touches nothing else. */
  lemma FreeServer(s: State, server: string) returns (actions: seq<Action>, u: State)
    requires SlotInv(s)
    ensures u == Run(s, actions) && u == s.(inflight := u.inflight) && server !in u.inflight.Values
    ensures forall i :: 0 <= i < |actions| ==> actions[i].Release?
  {
    if server in s.inflight.Values {
      var t :| t in s.inflight && s.inflight[t] == server;
      actions := [Release(t)];
      u := Next(s, Release(t));
      assert actions[..0] == [];
      assert Run(s, actions[..0]) == s;
      assert forall v :: v in u.inflight ==> u.inflight[v] != server;
    } else {
      actions, u := [], s;
    }
  }

  lemma StartsTooSoon(s: State, a: Action, occurs: string -> iset<int>)
    requires Starts(s, a) && a.job.id in s.firstSeen && a.now == LastStart(s, a.job.id)
    ensures !Spaced(Next(s, a), occurs)
  {
    var x := Start(a.job.id, a.now);
    LastBeforeAppend(s.starts, x, |s.starts|, a.job.id, s.firstSeen[a.job.id]);
    EmptyInterval(occurs(a.job.id), a.now);
    hide OccursIn, LastBefore;
    assert !SpacedAt(s.starts + [x], s.firstSeen, occurs, |s.starts|);
  }

  /** First sight starts nothing, and from then on the job is due exactly for occurrences after that moment. */
  lemma FirstSightDue(s: State, a: Action, occurs: string -> iset<int>, later: int)
    requires a.Consider? && a.job.id !in s.baseline && Honest(a, occurs)
    ensures Due(Next(s, a), a.job, later) <==> OccursIn(occurs(a.job.id), a.now, later)
    ensures Next(s, a).starts == s.starts && Next(s, a).inflight == s.inflight
  {
    DueIffOccurs(occurs(a.job.id), a.job.next, a.now, later);
  }

  /** The time carried by the first action that speaks of a job. */
  ghost function FirstMention(actions: seq<Action>, id: string): Option<int> {
    if actions == [] then None
    else
      var n := |actions| - 1;
      var before := FirstMention(actions[..n], id);
      if before.Some? then before
      else match actions[n]
        case Consider(job, now, _, _) => if job.id == id then Some(now) else None
        case Detect(other, at) => if other == id then Some(at) else None
        case Release(_) => None
  }

  /** Over every run a job is seen from the first action that speaks of it, at the time that action carries. */
  lemma {:induction false} SeenFromFirstMention(actions: seq<Action>, id: string)
    ensures var s := Run(Idle, actions);
            && (id in s.firstSeen <==> FirstMention(actions, id).Some?)
            && (id in s.firstSeen ==> s.firstSeen[id] == FirstMention(actions, id).value)
            && s.baseline.Keys == s.firstSeen.Keys
    decreases |actions|
  {
    if actions != [] {
      SeenFromFirstMention(actions[..|actions| - 1], id);
    }
  }

  /** A tick considers exactly the enabled jobs with an automatic schedule, at its own time. */
  lemma {:induction false} TickConsidersExactly(jobs: seq<Job>, now: int, limit: int, loads: seq<bool>, a: Action)
    requires |loads| == |jobs|
    ensures a in TickActions(jobs, now, limit, loads) <==>
            exists i ::
              0 <= i < |jobs| && jobs[i].enabled && jobs[i].automatic && a == Consider(jobs[i], now, limit, loads[i])
  {
    if jobs != [] {
      var n := |jobs| - 1;
      TickConsidersExactly(jobs[..n], now, limit, loads[..n], a);
      assert forall i :: 0 <= i < n ==> jobs[..n][i] == jobs[i] && loads[..n][i] == loads[i];
      if jobs[n].enabled && jobs[n].automatic {
        assert TickActions(jobs, now, limit, loads) ==
               TickActions(jobs[..n], now, limit, loads[..n]) + [Consider(jobs[n], now, limit, loads[n])];
      }
    }
  }

  /** A due job starts exactly when its server loads, the limit allows one more run and none is on its server. */
  lemma StartsExactlyWhenFree(s: State, a: Action)
    requires a.Consider? && Due(s, a.job, a.now)
    ensures |Next(s, a).starts| == |s.starts| + 1 <==>
            && a.serverLoads && |s.inflight| < a.limit
            && forall t :: t in s.inflight ==> s.inflight[t] != a.job.server
    ensures |Next(s, a).starts| == |s.starts| + 1 ==>
              |Next(s, a).inflight| == |s.inflight| + 1 || s.nextToken in s.inflight
  {
    OneMoreUnless(s.inflight, s.nextToken, a.job.server);
    assert a.job.server in s.inflight.Values <==> exists t :: t in s.inflight && s.inflight[t] == a.job.server;
  }

  lemma OneMoreUnless(inflight: map<nat, string>, token: nat, server: string)
    ensures token in inflight || |inflight[token := server]| == |inflight| + 1
  {
    if token !in inflight {
      OneMore(inflight, token, server);
    }
  }

  /** A release gives back exactly that run's slot and touches no baseline. */
  lemma ReleaseFrees(s: State, token: nat)
    ensures var s' := Next(s, Release(token));
            && token !in s'.inflight
            && (forall t :: t != token ==> (t in s'.inflight <==> t in s.inflight))
            && (forall t :: t in s'.inflight && t in s.inflight ==> s'.inflight[t] == s.inflight[t])
            && s'.baseline == s.baseline && s'.starts == s.starts
  {
  }

  /** One start answers for the whole backlog: the job is due again only when a later occurrence has passed. */
  lemma BacklogCollapses(s: State, a: Action, occurs: string -> iset<int>, later: int)
    requires Honest(a, occurs) && Starts(s, a)
    ensures Due(Next(s, a), a.job, later) <==> OccursIn(occurs(a.job.id), a.now, later)
    ensures !Due(Next(s, a), a.job, a.now)
  {
    DueIffOccurs(occurs(a.job.id), a.job.next, a.now, later);
    DueIffOccurs(occurs(a.job.id), a.job.next, a.now, a.now);
  }

  /** A due job that nothing blocks starts; one that is blocked keeps its baseline. */
  lemma DueStartsOrWaits(s: State, a: Action)
    requires a.Consider? && Due(s, a.job, a.now)
    ensures a.serverLoads && SlotFree(s, a.job.server, a.limit) <==>
            Next(s, a).starts == s.starts + [Start(a.job.id, a.now)]
    ensures !(a.serverLoads && SlotFree(s, a.job.server, a.limit)) ==> Next(s, a) == s
  {
    assert s.starts != s.starts + [Start(a.job.id, a.now)];
  }

  /** Until it starts or detection handles it, a due job stays due at every later moment, whatever else happens. */
  lemma {:induction false} DueStaysDue(s: State, actions: seq<Action>, job: Job, now: int, later: int)
    requires Due(s, job, now) && now <= later
    requires forall i :: 0 <= i < |actions| && actions[i].Detect? ==> actions[i].id != job.id
    requires forall i :: 0 <= i < |actions| && Starts(Run(s, actions[..i]), actions[i]) ==> actions[i].job.id != job.id
    ensures Due(Run(s, actions), job, later)
    ensures Run(s, actions).baseline[job.id] == s.baseline[job.id]
    decreases |actions|
  {
    if actions != [] {
      var n := |actions| - 1;
      var front := actions[..n];
      forall i | 0 <= i < |front| && Starts(Run(s, front[..i]), front[i])
        ensures front[i].job.id != job.id
      {
        assert front[..i] == actions[..i];
      }
      DueStaysDue(s, front, job, now, later);
    }
  }

  // ----- answers that are not after their argument -----

  /**
   * Without that promise a job is due when an occurrence has passed, or when the answer lies at or
   * before the baseline.
   */
  lemma DueUnderAnyAnswer(s: State, job: Job, occurs: iset<int>, now: int)
    requires LooseNextOf(occurs, job.next) && job.id in s.baseline && s.baseline[job.id] <= now
    ensures var b := s.baseline[job.id];
            Due(s, job, now) <==> OccursIn(occurs, b, now) || (job.next(b).Some? && job.next(b).value <= b)
  {
  }

  ghost predicate OnlyConsiders(actions: seq<Action>, job: Job) {
    forall i :: 0 <= i < |actions| ==> !actions[i].Detect? && (actions[i].Consider? ==> actions[i].job == job)
  }

  /** A cron expression that no date meets is answered with the zero time, and is due at every tick. */
  lemma ZeroTimeIsAlwaysDue(s: State, job: Job, now: int)
    requires job.id in s.baseline && job.next(s.baseline[job.id]) == Some(0) && 0 <= now
    ensures Due(s, job, now)
  {
  }

  /** Every run of a job is paced if and only if no answer of its next-run function is at or before its argument. */
  lemma PacedIffForward(job: Job, occurs: string -> iset<int>)
    requires LooseNextOf(occurs(job.id), job.next)
    ensures (forall actions :: OnlyConsiders(actions, job) ==> Spaced(Run(Idle, actions), occurs)) <==>
            Forward(job.next)
  {
    if Forward(job.next) {
      forall actions | OnlyConsiders(actions, job)
        ensures Spaced(Run(Idle, actions), occurs)
      {
        LiveNeverOverFires(actions, occurs);
      }
    } else {
      var t :| job.next(t).Some? && job.next(t).value <= t;
      var actions := FiresTwice(job, occurs, t);
      assert !Spaced(Run(Idle, actions), occurs);
    }
  }

  /** Seen and then considered at one moment: a backward answer starts the job with no occurrence in between. */
  lemma FiresTwice(job: Job, occurs: string -> iset<int>, t: int) returns (actions: seq<Action>)
    requires job.next(t).Some? && job.next(t).value <= t
    ensures OnlyConsiders(actions, job) && !Spaced(Run(Idle, actions), occurs)
  {
    var a := Consider(job, t, 1, true);
    var first := [a];
    actions := [a, a];
    assert actions[..1] == first && first[..0] == [];
    assert Run(Idle, []) == Idle;
    var s := Run(Idle, first);
    assert s == Next(Idle, a);
    assert Starts(s, a);
    var s' := Run(Idle, actions);
    assert s'.starts == [Start(job.id, t)] && s'.firstSeen[job.id] == t;
    assert !SpacedAt(s'.starts, s'.firstSeen, occurs, 0);
  }
}
