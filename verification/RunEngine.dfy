/**
 * The run engine: one run's stages, its cleanup registry and its step recorder.
 *
 * Everything outside the run (SSH answers, store errors, local files, cancellation) answers as it
 * likes, call by call, so each contract below speaks about every behaviour of the outside world.
 */
module RunEngine {
  import opened Domain
  import opened RunTrace
  import Checks = Preflight
  import Retention

  /** One answer of the outside world to a call that can fail. */
  datatype Reply = Reply(fault: Option<Fault>, exitCode: int, text: string, cancelled: bool) {
    predicate Ok() {
      fault.None?
    }

    /** No error, exit code 0 and no cancellation. */
    predicate Good() {
      Ok() && exitCode == 0 && !cancelled
    }
  }

  /** What the outside world answered: the last answer, and whether every answer so far was good. */
  datatype Answers = Answers(last: Reply, good: bool)

  datatype TransportState = Unopened | Open | Closed

  /**
   * What was observed of scripts: attempts made, results of finished attempts, the operations, and
   * the scripts whose step was stored and those whose command was issued to the transport.
   */
  datatype ScriptLog = ScriptLog(
    attempts: multiset<string>,
    outcomes: set<(string, bool)>,
    ops: seq<Ran>,
    stored: set<string>,
    issued: set<string>)
  {
    /** A script's command is issued exactly when its step was stored; results belong to attempts. */
    ghost predicate Sound() {
      && stored == issued
      && (forall o :: o in outcomes ==> o.0 in attempts)
    }
  }

  const NoScripts := ScriptLog(multiset{}, {}, [], {}, {})

  /**
   * The retention stage: whether the write of the run row was tried and worked, whether the policy was
   * applied, which archive files it removed, and whether a fault hit a selected record.
   */
  datatype RetentionLog = RetentionLog(saveTried: bool, saved: bool, swept: bool, removed: set<string>, warned: bool) {
    ghost predicate Sound() {
      (saved ==> saveTried) && (swept ==> saveTried) && (!swept ==> removed == {} && !warned)
    }
  }

  const NoRetention := RetentionLog(false, false, false, {}, false)

  /** A file that was given its final name, with its SHA-256. */
  datatype Renamed = Renamed(from: string, to: string, sum: string)

  /** The directory without these files. */
  ghost predicate Without(before: map<string, string>, after: map<string, string>, removed: set<string>) {
    forall n ::
      && (n in after <==> n in before && n !in removed)
      && (n in after && n in before ==> after[n] == before[n])
  }

  /** The part file aside, the directory is as before, plus the file that was renamed, minus those that were removed. */
  ghost predicate Directory(before: map<string, string>, after: map<string, string>, part: string,
                            made: Option<Renamed>, removed: set<string>)
  {
    forall n :: n != part ==>
      && (n in after <==> n !in removed && (n in before || (made.Some? && n == made.value.to)))
      && (n in after ==> after[n] == if made.Some? && n == made.value.to then made.value.sum else before[n])
  }

  lemma DirectoryAfter(before: map<string, string>, mid: map<string, string>, after: map<string, string>, part: string,
                       made: Option<Renamed>, removed: set<string>)
    requires SameExcept(before, mid, part, if made.Some? then made.value.to else part)
    requires made.Some? ==> made.value.to in mid && mid[made.value.to] == made.value.sum
    requires Without(mid, after, removed)
    ensures Directory(before, after, part, made, removed)
  {
  }

  lemma SameFiles(files: map<string, string>, a: string)
    ensures SameExcept(files, files, a, a)
  {
  }

  lemma SameExceptTwice(before: map<string, string>, mid: map<string, string>, after: map<string, string>, a: string,
                        b: string)
    requires SameExcept(before, mid, a, a) && SameExcept(mid, after, a, b)
    ensures SameExcept(before, after, a, b)
  {
  }

  lemma NothingRemoved(files: map<string, string>)
    ensures Without(files, files, {})
  {
  }

  /** The two directories agree on every file name other than a and b. */
  ghost predicate SameExcept(before: map<string, string>, after: map<string, string>, a: string, b: string) {
    forall n :: n != a && n != b ==>
                  (n in after <==> n in before) && (n in after && n in before ==> after[n] == before[n])
  }

  class World {
    var ctxDone: bool                // the run's context; once done it stays done
    var files: map<string, string>   // local files of the destination directory, with their SHA-256
    var transport: TransportState

    // What has been observed of the run so far.
    ghost var scripts: ScriptLog
    ghost var drained: multiset<string>        // scripts the drain handed to runScriptRecorded
    ghost var calls: Calls                     // fail and warn calls
    ghost var remoteOps: seq<Ran>              // every other remote operation after preflight
    ghost var drainsFollowClose: bool          // no drained attempt began on an open transport
    ghost var retention: RetentionLog
    ghost var renames: seq<Renamed>            // files given a final name
    ghost var answers: Answers
    ghost var remoteSum: string                // the checksums that were compared, if it came to that
    ghost var localSum: string

    constructor (files: map<string, string>)
      ensures this.files == files && Untouched()
    {
      this.files := files;
      ctxDone := false;
      scripts := NoScripts;
      drained, calls, remoteOps := multiset{}, NoCalls, [];
      transport, drainsFollowClose, retention, renames := Unopened, true, NoRetention, [];
      answers, remoteSum, localSum := Answers(Reply(None, 0, "", false), true), "", "";
    }

    /** Nothing has been observed and nothing was cancelled yet. */
    ghost predicate Untouched()
      reads this
    {
      && !ctxDone && scripts == NoScripts
      && drained == multiset{} && calls == NoCalls && remoteOps == []
      && transport == Unopened && drainsFollowClose && retention == NoRetention && renames == []
      && answers.good
    }

    /** Whatever the outside world answers. */
    method Ask() returns (r: Reply)
      modifies this`answers
      ensures answers == Answers(r, old(answers.good) && r.Good())
    {
      r := *;
      answers := Answers(r, answers.good && r.Good());
    }

    /** ctx.Err() != nil: cancellation may arrive at any poll and is never taken back. */
    method Poll() returns (done: bool)
      modifies this`ctxDone, this`answers
      ensures done == ctxDone == (old(ctxDone) || answers.last.cancelled)
      ensures answers.good == (old(answers.good) && answers.last.Good())
    {
      var r := Ask();
      ctxDone := ctxDone || r.cancelled;
      done := ctxDone;
    }

    /** Transport.Run: the command succeeded when there was no transport error and it exited 0. */
    method Execute(command: Command) returns (r: Reply, ok: bool)
      modifies this`remoteOps, this`answers
      ensures answers == Answers(r, old(answers.good) && r.Good())
      ensures ok == (r.Ok() && r.exitCode == 0)
      ensures remoteOps == old(remoteOps) + [Ran(command, ok, r.text, r.fault)]
    {
      r := Ask();
      ok := r.Ok() && r.exitCode == 0;
      remoteOps := remoteOps + [Ran(command, ok, r.text, r.fault)];
    }

    /** Transport.Run of a script's own command text; no session opens on a closed transport. */
    method ExecuteScript(script: Script) returns (ok: bool)
      modifies this`scripts, this`answers
      ensures ok == (answers.last.Ok() && answers.last.exitCode == 0 && transport != Closed)
      ensures answers.good == (old(answers.good) && answers.last.Good())
      ensures scripts == old(scripts).(ops := scripts.ops, issued := old(scripts.issued) + {script.id})
      ensures |scripts.ops| == |old(scripts.ops)| + 1 && scripts.ops[..|old(scripts.ops)|] == old(scripts.ops)
      ensures scripts.ops[|old(scripts.ops)|].command == ScriptCommand(script.id, script.command)
      ensures scripts.ops[|old(scripts.ops)|].ok == ok
      ensures transport == Closed ==> !ok
    {
      var r := Ask();
      ok := r.Ok() && r.exitCode == 0 && transport != Closed;
      scripts := scripts.(ops := scripts.ops + [Ran(ScriptCommand(script.id, script.command), ok, r.text, r.fault)],
                          issued := scripts.issued + {script.id});
    }

    /** os.Create of the part file, Transport.Download into it while hashing, then Sync. */
    method Download(part: string) returns (r: Reply, sum: string)
      modifies this`remoteOps, this`files, this`answers
      ensures answers.good ==> old(answers.good) && r.Ok()
      ensures remoteOps == old(remoteOps) + [Ran(DownloadTransfer, r.Ok(), sum, r.fault)]
      ensures r.Ok() ==> part in files && files[part] == sum
      ensures SameExcept(old(files), files, part, part)
    {
      r := Ask();
      var content := Ask();
      sum := content.text;
      if r.Ok() {
        files := files[part := sum];
      } else if content.Ok() {
        files := files[part := content.text];
      }
      remoteOps := remoteOps + [Ran(DownloadTransfer, r.Ok(), sum, r.fault)];
    }

    method Rename(from: string, to: string) returns (ok: bool)
      requires from != to
      modifies this`files, this`renames, this`answers
      ensures ok == (answers.last.Ok() && from in old(files))
      ensures answers.good == (old(answers.good) && answers.last.Good())
      ensures ok ==> from in old(files) && from !in files && to in files && files[to] == old(files)[from]
      ensures SameExcept(old(files), files, from, to)
      ensures !ok ==> files == old(files) && renames == old(renames)
      ensures ok ==> renames == old(renames) + [Renamed(from, to, old(files)[from])]
    {
      var r := Ask();
      ok := r.Ok() && from in files;
      if ok {
        renames := renames + [Renamed(from, to, files[from])];
        files := (files - {from})[to := files[from]];
      }
    }

    /** os.Remove of several files, each of which then is gone. */
    method RemoveAll(names: set<string>)
      modifies this`files
      ensures Without(old(files), files, names)
    {
      files := map n | n in files && n !in names :: files[n];
    }

    method Remove(name: string)
      modifies this`files, this`answers
      ensures answers.good ==> old(answers.good)
      ensures if answers.last.Ok() then name !in files else files == old(files)
      ensures SameExcept(old(files), files, name, name)
    {
      var r := Ask();
      if r.Ok() {
        files := files - {name};
      }
    }
  }

  // ----- recorded steps -----

  datatype StepRow = StepRow(kind: StepType, position: nat, status: StepStatus)

  /**
   * One stage's effect on the stored steps: its own row at the end, closed with its result unless that
   * write failed.
   */
  ghost predicate StepEnded(before: seq<StepRow>, after: seq<StepRow>, started: bool, ok: bool) {
    if !started then after == before
    else
      && |after| == |before| + 1 && after[..|before|] == before
      && after[|before|].status in {StepRunning, if ok then StepSuccess else StepFailed}
  }

  /** One stage's effect on the error calls: none if it went well, else one failure with this code. */
  ghost predicate FailedWith(before: Calls, after: Calls, ok: bool, code: ErrorCode) {
    if ok then after == before
    else after.Then? && after.earlier == before && after.report.Fail? && after.report.code == code
  }

  /** Persists each executed stage; rows is what the step store holds for this run. */
  class StepRecorder {
    var position: nat
    var rows: seq<StepRow>
    ghost var kinds: seq<StepType>
    ghost var begun: set<StepType>   // stages whose step was opened, persisted or not

    constructor ()
      ensures Valid() && kinds == [] && begun == {}
    {
      begun := {};
      position := 0;
      rows := [];
      kinds := [];
    }

    /** Positions are 0..n-1 without gaps. */
    ghost predicate Valid()
      reads this
    {
      && position == |rows| == |kinds|
      && forall i :: 0 <= i < |rows| ==> rows[i].position == i && rows[i].kind == kinds[i]
    }

    method Start(world: World, kind: StepType) returns (step: Option<nat>)
      requires Valid()
      modifies this, world`answers
      ensures step.Some? == world.answers.last.Ok()
      ensures world.answers.good == (old(world.answers.good) && world.answers.last.Good())
      ensures Valid()
      ensures begun == old(begun) + {kind}
      ensures step.None? ==> rows == old(rows)
      ensures step.Some? ==> step.value == |old(rows)| && rows == old(rows) + [StepRow(kind, step.value, StepRunning)]
      ensures kinds == old(kinds) + Optional(step.Some?, kind)
    {
      var stored := world.Ask();
      begun := begun + {kind};
      if !stored.Ok() {
        return None;
      }
      rows := rows + [StepRow(kind, position, StepRunning)];
      kinds := kinds + [kind];
      position := position + 1;
      return Some(position - 1);
    }

    method Finish(world: World, step: nat, status: StepStatus)
      requires Valid() && step < |rows|
      modifies this`rows, world`answers
      ensures Valid()
      ensures rows == if world.answers.last.Ok()
                      then old(rows)[step := old(rows)[step].(status := status)] else old(rows)
      ensures world.answers.good == (old(world.answers.good) && world.answers.last.Good())
    {
      var stored := world.Ask();
      if stored.Ok() {
        rows := rows[step := rows[step].(status := status)];
      }
    }

    method Skip(world: World, kind: StepType) returns (ghost stored: bool)
      requires Valid()
      modifies this, world`answers
      ensures stored == world.answers.last.Ok()
      ensures world.answers.good == (old(world.answers.good) && world.answers.last.Good())
      ensures Valid()
      ensures begun == old(begun) + {kind}
      ensures rows == old(rows) + (if stored then [StepRow(kind, |old(rows)|, StepSkipped)] else [])
      ensures kinds == old(kinds) + Optional(stored, kind)
    {
      var reply := world.Ask();
      stored := reply.Ok();
      begun := begun + {kind};
      if reply.Ok() {
        rows := rows + [StepRow(kind, position, StepSkipped)];
        kinds := kinds + [kind];
        position := position + 1;
      }
    }
  }

  // ----- the cleanup registry -----

  datatype CleanupEntry = CleanupEntry(script: Script, done: bool)

  class CleanupRegistry {
    var entries: seq<CleanupEntry>

    constructor ()
      ensures entries == []
    {
      entries := [];
    }

    method Register(script: Script) returns (token: nat)
      modifies this
      ensures token == |old(entries)|
      ensures entries == old(entries) + [CleanupEntry(script, false)]
    {
      token := |entries|;
      entries := entries + [CleanupEntry(script, false)];
    }

    method MarkDone(token: nat)
      requires token < |entries|
      modifies this
      ensures entries == old(entries)[token := old(entries)[token].(done := true)]
    {
      entries := entries[token := entries[token].(done := true)];
    }

    /** The entries Drain starts from: every entry not done yet, in registration order. */
    method Pending() returns (pending: seq<nat>)
      ensures forall i :: 0 <= i < |pending| ==> pending[i] < |entries| && !entries[pending[i]].done
      ensures forall i, j :: 0 <= i < j < |pending| ==> pending[i] < pending[j]
      ensures forall t :: 0 <= t < |entries| && !entries[t].done ==> t in pending
    {
      pending := [];
      for t := 0 to |entries|
        invariant forall i :: 0 <= i < |pending| ==> pending[i] < t && !entries[pending[i]].done
        invariant forall i, j :: 0 <= i < j < |pending| ==> pending[i] < pending[j]
        invariant forall u :: 0 <= u < t && !entries[u].done ==> u in pending
      {
        if !entries[t].done {
          pending := pending + [t];
        }
      }
    }
  }

  // ----- one run -----

  datatype HealthCheck = HealthCheck(command: string, attempts: int)

  datatype Job = Job(
    scripts: ScriptList,
    remoteJobDirectory: string,
    healthCheck: Option<HealthCheck>)

  /** ErrorCode and ErrorMessage of the run record, which are only ever set together. */
  datatype RunError = RunError(code: ErrorCode, message: Message)

  datatype CleanupToken = CleanupToken(script: Script, entry: nat)

  /** An entry is done exactly when its script has been attempted, and then it was attempted once. */
  ghost predicate AccountedFor(entries: seq<CleanupEntry>, attempts: multiset<string>) {
    forall i :: 0 <= i < |entries| ==> attempts[entries[i].script.id] == if entries[i].done then 1 else 0
  }

  ghost predicate DistinctEntries(entries: seq<CleanupEntry>) {
    forall i, j :: 0 <= i < j < |entries| ==> entries[i].script.id != entries[j].script.id
  }

  /** Attempting an entry's script and marking the entry done keeps the accounts. */
  lemma AccountAttempt(entries: seq<CleanupEntry>, attempts: multiset<string>, token: nat)
    requires AccountedFor(entries, attempts) && DistinctEntries(entries)
    requires token < |entries| && !entries[token].done
    ensures AccountedFor(entries[token := entries[token].(done := true)], attempts + multiset{entries[token].script.id})
  {
    var after := entries[token := entries[token].(done := true)];
    forall i | 0 <= i < |after|
      ensures after[i].script == entries[i].script
      ensures i != token ==> after[i] == entries[i] && entries[i].script.id != entries[token].script.id
    {
    }
  }

  lemma NotAttempted(entries: seq<CleanupEntry>, attempts: multiset<string>, token: nat)
    requires AccountedFor(entries, attempts) && token < |entries| && !entries[token].done
    ensures entries[token].script.id !in attempts
  {
  }

  /** The remote operations of one executed script: retried once if asked, stopping at the first success. */
  ghost predicate ScriptRuns(s: Script, runs: seq<Ran>, ok: bool) {
    && 1 <= |runs| <= s.Attempts()
    && (forall i :: 0 <= i < |runs| ==> runs[i].command == ScriptCommand(s.id, s.command))
    && (forall i :: 0 <= i < |runs| ==> (runs[i].ok <==> ok && i == |runs| - 1))
    && (!ok ==> |runs| == s.Attempts())
  }

  /** The run record shows this call's error, or none. */
  ghost predicate Shows(error: RunError, headline: Option<Report>) {
    match headline
    case None => error == RunError(NoError, NoMessage)
    case Some(report) => error == RunError(report.code, report.message)
  }

  /** A deadline that passed has its own code. */
  function ArchiveError(fault: Option<Fault>): ErrorCode {
    if fault.Some? && fault.value.timedOut then ErrArchiveTimeout else ErrArchiveFailed
  }

  /** The code a failed download carries, or the general one. */
  function DownloadError(fault: Option<Fault>): ErrorCode {
    if fault.Some? && fault.value.code.Some? then fault.value.code.value else ErrDownloadFailed
  }

  /** The archive stage's operations from position n on: tar, and rm of its debris if tar failed. */
  ghost predicate ArchiveRuns(ops: seq<Ran>, n: nat, ok: bool) {
    && |ops| == n + (if ok then 1 else 2)
    && ops[n].command == ArchiveCommand && ops[n].ok == ok
    && (!ok ==> ops[n + 1].command == RemovePartialCommand)
  }

  /** The operations of the health check: at most the configured attempts, stopping at the first success. */
  ghost predicate HealthRuns(h: HealthCheck, runs: seq<Ran>, ok: bool) {
    && |runs| <= (if h.attempts < 0 then 0 else h.attempts)
    && (forall i :: 0 <= i < |runs| ==> runs[i].command == HealthCommand(h.command))
    && (forall i :: 0 <= i < |runs| ==> (runs[i].ok <==> ok && i == |runs| - 1))
    && (ok ==> runs != [])
  }

  function SizeUnknown(gap: Checks.Gap): Message {
    match gap
    case NoSourceSize => SourceSizeUnknown
    case NoRemoteFree => RemoteFreeUnknown
    case NoLocalFree => LocalFreeUnknown
  }

  ghost function WarnCalls(gaps: seq<Checks.Gap>): Calls {
    if gaps == [] then NoCalls
    else Then(WarnCalls(gaps[..|gaps| - 1]), Report.Warn(ErrInternal, SizeUnknown(gaps[|gaps| - 1])))
  }

  lemma {:induction false} NoFailYet(gaps: seq<Checks.Gap>)
    ensures FirstFail(WarnCalls(gaps)).None?
  {
    if gaps != [] {
      NoFailYet(gaps[..|gaps| - 1]);
    }
  }

  class RunContext<S> {
    const job: Job
    const checks: Checks.Session<S>   // the environment of the preflight checks
    const checkedJob: Checks.Job
    const redact: string -> string
    const startedAt: int
    const archiveFileName: string   // derived from the job name and the start time
    const hasRetention: bool
    const policy: Retention.Policy
    const history: Retention.History    // the job's run rows; this run's is the last
    const row: nat
    const sweepAt: int                  // what the clock, the listing and the files answer to the sweep
    const listOk: bool
    const faults: Retention.Faults
    const world: World
    const steps: StepRecorder
    const cleanup: CleanupRegistry

    var cleanupTokens: seq<CleanupToken>
    var connected: bool             // transport != nil
    var failed: bool
    var hasWarn: bool
    var cancelled: bool
    var recoveryOut: RecoveryOutcome
    var remoteArchivePath: string
    var localPartPath: string
    var archiveVerified: bool

    // The run record that feeds history.
    var status: RunStatus
    var finishedAt: Option<int>
    var archiveName: string
    var checksum: string
    var error: RunError
    var recoveryOutcome: RecoveryOutcome

    constructor (job: Job, startedAt: int, archiveFileName: string, hasRetention: bool, policy: Retention.Policy,
                 history: Retention.History, sweepAt: int, listOk: bool, faults: Retention.Faults, world: World,
                 checks: Checks.Session<S>, checkedJob: Checks.Job, redact: string -> string)
      requires world.Untouched() && checks.commands == []
      requires history.rows != [] && history.rows[|history.rows| - 1] == Retention.Record(startedAt, "")
      requires Retention.Sortable(history.rows)
      ensures this.job == job && this.startedAt == startedAt && this.archiveFileName == archiveFileName
      ensures this.hasRetention == hasRetention && this.policy == policy && this.history == history
      ensures this.sweepAt == sweepAt && this.listOk == listOk && this.faults == faults
      ensures this.checks == checks && this.checkedJob == checkedJob && this.redact == redact
      ensures this.world == world && fresh(steps) && fresh(cleanup)
      ensures Fresh()
    {
      this.job := job;
      this.startedAt := startedAt;
      this.checks, this.checkedJob, this.redact := checks, checkedJob, redact;
      this.archiveFileName := archiveFileName;
      this.hasRetention, this.policy, this.history := hasRetention, policy, history;
      this.row := |history.rows| - 1;
      this.sweepAt, this.listOk, this.faults := sweepAt, listOk, faults;
      this.world := world;
      steps := new StepRecorder();
      cleanup := new CleanupRegistry();
      cleanupTokens := [];
      connected := false;
      failed, hasWarn, cancelled := false, false, false;
      recoveryOut := RecoveryNotApplicable;
      remoteArchivePath, localPartPath, archiveVerified := "", "", false;
      status, finishedAt, archiveName, checksum := RunRunning, None, "", "";
      error, recoveryOutcome := RunError(NoError, NoMessage), RecoveryNotApplicable;
    }

    /** The state in which beginRun hands the context to the workflow. */
    ghost predicate Fresh()
      reads this, world, steps, cleanup, checks, history
    {
      && world.Untouched() && checks.commands == [] && HistoryReady()
      && steps.Valid() && steps.kinds == [] && steps.begun == {}
      && cleanup.entries == [] && cleanupTokens == []
      && !connected && !failed && !hasWarn && !cancelled && !archiveVerified
      && recoveryOut == RecoveryNotApplicable
      && remoteArchivePath == "" && localPartPath == ""
      && error == RunError(NoError, NoMessage) && status == RunRunning && archiveName == "" && checksum == ""
    }

    /** The job's rows can be sorted, and this run's row is the last, still without an archive name. */
    ghost predicate HistoryReady()
      reads history
    {
      && |history.rows| == row + 1 && history.rows[row] == Retention.Record(startedAt, "")
      && Retention.Sortable(history.rows)
    }

    /** What the retention stage did to the job's rows: the early write, and the sweep that followed it. */
    ghost predicate RetentionOver(before: seq<Retention.Record>)
      reads history, world`retention
    {
      && row < |before| == |history.rows|
      && Retention.StageOver(before, history.rows, row, archiveFileName, world.retention.saved, world.retention.swept,
                             policy, sweepAt, faults, world.retention.removed, world.retention.warned)
    }

    /** Flags and headline agree with the calls made so far; cancellation was really seen. */
    ghost predicate Agrees()
      reads this`failed, this`hasWarn, this`cancelled, this`error, world`calls, world`ctxDone
    {
      && failed == FirstFail(world.calls).Some?
      && hasWarn == ShownWarn(world.calls).Some?
      && Shows(error, Headline(world.calls))
      && (cancelled ==> world.ctxDone)
    }

    /** And every warning so far carries a code, so that the first one is the one on show. */
    ghost predicate Consistent()
      reads this`failed, this`hasWarn, this`cancelled, this`error, world`calls, world`ctxDone
    {
      Agrees() && AllCoded(world.calls)
    }

    /** As long as every answer is good and the transport is open, nothing is reported and nobody cancels. */
    ghost predicate Untroubled(goodBefore: bool, doneBefore: bool, callsBefore: Calls)
      reads world`answers, world`ctxDone, world`calls, world`transport
    {
      world.answers.good ==>
        goodBefore && (!doneBefore && world.transport != Closed ==> !world.ctxDone && world.calls == callsBefore)
    }

    lemma UntroubledMeans(goodBefore: bool, doneBefore: bool, callsBefore: Calls)
      ensures Untroubled(goodBefore, doneBefore, callsBefore) <==>
              (world.answers.good ==>
                 && goodBefore
                 && (!doneBefore && world.transport != Closed ==> !world.ctxDone && world.calls == callsBefore))
    {
    }

    /** Settings and files under which no closing stage has anything to warn about. */
    ghost predicate Undisturbed() {
      && (job.healthCheck.Some? ==> 1 <= job.healthCheck.value.attempts)
      && (policy.HasLimit() ==> listOk)
      && (forall r: nat :: !faults.Hits(r))
    }

    ghost predicate SumsAgree()
      reads world`remoteSum, world`localSum
    {
      world.remoteSum == world.localSum != ""
    }

    method Fail(code: ErrorCode, message: Message)
      requires Agrees()
      modifies this`failed, this`error, world`calls
      ensures Agrees() && failed
      ensures world.calls == Then(old(world.calls), Report.Fail(code, message))
      ensures AllCoded(world.calls) == old(AllCoded(world.calls))
    {
      world.calls := Then(world.calls, Report.Fail(code, message));
      if failed {
        return;
      }
      failed := true;
      error := RunError(code, message);
    }

    method Warn(code: ErrorCode, message: Message)
      requires Agrees()
      modifies this`hasWarn, this`error, world`calls
      ensures Agrees() && hasWarn
      ensures world.calls == Then(old(world.calls), Report.Warn(code, message))
      ensures AllCoded(world.calls) == (old(AllCoded(world.calls)) && code != NoError)
    {
      world.calls := Then(world.calls, Report.Warn(code, message));
      hasWarn := true;
      if !failed && error.code == NoError {
        error := RunError(code, message);
      }
    }

    method RecordRecovery(ok: bool)
      modifies this`recoveryOut
      ensures recoveryOut == FoldRecovery(old(recoveryOut), ok)
    {
      if !ok {
        recoveryOut := RecoveryFailed;
        return;
      }
      if recoveryOut != RecoveryFailed {
        recoveryOut := RecoverySuccess;
      }
    }

    function FinalStatus(): RunStatus
      reads this
    {
      if cancelled then RunCancelled
      else if failed then RunFailed
      else if hasWarn then RunWarning
      else RunSuccess
    }

    method CheckCancelled() returns (stop: bool)
      requires Consistent()
      modifies this`cancelled, world`ctxDone, world`answers
      ensures Consistent()
      ensures stop == world.ctxDone == cancelled && (old(cancelled) ==> stop)
      ensures world.ctxDone == (old(world.ctxDone) || world.answers.last.cancelled)
      ensures world.answers.good ==> old(world.answers.good) && world.ctxDone == old(world.ctxDone)
      ensures Untroubled(old(world.answers.good), old(world.ctxDone), old(world.calls))
    {
      stop := world.Poll();
      if stop {
        cancelled := true;
      }
    }

    // ----- scripts and the cleanup registry -----

    /** The registry holds the guaranteed scripts of this list, in order, and the tokens point at them. */
    ghost predicate RegisteredFor(scripts: seq<Script>)
      reads this`cleanupTokens, cleanup
    {
      && |cleanupTokens| == |cleanup.entries| == |GuaranteedOf(scripts)|
      && (forall i :: 0 <= i < |cleanup.entries| ==> cleanup.entries[i].script == GuaranteedOf(scripts)[i])
      && (forall i :: 0 <= i < |cleanupTokens| ==> cleanupTokens[i] == CleanupToken(cleanup.entries[i].script, i))
    }

    /** The books of the recovery guarantee: registry, attempts and recovery outcome agree. */
    ghost predicate Booked()
      reads this`cleanupTokens, this`recoveryOut, world`scripts, cleanup
    {
      && RegisteredFor(job.scripts)
      && AccountedFor(cleanup.entries, world.scripts.attempts)
      && world.scripts.Sound()
      && recoveryOut == RecoveryOf(job.scripts, world.scripts.outcomes)
    }

    method RegisterCleanupScripts()
      requires cleanup.entries == [] && cleanupTokens == []
      modifies this`cleanupTokens, cleanup
      ensures RegisteredFor(job.scripts)
      ensures forall i :: 0 <= i < |cleanup.entries| ==> !cleanup.entries[i].done
    {
      for i := 0 to |job.scripts|
        invariant RegisteredFor(job.scripts[..i])
        invariant forall e :: 0 <= e < |cleanup.entries| ==> !cleanup.entries[e].done
      {
        var script := job.scripts[i];
        assert job.scripts[..i + 1][..i] == job.scripts[..i];
        if script.condition != Always && !script.criticalCleanup {
          continue;
        }
        var entry := cleanup.Register(script);
        cleanupTokens := cleanupTokens + [CleanupToken(script, entry)];
      }
      assert job.scripts[..|job.scripts|] == job.scripts;
    }

    method FindCleanupEntry(script: Script) returns (entry: Option<nat>)
      requires RegisteredFor(job.scripts) && script in job.scripts
      ensures entry.Some? <==> script.Guaranteed()
      ensures entry.Some? ==> entry.value < |cleanup.entries| && cleanup.entries[entry.value].script == script
    {
      GuaranteedOfMembers(job.scripts);
      assert forall s :: s in job.scripts && s.id == script.id ==> s == script;
      for i := 0 to |cleanupTokens|
        invariant forall j :: 0 <= j < i ==> cleanupTokens[j].script.id != script.id
      {
        assert cleanupTokens[i].script in GuaranteedOf(job.scripts);
        if cleanupTokens[i].script.id == script.id {
          return Some(cleanupTokens[i].entry);
        }
      }
      return None;
    }

    method ExecuteScript(script: Script) returns (ok: bool)
      modifies world`scripts, world`answers
      ensures world.scripts == old(world.scripts).(ops := world.scripts.ops,
                                                   issued := old(world.scripts.issued) + {script.id})
      ensures old(world.scripts.ops) <= world.scripts.ops
      ensures ScriptRuns(script, world.scripts.ops[|old(world.scripts.ops)|..], ok)
      ensures !ok ==> |world.scripts.ops| == |old(world.scripts.ops)| + if script.retryOnFailure then 2 else 1
      ensures world.transport == Closed ==> !ok
      ensures world.answers.good ==> old(world.answers.good) && (world.transport != Closed ==> ok)
    {
      ghost var n := |world.scripts.ops|;
      var attempts := 1;
      if script.retryOnFailure {
        attempts := 2;
      }
      ok := false;
      var attempt := 1;
      while attempt <= attempts
        invariant 1 <= attempt <= attempts + 1
        invariant world.answers.good ==> old(world.answers.good) && (world.transport != Closed ==> attempt == 1)
        invariant world.scripts == old(world.scripts).(ops := world.scripts.ops, issued := world.scripts.issued)
        invariant world.scripts.issued == old(world.scripts.issued) + (if attempt == 1 then {} else {script.id})
        invariant old(world.scripts.ops) <= world.scripts.ops && |world.scripts.ops| == n + attempt - 1
        invariant forall i :: n <= i < |world.scripts.ops| ==>
                                && world.scripts.ops[i].command == ScriptCommand(script.id, script.command)
                                && !world.scripts.ops[i].ok
      {
        var success := world.ExecuteScript(script);
        if success {
          ok := true;
          return;
        }
        attempt := attempt + 1;
      }
    }

    /** Records a step around one script execution, for the normal loop and for the drain alike. */
    method RunScriptRecorded(script: Script) returns (ok: bool, ghost started: bool)
      requires steps.Valid()
      modifies steps, world`scripts, world`answers
      ensures steps.Valid() && steps.kinds == old(steps.kinds) + Optional(started, script.StepKind())
      ensures world.scripts.attempts == old(world.scripts.attempts) + multiset{script.id}
      ensures world.scripts.outcomes == old(world.scripts.outcomes) + {(script.id, ok)}
      ensures world.scripts.stored == old(world.scripts.stored) + (if started then {script.id} else {})
      ensures old(world.scripts.Sound()) ==> world.scripts.Sound()
      ensures world.transport == Closed ==> !ok
      ensures steps.begun == old(steps.begun) + {script.StepKind()}
      ensures old(world.scripts.ops) <= world.scripts.ops
      ensures if started then ScriptRuns(script, world.scripts.ops[|old(world.scripts.ops)|..], ok)
              else !ok && world.scripts.ops == old(world.scripts.ops)
      ensures StepEnded(old(steps.rows), steps.rows, started, ok)
      ensures world.answers.good ==> old(world.answers.good) && started && (world.transport != Closed ==> ok)
    {
      world.scripts := world.scripts.(attempts := world.scripts.attempts + multiset{script.id});
      var step := steps.Start(world, script.StepKind());
      started := step.Some?;
      ok := false;
      if step.Some? {
        world.scripts := world.scripts.(stored := world.scripts.stored + {script.id});
        ok := ExecuteScript(script);
        steps.Finish(world, step.value, if ok then StepSuccess else StepFailed);
      }
      world.scripts := world.scripts.(outcomes := world.scripts.outcomes + {(script.id, ok)});
    }

    /**
     * The normal loop over the scripts of one kind: each script reached is run or skipped by its
     * condition, in order, and the loop stops early only because the run was cancelled.
     */
    method RunScripts(kind: ScriptType) returns (ghost reached: nat, ghost decisions: Decisions)
      requires Consistent() && steps.Valid() && Booked()
      requires forall s :: s in job.scripts && s.kind == kind ==> s.id !in world.scripts.attempts
      modifies this`failed, this`error, this`cancelled, this`recoveryOut, steps, cleanup
      modifies world`ctxDone, world`calls, world`scripts, world`answers
      ensures Consistent() && steps.Valid() && Booked()
      ensures reached <= |job.scripts| && Follows(job.scripts, reached, kind, old(failed), decisions)
      ensures reached < |job.scripts| ==> cancelled
      ensures failed == FailedAfter(old(failed), decisions)
      ensures world.scripts.attempts == old(world.scripts.attempts) + RunIds(decisions)
      ensures Extends(old(steps.kinds), steps.kinds, StepKindOf(kind))
      ensures Untroubled(old(world.answers.good), old(world.ctxDone), old(world.calls))
    {
      hide *;
      reached, decisions := 0, Start;
      LoopStarts(job.scripts, kind, failed, steps.kinds);
      UntroubledMeans(old(world.answers.good), old(world.ctxDone), old(world.calls));
      for i := 0 to |job.scripts|
        invariant reached == i
        invariant Consistent() && steps.Valid() && Booked()
        invariant Follows(job.scripts, i, kind, old(failed), decisions)
        invariant failed == FailedAfter(old(failed), decisions)
        invariant world.scripts.attempts == old(world.scripts.attempts) + RunIds(decisions)
        invariant Untroubled(old(world.answers.good), old(world.ctxDone), old(world.calls))
        invariant Extends(old(steps.kinds), steps.kinds, StepKindOf(kind))
      {
        UntroubledMeans(old(world.answers.good), old(world.ctxDone), old(world.calls));
        if job.scripts[i].kind == kind {
          ghost var good, done, calls := world.answers.good, world.ctxDone, world.calls;
          KindOfScript(job.scripts[i]);
          var stop;
          stop, decisions := Turn(i, decisions, old(failed), old(world.scripts.attempts), old(steps.kinds));
          UntroubledMeans(good, done, calls);
          UntroubledMeans(old(world.answers.good), old(world.ctxDone), old(world.calls));
          if stop {
            return;
          }
        } else {
          OtherKindPassed(job.scripts, i, kind, old(failed), decisions);
        }
        reached := i + 1;
      }
    }

    /** One turn of the normal loop: stop if cancelled, else run the script or record it as skipped. */
    method Turn(i: nat, ghost earlier: Decisions, ghost failed0: bool, ghost attempts0: multiset<string>,
                ghost kinds0: seq<StepType>)
      returns (stop: bool, ghost decisions: Decisions)
      requires i < |job.scripts| && Follows(job.scripts, i, job.scripts[i].kind, failed0, earlier)
      requires Consistent() && steps.Valid() && Booked() && failed == FailedAfter(failed0, earlier)
      requires world.scripts.attempts == attempts0 + RunIds(earlier) && job.scripts[i].id !in attempts0
      requires Extends(kinds0, steps.kinds, job.scripts[i].StepKind())
      modifies this`failed, this`error, this`cancelled, this`recoveryOut, steps, cleanup
      modifies world`ctxDone, world`calls, world`scripts, world`answers
      ensures Consistent() && steps.Valid() && Booked() && failed == FailedAfter(failed0, decisions)
      ensures if stop then cancelled && decisions == earlier
              else Follows(job.scripts, i + 1, job.scripts[i].kind, failed0, decisions)
      ensures world.scripts.attempts == attempts0 + RunIds(decisions)
      ensures Extends(kinds0, steps.kinds, job.scripts[i].StepKind())
      ensures Untroubled(old(world.answers.good), old(world.ctxDone), old(world.calls))
    {
      hide *;
      var script := job.scripts[i];
      decisions := earlier;
      stop := CheckCancelled();
      UntroubledMeans(old(world.answers.good), old(world.ctxDone), old(world.calls));
      if stop {
        return;
      }
      ghost var good, done, calls := world.answers.good, world.ctxDone, world.calls;
      if script.ShouldRun(failed) {
        NotReachedNotRun(job.scripts, i, script.kind, failed0, earlier, i);
        var ok := RunScript(script);
        decisions := DidRun(earlier, script.id, ok);
        OneMoreDecision(job.scripts, i, failed0, earlier, ok);
      } else {
        ghost var stored := steps.Skip(world, script.StepKind());
        decisions := DidSkip(earlier, script.id);
        OneMoreDecision(job.scripts, i, failed0, earlier, false);
        ExtendsOptional(old(steps.kinds), stored, script.StepKind());
      }
      UntroubledMeans(good, done, calls);
      UntroubledMeans(old(world.answers.good), old(world.ctxDone), old(world.calls));
      ExtendsMore(kinds0, old(steps.kinds), steps.kinds, script.StepKind());
    }

    method RunScript(script: Script) returns (ok: bool)
      requires Consistent() && steps.Valid() && Booked() && script in job.scripts
      requires script.id !in world.scripts.attempts
      modifies this`failed, this`error, this`recoveryOut, steps, cleanup
      modifies world`calls, world`scripts, world`answers
      ensures Consistent() && steps.Valid() && Booked()
      ensures failed == (old(failed) || !ok)
      ensures world.scripts.attempts == old(world.scripts.attempts) + multiset{script.id}
      ensures world.scripts.outcomes == old(world.scripts.outcomes) + {(script.id, ok)}
      ensures FailedWith(old(world.calls), world.calls, ok,
                         if script.kind == PreBackup then ErrPreScriptFailed else ErrPostScriptFailed)
      ensures Extends(old(steps.kinds), steps.kinds, script.StepKind())
      ensures Untroubled(old(world.answers.good), old(world.ctxDone), old(world.calls))
    {
      ghost var started: bool;
      ok, started := RunScriptRecorded(script);
      SettleEntry(script, ok, old(world.scripts.attempts), old(world.scripts.outcomes));
      if !ok {
        Fail(if script.kind == PreBackup then ErrPreScriptFailed else ErrPostScriptFailed,
             ScriptFailedAt(script.kind, script.id));
      }
    }

    /** After a script ran in the normal loop: mark its entry done and record its result, if it has an entry. */
    method SettleEntry(script: Script, ok: bool, ghost attempts: multiset<string>, ghost outcomes: set<(string, bool)>)
      requires script in job.scripts && RegisteredFor(job.scripts)
      requires AccountedFor(cleanup.entries, attempts) && script.id !in attempts
      requires world.scripts.attempts == attempts + multiset{script.id}
      requires recoveryOut == RecoveryOf(job.scripts, outcomes)
      requires world.scripts.Sound()
      requires world.scripts.outcomes == outcomes + {(script.id, ok)}
      modifies this`recoveryOut, cleanup
      ensures Booked()
    {
      hide RecoveryOf;
      RecoveryOfStep(job.scripts, outcomes, script, ok);
      GuaranteedOfMembers(job.scripts);
      var entry := FindCleanupEntry(script);
      if entry.Some? {
        AccountAttempt(cleanup.entries, attempts, entry.value);
        cleanup.MarkDone(entry.value);
        RecordRecovery(ok);
      } else {
        assert forall i :: 0 <= i < |cleanup.entries| ==> cleanup.entries[i].script in GuaranteedOf(job.scripts);
      }
    }

    // ----- preflight -----

    method Preflight() returns (ok: bool, ghost started: bool)
      requires Consistent() && steps.Valid() && !failed && !connected && world.transport == Unopened
      requires cleanup.entries == [] && cleanupTokens == [] && checks.commands == [] && world.calls == NoCalls
      modifies this`failed, this`hasWarn, this`error, this`connected, this`cleanupTokens
      modifies steps, cleanup, checks, world`calls, world`transport, world`answers
      ensures Consistent() && steps.Valid() && ok == !failed
      ensures steps.kinds == old(steps.kinds) + Optional(started, StepPreflight)
      ensures connected ==> world.transport == TransportState.Open && RegisteredFor(job.scripts)
      ensures !connected ==> !ok && world.transport == Unopened && cleanup.entries == []
      ensures connected ==> started
      ensures StepEnded(old(steps.rows), steps.rows, started, ok)
      ensures if started then PreflightReported(Outcome(old(checks.state)), world.calls)
              else FailedWith(NoCalls, world.calls, ok, ErrInternal)
      ensures forall i :: 0 <= i < |cleanup.entries| ==> !cleanup.entries[i].done
      ensures world.answers.good ==> old(world.answers.good) && started
    {
      var step := steps.Start(world, StepPreflight);
      started := step.Some?;
      if step.None? {
        Fail(ErrInternal, StepNotRecorded(StepPreflight));
        return false, started;
      }
      ok := RunPreflight();
      steps.Finish(world, step.value, if ok then StepSuccess else StepFailed);
    }

    /** What the checks give in this environment; module Preflight relates it to Validate Job. */
    ghost function Outcome(state: S): Checks.Outcome<S> {
      Checks.Engine(checks.env, checkedJob, state, redact)
    }

    /** Every check passes and every size can be measured. */
    ghost predicate ChecksPass(state: S) {
      Outcome(state).failure.None? && Checks.Gaps(Outcome(state).machine.sizes) == []
    }

    /** The first failed check is reported, or else one warning for each size that could not be measured. */
    ghost predicate PreflightReported(outcome: Checks.Outcome<S>, calls: Calls) {
      match outcome.failure
      case Some(r) => FirstFail(calls) == Some(Report.Fail(r.code, Detail(r.message)))
      case None => calls == WarnCalls(Checks.Gaps(outcome.machine.sizes))
    }

    method RunPreflight() returns (ok: bool)
      requires Consistent() && !failed && !connected && world.transport == Unopened
      requires cleanup.entries == [] && cleanupTokens == [] && checks.commands == [] && world.calls == NoCalls
      modifies this`failed, this`hasWarn, this`error, this`connected, this`cleanupTokens
      modifies cleanup, checks, world`calls, world`transport
      ensures Consistent() && ok == !failed
      ensures ok == Outcome(old(checks.state)).failure.None?
              && PreflightReported(Outcome(old(checks.state)), world.calls)
      ensures checks.commands == Outcome(old(checks.state)).machine.commands
      ensures connected == Checks.Connects(checks.env, checkedJob, old(checks.state))
      ensures connected ==> world.transport == TransportState.Open && RegisteredFor(job.scripts)
      ensures !connected ==> !ok && world.transport == Unopened && cleanup.entries == []
      ensures forall i :: 0 <= i < |cleanup.entries| ==> !cleanup.entries[i].done
    {
      hide Checks.Engine, Checks.Connects, Checks.Gaps, Headline, Shows, ShownWarn;
      var failure, warnings, opened' := checks.RunPreflight(checkedJob, redact);
      if opened' {
        connected := true;
        world.transport := TransportState.Open;
        RegisterCleanupScripts();
      }
      WarnAboutSizes(warnings);
      ok := failure.None?;
      if failure.Some? {
        NoFailYet(warnings);
        Fail(failure.value.code, Detail(failure.value.message));
      }
    }

    method WarnAboutSizes(gaps: seq<Checks.Gap>)
      requires Consistent() && world.calls == NoCalls
      modifies this`hasWarn, this`error, world`calls
      ensures Consistent() && world.calls == WarnCalls(gaps)
    {
      for i := 0 to |gaps|
        invariant Consistent() && world.calls == WarnCalls(gaps[..i])
      {
        assert gaps[..i + 1][..i] == gaps[..i];
        Warn(ErrInternal, SizeUnknown(gaps[i]));
      }
      assert gaps[..|gaps|] == gaps;
    }

    // ----- archive, download, verify -----

    method Archive() returns (ghost started: bool)
      requires Consistent() && steps.Valid() && !failed
      modifies this`failed, this`error, this`archiveName, this`remoteArchivePath
      modifies steps, world`calls, world`remoteOps, world`answers
      ensures Consistent() && steps.Valid()
      ensures steps.kinds == old(steps.kinds) + Optional(started, StepArchive)
      ensures !started ==> failed && remoteArchivePath == old(remoteArchivePath) && archiveName == old(archiveName)
                           && world.remoteOps == old(world.remoteOps)
      ensures started ==> remoteArchivePath == job.remoteJobDirectory + "/" + archiveFileName
      ensures started ==> archiveName == archiveFileName
      ensures StepEnded(old(steps.rows), steps.rows, started, !failed)
      ensures !started ==> FailedWith(old(world.calls), world.calls, false, ErrInternal)
      ensures started ==> ArchiveRuns(world.remoteOps, |old(world.remoteOps)|, !failed)
                          && FailedWith(old(world.calls), world.calls, !failed,
                                        ArchiveError(world.remoteOps[|old(world.remoteOps)|].fault))
      ensures world.answers.good ==> old(world.answers.good) && started && !failed && world.calls == old(world.calls)
      ensures started && failed ==>
                && world.calls.Then?
                && (world.calls.report.code == ErrArchiveTimeout || world.calls.report.code == ErrArchiveFailed)
      ensures started && failed ==>
                (world.calls.report.code == ErrArchiveTimeout <==>
                 && world.remoteOps[|old(world.remoteOps)|].fault.Some?
                 && world.remoteOps[|old(world.remoteOps)|].fault.value.timedOut)
    {
      var step := steps.Start(world, StepArchive);
      started := step.Some?;
      if step.None? {
        Fail(ErrInternal, StepNotRecorded(StepArchive));
        return;
      }
      archiveName := archiveFileName;
      remoteArchivePath := job.remoteJobDirectory + "/" + archiveName;
      var r, ok := world.Execute(ArchiveCommand);
      if !ok {
        Fail(ArchiveError(r.fault), Detail(r.text));
        var _, _ := world.Execute(RemovePartialCommand);
      }
      steps.Finish(world, step.value, if ok then StepSuccess else StepFailed);
    }

    /**
     * Exactly one file was ever given a final name: this run's part file, whose content had the checksum
     * the remote host reported. Without a verified archive there was none.
     */
    ghost predicate Finalized()
      reads this`checksum, this`archiveName, this`archiveVerified, world`remoteOps, world`renames
    {
      FinalizedBy(world.remoteOps)
    }

    ghost predicate FinalizedBy(ops: seq<Ran>)
      reads this`checksum, this`archiveName, this`archiveVerified, world`renames
    {
      if archiveVerified then
        && archiveName == archiveFileName
        && Ran(ChecksumCommand, true, checksum, None) in ops
        && world.renames == [Renamed(PartName(), archiveFileName, checksum)]
      else world.renames == []
    }

    lemma StillFinalized(ops: seq<Ran>)
      requires FinalizedBy(ops) && ops <= world.remoteOps
      ensures Finalized()
    {
    }

    lemma NotFinalizedYet()
      requires !archiveVerified && world.renames == []
      ensures Finalized()
    {
    }

    /** What the closing stages start from. */
    lemma BeforeClosing()
      requires Finalized() && HistoryReady() && world.retention == NoRetention
      ensures FinalizedBy(world.remoteOps) && (archiveVerified ==> archiveName == archiveFileName)
      ensures world.retention.Sound() && !world.retention.saveTried && world.retention.removed == {}
      ensures RetentionOver(history.rows) && Without(world.files, world.files, {})
    {
      NoRetentionYet();
    }

    lemma ClosingBegun()
      requires !failed && job.healthCheck.Some? ==> StepHealthCheck in steps.begun
      requires remoteArchivePath != "" ==> StepRemoteCleanup in steps.begun
      requires !failed && archiveVerified && hasRetention ==> StepRetention in steps.begun && world.retention.saveTried
      ensures ClosingStagesBegun()
    {
    }

    /** The archive is on disk under its final name, with the checksum the remote host reported. */
    ghost predicate OnDisk()
      reads this`checksum, world`files
    {
      archiveFileName in world.files && world.files[archiveFileName] == checksum
    }

    ghost function Made(): Option<Renamed>
      reads this`checksum, this`archiveVerified
    {
      if archiveVerified then Some(Renamed(PartName(), archiveFileName, checksum)) else None
    }

    function PartName(): string {
      archiveFileName + ".part"
    }

    method DownloadAndVerify() returns (ghost depth: nat, ghost local: bool, ghost verify: bool)
      requires Consistent() && steps.Valid() && !failed && !archiveVerified && archiveName == archiveFileName
      requires world.renames == []
      modifies this`failed, this`error, this`localPartPath, this`archiveVerified, this`checksum
      modifies steps, world`calls, world`remoteOps, world`files, world`renames
      modifies world`answers, world`remoteSum, world`localSum
      ensures Consistent() && steps.Valid()
      ensures archiveVerified == !failed
      ensures 1 <= depth <= 3 && (local || verify ==> depth == 3) && (archiveVerified ==> verify)
      ensures steps.kinds == old(steps.kinds)
                             + Optional(2 <= depth, StepRemoteChecksum) + Optional(3 <= depth, StepDownload)
                             + Optional(local, StepLocalChecksum) + Optional(verify, StepVerifyChecksum)
      ensures Finalized() && (archiveVerified ==> OnDisk())
      ensures SameExcept(old(world.files), world.files, PartName(),
                         if archiveVerified then archiveFileName else PartName())
      ensures world.answers.good ==> old(world.answers.good)
      ensures world.answers.good && SumsAgree() ==> archiveVerified && world.calls == old(world.calls)
    {
      hide Headline, FirstFail, ShownWarn, StepEnded, FailedWith, Shows, AllCoded, Agrees, SameExcept, Consistent;
      local, verify := false, false;
      var remoteSum, localSum, ok;
      remoteSum, localSum, ok, depth := Fetch();
      ghost var fetched := world.files;
      if !ok {
        return;
      }
      local := LocalChecksumStep();
      verify := VerifyChecksums(remoteSum, localSum);
      SameExceptTwice(old(world.files), fetched, world.files, PartName(),
                      if archiveVerified then archiveFileName else PartName());
    }

    /** The remote checksum, and then the download into the part file. */
    method Fetch() returns (remoteSum: string, localSum: string, ok: bool, ghost depth: nat)
      requires Consistent() && steps.Valid() && !failed && archiveName == archiveFileName
      modifies this`failed, this`error, this`localPartPath
      modifies steps, world`calls, world`remoteOps, world`files, world`answers, world`remoteSum, world`localSum
      ensures Consistent() && steps.Valid() && ok == !failed && 1 <= depth <= 3 && (ok ==> depth == 3)
      ensures steps.kinds == old(steps.kinds)
                             + Optional(2 <= depth, StepRemoteChecksum) + Optional(3 <= depth, StepDownload)
      ensures ok ==> localPartPath == PartName() && PartName() in world.files && world.files[PartName()] == localSum
      ensures ok ==> Ran(ChecksumCommand, true, remoteSum, None) in world.remoteOps
      ensures ok ==> world.remoteSum == remoteSum && world.localSum == localSum && world.calls == old(world.calls)
      ensures SameExcept(old(world.files), world.files, PartName(), PartName())
      ensures world.answers.good ==> old(world.answers.good) && (ok <==> world.remoteSum != "")
    {
      hide Headline, FirstFail, ShownWarn, StepEnded, Shows, AllCoded, Agrees, SameExcept, Consistent;
      SameFiles(world.files, PartName());
      ghost var started;
      localSum := "";
      remoteSum, ok, started := RemoteChecksum();
      depth := if started then 2 else 1;
      if !ok {
        return;
      }
      localSum, ok, started := DownloadArchive();
      depth := if started then 3 else 2;
    }

    method RemoteChecksum() returns (sum: string, ok: bool, ghost started: bool)
      requires Consistent() && steps.Valid() && !failed
      modifies this`failed, this`error, steps, world`calls, world`remoteOps, world`answers, world`remoteSum
      ensures Consistent() && steps.Valid() && ok == !failed
      ensures steps.kinds == old(steps.kinds) + Optional(started, StepRemoteChecksum) && (ok ==> started)
      ensures StepEnded(old(steps.rows), steps.rows, started, ok)
      ensures FailedWith(old(world.calls), world.calls, ok, if started then ErrArchiveFailed else ErrInternal)
      ensures old(world.remoteOps) <= world.remoteOps
      ensures ok ==> Ran(ChecksumCommand, true, sum, None) in world.remoteOps
      ensures started ==> world.remoteSum == sum
      ensures world.answers.good ==> old(world.answers.good) && started && (ok <==> sum != "")
    {
      var step := steps.Start(world, StepRemoteChecksum);
      started := step.Some?;
      if step.None? {
        Fail(ErrInternal, StepNotRecorded(StepRemoteChecksum));
        return "", false, started;
      }
      var r, success := world.Execute(ChecksumCommand);
      sum := r.text;
      world.remoteSum := sum;
      ok := success && sum != "";
      if !ok {
        Fail(ErrArchiveFailed, ChecksumUnavailable);
      }
      steps.Finish(world, step.value, if ok then StepSuccess else StepFailed);
    }

    method DownloadArchive() returns (localSum: string, ok: bool, ghost started: bool)
      requires Consistent() && steps.Valid() && !failed && archiveName == archiveFileName
      modifies this`failed, this`error, this`localPartPath
      modifies steps, world`calls, world`remoteOps, world`files, world`answers, world`localSum
      ensures Consistent() && steps.Valid() && ok == !failed
      ensures steps.kinds == old(steps.kinds) + Optional(started, StepDownload) && (ok ==> started)
      ensures StepEnded(old(steps.rows), steps.rows, started, ok)
      ensures old(world.remoteOps) <= world.remoteOps
      ensures started ==> |world.remoteOps| == |old(world.remoteOps)| + 1
      ensures !started ==> FailedWith(old(world.calls), world.calls, ok, ErrInternal)
      ensures ok ==> world.calls == old(world.calls)
      ensures ok ==> localPartPath == PartName() && PartName() in world.files && world.files[PartName()] == localSum
      ensures SameExcept(old(world.files), world.files, PartName(), PartName())
      ensures ok ==> world.localSum == localSum
      ensures world.answers.good ==> old(world.answers.good) && started && ok
      ensures started && !ok ==>
                && world.calls.Then? && world.calls.earlier == old(world.calls) && world.calls.report.Fail?
                && match world.remoteOps[|old(world.remoteOps)|].fault
                   case Some(Fault(_, Some(code))) => world.calls.report.code == code
                   case _ => world.calls.report.code == ErrDownloadFailed
    {
      hide Headline, FirstFail, ShownWarn, Shows, AllCoded, Agrees, Consistent, SameExcept;
      SameFiles(world.files, PartName());
      var step := steps.Start(world, StepDownload);
      started := step.Some?;
      if step.None? {
        FailConsistently(ErrInternal, StepNotRecorded(StepDownload));
        return "", false, started;
      }
      localPartPath := archiveName + ".part";
      var r, sum := world.Download(localPartPath);
      world.localSum := sum;
      if !r.Ok() {
        FailConsistently(DownloadError(r.fault), Detail(r.text));
        ghost var partial := world.files;
        DeletePart();
        SameExceptTwice(old(world.files), partial, world.files, PartName(), PartName());
        steps.Finish(world, step.value, StepFailed);
        return "", false, started;
      }
      steps.Finish(world, step.value, StepSuccess);
      return sum, true, started;
    }

    method LocalChecksumStep() returns (ghost started: bool)
      requires steps.Valid()
      modifies steps, world`answers
      ensures steps.Valid() && steps.kinds == old(steps.kinds) + Optional(started, StepLocalChecksum)
      ensures StepEnded(old(steps.rows), steps.rows, started, true)
      ensures world.answers.good ==> old(world.answers.good) && started
    {
      var step := steps.Start(world, StepLocalChecksum);
      started := step.Some?;
      if step.Some? {
        steps.Finish(world, step.value, StepSuccess);
      }
    }

    method VerifyChecksums(remoteSum: string, localSum: string) returns (ghost started: bool)
      requires Consistent() && steps.Valid() && !failed && !archiveVerified && archiveName == archiveFileName
      requires world.renames == []
      requires localPartPath == PartName() && PartName() in world.files && world.files[PartName()] == localSum
      modifies this`failed, this`error, this`archiveVerified, this`checksum
      modifies steps, world`calls, world`files, world`renames, world`answers
      ensures Consistent() && steps.Valid() && archiveVerified == !failed
      ensures steps.kinds == old(steps.kinds) + Optional(started, StepVerifyChecksum)
      ensures StepEnded(old(steps.rows), steps.rows, started, archiveVerified)
      ensures FailedWith(old(world.calls), world.calls, archiveVerified,
                         if !started then ErrInternal
                         else if remoteSum != localSum then ErrChecksumMismatch else ErrDownloadFailed)
      ensures archiveVerified ==> started && remoteSum == localSum == checksum && OnDisk()
      ensures world.renames == if archiveVerified then [Renamed(PartName(), archiveFileName, checksum)] else []
      ensures SameExcept(old(world.files), world.files, PartName(),
                         if archiveVerified then archiveFileName else PartName())
      ensures world.answers.good ==> old(world.answers.good) && started && (archiveVerified <==> remoteSum == localSum)
      ensures archiveVerified ==> world.calls == old(world.calls)
    {
      hide Headline, FirstFail, ShownWarn, Shows, Agrees, AllCoded, Consistent, SameExcept;
      SameFiles(world.files, PartName());
      var step := steps.Start(world, StepVerifyChecksum);
      started := step.Some?;
      if step.None? {
        FailConsistently(ErrInternal, StepNotRecorded(StepVerifyChecksum));
        return;
      }
      if remoteSum != localSum {
        FailConsistently(ErrChecksumMismatch, ChecksumsDiffer(remoteSum, localSum));
        DeletePart();
      } else {
        FinalizePart(localSum);
      }
      steps.Finish(world, step.value, if archiveVerified then StepSuccess else StepFailed);
    }

    /** The rename of the part file to the final name, and its failure. */
    method FinalizePart(sum: string)
      requires Consistent() && !failed && !archiveVerified && archiveName == archiveFileName && world.renames == []
      requires localPartPath == PartName() && PartName() in world.files && world.files[PartName()] == sum
      modifies this`failed, this`error, this`archiveVerified, this`checksum
      modifies world`calls, world`files, world`renames, world`answers
      ensures Consistent() && archiveVerified == !failed == world.answers.last.Ok()
      ensures world.answers.good == (old(world.answers.good) && world.answers.last.Good())
      ensures FailedWith(old(world.calls), world.calls, archiveVerified, ErrDownloadFailed)
      ensures archiveVerified ==> checksum == sum && OnDisk()
      ensures world.renames == if archiveVerified then [Renamed(PartName(), archiveFileName, checksum)] else []
      ensures SameExcept(old(world.files), world.files, PartName(),
                         if archiveVerified then archiveFileName else PartName())
    {
      hide Headline, FirstFail, ShownWarn, Shows, Agrees, AllCoded, Consistent, SameExcept;
      SameFiles(world.files, PartName());
      assert |localPartPath| != |archiveName|;
      var renamed := world.Rename(localPartPath, archiveName);
      if !renamed {
        FailConsistently(ErrDownloadFailed, NotFinalized);
        return;
      }
      archiveVerified := true;
      checksum := sum;
    }

    method WarnConsistently(code: ErrorCode, message: Message)
      requires Consistent() && code != NoError
      modifies this`hasWarn, this`error, world`calls
      ensures Consistent() && hasWarn
      ensures world.calls == Then(old(world.calls), Report.Warn(code, message))
    {
      Warn(code, message);
    }

    method FailConsistently(code: ErrorCode, message: Message)
      requires Consistent()
      modifies this`failed, this`error, world`calls
      ensures Consistent() && failed
      ensures world.calls == Then(old(world.calls), Report.Fail(code, message))
    {
      Fail(code, message);
    }

    method DeletePart()
      modifies world`files, world`answers
      ensures SameExcept(old(world.files), world.files, localPartPath, localPartPath)
      ensures world.answers.good ==> old(world.answers.good)
    {
      if localPartPath == "" {
        return;
      }
      world.Remove(localPartPath);
    }

    // ----- closing stages -----

    method HealthCheckStage() returns (ghost started: bool, ghost healthy: bool)
      requires Consistent() && steps.Valid()
      modifies this`hasWarn, this`error, steps, world`calls, world`remoteOps, world`answers
      ensures Consistent() && steps.Valid() && old(steps.begun) <= steps.begun
      ensures steps.kinds == old(steps.kinds) + Optional(started, StepHealthCheck)
      ensures job.healthCheck.Some? ==> StepHealthCheck in steps.begun
      ensures job.healthCheck.None? ==> !started
      ensures StepEnded(old(steps.rows), steps.rows, started, healthy)
      ensures old(world.remoteOps) <= world.remoteOps
      ensures !started ==> world.calls == old(world.calls) && world.remoteOps == old(world.remoteOps)
      ensures started ==> HealthRuns(job.healthCheck.value, world.remoteOps[|old(world.remoteOps)|..], healthy)
      ensures started && healthy ==> world.calls == old(world.calls)
      ensures started && !healthy ==>
                world.calls == Then(old(world.calls),
                                    Report.Warn(ErrHealthCheckFailed,
                                                HealthCheckFailedAfter(job.healthCheck.value.attempts)))
      ensures world.answers.good ==> old(world.answers.good) && (started <==> job.healthCheck.Some?)
      ensures world.answers.good && Undisturbed() ==> world.calls == old(world.calls)
    {
      started, healthy := false, false;
      if job.healthCheck.None? {
        return;
      }
      var step := steps.Start(world, StepHealthCheck);
      started := step.Some?;
      if step.None? {
        return;
      }
      var succeeded := TryHealthCheck(job.healthCheck.value);
      healthy := succeeded;
      if !succeeded {
        Warn(ErrHealthCheckFailed, HealthCheckFailedAfter(job.healthCheck.value.attempts));
      }
      steps.Finish(world, step.value, if succeeded then StepSuccess else StepFailed);
    }

    /** Up to the configured attempts, an interval apart; a cancelled sleep ends the tries. */
    method TryHealthCheck(h: HealthCheck) returns (succeeded: bool)
      modifies world`remoteOps, world`answers
      ensures old(world.remoteOps) <= world.remoteOps
      ensures HealthRuns(h, world.remoteOps[|old(world.remoteOps)|..], succeeded)
      ensures world.answers.good ==> old(world.answers.good) && (1 <= h.attempts ==> succeeded)
      ensures !succeeded && |world.remoteOps| - |old(world.remoteOps)| < h.attempts ==> !world.answers.last.Ok()
    {
      ghost var n := |world.remoteOps|;
      succeeded := false;
      var attempt := 1;
      while attempt <= h.attempts
        invariant world.answers.good ==> old(world.answers.good) && attempt == 1
        invariant 1 <= attempt && (1 < attempt ==> attempt <= h.attempts + 1)
        invariant old(world.remoteOps) <= world.remoteOps && |world.remoteOps| == n + attempt - 1
        invariant forall i :: n <= i < |world.remoteOps| ==>
                                world.remoteOps[i].command == HealthCommand(h.command) && !world.remoteOps[i].ok
      {
        if attempt > 1 {
          var slept := world.Ask();
          if !slept.Ok() {
            break;
          }
        }
        var r, ok := world.Execute(HealthCommand(h.command));
        if ok {
          succeeded := true;
          return;
        }
        attempt := attempt + 1;
      }
    }

    method RemoteCleanup() returns (ghost started: bool)
      requires Consistent() && steps.Valid() && connected
      modifies this`hasWarn, this`error, steps, world`calls, world`remoteOps, world`answers
      ensures Consistent() && steps.Valid() && old(steps.begun) <= steps.begun
      ensures steps.kinds == old(steps.kinds) + Optional(started, StepRemoteCleanup)
      ensures remoteArchivePath != "" ==> StepRemoteCleanup in steps.begun
      ensures remoteArchivePath == "" ==> !started
      ensures !started ==> world.calls == old(world.calls) && world.remoteOps == old(world.remoteOps)
      ensures old(world.remoteOps) <= world.remoteOps && (!started ==> steps.rows == old(steps.rows))
      ensures started ==> |world.remoteOps| == |old(world.remoteOps)| + 1
                          && StepEnded(old(steps.rows), steps.rows, started, world.remoteOps[|old(world.remoteOps)|].ok)
                          && world.remoteOps[|old(world.remoteOps)|].command == RemoveRemoteCommand
                          && world.calls == if world.remoteOps[|old(world.remoteOps)|].ok then old(world.calls)
                                            else Then(old(world.calls),
                                                      Report.Warn(ErrInternal,
                                                                  RemoteArchiveNotRemoved(remoteArchivePath)))
      ensures world.answers.good ==> old(world.answers.good) && world.calls == old(world.calls)
      ensures world.answers.good ==> (started <==> remoteArchivePath != "")
    {
      started := false;
      if remoteArchivePath == "" || !connected {
        return;
      }
      var step := steps.Start(world, StepRemoteCleanup);
      started := step.Some?;
      if step.None? {
        return;
      }
      var r, ok := world.Execute(RemoveRemoteCommand);
      if !ok {
        Warn(ErrInternal, RemoteArchiveNotRemoved(remoteArchivePath));
      }
      steps.Finish(world, step.value, if ok then StepSuccess else StepFailed);
    }

    /**
     * The run row is written before the policy is applied, and a failed write is only logged. The policy
     * removes archive files of this job, and may remove this run's own.
     */
    method ApplyRetention() returns (ghost started: bool, ghost clean: bool)
      requires Consistent() && steps.Valid() && world.retention == NoRetention && HistoryReady()
      requires archiveName == archiveFileName != ""
      modifies this`hasWarn, this`error, steps, history
      modifies world`calls, world`retention, world`files, world`answers
      ensures Consistent() && steps.Valid() && old(steps.begun) <= steps.begun
      ensures steps.kinds == old(steps.kinds) + Optional(started, StepRetention)
      ensures StepEnded(old(steps.rows), steps.rows, started, clean)
      ensures if !started || clean then world.calls == old(world.calls)
              else world.calls.Then? && world.calls.earlier == old(world.calls)
                   && world.calls.report.Warn? && world.calls.report.code == ErrInternal
      ensures StepRetention in steps.begun && world.retention.Sound() && world.retention.saveTried
      ensures world.retention.swept == (started && policy.HasLimit() && listOk)
      ensures RetentionOver(old(history.rows)) && Without(old(world.files), world.files, world.retention.removed)
      ensures clean <==> started && (policy.HasLimit() ==> listOk) && !world.retention.warned
      ensures world.answers.good ==> old(world.answers.good) && started && world.retention.saved
      ensures world.answers.good && Undisturbed() ==> world.calls == old(world.calls)
    {
      hide RetentionOver, Without, Retention.StageOver, Headline, FirstFail, ShownWarn, Shows, AllCoded, Agrees;
      hide Consistent, Undisturbed, Retention.Sortable;
      NothingRemoved(world.files);
      SaveRow();
      var step := steps.Start(world, StepRetention);
      started, clean := step.Some?, false;
      if step.None? {
        return;
      }
      var ok := SweepHistory(old(history.rows));
      clean := ok;
      if !ok {
        WarnConsistently(ErrInternal, RetentionProblem(""));
      }
      steps.Finish(world, step.value, if ok then StepSuccess else StepFailed);
    }

    /** The write before the sweep; its failure is only logged. */
    method SaveRow()
      requires HistoryReady() && archiveName == archiveFileName
      modifies history, world`retention, world`answers
      ensures world.retention == RetentionLog(true, world.retention.saved, false, {}, false)
      ensures Retention.Sortable(history.rows) && RetentionOver(old(history.rows))
      ensures history.rows == if world.retention.saved then Retention.Named(old(history.rows), row, archiveFileName)
                              else old(history.rows)
      ensures world.retention.saved == world.answers.last.Ok()
      ensures world.answers.good == (old(world.answers.good) && world.answers.last.Good())
    {
      hide Retention.Sortable;
      var saved := world.Ask();
      world.retention := RetentionLog(true, saved.Ok(), false, {}, false);
      if saved.Ok() {
        history.SaveName(row, archiveName);
      }
      NamedSortable(old(history.rows), row, archiveName);
    }

    /** Apply on the rows as the early write left them; ok is a listing that worked and no warning. */
    method SweepHistory(ghost before: seq<Retention.Record>) returns (ok: bool)
      requires Retention.Sortable(history.rows) && |before| == row + 1
               && before[row].archiveName == "" != archiveFileName
      requires history.rows == if world.retention.saved then Retention.Named(before, row, archiveFileName) else before
      modifies history, world`retention, world`files
      ensures world.retention == old(world.retention).(swept := policy.HasLimit() && listOk,
                                                       removed := world.retention.removed,
                                                       warned := world.retention.warned)
      ensures !world.retention.swept ==> world.retention.removed == {} && !world.retention.warned
      ensures ok <==> (policy.HasLimit() ==> listOk) && !world.retention.warned
      ensures Undisturbed() ==> ok
      ensures RetentionOver(before) && Without(old(world.files), world.files, world.retention.removed)
    {
      hide Retention.Swept, Retention.Sortable, Retention.Removed, Retention.Accounted, Without, Retention.SomeHit;
      ghost var begun := history.rows;
      var _, warnings, removed, err := history.Apply(policy, sweepAt, listOk, faults);
      world.RemoveAll(removed);
      world.retention :=
        world.retention.(swept := policy.HasLimit() && listOk, removed := removed, warned := warnings != []);
      if policy.HasLimit() && listOk {
        Seen(begun, removed, warnings != []);
      }
      ok := !err && warnings == [];
    }

    /** Before the retention stage nothing has happened to the rows. */
    lemma NoRetentionYet()
      requires HistoryReady() && world.retention == NoRetention
      ensures RetentionOver(history.rows)
    {
      Retention.NoStage(history.rows, row, archiveFileName, policy, sweepAt, faults);
    }

    lemma NamedSortable(rows: seq<Retention.Record>, row: nat, name: string)
      requires row < |rows| && Retention.Sortable(rows)
      ensures Retention.Sortable(Retention.Named(rows, row, name))
    {
    }

    /** The sweep's listing holds this run's row exactly when the row had its name; without faults nothing is hit. */
    lemma Seen(begun: seq<Retention.Record>, removed: set<string>, warned: bool)
      requires row < |begun|
      requires exists list ::
                 && Retention.Swept(begun, history.rows, list, policy, sweepAt, faults)
                 && removed == Retention.Removed(begun, list, policy, Retention.Cutoff(policy, sweepAt), faults, |list|)
                 && (warned <==>
                     Retention.SomeHit(begun, list, policy, Retention.Cutoff(policy, sweepAt), faults))
      ensures Retention.SweptSeeing(begun, history.rows, policy, sweepAt, faults, row, begun[row].Archived(), removed,
                                    warned)
      ensures |history.rows| == |begun| && (Undisturbed() ==> !warned)
    {
      var list :| && Retention.Swept(begun, history.rows, list, policy, sweepAt, faults)
                  && removed
                     == Retention.Removed(begun, list, policy, Retention.Cutoff(policy, sweepAt), faults, |list|)
                  && (warned <==>
                      Retention.SomeHit(begun, list, policy, Retention.Cutoff(policy, sweepAt), faults));
      assert row in list <==> begun[row].Archived();
    }

    /** The stages after the last cancellation check. */
    method CloseStages() returns (ghost health: bool, ghost cleanup': bool, ghost retention: bool)
      requires Consistent() && steps.Valid() && connected && world.retention == NoRetention && HistoryReady()
      requires Finalized() && archiveFileName != ""
      modifies this`hasWarn, this`error, steps, history
      modifies world`calls, world`remoteOps, world`retention, world`files, world`answers
      ensures Consistent() && steps.Valid() && old(world.remoteOps) <= world.remoteOps
      ensures steps.kinds == old(steps.kinds)
                             + TailOf(health, cleanup', retention)
      ensures health ==> !failed
      ensures cleanup' ==> remoteArchivePath != ""
      ensures retention ==> !failed && archiveVerified
      ensures !failed && job.healthCheck.Some? ==> StepHealthCheck in steps.begun
      ensures remoteArchivePath != "" ==> StepRemoteCleanup in steps.begun
      ensures !failed && archiveVerified && hasRetention ==> StepRetention in steps.begun && world.retention.saveTried
      ensures world.retention.Sound() && (world.retention.saveTried ==> archiveVerified) && Finalized()
      ensures RetentionOver(old(history.rows)) && Without(old(world.files), world.files, world.retention.removed)
      ensures world.answers.good ==> old(world.answers.good)
      ensures world.answers.good && Undisturbed() ==> world.calls == old(world.calls)
    {
      hide *;
      health, retention := false, false;
      BeforeClosing();
      if !failed {
        ghost var healthy;
        health, healthy := HealthCheckStage();
      }
      cleanup' := RemoteCleanup();
      if !failed && archiveVerified && hasRetention {
        ghost var clean;
        retention, clean := ApplyRetention();
      }
      StillFinalized(old(world.remoteOps));
      TailJoins(old(steps.kinds), health, cleanup', retention);
    }

    // ----- the drain -----

    /** The registry and the attempts agree; the part of Booked that holds throughout the drain. */
    ghost predicate Tracked()
      reads this`cleanupTokens, world`scripts, cleanup
    {
      && RegisteredFor(job.scripts)
      && AccountedFor(cleanup.entries, world.scripts.attempts)
      && world.scripts.Sound()
    }

    /** No drained script succeeded. */
    ghost predicate DrainedFailed()
      reads world`scripts, world`drained
    {
      forall id :: id in world.drained ==>
                     (id, false) in world.scripts.outcomes && (id, true) !in world.scripts.outcomes
    }

    ghost predicate GuaranteedId(id: string) {
      exists s :: s in job.scripts && s.Guaranteed() && s.id == id
    }

    /** Runs every entry not done yet, whatever the others return. */
    method Drain() returns (outcomes: seq<bool>)
      requires steps.Valid() && world.drained == multiset{}
      requires if connected then Tracked() else cleanup.entries == []
      modifies steps, cleanup, world`scripts, world`drained, world`drainsFollowClose, world`answers
      ensures steps.Valid() && ScriptSteps(old(steps.kinds), steps.kinds) && old(steps.begun) <= steps.begun
      ensures if connected then Tracked() else world.scripts == old(world.scripts) && steps.kinds == old(steps.kinds)
      ensures forall i :: 0 <= i < |cleanup.entries| ==> cleanup.entries[i].done
      ensures forall id :: id in world.drained ==> GuaranteedId(id)
      ensures world.scripts.attempts == old(world.scripts.attempts) + world.drained
      ensures RecoveryOf(job.scripts, world.scripts.outcomes) ==
              FoldAll(RecoveryOf(job.scripts, old(world.scripts.outcomes)), outcomes)
      ensures world.transport == Closed ==> world.drainsFollowClose == old(world.drainsFollowClose) && DrainedFailed()
      ensures world.answers.good ==> old(world.answers.good)
    {
      hide RecoveryOf, AccountedFor, RegisteredFor, ScriptSteps;
      NoScriptSteps(steps.kinds);
      var pending := cleanup.Pending();
      outcomes := [];
      for k := 0 to |pending|
        invariant steps.Valid() && ScriptSteps(old(steps.kinds), steps.kinds) && old(steps.begun) <= steps.begun
        invariant if connected then Tracked()
                  else world.scripts == old(world.scripts) && steps.kinds == old(steps.kinds)
        invariant world.answers.good ==> old(world.answers.good)
        invariant |cleanup.entries| == |old(cleanup.entries)|
        invariant forall j :: 0 <= j < |pending| ==> (cleanup.entries[pending[j]].done <==> j < k)
        invariant forall t :: 0 <= t < |cleanup.entries| && !cleanup.entries[t].done ==> t in pending
        invariant forall id :: id in world.drained ==> GuaranteedId(id)
        invariant world.scripts.attempts == old(world.scripts.attempts) + world.drained
        invariant RecoveryOf(job.scripts, world.scripts.outcomes) ==
                  FoldAll(RecoveryOf(job.scripts, old(world.scripts.outcomes)), outcomes)
        invariant world.transport == Closed ==>
                  world.drainsFollowClose == old(world.drainsFollowClose) && DrainedFailed()
      {
        var ok := DrainOne(pending[k], old(steps.kinds), old(steps.begun));
        FoldAllMore(RecoveryOf(job.scripts, old(world.scripts.outcomes)), outcomes, ok);
        outcomes := outcomes + [ok];
      }
    }

    method DrainOne(e: nat, ghost kinds0: seq<StepType>, ghost begun0: set<StepType>) returns (ok: bool)
      requires steps.Valid() && Tracked() && ScriptSteps(kinds0, steps.kinds) && begun0 <= steps.begun
      requires world.transport == Closed ==> DrainedFailed()
      requires e < |cleanup.entries| && !cleanup.entries[e].done
      modifies steps, cleanup, world`scripts, world`drained, world`drainsFollowClose, world`answers
      ensures steps.Valid() && Tracked() && ScriptSteps(kinds0, steps.kinds) && begun0 <= steps.begun
      ensures cleanup.entries == old(cleanup.entries)[e := old(cleanup.entries)[e].(done := true)]
      ensures world.drained == old(world.drained) + multiset{cleanup.entries[e].script.id}
      ensures GuaranteedId(cleanup.entries[e].script.id)
      ensures world.scripts.attempts == old(world.scripts.attempts) + multiset{cleanup.entries[e].script.id}
      ensures RecoveryOf(job.scripts, world.scripts.outcomes) ==
              FoldRecovery(RecoveryOf(job.scripts, old(world.scripts.outcomes)), ok)
      ensures world.transport == Closed ==> DrainedFailed()
      ensures world.drainsFollowClose == (old(world.drainsFollowClose) && world.transport == Closed)
      ensures world.answers.good ==> old(world.answers.good)
    {
      hide RecoveryOf, AccountedFor, ScriptSteps, StepEnded, ScriptRuns, GuaranteedOf;
      var script := cleanup.entries[e].script;
      GuaranteedOfMembers(job.scripts);
      assert script in GuaranteedOf(job.scripts);
      NotAttempted(cleanup.entries, world.scripts.attempts, e);
      AccountAttempt(cleanup.entries, world.scripts.attempts, e);
      world.drained := world.drained + multiset{script.id};
      world.drainsFollowClose := world.drainsFollowClose && world.transport == Closed;
      ghost var started;
      ok, started := RunScriptRecorded(script);
      OneMoreScriptStep(kinds0, old(steps.kinds), started, script.kind);
      RecoveryOfStep(job.scripts, old(world.scripts.outcomes), script, ok);
      cleanup.MarkDone(e);
    }

    /** Drains the registry and folds each result into the recovery outcome; status and error stay as they are. */
    method DrainCleanup()
      requires steps.Valid() && world.drained == multiset{}
      requires if connected then Booked() else cleanup.entries == []
      requires recoveryOut == RecoveryOf(job.scripts, world.scripts.outcomes)
      modifies this`recoveryOut, steps, cleanup
      modifies world`scripts, world`drained, world`drainsFollowClose, world`answers
      ensures steps.Valid() && ScriptSteps(old(steps.kinds), steps.kinds) && old(steps.begun) <= steps.begun
      ensures if connected then Booked() else world.scripts == old(world.scripts) && steps.kinds == old(steps.kinds)
      ensures old(world.scripts.Sound()) ==> world.scripts.Sound()
      ensures recoveryOut == RecoveryOf(job.scripts, world.scripts.outcomes)
      ensures forall i :: 0 <= i < |cleanup.entries| ==> cleanup.entries[i].done
      ensures forall id :: id in world.drained ==> GuaranteedId(id)
      ensures world.scripts.attempts == old(world.scripts.attempts) + world.drained
      ensures world.transport == Closed ==> world.drainsFollowClose == old(world.drainsFollowClose) && DrainedFailed()
      ensures world.answers.good ==> old(world.answers.good)
    {
      hide RecoveryOf, AccountedFor, RegisteredFor, ScriptSteps, GuaranteedId;
      var outcomes := Drain();
      RecordAll(outcomes);
    }

    method RecordAll(outcomes: seq<bool>)
      modifies this`recoveryOut
      ensures recoveryOut == FoldAll(old(recoveryOut), outcomes)
    {
      for k := 0 to |outcomes|
        invariant recoveryOut == FoldAll(old(recoveryOut), outcomes[..k])
      {
        FoldAllMore(old(recoveryOut), outcomes[..k], outcomes[k]);
        assert outcomes[..k + 1] == outcomes[..k] + [outcomes[k]];
        RecordRecovery(outcomes[k]);
      }
      assert outcomes[..|outcomes|] == outcomes;
    }

    // ----- the whole workflow -----

    /** Pre scripts, archive, download and verification, each followed by a cancellation check. */
    method BackUp()
      returns (stop: bool, ghost pre: Decisions, ghost reached: nat, ghost preSteps: seq<StepType>,
               ghost mid: seq<StepType>)
      requires Consistent() && steps.Valid() && Booked() && world.scripts.attempts == multiset{}
      requires !failed && !archiveVerified && remoteArchivePath == "" && world.renames == []
      modifies this`failed, this`error, this`cancelled, this`recoveryOut
      modifies this`archiveName, this`remoteArchivePath, this`localPartPath, this`archiveVerified, this`checksum
      modifies steps, cleanup
      modifies world`ctxDone, world`calls, world`scripts, world`remoteOps, world`files, world`renames
      modifies world`answers, world`remoteSum, world`localSum
      ensures Consistent() && steps.Valid() && Booked() && stop == cancelled
      ensures steps.kinds == old(steps.kinds) + preSteps + mid && AllAre(preSteps, StepPreBackupScript)
              && ArchiveForm(mid)
      ensures reached <= |job.scripts| && Follows(job.scripts, reached, PreBackup, false, pre)
      ensures !stop ==> reached == |job.scripts|
      ensures world.scripts.attempts == RunIds(pre) && (FailedAfter(false, pre) ==> failed)
      ensures !stop ==> archiveVerified == !failed
      ensures Finalized() && (archiveVerified ==> OnDisk() && !failed && StepVerifyChecksum in mid)
      ensures remoteArchivePath != "" ==> StepArchive in mid
      ensures SameExcept(old(world.files), world.files, PartName(),
                         if archiveVerified then archiveFileName else PartName())
      ensures world.answers.good ==> old(world.answers.good)
      ensures world.answers.good && SumsAgree() && !old(world.ctxDone) && world.transport != Closed ==>
                !world.ctxDone && world.calls == old(world.calls)
    {
      hide Follows, RecoveryOf, AccountedFor, Headline, FirstFail, ShownWarn, TailForm, Booked, RegisteredFor, MidOf;
      hide Consistent, Agrees, AllCoded, Shows, SameExcept, OnDisk, ArchiveForm, AllAre, Extends, Optional;
      SameFiles(world.files, PartName());
      ghost var kinds := steps.kinds;
      mid := MidOf(0, false, false);
      reached, pre := RunScripts(PreBackup);
      preSteps := ExtendsBy(kinds, steps.kinds, StepPreBackupScript);
      MidJoins(steps.kinds, 0, false, false);
      stop := CheckCancelled();
      if stop {
        return;
      }
      stop, mid := MakeArchive();
    }

    /** The archive stage and, if it succeeded, the download and verification stages. */
    method MakeArchive() returns (stop: bool, ghost mid: seq<StepType>)
      requires Consistent() && steps.Valid() && !archiveVerified && remoteArchivePath == "" && world.renames == []
      modifies this`failed, this`error, this`cancelled
      modifies this`archiveName, this`remoteArchivePath, this`localPartPath, this`archiveVerified, this`checksum, steps
      modifies world`ctxDone, world`calls, world`remoteOps, world`files, world`renames
      modifies world`answers, world`remoteSum, world`localSum
      ensures Consistent() && steps.Valid() && stop == cancelled
      ensures steps.kinds == old(steps.kinds) + mid && ArchiveForm(mid)
      ensures !stop ==> archiveVerified == !failed
      ensures old(failed) ==> failed
      ensures Finalized() && (archiveVerified ==> OnDisk() && !failed && StepVerifyChecksum in mid)
      ensures remoteArchivePath != "" ==> StepArchive in mid
      ensures SameExcept(old(world.files), world.files, PartName(),
                         if archiveVerified then archiveFileName else PartName())
      ensures world.answers.good ==> old(world.answers.good)
      ensures world.answers.good && SumsAgree() && !old(world.ctxDone) ==>
                !world.ctxDone && world.calls == old(world.calls)
    {
      hide *;
      SameFiles(world.files, PartName());
      NotFinalizedYet();
      ghost var depth, local, verify := 0, false, false;
      if !failed {
        ghost var started := Archive();
        depth := if started then 1 else 0;
      }
      mid := MidOf(depth, local, verify);
      MidJoins(old(steps.kinds), depth, local, verify);
      stop := CheckCancelled();
      NotFinalizedYet();
      if stop {
        return;
      }
      if !failed {
        depth, local, verify := DownloadAndVerify();
        mid := MidOf(depth, local, verify);
        MidJoins(old(steps.kinds), depth, local, verify);
      }
      stop := CheckCancelled();
    }

    /** How the two normal loops went; complete when neither was cut short. */
    ghost predicate LoopsFollow(loops: Loops) {
      loops.FollowScripts(job.scripts)
    }

    /**
     * Where the run's failure state comes from: the pre loop, the archive stages between the loops, the
     * post loop, and nothing after it.
     */
    ghost predicate FailureTraced(loops: Loops)
      reads this`failed, this`archiveVerified, this`cancelled
    {
      && failed == FailedAfter(loops.failedBefore, loops.post)
      && (FailedAfter(false, loops.pre) || (!archiveVerified && !cancelled) ==> loops.failedBefore)
      && (archiveVerified ==> !loops.failedBefore)
    }

    /** A guaranteed script is drained exactly when its turn never came or its condition did not hold then. */
    ghost predicate DrainedExactly(loops: Loops)
      reads world`drained
    {
      && LoopsFollow(loops)
      && forall i :: 0 <= i < |job.scripts| && job.scripts[i].Guaranteed() ==>
           (job.scripts[i].id in world.drained <==> !loops.TookItsTurn(job.scripts, i))
    }

    /** The run's own books at the end of its stages: errors, loops, files and the job's rows. */
    ghost predicate StagesOver(loops: Loops, main: Segments, files: map<string, string>, rows: seq<Retention.Record>)
      reads this`failed, this`hasWarn, this`cancelled, this`error, this`archiveVerified, this`archiveName, this`checksum
      reads history, world`calls, world`ctxDone, world`files, world`renames, world`remoteOps, world`retention
    {
      && Consistent() && main.WellFormed() && LoopsFollow(loops) && FailureTraced(loops)
      && (!failed && !cancelled ==> archiveVerified)
      && (StepRetention in main.tail ==> archiveVerified)
      && Finalized() && Directory(files, world.files, PartName(), Made(), world.retention.removed)
      && RetentionOver(rows) && world.retention.Sound() && (world.retention.saveTried ==> archiveVerified)
    }

    /** A PRE_BACKUP loop leaves every POST_BACKUP script untouched. */
    lemma PreLeavesPost(pre: Decisions, reached: nat, failed: bool)
      requires reached <= |job.scripts| && Follows(job.scripts, reached, PreBackup, failed, pre)
      ensures forall s :: s in job.scripts && s.kind == PostBackup ==> s.id !in RunIds(pre)
    {
      LoopRunsOnce(job.scripts, reached, PreBackup, failed, pre);
    }

    lemma BookedFacts()
      requires Booked()
      ensures world.scripts.Sound() && recoveryOut == RecoveryOf(job.scripts, world.scripts.outcomes)
    {
    }

    /** Every stage between a passed preflight and the drain. */
    method RunStages() returns (ghost main: Segments, ghost loops: Loops)
      requires Consistent() && steps.Valid() && Booked() && world.scripts.attempts == multiset{}
      requires world.retention == NoRetention && world.renames == [] && HistoryReady() && archiveFileName != ""
      requires connected && !failed && !archiveVerified && remoteArchivePath == ""
      modifies this`failed, this`hasWarn, this`error, this`cancelled, this`recoveryOut
      modifies this`archiveName, this`remoteArchivePath, this`localPartPath, this`archiveVerified, this`checksum
      modifies steps, cleanup, history
      modifies world`ctxDone, world`calls, world`scripts, world`remoteOps, world`files, world`renames, world`retention
      modifies world`answers, world`remoteSum, world`localSum
      ensures steps.Valid() && Booked() && StagesOver(loops, main, old(world.files), old(history.rows))
      ensures steps.kinds == old(steps.kinds) + main.All() && world.scripts.attempts == loops.RanIds()
      ensures world.scripts.Sound() && recoveryOut == RecoveryOf(job.scripts, world.scripts.outcomes)
      ensures !cancelled ==> loops.preReached == loops.postReached == |job.scripts| && ClosingStagesBegun()
      ensures world.answers.good ==> old(world.answers.good)
      ensures world.answers.good && SumsAgree() && Undisturbed() && !old(world.ctxDone) && world.transport != Closed ==>
                !world.ctxDone && world.calls == old(world.calls)
    {
      hide Follows, RecoveryOf, AccountedFor, RegisteredFor, Headline, FirstFail, ShownWarn, ArchiveForm, TailForm;
      hide ClosingStagesBegun, Shows, AllCoded, Agrees, Consistent, Booked, SameExcept, Without, AllAre, StagesOver;
      hide RetentionOver, Finalized, HistoryReady, SumsAgree, Undisturbed;
      var stop, pre, preReached, preSteps, mid := BackUp();
      if stop {
        NothingRemoved(world.files);
        NoRetentionYet();
        NothingDecided(job.scripts, PostBackup, failed);
        NoneAre(StepPostBackupScript);
        main := Segments(preSteps, mid, [], []);
        loops := Loops(pre, preReached, failed, Start, 0);
        main.Join(old(steps.kinds), false, false, false);
        BookedFacts();
        StagesDone(loops, main, old(world.files), world.files, old(history.rows));
      } else {
        main, loops := LateStages(pre, preSteps, mid, old(world.files), old(steps.kinds));
      }
    }

    /** The stages after the archive was made, or could not be. */
    method LateStages(ghost pre: Decisions, ghost preSteps: seq<StepType>, ghost mid: seq<StepType>,
                      ghost files: map<string, string>, ghost kinds: seq<StepType>)
      returns (ghost main: Segments, ghost loops: Loops)
      requires Consistent() && steps.Valid() && Booked() && !cancelled && connected
      requires Follows(job.scripts, |job.scripts|, PreBackup, false, pre) && world.scripts.attempts == RunIds(pre)
      requires (FailedAfter(false, pre) ==> failed) && archiveVerified == !failed
      requires steps.kinds == kinds + preSteps + mid && AllAre(preSteps, StepPreBackupScript) && ArchiveForm(mid)
      requires archiveVerified ==> OnDisk() && StepVerifyChecksum in mid
      requires remoteArchivePath != "" ==> StepArchive in mid
      requires SameExcept(files, world.files, PartName(), if archiveVerified then archiveFileName else PartName())
      requires Finalized() && world.retention == NoRetention && HistoryReady() && archiveFileName != ""
      modifies this`failed, this`hasWarn, this`error, this`cancelled, this`recoveryOut, steps, cleanup, history
      modifies world`ctxDone, world`calls, world`scripts, world`remoteOps, world`retention, world`files, world`answers
      ensures steps.Valid() && Booked() && StagesOver(loops, main, files, old(history.rows))
      ensures steps.kinds == kinds + main.All() && world.scripts.attempts == loops.RanIds()
      ensures world.scripts.Sound() && recoveryOut == RecoveryOf(job.scripts, world.scripts.outcomes)
      ensures !cancelled ==> loops.preReached == loops.postReached == |job.scripts| && ClosingStagesBegun()
      ensures loops.preReached == |job.scripts|
      ensures world.answers.good ==> old(world.answers.good)
      ensures world.answers.good && Undisturbed() && !old(world.ctxDone) && world.transport != Closed ==>
                !world.ctxDone && world.calls == old(world.calls)
    {
      hide Follows, RecoveryOf, AccountedFor, RegisteredFor, Headline, FirstFail, ShownWarn, ArchiveForm, TailForm;
      hide ClosingStagesBegun, Shows, AllCoded, Agrees, Consistent, Booked, SameExcept, Without, AllAre, StagesOver;
      hide RetentionOver, Finalized, HistoryReady, Undisturbed;
      ghost var made, failedBefore := world.files, failed;
      PreLeavesPost(pre, |job.scripts|, false);
      var reached, post, postSteps, h, c, r := WindDown();
      loops := Loops(pre, |job.scripts|, failedBefore, post, reached);
      main := Segments(preSteps, mid, postSteps, TailOf(h, c, r));
      main.Join(kinds, h, c, r);
      TailJoins(kinds, h, c, r);
      BookedFacts();
      StagesDone(loops, main, files, made, old(history.rows));
    }

    lemma StagesDone(loops: Loops, main: Segments, files: map<string, string>, made: map<string, string>,
                     rows: seq<Retention.Record>)
      requires Consistent() && main.WellFormed() && loops.FollowScripts(job.scripts)
      requires failed == FailedAfter(loops.failedBefore, loops.post)
      requires FailedAfter(false, loops.pre) ==> loops.failedBefore
      requires (archiveVerified ==> !loops.failedBefore) && (!cancelled ==> archiveVerified == !loops.failedBefore)
      requires loops.failedBefore ==> failed
      requires StepRetention in main.tail ==> archiveVerified
      requires SameExcept(files, made, PartName(), if archiveVerified then archiveFileName else PartName())
      requires archiveVerified ==> archiveFileName in made && made[archiveFileName] == checksum
      requires Without(made, world.files, world.retention.removed)
      requires Finalized() && RetentionOver(rows) && world.retention.Sound()
      requires world.retention.saveTried ==> archiveVerified
      ensures StagesOver(loops, main, files, rows)
    {
      hide Consistent, SameExcept, Without, Directory, Finalized, RetentionOver;
      hide Segments.WellFormed, Loops.FollowScripts;
      DirectoryAfter(files, made, world.files, PartName(), Made(), world.retention.removed);
    }

    /** Post scripts, the last cancellation check, and the closing stages. */
    method WindDown()
      returns (ghost reached: nat, ghost post: Decisions, ghost postSteps: seq<StepType>, ghost h: bool, ghost c: bool,
               ghost r: bool)
      requires Consistent() && steps.Valid() && Booked() && connected && world.retention == NoRetention
      requires HistoryReady() && Finalized() && archiveFileName != ""
      requires forall s :: s in job.scripts && s.kind == PostBackup ==> s.id !in world.scripts.attempts
      modifies this`failed, this`hasWarn, this`error, this`cancelled, this`recoveryOut, steps, cleanup, history
      modifies world`ctxDone, world`calls, world`scripts, world`remoteOps, world`retention, world`files, world`answers
      ensures Consistent() && steps.Valid() && Booked()
      ensures steps.kinds == old(steps.kinds) + postSteps + TailOf(h, c, r) && AllAre(postSteps, StepPostBackupScript)
      ensures (h ==> !failed) && (c ==> remoteArchivePath != "") && (r ==> archiveVerified)
      ensures reached <= |job.scripts| && Follows(job.scripts, reached, PostBackup, old(failed), post)
      ensures world.scripts.attempts == old(world.scripts.attempts) + RunIds(post)
      ensures !cancelled ==> reached == |job.scripts| && ClosingStagesBegun()
      ensures failed == FailedAfter(old(failed), post) && (old(failed) ==> failed)
      ensures old(world.remoteOps) <= world.remoteOps
      ensures world.retention.Sound() && (world.retention.saveTried ==> archiveVerified) && Finalized()
      ensures RetentionOver(old(history.rows)) && Without(old(world.files), world.files, world.retention.removed)
      ensures world.answers.good ==> old(world.answers.good)
      ensures world.answers.good && Undisturbed() && !old(world.ctxDone) && world.transport != Closed ==>
                !world.ctxDone && world.calls == old(world.calls)
    {
      hide *;
      ghost var kinds := steps.kinds;
      h, c, r := false, false, false;
      BeforeClosing();
      ScriptStepKinds();
      reached, post := RunScripts(PostBackup);
      UntroubledMeans(old(world.answers.good), old(world.ctxDone), old(world.calls));
      postSteps := ExtendsBy(kinds, steps.kinds, StepPostBackupScript);
      FailureStays(post);
      var stop := CheckCancelled();
      if !stop {
        h, c, r := CloseStages();
        ClosingBegun();
      }
      TailJoins(old(steps.kinds) + postSteps, h, c, r);
    }

    /** What a run that was not cancelled owes at its end. */
    ghost predicate ClosingStagesBegun()
      reads this`failed, this`remoteArchivePath, this`archiveVerified, steps, world`retention
    {
      && (!failed && job.healthCheck.Some? ==> StepHealthCheck in steps.begun)
      && (remoteArchivePath != "" ==> StepRemoteCleanup in steps.begun)
      && (!failed && archiveVerified && hasRetention ==> StepRetention in steps.begun && world.retention.saveTried)
    }

    lemma BooksOpened()
      requires forall i :: 0 <= i < |cleanup.entries| ==> !cleanup.entries[i].done
      requires world.scripts == NoScripts && recoveryOut == RecoveryNotApplicable
      ensures RegisteredFor(job.scripts) ==> Booked()
      ensures recoveryOut == RecoveryOf(job.scripts, world.scripts.outcomes)
    {
    }

    /** What the workflow starts from. */
    lemma FreshFacts()
      requires Fresh()
      ensures Consistent() && Finalized() && HistoryReady() && RetentionOver(history.rows)
      ensures !archiveVerified && remoteArchivePath == "" && !cancelled
      ensures world.retention == NoRetention && world.renames == [] && world.scripts == NoScripts
      ensures world.scripts.attempts == multiset{} && world.scripts.Sound()
      ensures status == RunRunning && !status.IsTerminal()
      ensures |history.rows| == row + 1 && history.rows[row] == Retention.Record(startedAt, "")
      ensures world.drained == multiset{} && world.drainsFollowClose && !world.ctxDone
      ensures Directory(world.files, world.files, PartName(), Made(), {})
    {
      NoRetentionYet();
    }

    /** Preflight on a fresh context: once connected, the books of the guarantee are open. */
    method Open() returns (ok: bool, ghost started: bool)
      requires Fresh()
      modifies this`failed, this`hasWarn, this`error, this`connected, this`cleanupTokens
      modifies steps, cleanup, checks, world`calls, world`transport, world`answers
      ensures Consistent() && steps.Valid() && ok == !failed
      ensures steps.kinds == [StepPreflight] || (steps.kinds == [] && !connected)
      ensures world.scripts.Sound()
      ensures connected ==> started && world.transport == TransportState.Open && Booked()
      ensures !connected ==> !ok && world.transport == Unopened && cleanup.entries == []
      ensures recoveryOut == RecoveryOf(job.scripts, world.scripts.outcomes)
      ensures world.answers.good ==> old(world.answers.good)
      ensures world.answers.good && ChecksPass(old(checks.state)) ==> ok && world.calls == NoCalls
    {
      FreshFacts();
      hide RecoveryOf, AccountedFor, Headline, FirstFail, ShownWarn;
      ok, started := Preflight();
      BooksOpened();
    }

    /** Nothing outside stands in the way: the checks pass, the checksums agree, and nothing is there to warn about. */
    ghost predicate AllWell(state: S)
      reads world`remoteSum, world`localSum
    {
      ChecksPass(state) && SumsAgree() && Undisturbed()
    }

    lemma AllWellParts(state: S)
      ensures AllWell(state) ==> ChecksPass(state) && SumsAgree() && Undisturbed()
    {
    }

    /** Preflight, the stages, and the deferred close of the transport; everything but the drain. */
    method Workflow() returns (ghost passed: bool, ghost main: Segments, ghost loops: Loops)
      requires Fresh() && archiveFileName != ""
      modifies this, steps, cleanup, checks, world, history
      ensures steps.Valid() && StagesOver(loops, main, old(world.files), old(history.rows))
      ensures steps.kinds == [StepPreflight] + main.All() || (steps.kinds == [] && !connected)
      ensures if connected then Booked() else cleanup.entries == [] && world.scripts.attempts == multiset{} && failed
      ensures world.scripts.Sound() && recoveryOut == RecoveryOf(job.scripts, world.scripts.outcomes)
      ensures world.scripts.attempts == loops.RanIds()
      ensures passed && !cancelled ==> loops.preReached == loops.postReached == |job.scripts| && ClosingStagesBegun()
      ensures world.transport == (if passed then Closed else if connected then TransportState.Open else Unopened)
      ensures !passed ==> failed && !cancelled
      ensures world.drained == multiset{} && world.drainsFollowClose && status == old(status)
      ensures world.answers.good ==> old(world.answers.good)
      ensures world.answers.good && AllWell(old(checks.state)) ==> !world.ctxDone && world.calls == NoCalls
    {
      hide *;
      FreshFacts();
      var ok, started := Open();
      passed := ok;
      main, loops := NoSegments(), Loops(Start, 0, true, Start, 0);
      assert [StepPreflight] + [] == [StepPreflight];
      if ok {
        main, loops := RunStages();
        world.transport := Closed;
        AllWellParts(old(checks.state));
      } else {
        NoStages(old(world.files), old(history.rows));
        AllWellParts(old(checks.state));
      }
    }

    /** After a failed preflight there were no stages. */
    lemma NoStages(files: map<string, string>, rows: seq<Retention.Record>)
      requires Consistent() && failed && !cancelled && !archiveVerified && world.retention == NoRetention
      requires Finalized() && Directory(files, world.files, PartName(), Made(), {}) && RetentionOver(rows)
      ensures StagesOver(Loops(Start, 0, true, Start, 0), NoSegments(), files, rows)
      ensures Loops(Start, 0, true, Start, 0).RanIds() == multiset{}
    {
      NothingDecided(job.scripts, PreBackup, false);
      NothingDecided(job.scripts, PostBackup, true);
    }

    /** Every guaranteed script was handed to runScriptRecorded exactly once in the whole run. */
    ghost predicate EachGuaranteedOnce()
      reads world`scripts
    {
      forall s :: s in job.scripts && s.Guaranteed() ==> world.scripts.attempts[s.id] == 1
    }

    /** Every other script ran at most once, and not in the drain. */
    ghost predicate OthersNotDrained()
      reads world`scripts, world`drained
    {
      forall s :: s in job.scripts && !s.Guaranteed() ==> world.scripts.attempts[s.id] <= 1 && s.id !in world.drained
    }

    lemma AllDoneMeansOnce()
      requires Booked() && forall i :: 0 <= i < |cleanup.entries| ==> cleanup.entries[i].done
      ensures EachGuaranteedOnce()
    {
      GuaranteedOfMembers(job.scripts);
      forall s | s in job.scripts && s.Guaranteed()
        ensures world.scripts.attempts[s.id] == 1
      {
        var k :| 0 <= k < |GuaranteedOf(job.scripts)| && GuaranteedOf(job.scripts)[k] == s;
        assert cleanup.entries[k].script == s;
      }
    }

    /** Scripts without the guarantee run at most once, and never in the drain. */
    lemma OthersAtMostOnce(loops: Loops, drained: multiset<string>, s: Script)
      requires LoopsFollow(loops) && s in job.scripts && !s.Guaranteed()
      requires forall id :: id in drained ==> GuaranteedId(id)
      ensures (loops.RanIds() + drained)[s.id] <= 1 && s.id !in drained
    {
      LoopRunsOnce(job.scripts, loops.preReached, PreBackup, false, loops.pre);
      LoopRunsOnce(job.scripts, loops.postReached, PostBackup, loops.failedBefore, loops.post);
    }

    lemma DrainedAreExact(loops: Loops)
      requires LoopsFollow(loops) && EachGuaranteedOnce() && world.scripts.attempts == loops.RanIds() + world.drained
      ensures DrainedExactly(loops)
    {
      forall i | 0 <= i < |job.scripts| && job.scripts[i].Guaranteed()
        ensures job.scripts[i].id in world.drained <==> !loops.TookItsTurn(job.scripts, i)
      {
        assert job.scripts[i] in job.scripts;
        loops.DrainedIff(job.scripts, world.drained, i);
      }
    }

    /** A critical ON_FAILURE script makes every run that did not fail drain something. */
    lemma SuccessDrains(loops: Loops, i: nat)
      requires LoopsFollow(loops) && EachGuaranteedOnce() && world.scripts.attempts == loops.RanIds() + world.drained
      requires FailureTraced(loops) && !failed
      requires i < |job.scripts| && job.scripts[i].criticalCleanup && job.scripts[i].condition == OnFailure
      ensures world.drained != multiset{}
    {
      if loops.failedBefore {
        FailureStays(loops.post);
      }
      assert job.scripts[i] in job.scripts;
      loops.SuccessDrainsOnFailure(job.scripts, world.drained, i);
    }

    /** Scripts drained after the transport was closed make the recovery outcome FAILED. */
    lemma DrainedMeansFailed()
      requires DrainedFailed() && world.drained != multiset{}
      requires forall id :: id in world.drained ==> GuaranteedId(id)
      ensures RecoveryOf(job.scripts, world.scripts.outcomes) == RecoveryFailed
    {
      var id :| id in world.drained;
      var s :| s in job.scripts && s.Guaranteed() && s.id == id;
      assert (s.id, false) in world.scripts.outcomes;
    }

    /**
     * The whole workflow. Deferred calls run last in, first out: after a passed preflight the
     * transport is closed first and the registry is drained afterwards.
     */
    method Execute() returns (ghost passed: bool, ghost loops: Loops)
      requires Fresh() && archiveFileName != ""
      modifies this, steps, cleanup, checks, world, history
      ensures Consistent() && steps.Valid() && StepGrammar(steps.kinds)
      ensures world.scripts.Sound()
      ensures recoveryOut == RecoveryOf(job.scripts, world.scripts.outcomes)
      ensures if connected then EachGuaranteedOnce() else world.scripts.attempts == multiset{} && failed
      ensures OthersNotDrained()
      ensures LoopsFollow(loops) && world.scripts.attempts == loops.RanIds() + world.drained && FailureTraced(loops)
      ensures connected ==> DrainedExactly(loops)
      ensures passed && !cancelled ==> loops.preReached == loops.postReached == |job.scripts| && ClosingStagesBegun()
      ensures passed ==> world.transport == Closed && world.drainsFollowClose && DrainedFailed()
      ensures passed && world.drained != multiset{} ==> recoveryOut == RecoveryFailed
      ensures !passed ==> failed && !cancelled
      ensures !passed ==> world.transport == (if connected then TransportState.Open else Unopened)
      ensures !failed && !cancelled ==> archiveVerified
      ensures Finalized() && RetentionOver(old(history.rows))
      ensures StepRetention in steps.kinds ==> archiveVerified
      ensures Directory(old(world.files), world.files, PartName(), Made(), world.retention.removed)
      ensures world.retention.Sound() && (world.retention.saveTried ==> archiveVerified) && status == old(status)
      ensures world.answers.good && AllWell(old(checks.state)) ==> !world.ctxDone && world.calls == NoCalls
    {
      hide *;
      ghost var main;
      passed, main, loops := Workflow();
      StagesFacts(loops, main, old(world.files), old(history.rows));
      Unwind(passed, main, loops);
    }

    lemma StagesFacts(loops: Loops, main: Segments, files: map<string, string>, rows: seq<Retention.Record>)
      requires StagesOver(loops, main, files, rows)
      ensures Consistent() && main.WellFormed() && LoopsFollow(loops) && FailureTraced(loops)
      ensures (!failed && !cancelled ==> archiveVerified) && (StepRetention in main.tail ==> archiveVerified)
      ensures Finalized() && Directory(files, world.files, PartName(), Made(), world.retention.removed)
      ensures RetentionOver(rows) && world.retention.Sound() && (world.retention.saveTried ==> archiveVerified)
    {
    }

    /** The deferred drain at the end of the workflow, whatever state it ended in. */
    method Unwind(ghost passed: bool, ghost main: Segments, ghost loops: Loops)
      requires steps.Valid() && main.WellFormed() && LoopsFollow(loops)
      requires steps.kinds == [StepPreflight] + main.All() || (steps.kinds == [] && !connected)
      requires if connected then Booked() else cleanup.entries == [] && world.scripts.attempts == multiset{}
      requires world.scripts.Sound() && recoveryOut == RecoveryOf(job.scripts, world.scripts.outcomes)
      requires world.drained == multiset{} && world.scripts.attempts == loops.RanIds()
      requires passed ==> world.transport == Closed && world.drainsFollowClose
      modifies this`recoveryOut, steps, cleanup
      modifies world`scripts, world`drained, world`drainsFollowClose, world`answers
      ensures steps.Valid() && StepGrammar(steps.kinds) && old(steps.begun) <= steps.begun
      ensures StepRetention in steps.kinds ==> StepRetention in main.tail
      ensures world.scripts.Sound() && recoveryOut == RecoveryOf(job.scripts, world.scripts.outcomes)
      ensures if connected then EachGuaranteedOnce() else world.scripts.attempts == multiset{}
      ensures OthersNotDrained()
      ensures world.scripts.attempts == loops.RanIds() + world.drained && (connected ==> DrainedExactly(loops))
      ensures passed ==> world.drainsFollowClose && DrainedFailed()
      ensures passed && world.drained != multiset{} ==> recoveryOut == RecoveryFailed
      ensures world.answers.good ==> old(world.answers.good)
      ensures old(ClosingStagesBegun()) ==> ClosingStagesBegun()
    {
      hide Follows, RecoveryOf, AccountedFor, RegisteredFor, ArchiveForm, TailForm, AllAre, StepGrammar, RunIds;
      hide ScriptSteps;
      hide Booked, LoopsFollow, EachGuaranteedOnce, GuaranteedId, DrainedFailed, DrainedExactly;
      ghost var kinds := steps.kinds;
      DrainCleanup();
      assert StepGrammar(steps.kinds) by {
        DrainedGrammar(kinds, steps.kinds, main);
      }
      assert StepRetention in steps.kinds ==> StepRetention in main.tail by {
        RetentionIsInTail(kinds, steps.kinds, main);
      }
      assert passed && world.drained != multiset{} ==> recoveryOut == RecoveryFailed by {
        if passed && world.drained != multiset{} {
          DrainedMeansFailed();
        }
      }
      assert connected ==> EachGuaranteedOnce() by {
        if connected {
          AllDoneMeansOnce();
        }
      }
      assert connected ==> DrainedExactly(loops) by {
        if connected {
          DrainedAreExact(loops);
        }
      }
      assert OthersNotDrained() by {
        forall s | s in job.scripts && !s.Guaranteed()
          ensures world.scripts.attempts[s.id] <= 1 && s.id !in world.drained
        {
          OthersAtMostOnce(loops, world.drained, s);
        }
      }
    }

    /** What this run leaves in its job's history: module RetentionHistory speaks about sequences of these. */
    ghost function InHistory(stored: bool): Retention.Run
      reads this`archiveName, this`archiveVerified, world`retention
    {
      Retention.Run(Retention.Record(startedAt, archiveName), archiveVerified,
                    world.retention.saveTried, world.retention.swept, world.retention.saved, stored)
    }

    /** Some script is critical and meant for failed runs only. */
    ghost predicate CriticalOnFailure() {
      exists i :: 0 <= i < |job.scripts| && job.scripts[i].criticalCleanup && job.scripts[i].condition == OnFailure
    }

    /**
     * finishRun: execute, fix the run's terminal status and recovery outcome, and write the row; stored
     * tells whether that worked.
     */
    method FinishRun(now: int) returns (stored: bool, ghost passed: bool, ghost loops: Loops)
      requires Fresh() && archiveFileName != ""
      modifies this, steps, cleanup, checks, world, history
      ensures status == FinalStatus() && status.IsTerminal() && finishedAt == Some(now)
      ensures recoveryOutcome == RecoveryOf(job.scripts, world.scripts.outcomes)
      ensures status == RunSuccess || status == RunWarning ==> archiveVerified
      ensures status == RunCancelled <==> cancelled
      ensures cancelled ==> world.ctxDone
      ensures !cancelled ==> (status == RunFailed <==> FirstFail(world.calls).Some?)
      ensures !cancelled && FirstFail(world.calls).None? ==>
                && (status == RunWarning <==> world.calls != NoCalls)
                && (status == RunSuccess <==> world.calls == NoCalls)
      ensures status == RunFailed ==> Shows(error, FirstFail(world.calls))
      ensures Shows(error, if FirstFail(world.calls).Some? then FirstFail(world.calls) else FirstWarn(world.calls))
      ensures Finalized() && Directory(old(world.files), world.files, PartName(), Made(), world.retention.removed)
      ensures archiveVerified ==> (OnDisk() <==> archiveFileName !in world.retention.removed)
      ensures steps.Valid() && StepGrammar(steps.kinds) && (StepRetention in steps.kinds ==> archiveVerified)
      ensures connected ==> EachGuaranteedOnce() && DrainedExactly(loops)
      ensures (status == RunSuccess || status == RunWarning) && CriticalOnFailure() ==>
              recoveryOutcome == RecoveryFailed
      ensures InHistory(stored).Possible()
      ensures Retention.RunOnce(old(history.rows)[..row], history.rows, InHistory(stored), policy, sweepAt, faults,
                                world.retention.removed)
      ensures archiveVerified && Retention.UniqueName(old(history.rows)[..row], archiveFileName) ==>
                (OnDisk() <==> !Retention.LostToSweep(old(history.rows)[..row], history.rows, InHistory(stored), policy,
                                                      sweepAt, faults, world.retention.removed))
      ensures world.answers.good && AllWell(old(checks.state)) ==> status == RunSuccess && stored
    {
      hide *;
      FreshFacts();
      passed, loops := ExecuteAndCheck();
      Conclude(now);
      stored := StoreRow(old(history.rows));
      if archiveVerified && Retention.UniqueName(old(history.rows)[..row], archiveFileName) {
        Retention.LostIffRemoved(old(history.rows)[..row], history.rows, InHistory(stored), policy, sweepAt, faults,
                                 world.retention.removed);
      }
    }

    /** The final write of the run row, and what the whole run then did to its job's history. */
    method StoreRow(ghost before: seq<Retention.Record>) returns (stored: bool)
      requires RetentionOver(before) && |before| == row + 1 && before[row] == Retention.Record(startedAt, "")
      requires Finalized() && archiveFileName != "" && world.retention.Sound()
      requires world.retention.saveTried ==> archiveVerified
      modifies history, world`answers
      ensures InHistory(stored).Possible()
      ensures archiveVerified ==> InHistory(stored).record.archiveName == archiveFileName
      ensures Retention.RunOnce(before[..row], history.rows, InHistory(stored), policy, sweepAt, faults,
                                world.retention.removed)
      ensures world.answers.good ==> old(world.answers.good)
      ensures world.answers.good == (old(world.answers.good) && world.answers.last.Good())
      ensures stored == world.answers.last.Ok() && (world.answers.good ==> stored)
    {
      hide Retention.StageOver, Retention.RunOnce;
      var reply := world.Ask();
      stored := reply.Ok();
      ghost var mid := history.rows;
      if stored {
        history.SaveName(row, archiveName);
      }
      Retention.StageIsRun(before, mid, history.rows, archiveFileName, InHistory(stored), policy, sweepAt, faults,
                           world.retention.removed, world.retention.warned);
    }

    lemma CriticalScript() returns (i: nat)
      requires CriticalOnFailure()
      ensures i < |job.scripts| && job.scripts[i].criticalCleanup && job.scripts[i].condition == OnFailure
    {
      i :| 0 <= i < |job.scripts| && job.scripts[i].criticalCleanup && job.scripts[i].condition == OnFailure;
    }

    /** The workflow, with what its end means for the archive on disk and for the recovery outcome. */
    method ExecuteAndCheck() returns (ghost passed: bool, ghost loops: Loops)
      requires Fresh() && archiveFileName != ""
      modifies this, steps, cleanup, checks, world, history
      ensures Consistent() && steps.Valid() && StepGrammar(steps.kinds) && status == old(status)
      ensures recoveryOut == RecoveryOf(job.scripts, world.scripts.outcomes)
      ensures !failed && !cancelled ==> archiveVerified
      ensures Finalized() && Directory(old(world.files), world.files, PartName(), Made(), world.retention.removed)
      ensures archiveVerified ==> (OnDisk() <==> archiveFileName !in world.retention.removed)
      ensures StepRetention in steps.kinds ==> archiveVerified
      ensures connected ==> EachGuaranteedOnce() && DrainedExactly(loops)
      ensures !failed && CriticalOnFailure() ==> recoveryOut == RecoveryFailed
      ensures world.retention.Sound() && (world.retention.saveTried ==> archiveVerified)
              && RetentionOver(old(history.rows))
      ensures world.answers.good && AllWell(old(checks.state)) ==> !world.ctxDone && world.calls == NoCalls
    {
      hide *;
      passed, loops := Execute();
      StillOnDiskIff(old(world.files));
      if !failed && CriticalOnFailure() {
        ghost var i := CriticalScript();
        SuccessDrains(loops, i);
      }
    }

    /** A verified archive is still on disk exactly when the run's own sweep did not remove it. */
    lemma StillOnDiskIff(before: map<string, string>)
      requires Directory(before, world.files, PartName(), Made(), world.retention.removed)
      ensures archiveVerified ==> (OnDisk() <==> archiveFileName !in world.retention.removed)
    {
      assert |PartName()| != |archiveFileName|;
    }

    /** The run's terminal status, its meaning in terms of the calls made, and its recovery outcome. */
    method Conclude(now: int)
      requires Consistent() && !status.IsTerminal()
      modifies this`status, this`finishedAt, this`recoveryOutcome
      ensures status == FinalStatus() && status.IsTerminal() && finishedAt == Some(now)
              && recoveryOutcome == recoveryOut
      ensures status == RunSuccess || status == RunWarning ==> !failed && !cancelled
      ensures status == RunCancelled <==> cancelled
      ensures cancelled ==> world.ctxDone
      ensures !cancelled ==> (status == RunFailed <==> FirstFail(world.calls).Some?)
      ensures !cancelled && FirstFail(world.calls).None? ==>
                && (status == RunWarning <==> world.calls != NoCalls)
                && (status == RunSuccess <==> world.calls == NoCalls)
      ensures world.calls == NoCalls && !world.ctxDone ==> status == RunSuccess
      ensures status == RunFailed ==> Shows(error, FirstFail(world.calls))
      ensures Shows(error, if FirstFail(world.calls).Some? then FirstFail(world.calls) else FirstWarn(world.calls))
    {
      Finish(now, FinalStatus());
      recoveryOutcome := recoveryOut;
      NoHeadline(world.calls);
      CodedShownIsFirst(world.calls);
    }

    /** Run.Finish: a terminal status and its finish time are never overwritten. */
    method Finish(now: int, newStatus: RunStatus)
      modifies this`status, this`finishedAt
      ensures status == if old(status).IsTerminal() then old(status) else newStatus
      ensures finishedAt == if old(status).IsTerminal() then old(finishedAt) else Some(now)
    {
      if status.IsTerminal() {
        return;
      }
      status := newStatus;
      finishedAt := Some(now);
    }
  }
}
