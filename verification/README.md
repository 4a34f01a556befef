# SSH Backup Manager: verified model

A Dafny model of the backup service's run engine, its scheduler, its run and lock tables and the
text formats they rest on, with proofs of what they promise. `dafny verify dfyconfig.toml` checks
everything.

The model takes the form of the code. Objects that the service updates in place are classes with
`modifies` clauses and loops; expressions are functions. What lies outside (SSH answers, store
errors, local files, cancellation, the clock) answers as it likes, call by call, so a contract
speaks about every failure and every cancellation point.

| file | models |
|---|---|
| `Domain.dfy` | statuses, step types, scripts and their run conditions |
| `RunTrace.dfy` | what is observed of one run, and the promises stated over it |
| `RunEngine.dfy` | one run: stages, cleanup registry, step recorder, drain, final status |
| `RunLifecycle.dfy` | lock and run tables, beginning a run, startup recovery |
| `ServiceProcess.dfy` | every interleaving of runs, crashes and restarts of one process |
| `Occurrences.dfy` | what a next-run function promises, and counting occurrences |
| `Dispatcher.dfy` | dispatch ticks, baselines, concurrency slots |
| `Calendar.dfy`, `MonthlySchedule.dfy` | the Gregorian calendar and the monthly schedule |
| `MissedRuns.dfy` | missed-run detection at startup |
| `Timestamps.dfy`, `ParsedTimes.dfy` | stored timestamps: their byte order, and parsing them back |
| `Retention.dfy` | the retention policy, its listing and one sweep |
| `RetentionHistory.dfy` | retention over whole histories of verified and failed runs |
| `Shell.dfy`, `ArchiveCommand.dfy` | shell quoting and the archive command, against a POSIX lexer |
| `Strings.dfy`, `ListColumns.dfy` | joining and splitting; lists stored in one column |
| `Framing.dfy` | the client's line framing |
| `Preflight.dfy` | the checks, fail-fast and report-everything |

## Main results

- **Recovery.** `RunContext.Execute`: once connected, every ALWAYS or critical script is attempted
  exactly once in the whole run; `RunTrace.Loops.DrainedIff` says exactly which ones are drained.
- **Status.** `RunContext.FinishRun`: the status follows from the reported failures, warnings and
  cancellation, both ways; a run in which every answer is good and the checksums agree ends SUCCESS.
  SUCCESS or WARNING means that the file had the checksum the remote host reported when it got its
  final name, which nothing else ever gets; it is still there at the end if and only if the run's own
  sweep did not remove it. The headline error is the first failure, else the first warning.
- **Mutual exclusion.** `ServiceProcess.EveryExecution`, over all interleavings with crashes.
- **Scheduling.** `Dispatcher.NeverOverFires`, `FirstSightDue`, `DetectSafeIff`, `DueStaysDue`,
  `SlotsConserved`; `MonthlySchedule.NextMonthlyIsLeast`; `MissedRuns.SkipTakesOnePassEach` and
  `CatchUpConsumesAll`.
- **Retention.** `SurvivorsArePrefix`, `KeepsNewestIff`, `SecondSweepSelectsNothing`;
  `RetentionHistory.EveryHistory`, `AllVerifiedIff`, `OneTooManyIff`.
- **Text.** `Shell.QuoteRoundTrip`, `ArchiveCommand.ArchiveCommand`, `Timestamps.KeyOrder`,
  `ParsedTimes.StoredTimeRoundTrip`, `ListColumns.StringListRoundTrip`, `Framing.LineReader.ReceiveAll`.
- **Refinement.** `Preflight.PreflightRefinesValidate`; `Preflight.PreflightPassesIff` says when both pass.

## Where the code and its comments differ

The model follows the code.

- After a passed preflight the transport is closed before the cleanup registry is drained, because
  deferred calls run last in, first out (`server/internal/backup/runcontext.go:104-111`). No session
  opens on a closed transport (`server/internal/remote/client.go:45`), so a drained script is
  attempted and always fails, and the recovery outcome is FAILED (`RunContext.Execute`). Drained are
  exactly the guaranteed scripts whose turn never came or whose condition did not hold at their turn
  (`RunTrace.Loops.DrainedIff`): never an ALWAYS script of a run that was not cancelled, but a critical
  ON_FAILURE script in every run that did not fail (`RunContext.FinishRun`), and a critical ON_SUCCESS
  script whenever something failed before it. After a preflight that fails once connected, the
  transport is never closed (`RunContext.Workflow`).
- A successful run can end without its archive: its own retention sweep may delete it, after a run
  longer than max_age_days (`Retention.LongRunLosesItsArchive`) or behind rows that sort ahead of it,
  and the final write names it again. `Retention.OwnArchiveRemovedIff` and
  `Retention.RowNamesMissingFileIff` give the exact conditions.
- A guaranteed script whose step cannot be stored in the normal loop is marked done although its
  command was never issued (`RunContext.RunScriptRecorded`, `ScriptLog.Sound`).
- The write of the run row before retention may fail, and the policy is applied anyway
  (`server/internal/backup/retention_stage.go:19-21`). `RunContext.ApplyRetention` and
  `RetentionHistory.OneTooManyIff` give the exact consequence: one archive too many after that run.
- The final update of the run row can fail; the row then still reads RUNNING although the run was
  reported finished (`ServiceProcess.UnsavedRunIsInterrupted`).
- Stored timestamps are said to keep order within a second (`server/internal/store/convert.go:11-13`)
  and listings to be newest first (`server/internal/store/runs.go:121-123`). Trailing zeros of the
  fraction are trimmed, so neither holds. `Timestamps.KeyOrder` and `Retention.ListingDescendsIff`
  give the exact conditions; `Retention.KeepsNewestIff` says when keep_last keeps the newest archive,
  and `Retention.SameSecondListedBackwards` is an input where it deletes it.
  `MissedRuns.KeyOrderIsHarmless` shows that missed-run detection is not affected.
- The archive name is set before any archive exists, so a failed run holds a retention slot
  (`RetentionHistory.FailedRunHoldsSlot`); `RetentionHistory.AllVerifiedIff` says exactly when the kept
  records are all verified archives. Retention is stated over history records, not files.
- A cron expression that no date meets is answered with the zero time, and its job is due at every
  tick (`Dispatcher.ZeroTimeIsAlwaysDue`, `Dispatcher.PacedIffForward`) and at every restart
  (`MissedRuns.ZeroTimeNeverConsumed`).
- Detection runs beside the dispatcher and writes the time it began with, which is called safe
  (`server/cmd/vpsbackupservice/wire.go:170-174`). It is if and only if no occurrence lies between what
  it writes and the job's last start (`Dispatcher.DetectSafeIff`).
- Missed-run detection moves the live baseline even when it could not record what it did
  (`MissedRuns.UnrecordedIsLostToDispatch`).
- SKIP records only the earliest missed occurrence, so k missed occurrences take k passes
  (`MissedRuns.SkipTakesOnePassEach`).
- A database constraint error of any kind while locking, a foreign key included, is reported as
  "already running" (`RunLifecycle.Store.Acquire`).

## Model

| member | source | states |
|---|---|---|
| `RunEngine.AccountAttempt` | server/internal/backup/cleanup.go:40-44 | Marking an entry done together with one attempt of its script keeps the account that an entry is done exactly when its script was attempted, and then once. |
| `RunEngine.CleanupRegistry.Register` | server/internal/backup/cleanup.go:31-37 | Appends one entry, not done; its token is its place. |
| `RunEngine.CleanupRegistry.MarkDone` | server/internal/backup/cleanup.go:40-44 | Sets the done flag of that entry and of no other. |
| `RunEngine.CleanupRegistry.Pending` | server/internal/backup/cleanup.go:54-71 | The drain starts from every entry not done, each once, in registration order. |
| `RunEngine.StepRecorder.Start` | server/internal/backup/steprecorder.go:27-37 | Answers with a step exactly when the store's answer was good; a stored step takes the next position, a failed write stores nothing, so positions stay 0..n-1 without gaps. |
| `RunEngine.StepRecorder.Finish` | server/internal/backup/steprecorder.go:40-48 | Sets that row's status exactly when the write worked, and touches no other row. |
| `RunEngine.StepRecorder.Skip` | server/internal/backup/steprecorder.go:55-70 | A skipped step takes the next position exactly when the write worked, and is otherwise not stored at all. |
| `RunEngine.RunContext.Fail` | server/internal/backup/runcontext.go:43-50 | The run is failed and the headline error is that of the first fail call, whatever was warned before. |
| `RunEngine.RunContext.Warn` | server/internal/backup/runcontext.go:55-61 | A warning never replaces a failure, nor an earlier warning that carries a code; without a code it gives way to the next. |
| `RunTrace.CodedShownIsFirst` | server/internal/backup/runcontext.go:55-61 | When every warning carries a code, the one on show is the first. |
| `RunEngine.RunContext.RecordRecovery` | server/internal/backup/runcontext.go:66-75 | One failed result makes the recovery outcome FAILED for good. |
| `RunEngine.RunContext.CheckCancelled` | server/internal/backup/runcontext.go:93-99 | Reports the context, and cancellation once seen stays. |
| `RunEngine.RunContext.RegisterCleanupScripts` | server/internal/backup/scripts.go:23-36 | Registers exactly the ALWAYS and critical_cleanup scripts, in order, none done. |
| `RunEngine.RunContext.FindCleanupEntry` | server/internal/backup/scripts.go:52-59 | Finds an entry if and only if the script is guaranteed, and then the script's own. |
| `RunEngine.RunContext.ExecuteScript` | server/internal/backup/scripts.go:123-143 | One command, or two with retry, and no fewer when none succeeds; stops at the first success and reports success exactly then, never on a closed transport. |
| `RunEngine.RunContext.RunScriptRecorded` | server/internal/backup/scripts.go:100-119 | One attempt of the script; its command is issued exactly when its step was stored; the step row closes with the script's result. |
| `RunEngine.RunContext.RunScript` | server/internal/backup/scripts.go:64-94 | One turn that runs a script: failure state, error code by script type, registry and recovery outcome all account for it. |
| `RunEngine.RunContext.SettleEntry` | server/internal/backup/scripts.go:64-94 | After a script ran in the normal loop its entry is done and the recovery outcome again equals that of all attempts. |
| `RunEngine.RunContext.Turn` | server/internal/backup/scripts.go:64-94 | Stops only when cancelled; otherwise runs the script exactly when its condition holds for the failure state at that moment, else records it as skipped. |
| `RunEngine.RunContext.RunScripts` | server/internal/backup/scripts.go:64-94 | The whole loop decides every script of its type in order by its run condition, and stops early only when the run was cancelled. |
| `RunTrace.LoopRunsOnce` | server/internal/backup/scripts.go:64-94 | With unique ids a loop's decisions run a script at most once, and only scripts of its type. |
| `RunTrace.OneMoreDecision` | server/internal/backup/scripts.go:64-94 | A decision on one more script that follows its condition extends the decisions of a loop, and says how the failure state and the attempts change. |
| `RunTrace.FailureStays` | server/internal/backup/runcontext.go:43-50 | Whatever the loop decides, a failed run stays failed. |
| `RunTrace.GuaranteedOfMembers` | server/internal/backup/scripts.go:23-36 | The registered scripts are exactly the ALWAYS or critical ones, and keep unique ids. |
| `RunEngine.RunContext.Preflight` | server/internal/backup/preflight.go:12-25 | The run goes on exactly when no check failed; the first failed check is the error reported; after a connection every guaranteed script is registered, before it none is. |
| `RunEngine.RunContext.RunPreflight` | server/internal/backup/preflight.go:34-98 | The checks of module Preflight decide: the first failure is reported with its code and message, otherwise one warning for each size not measured; connecting opens the transport and registers the guaranteed scripts. |
| `RunEngine.RunContext.WarnAboutSizes` | server/internal/backup/preflight.go:66-95 | One warning for each size that could not be measured, in order. |
| `RunEngine.RunContext.Archive` | server/internal/backup/archive.go:15-51 | Name and remote path are set before tar runs; a failed tar is followed by removal of its debris; its failure carries the timeout code if and only if the command's deadline passed, and else the general archive code. |
| `RunEngine.RunContext.DownloadAndVerify` | server/internal/backup/download.go:17-28 | Steps nest in order; the stage verifies the archive exactly when it did not fail; only the part file, or on success the final file, changes on disk. |
| `RunEngine.RunContext.RemoteChecksum` | server/internal/backup/download.go:30-52 | A checksum is returned only from a successful, non-empty answer of the remote command, and always from one when every answer is good. |
| `RunEngine.RunContext.Fetch` | server/internal/backup/download.go:17-28 | Remote checksum and then download: success means that both steps were recorded and gives both sums, the local one that of the part file. |
| `RunEngine.RunContext.DownloadArchive` | server/internal/backup/download.go:54-83 | On success the part file holds content with the returned checksum; a failure carries the code of the transport's fault, or ErrDownloadFailed when it has none; nothing but the part file changes. |
| `RunEngine.RunContext.LocalChecksumStep` | server/internal/backup/download.go:104-115 | Records one step, closed as successful, and nothing else. |
| `RunEngine.RunContext.VerifyChecksums` | server/internal/backup/download.go:117-156 | Verified only if both checksums are equal and the part file was renamed, and always then when every answer is good; the final name is created in no other way; a step not stored, a mismatch and a failed rename each have their own error code. |
| `RunEngine.RunContext.FinalizePart` | server/internal/backup/download.go:135-156 | Renames the part file, with its content, exactly when the file system let it; a refused rename fails the run with ErrDownloadFailed. |
| `RunEngine.RunContext.DeletePart` | server/internal/backup/download.go:160-167 | Touches no file but the part file. |
| `RunEngine.RunContext.HealthCheckStage` | server/internal/backup/healthcheck.go:13-54 | At most the configured attempts, ending at the first success; failure is one warning and never fails the run. |
| `RunEngine.RunContext.TryHealthCheck` | server/internal/backup/healthcheck.go:13-54 | Only the last command can have succeeded, and success is reported exactly when it did; with an attempt allowed and every answer good it succeeds, and fewer commands than allowed without success mean that the wait was broken off. |
| `RunEngine.RunContext.RemoteCleanup` | server/internal/backup/remotecleanup.go:14-35 | Attempted whenever a remote path was set; one removal, one warning if it did not succeed. |
| `RunEngine.RunContext.ApplyRetention` | server/internal/backup/retention_stage.go:18-42 | The write of the run row is tried before the policy is applied, and its failure stops nothing; the sweep sees this run's archive if and only if the write worked, and exactly the files it removed leave the directory; the step is clean if and only if it was stored, the listing worked and no fault hit a selected row, and otherwise one warning is reported. |
| `RunEngine.RunContext.SaveRow` | server/internal/backup/retention_stage.go:19-21 | The early write names this run's row or changes nothing. |
| `RunEngine.RunContext.SweepHistory` | server/internal/retention/retention.go:59-94 | The policy applied to the job's rows and to the files of its directory. |
| `RunEngine.RunContext.CloseStages` | server/internal/backup/runcontext.go:104-149 | Health check, remote cleanup and retention in that order, each under its own condition; the directory loses exactly what retention removed. |
| `RunEngine.RunContext.Drain` | server/internal/backup/cleanup.go:54-71 | Every entry is done afterwards, each drained script is a guaranteed one, the attempts grow by exactly the drained ones whatever any of them returned, and on a closed transport none of them succeeds. |
| `RunEngine.RunContext.DrainOne` | server/internal/backup/cleanup.go:54-71 | One drained script is attempted once, its entry marked, and its result folded into the recovery outcome. |
| `RunEngine.RunContext.DrainCleanup` | server/internal/backup/runcontext.go:154-166 | The recovery outcome afterwards is that of all attempts of loop and drain; status, failure and error are outside what it may change. |
| `RunEngine.RunContext.BackUp` | server/internal/backup/runcontext.go:104-149 | Pre scripts to verification: step segments, decisions, failure state and files for every failure and cancellation point. |
| `RunEngine.RunContext.MakeArchive` | server/internal/backup/runcontext.go:104-149 | Archive, download and verification steps form the nested optional sequence; a run that goes on is verified exactly when not failed. |
| `RunEngine.RunContext.RunStages` | server/internal/backup/runcontext.go:104-149 | Everything between preflight and drain: well-formed steps, both loops complete unless cancelled, the failure state traced through both loops and the archive stages, closing stages begun, directory and rows accounted for. |
| `RunEngine.RunContext.WindDown` | server/internal/backup/runcontext.go:104-149 | Post scripts then closing stages; the run is failed afterwards exactly by the state before and the post scripts. |
| `RunEngine.RunContext.LateStages` | server/internal/backup/runcontext.go:128-149 | Everything after the archive is verified or the run has failed: the step segments, both loops and the closing stages complete the stages; with good answers nothing is reported. |
| `RunEngine.RunContext.Open` | server/internal/backup/runcontext.go:104-149 | Preflight on a fresh context opens the books of the recovery guarantee exactly when it connected. |
| `RunEngine.RunContext.Workflow` | server/internal/backup/runcontext.go:104-149 | The transport is closed when preflight passed, still open when it failed after connecting, and never opened otherwise. |
| `RunEngine.RunContext.AllDoneMeansOnce` | server/internal/backup/scripts.go:23-94 | When every registry entry is done, each guaranteed script has been attempted exactly once. |
| `RunEngine.RunContext.OthersAtMostOnce` | server/internal/backup/cleanup.go:54-71 | A script without the guarantee runs at most once in the whole run and never in the drain. |
| `RunEngine.RunContext.Execute` | server/internal/backup/runcontext.go:104-166 | For every behaviour of the outside world: each guaranteed script attempted exactly once once connected, drained if and only if its turn never came or its condition did not hold then, its command issued exactly when its step was stored, no other script drained; steps follow the grammar; after a passed preflight the drain follows the close of the transport, so drained scripts fail and recovery is FAILED; the final file name is created only by a verified download, and the directory otherwise loses only what retention removed. |
| `RunTrace.Loops.DrainedIff` | server/internal/backup/scripts.go:64-94 | A guaranteed script is drained if and only if its loop was cancelled before its turn or its condition did not hold for the failure state at its turn. |
| `RunTrace.Loops.RanIffTurn` | server/internal/backup/scripts.go:64-94 | A script runs in its loop if and only if its turn came and its condition held then. |
| `RunTrace.RunIffConditionHeld` | server/internal/domain/script.go:46-57 | In a loop's decisions a script ran exactly when its condition held for the failures before it. |
| `RunTrace.Loops.DrainedByCondition` | server/internal/backup/scripts.go:64-94 | With both loops complete an ALWAYS script is never drained, a critical ON_SUCCESS script exactly after an earlier failure, a critical ON_FAILURE script exactly without one. |
| `RunTrace.Loops.SuccessDrainsOnFailure` | server/internal/backup/scripts.go:64-94 | In a run that never failed, a guaranteed ON_FAILURE script is always drained. |
| `RunEngine.RunContext.SuccessDrains` | server/internal/backup/runcontext.go:104-166 | The same from the books of a run. |
| `RunEngine.RunContext.DrainedAreExact` | server/internal/backup/runcontext.go:104-166 | The exact condition holds for every guaranteed script of the job. |
| `RunEngine.RunContext.Unwind` | server/internal/backup/runcontext.go:104-166 | The deferred drain, from whatever state the stages ended in, completes the exactly-once guarantee and the step grammar. |
| `RunEngine.RunContext.DrainedMeansFailed` | server/internal/backup/runcontext.go:104-166 | Scripts drained after the transport was closed make the recovery outcome FAILED. |
| `RunEngine.RunContext.FinishRun` | server/internal/backup/engine.go:189-197 | CANCELLED if and only if cancellation was seen; else FAILED if and only if some call reported a failure; else WARNING or SUCCESS by whether anything was reported. A run in which every answer was good, the checks passed, the checksums agree and no fault hits retention ends SUCCESS and is stored. SUCCESS and WARNING mean that the part file had the checksum the remote host reported when it was given its final name; at the end the archive is on disk if and only if the run's own sweep did not see, select and remove it; the headline is the first failure, else the first warning, else empty; with a critical ON_FAILURE script every such run reports a failed recovery; and what the run did to its job's history. |
| `RunEngine.RunContext.ExecuteAndCheck` | server/internal/backup/runcontext.go:104-166 | What the end of the workflow means for the archive on disk and for the recovery outcome. |
| `RunEngine.RunContext.StillOnDiskIff` | server/internal/retention/retention.go:75-92 | A verified archive is on disk exactly when the sweep did not remove that name. |
| `RunEngine.RunContext.StoreRow` | server/internal/backup/engine.go:194-197 | The final write, which names the row whatever the sweep did; the whole run is then one step of the history relation. |
| `RunEngine.RunContext.Conclude` | server/internal/backup/runcontext.go:77-88 | The terminal status from the calls made: CANCELLED if and only if cancelled; else FAILED if and only if a failure was reported; else WARNING if and only if a warning was; else SUCCESS. |
| `RunEngine.RunContext.Finish` | server/internal/domain/run.go:52-58 | A terminal status and its finish time are never overwritten. |
| `RunTrace.HeadlineIsFirst` | server/internal/backup/runcontext.go:43-61 | The headline is the call at the position of the first failure, else of the first warning, and is empty only without calls. |
| `RunTrace.FirstFailIsFirst` | server/internal/backup/runcontext.go:43-50 | The recursive first failure is the one at the least failing position. |
| `RunTrace.FirstWarnIsFirst` | server/internal/backup/runcontext.go:55-61 | The same for warnings. |
| `RunTrace.NoHeadline` | server/internal/backup/runcontext.go:77-88 | There is no failure and no warning exactly when nothing was reported. |
| `RunTrace.RecoveryOfStep` | server/internal/backup/runcontext.go:66-75 | Folding one more result equals recomputing the outcome from the unordered set of results: NOT_APPLICABLE without attempts, FAILED with a failure, else SUCCESS. |
| `RunTrace.RetentionIsInTail` | server/internal/backup/runcontext.go:104-166 | Of all recorded steps only the closing stages can be retention; with `Execute` a retention step means a verified archive. |
| `RunTrace.DrainedGrammar` | server/internal/backup/runcontext.go:104-166 | Script steps added after the normal part complete the step grammar. |
| `RunLifecycle.Store.Acquire` | server/internal/store/locks.go:37-49 | Succeeds exactly on a free job with no other constraint in the way; a locked job and any other constraint error are both answered with "already running"; otherwise the tables are unchanged. |
| `RunLifecycle.Store.Release` | server/internal/store/locks.go:54-59 | Removes the job's row and nothing else. |
| `RunLifecycle.Store.CreateRun` | server/internal/store/runs.go:24-38 | Inserts one row or changes nothing. |
| `RunLifecycle.Store.UpdateRun` | server/internal/store/runs.go:41-54 | Replaces one existing row; a missing row is an error, and with a working database the only one. |
| `RunLifecycle.Store.InterruptRunningRuns` | server/internal/store/runs.go:196-212 | Turns every RUNNING row and no other into INTERRUPTED and lists exactly those. |
| `RunLifecycle.Store.BeginRun` | server/internal/backup/engine.go:124-176 | Begun if and only if the id was made, the lock insert met neither the job's lock nor another constraint, and the run row was stored; SKIPPED if and only if it met one and the skipped row was stored; with a working database, exactly by whether the job was locked. A begun run holds its job's lock and has a RUNNING row; a failed begin leaves the tables as they were, except the lock it took when giving that back fails too. |
| `RunLifecycle.Store.ReleaseStaleLocks` | server/cmd/vpsbackupservice/wire.go:198-211 | Afterwards exactly the locks whose release failed remain; with a working database none. |
| `RunLifecycle.Store.RecoverInterruptedRuns` | server/cmd/vpsbackupservice/wire.go:218-239 | Every RUNNING row is interrupted, and those whose rewrite worked, all of them with a working database, report a failed recovery. |
| `ServiceProcess.InitInv` | server/cmd/vpsbackupservice/wire.go:113-115 | Whatever the database holds when the service is down, the invariant holds before the first start. |
| `ServiceProcess.LocksKept` | server/internal/store/locks.go:37-59 | Every step keeps that an active run's job lock names that run. |
| `ServiceProcess.RowsKept` | server/internal/backup/engine.go:124-200 | Every step keeps each active run's row: absent before the insert, RUNNING until the final update. |
| `ServiceProcess.SnapshotsKept` | server/internal/retention/retention.go:64-92 | Rows that retention has read stay current until it rewrites them, so a rewrite changes no status. |
| `ServiceProcess.WaitCounterKept` | server/cmd/vpsbackupservice/eventsinks.go:66-68 | Every step keeps the shutdown wait counter equal to the number of started, unfinished runs. |
| `ServiceProcess.StepInv` | server/internal/backup/engine.go:124-200 | Begin, failed begin, retention, finish, crash and restart all keep the whole invariant. |
| `ServiceProcess.OneRunPerJob` | server/internal/backup/engine.go:124-176 | Two active runs of one job are the same run. |
| `ServiceProcess.TerminalStays` | server/internal/domain/run.go:52-58 | A stored terminal status never changes and no run row disappears. |
| `ServiceProcess.EveryExecution` | server/cmd/vpsbackupservice/wire.go:113-115 | Over every interleaving with crashes and restarts: at most one active run per job, its lock names it, the wait counter is exact, terminal rows stay. |
| `ServiceProcess.ReleaseFreesOwnLock` | server/internal/backup/engine.go:181-200 | Release by job only ever frees the releasing run's own lock, and frees it exactly when the statement worked. |
| `ServiceProcess.RestartCleans` | server/cmd/vpsbackupservice/wire.go:198-239 | A restart whose recovery worked leaves no RUNNING row, and no lock when every release worked; an interrupted run reports a failed recovery exactly when its rewrite worked or it did so before. |
| `ServiceProcess.UnsavedRunIsInterrupted` | server/internal/backup/engine.go:181-200 | The final status is stored if and only if the final update worked; else the row still reads RUNNING and the next restart makes it INTERRUPTED. |
| `ServiceProcess.BeginIsSteps` | server/internal/backup/engine.go:124-176 | Whatever BeginRun does to the tables is a sequence of steps of the service, after which the run is active exactly when it began. |
| `ServiceProcess.StartupIsRestart` | server/cmd/vpsbackupservice/wire.go:113-115 | Releasing locks and then recovering runs is one restart step. |
| `ServiceProcess.FinishIsSteps` | server/internal/backup/engine.go:181-200 | The final update, the finish event and the release are the last three steps of a run. |
| `Dispatcher.Dispatcher.Tick` | server/internal/scheduler/dispatcher.go:102-125 | A tick is the considerations of its enabled automatic jobs in order; a pause or a load error changes nothing. |
| `Dispatcher.Dispatcher.ConsiderJob` | server/internal/scheduler/dispatcher.go:144-164 | First sight sets the baseline; a due job that can start moves the baseline, a blocked one does not. |
| `Dispatcher.FirstSightDue` | server/internal/scheduler/dispatcher.go:144-158 | First sight starts nothing, and from then on the job is due exactly when an occurrence has passed since that moment. |
| `Dispatcher.SeenFromFirstMention` | server/internal/scheduler/dispatcher.go:144-152 | Over every run, a job is known exactly when some action spoke of it, and was first seen at the time carried by the first such action. |
| `Dispatcher.TickConsidersExactly` | server/internal/scheduler/dispatcher.go:118-124 | A tick considers exactly the enabled jobs with an automatic schedule, all at its own time. |
| `Dispatcher.StartsExactlyWhenFree` | server/internal/scheduler/dispatcher.go:169-193 | A due job starts if and only if its server loads, fewer runs than the limit are in flight and none of them is on its server. |
| `Dispatcher.ReleaseFrees` | server/internal/scheduler/dispatcher.go:195-205 | A release gives back exactly that run's slot and touches no baseline. |
| `Dispatcher.Dispatcher.TryStart` | server/internal/scheduler/dispatcher.go:169-193 | Starts if and only if the server loads, the global limit allows it and nothing runs on the server; the counters keep counting the runs in flight. |
| `Dispatcher.Dispatcher.ReleaseSlot` | server/internal/scheduler/dispatcher.go:195-205 | The counters drop with the run that ended. |
| `Dispatcher.SlotsConserved` | server/internal/scheduler/dispatcher.go:169-205 | In every interleaving of starts and releases at most one dispatched run per server, and in total never more than the largest limit at any start so far. |
| `Dispatcher.SlotStep` | server/internal/scheduler/dispatcher.go:169-205 | Each start and each release keeps the slot invariant. |
| `Dispatcher.Dispatcher.CountersInRange` | server/internal/scheduler/dispatcher.go:169-205 | In every state of the class the counter of a server is 0 or 1, 1 exactly when a run is in flight there, and the total is between 0 and the largest limit. |
| `Dispatcher.PacedStep` | server/internal/scheduler/dispatcher.go:144-164 | Each step keeps that successive starts of a job have an occurrence between them and that no occurrence lies between its baseline and its last start. |
| `Dispatcher.DetectSafeIff` | server/cmd/vpsbackupservice/wire.go:160-178 | Missed-run detection beside the dispatcher is harmless if and only if it writes nothing older than an occurrence the job has already started for; otherwise that occurrence can fire twice. |
| `Dispatcher.FiresAgain` | server/internal/scheduler/missedrun.go:79-83 | The continuation in which it fires again. |
| `Dispatcher.PacedIffForward` | server/internal/scheduler/nextrun.go:46-52 | Every run of a job is paced if and only if no answer of its next-run function is at or before its argument; the cron library answers with the zero time when it finds no date. |
| `Dispatcher.DueUnderAnyAnswer` | server/internal/scheduler/dispatcher.go:144-164 | Whatever the answer, a job is due exactly when an occurrence has passed or the answer is not after the baseline. |
| `Dispatcher.ZeroTimeIsAlwaysDue` | server/internal/scheduler/nextrun.go:46-52 | A job answered with the zero time is due at every tick. |
| `Dispatcher.StartsBounded` | server/internal/scheduler/dispatcher.go:144-164 | The starts of a job never exceed its occurrences since it was first seen. |
| `Dispatcher.NeverOverFires` | server/internal/scheduler/dispatcher.go:102-193 | Pacing and the bound for every run of dispatcher and detection in which each detection is safe. |
| `Dispatcher.LiveNeverOverFires` | server/internal/scheduler/dispatcher.go:102-193 | Without detection beside it no condition is needed, and every baseline is the job's last start. |
| `Dispatcher.BacklogCollapses` | server/internal/scheduler/dispatcher.go:144-164 | After a start the job is due again if and only if an occurrence has passed since, so any backlog costs one start. |
| `Dispatcher.DueStartsOrWaits` | server/internal/scheduler/dispatcher.go:144-193 | A due job starts exactly when nothing blocks it, and otherwise the state is untouched. |
| `Dispatcher.DueStaysDue` | server/internal/scheduler/dispatcher.go:102-193 | Until it starts or detection handles it, a due job stays due at every later moment, whatever else happens. |
| `Occurrences.DueIffOccurs` | server/internal/scheduler/nextrun.go:25-44 | Comparing the next run with now asks exactly whether an occurrence lies in the interval. |
| `Occurrences.CountFromLeast` | server/internal/scheduler/nextrun.go:25-44 | The least occurrence accounts for exactly one of those counted. |
| `Occurrences.CountZero` | server/internal/scheduler/nextrun.go:25-44 | The count is zero exactly when no occurrence lies in the interval. |
| `Calendar.CivilInverts` | server/internal/scheduler/nextrun.go:71-81 | Day numbers and valid Gregorian dates are in bijection. |
| `Calendar.CivilAscends` | server/internal/scheduler/nextrun.go:71-81 | Civil dates advance with day numbers. |
| `Calendar.Civil` | server/internal/scheduler/nextrun.go:71-81 | The civil date of any day number is valid and has that day number. |
| `Calendar.YearLength` | server/internal/scheduler/nextrun.go:78-81 | Years have 366 days exactly in leap years, counted by years and by months. |
| `Calendar.MonthLengths` | server/internal/scheduler/nextrun.go:78-81 | Month lengths against the Gregorian table, and as differences of day numbers. |
| `Calendar.FixedDates` | server/internal/scheduler/nextrun.go:71-81 | Day numbers of fixed dates: the zero time, the Unix epoch and dates around a leap day. |
| `MonthlySchedule.LastDayIsMonthLength` | server/internal/scheduler/nextrun.go:78-81 | lastDayOfMonth is the calendar's month length, leap years and the month-13 normalisation included. |
| `MonthlySchedule.OccurrenceInMonth` | server/internal/scheduler/nextrun.go:71-76 | A month's occurrence falls on its clamped day at the scheduled hour and minute, written out in nanoseconds, inside that month. |
| `MonthlySchedule.OccurrencesAscend` | server/internal/scheduler/nextrun.go:57-69 | Occurrences of later months are later. |
| `MonthlySchedule.NextMonthlyIsLeast` | server/internal/scheduler/nextrun.go:57-69 | For every instant, the least monthly occurrence strictly after it. |
| `MonthlySchedule.MonthlyMeetsContract` | server/internal/scheduler/nextrun.go:25-44 | A monthly schedule meets the contract that dispatch and missed-run detection rely on. |
| `MissedRuns.Detector.LastRun` | server/cmd/vpsbackupservice/scheduler_adapter.go:40-49 | A row of the job whose stored timestamp no other row of it exceeds, or none without rows. |
| `MissedRuns.Detector.DetectMissedRuns` | server/internal/scheduler/missedrun.go:28-50 | A pass is the per-job step of every enabled automatic job; a pause or load error changes nothing. |
| `MissedRuns.Detector.DetectForJob` | server/internal/scheduler/missedrun.go:52-96 | Working on stored text, does exactly what the specification on time asks. |
| `MissedRuns.Detector.RecordSkipped` | server/internal/scheduler/missedrun.go:98-115 | One SKIPPED row that starts at the missed occurrence, or nothing. |
| `MissedRuns.FirstListedSecond` | server/internal/store/runs.go:95-99 | The row listed first starts in the same second as the job's latest run. |
| `MissedRuns.KeyOrderIsHarmless` | server/internal/scheduler/missedrun.go:52-77 | Choosing the last run by stored text instead of time never changes which occurrence is found missed. |
| `MissedRuns.MonthlyFollows` | server/internal/scheduler/nextrun.go:57-69 | Monthly schedules fire on whole seconds and satisfy the premise of the detection results. |
| `MissedRuns.ActsIffMissed` | server/internal/scheduler/missedrun.go:52-77 | Acts on a job if and only if it ran before and an occurrence lies in (last start, now], and then on the earliest. |
| `MissedRuns.ActsUnderAnyAnswer` | server/internal/scheduler/missedrun.go:74-77 | Whatever the answer, acts exactly when an occurrence has passed or the answer is not after the last start. |
| `MissedRuns.ZeroTimeNeverConsumed` | server/internal/scheduler/nextrun.go:46-52 | Answered with the zero time, a SKIP job gets one more row dated year 1 at every pass and nothing is consumed. |
| `MissedRuns.FollowsIsRegular` | server/internal/scheduler/nextrun.go:25-44 | Schedules that always find a date are among those detection is proved for. |
| `MissedRuns.StepIsDetect` | server/internal/scheduler/missedrun.go:79-83 | What a pass writes into the live map is one detection action at the time the pass began with. |
| `MissedRuns.SkipConsumesOne` | server/internal/scheduler/missedrun.go:79-87 | A recorded SKIP consumes exactly one missed occurrence. |
| `MissedRuns.SkipTakesOnePassEach` | server/internal/scheduler/missedrun.go:79-115 | k missed occurrences take exactly k recorded passes, one row each. |
| `MissedRuns.CatchUpConsumesAll` | server/internal/scheduler/missedrun.go:89-96 | One Runner call, and the interval is consumed if and only if that run was recorded. |
| `MissedRuns.UnrecordedIsLostToDispatch` | server/internal/scheduler/missedrun.go:79-96 | The live baseline moves even when the insert or the server load failed: the missed occurrences no longer make the job due, and only a later pass finds the earliest again. |
| `MissedRuns.NothingMissedNothingDone` | server/internal/scheduler/missedrun.go:74-77 | Without a missed occurrence nothing is written. |
| `MissedRuns.PassIsIndependent` | server/internal/scheduler/missedrun.go:43-48 | Each job ends a pass with the rows it would have if it were the only job. |
| `MissedRuns.OtherJobsKeepRows` | server/internal/scheduler/missedrun.go:43-48 | Jobs outside the pass keep their rows. |
| `MissedRuns.DisabledIsLeftAlone` | server/internal/scheduler/missedrun.go:43-48 | A job that is disabled or has no automatic schedule keeps its rows in every pass. |
| `Timestamps.KeyOrder` | server/internal/store/convert.go:14-18 | Byte order of stored timestamps is time order when the whole seconds differ, and within one second is reversed exactly when one trimmed fraction is a proper prefix of the other. |
| `Timestamps.BackwardsIff` | server/internal/store/convert.go:14-18 | The text of a later instant is the smaller one exactly when the pair sorts backwards. |
| `Timestamps.HalfSecondSortsFirst` | server/internal/store/convert.go:14-18 | The reversal is real: half past a second sorts before the second itself. |
| `Timestamps.YearInRange` | server/internal/store/convert.go:16-18 | The range of instants with four-digit years, in seconds, is exactly the years 0 to 9999 of the calendar. |
| `Timestamps.TextOrder` | server/internal/store/convert.go:16-18 | Fixed-width fields compare as their values do, the first difference deciding. |
| `Timestamps.SecondsOrder` | server/internal/store/convert.go:16-18 | Year, month, day, hour, minute and second order as whole seconds do. |
| `Timestamps.SuffixOrder` | server/internal/store/convert.go:16-18 | The order of two fractions and their closing letter, both cases. |
| `ParsedTimes.StoredTimeRoundTrip` | server/internal/store/convert.go:16-26 | Parsing the stored text of any instant of the years 0 to 9999 gives that instant back, to the nanosecond. |
| `ParsedTimes.StoredTextIsUnique` | server/internal/store/convert.go:16-26 | Different instants have different stored texts. |
| `Retention.History.ListArchived` | server/internal/store/runs.go:124-146 | Exactly the archived rows, each once, by stored timestamp descending. |
| `Retention.History.Apply` | server/internal/retention/retention.go:59-94 | Fails if and only if some limit is set and the listing failed; no limit or a failed listing changes nothing; otherwise deleted plus warnings equals the number selected, the warnings are exactly the selected rows that a fault hit, only the others lose their name, and the files removed are exactly those of the selected rows whose removal worked. |
| `Retention.History.Sweep` | server/internal/retention/retention.go:75-92 | The loop's effect on rows, count and warnings under any pattern of faults. |
| `Retention.SelectedByAge` | server/internal/retention/retention.go:69-78 | For every d, max_age_days d alone selects exactly the records that started more than d days of 86400 seconds before now. |
| `Retention.SelectedByBoth` | server/internal/retention/retention.go:96-114 | keep_last n alone selects exactly the places from n on, both limits together only what both select, and no limit nothing. |
| `Retention.CutoffIsDaysEarlier` | server/internal/retention/retention.go:69-73 | The cutoff is the same time of day, max_age_days calendar days earlier. |
| `Retention.WarnedIffHit` | server/internal/retention/retention.go:80-91 | A sweep warns if and only if a removal or an update failed on a row it selected. |
| `Retention.OwnArchiveRemovedIff` | server/internal/retention/retention.go:75-92 | A run's own archive is removed if and only if its sweep saw its row, selected it and the removal worked. |
| `Retention.LostIffRemoved` | server/internal/retention/retention.go:75-92 | The same for whatever listing the store returned. |
| `Retention.RowNamesMissingFileIff` | server/internal/backup/engine.go:189-197 | The row then names a missing file exactly when the final write worked or the sweep's own update failed. |
| `Retention.LongRunLosesItsArchive` | server/internal/retention/retention.go:66-83 | A run longer than max_age_days deletes its own archive, and its row names it again. |
| `Retention.History.SaveName` | server/internal/store/runs.go:41-54 | Changes the archive name of one row. |
| `Retention.StageIsRun` | server/internal/backup/engine.go:189-197 | A retention stage, with any failed write, listing or removal, and the final write are one step of the history relation. |
| `Retention.SurvivorsArePrefix` | server/internal/retention/retention.go:96-114 | Listed newest first, the kept records are exactly a prefix of length K, F or the larger of both. |
| `Retention.SelectedBeyondPrefix` | server/internal/retention/retention.go:96-114 | The number selected is what lies beyond that prefix. |
| `Retention.PrefixIffDescending` | server/internal/retention/retention.go:96-114 | Every age limit keeps a prefix if and only if the listing is newest first. |
| `Retention.ListingDescendsIff` | server/internal/store/runs.go:124-128 | The listing is newest first if and only if no two archived rows have stored timestamps that sort backwards. |
| `Retention.KeepsNewestIff` | server/internal/retention/retention.go:96-114 | keep_last keeps the newest archive if and only if fewer than keep_last archived rows sort ahead of it, or the age limit keeps it. |
| `Retention.SameSecondListedBackwards` | server/internal/store/runs.go:124-128 | Two runs in one second listed oldest first: an age limit deletes the first listed and keeps the second, and keep_last 1 keeps the older archive and deletes the newer. |
| `Retention.FirstListedSurvives` | server/internal/retention/retention.go:100-114 | The first listed record survives whenever keep_last is set, under any faults. |
| `Retention.SecondSweepSelectsNothing` | server/internal/retention/retention.go:59-94 | After a sweep without faults a second one at the same time selects nothing, for any history and any order of ties. |
| `RetentionHistory.EveryHistory` | server/internal/backup/retention_stage.go:10-29 | After every prefix of every history of verified and failed runs, exactly the newest stored names remain, as many as the slots in use. |
| `RetentionHistory.RunKeeps` | server/internal/backup/retention_stage.go:10-29 | What one more run does to the slots: a sweep that sees its own archive cuts them to keep_last, one that does not leaves one more, a run without a sweep adds one. |
| `RetentionHistory.SweepLeavesNewest` | server/internal/retention/retention.go:59-94 | After a run whose sweep saw its own archive, exactly the newest keep_last stored names remain, failed runs included. |
| `RetentionHistory.AllVerifiedIff` | server/internal/backup/archive.go:28-30 | The kept records are all verified archives if and only if no run among the newest keep_last named ones failed. |
| `RetentionHistory.FailedRunHoldsSlot` | server/internal/backup/archive.go:28-30 | With keep_last 2 a failed run costs the older of two verified archives. |
| `RetentionHistory.SlotsEnough` | server/internal/retention/retention.go:96-114 | No history keeps fewer names than keep_last allows. |
| `RetentionHistory.SteadyState` | server/internal/backup/retention_stage.go:10-29 | Over any sequence of swept runs in later seconds, which archives remain after each and how many: min(i, N), and one more after a run whose early write failed with N before it. |
| `RetentionHistory.OneTooManyIff` | server/internal/backup/retention_stage.go:10-29 | N+1 archives remain after the i-th run if and only if its early write failed and i exceeds N. |
| `Shell.QuoteRoundTrip` | server/internal/backup/shellquote.go:9-11 | A quoted string reads back as the single word s if and only if s has no NUL, and as nothing otherwise. |
| `Shell.QuoteReads` | server/internal/backup/shellquote.go:9-11 | Quoted text extends the word being read by exactly s, from anywhere between or inside words. |
| `Shell.GluedWord` | server/internal/backup/archive.go:53-64 | The same glued after a plain prefix such as an option name. |
| `Shell.JoinWords` | server/internal/backup/archive.go:72-76 | Pieces that each read as one word, joined by blanks, read as those words. |
| `Shell.JoinReads` | server/internal/backup/archive.go:91-114 | Pieces joined by a separating operator read as their tokens with that operator between. |
| `ArchiveCommand.ArchiveCommand` | server/internal/backup/archive.go:53-77 | For every list of sources and patterns without NUL, a POSIX shell reads exactly the intended words and operators, in either form. |
| `ArchiveCommand.IncludeArchiveCommand` | server/internal/backup/archive.go:91-114 | The include form reads as the listing group, the redirection, tar, and the saved status. |
| `ArchiveCommand.ListEntry` | server/internal/backup/archive.go:94-106 | One source's listing command reads as printf of its path, or find with its name tests in escaped parentheses. |
| `ArchiveCommand.TrimSlashes` | server/internal/backup/archive.go:102 | The pattern given to find is the longest prefix that does not end in a slash. |
| `ArchiveCommand.PlainCommandReads` | server/internal/backup/archive.go:66-77 | The plain form reads as mkdir, &&, tar with its exclusions, and every source path after the double dash. |
| `ListColumns.StringListRoundTrip` | server/internal/store/convert.go:60-69 | A string list survives storage if and only if no element has a newline and it is not the one empty string. |
| `ListColumns.IntListRoundTrip` | server/internal/store/convert.go:71-93 | Every list of 64-bit integers survives storage, negatives included. |
| `ListColumns.ItoaParses` | server/internal/store/convert.go:71-93 | Printing and parsing are inverse within 64 bits, and parsing refuses beyond. |
| `Strings.SplitInvertsJoin` | server/internal/store/convert.go:60-69 | Pieces without the separator survive joining and splitting. |
| `Strings.SplitResumes` | apps/client/lib/core/ipc/pipe_transport.dart:269-283 | Splitting more input equals resuming from the last, unfinished piece. |
| `Framing.LineReader.Receive` | apps/client/lib/core/ipc/pipe_transport.dart:199-200 | Lines sent so far and the pending tail are the newline split of all bytes received; sent lines are never taken back. |
| `Framing.LineReader.EmitCompleteLines` | apps/client/lib/core/ipc/pipe_transport.dart:269-283 | Sends exactly the complete lines of the buffer, in order, and keeps the rest. |
| `Framing.LineReader.ReceiveAll` | apps/client/lib/core/ipc/pipe_transport.dart:187-200 | The same after any number of reads, however the stream was cut. |
| `Framing.SameStreamSameState` | apps/client/lib/core/ipc/pipe_transport.dart:187-200 | Two cuttings of one stream leave the same lines and the same tail. |
| `Framing.WireSplits` | apps/client/lib/core/ipc/pipe_transport.dart:216-221 | Lines written with a closing newline come out as written, with nothing pending. |
| `Preflight.Session.Run` | server/internal/backup/checks.go:28-30 | One remote command against the environment's current state, logged. |
| `Preflight.Session.CheckSourceExists` | server/internal/backup/checks.go:32-38 | Existence by one command; any error or exit code other than 0 is a failed check. |
| `Preflight.Session.CheckSourceReadable` | server/internal/backup/checks.go:40-49 | Readability is only asked for a path that exists. |
| `Preflight.Session.CheckToolAvailable` | server/internal/backup/checks.go:51-57 | One lookup command per tool. |
| `Preflight.Session.CheckRemoteTempWritable` | server/internal/backup/checks.go:59-66 | One command that creates and tests the directory. |
| `Preflight.Session.EstimateSourceSize` | server/internal/backup/checks.go:71-86 | One command over every quoted source; anything but a number is an unknown size. |
| `Preflight.Session.MeasureRemoteFreeSpace` | server/internal/backup/checks.go:88-99 | Anything but a number is an unknown size. |
| `Preflight.Session.CheckLocalDestinationWritable` | server/internal/backup/diskspace.go:16-28 | The directory is created first and probed only then; each failure has its own message. |
| `Preflight.Session.MeasureLocalFreeSpace` | server/internal/backup/diskspace.go:30-36 | The local measurement, or unknown. |
| `Preflight.Session.CheckRemoteSpace` | server/internal/backup/checks.go:101-110 | The remote check judges the two sizes measured before; `RemoteSpaceVerdict` says when it fails. |
| `Preflight.Session.CheckLocalSpace` | server/internal/backup/diskspace.go:38-47 | The same for the local volume; `LocalVerdicts` says when it fails. |
| `Preflight.SourceVerdict` | server/internal/backup/checks.go:32-49 | A source passes if and only if both its tests exit 0; a missing one and an unreadable one carry different codes. |
| `Preflight.RemoteVerdicts` | server/internal/backup/checks.go:51-66 | A tool, and the remote directory, pass if and only if their command exits 0, each failure with its code. |
| `Preflight.RemoteSpaceVerdict` | server/internal/backup/checks.go:71-110 | Fails if and only if both sizes were measured and the sources are larger than the free space, with ErrRemoteNoSpace; the sizes are what the two commands printed. |
| `Preflight.LocalVerdicts` | server/internal/backup/diskspace.go:16-47 | The local directory passes if and only if it was made and probed; the space fails if and only if both sizes are known and the sources are larger, with ErrLocalNoSpace. |
| `Preflight.MeasuredIsPrinted` | server/internal/backup/checks.go:71-99 | A size is the number the command printed, blanks around it ignored. |
| `Preflight.TestCommandsRead` | server/internal/backup/checks.go:32-57 | The test and lookup commands read as exactly the intended words, for every path without NUL. |
| `Preflight.WritableCommandReads` | server/internal/backup/checks.go:59-66 | The directory check reads as mkdir, &&, test. |
| `Preflight.FreeCommandReads` | server/internal/backup/checks.go:88-99 | The free-space command reads as df of the directory piped into tail. |
| `Preflight.SizeCommandReads` | server/internal/backup/checks.go:71-86 | The size command reads as du of every source, errors redirected, piped into awk with its program. |
| `Preflight.Session.RunPreflight` | server/internal/backup/preflight.go:34-98 | Equals the fail-fast specification over the plan of checks, with a warning for each size that could not be measured. |
| `Preflight.Session.Validate` | server/internal/backup/validate.go:47-95 | Equals the report-everything specification over the same plan; success means that all checks passed. |
| `Preflight.PlanRefines` | server/internal/backup/preflight.go:34-98 | Over any plan and any deterministic, even stateful, environment: same verdict, commands a prefix, the failure the first one reported. |
| `Preflight.PreflightRefinesValidate` | server/internal/backup/validate.go:47-95 | Preflight succeeds exactly when Validate does, its commands are a prefix of Validate's, and its message is that of Validate's first failed check, redacted for the connection. |
| `Preflight.PreflightPassesIff` | server/internal/backup/preflight.go:34-98 | When answers depend on the question alone, preflight and Validate both pass if and only if the configuration is valid, the connection opens, every source exists and is readable, tar, gzip and sha256sum are found, both directories are writable, and the sources are not known to exceed the remote or the local space. |
| `Preflight.ResultAt` | server/internal/backup/validate.go:47-95 | Every check is judged in the state that the checks before it left. |
| `Preflight.OnlyCheckCommands` | server/internal/backup/validate.go:32-37 | Both forms only ever send the checks' own commands. |

## Left out

- SSH and SFTP dialing, host keys, credentials, named pipes, the Windows service host, notifications
  and the desktop user interface: foreign calls whose answers are arbitrary here.
- Time zone transitions: zones have a fixed offset. The cron library is a contract on its answers.
- SHA-256, tar, find and SQL: checksums are values, commands are strings, tables are maps and
  sequences with atomic statements.
- Redaction is an arbitrary function; access control is not modelled.
- Timeout values, log lines and event payloads, and the cleanup time budget.
- Deleting jobs, servers and runs, and the registry of cancellable runs.
- Catch-up runs beside the live dispatcher: their lock is covered by `ServiceProcess.dfy` and their
  write into the baseline map by `Dispatcher.DetectSafeIff`; their run rows are not part of that machine.
- Malformed UTF-8 in a received line.
- Double quotes and command substitution in the shell lexer; the commands read here do not use them.
- Preflight.SizeCommandReads: the lexer has no IO numbers, so the 2 of a redirected error output is read
  as a word of its own; job.Validate refuses a job without sources, so the list is not empty.
- Preflight.PreflightPassesIff: for answers that do not change between the checks; the refinement itself
  holds in every deterministic environment.
- RunEngine.RunContext.Archive: the text of a message is the environment's, without formatting; so it
  is for the other stages that report a foreign error.
- RunLifecycle.Store.BeginRun: of the run record only job, status, recovery outcome and message; run
  ids never repeat.
- Retention.History.Apply: os.Remove of a file that is already gone counts as removed, as in the code.
- Retention.OwnArchiveRemovedIff: for a run whose archive name no other row carries; names have the
  resolution of a second, and rows that share a name share the file.
- RetentionHistory.EveryHistory: keep_last alone, removals and row updates of the sweep working, and
  runs that start in strictly later seconds.
- Timestamps.KeyOrder: years 0 to 9999, the range of RFC 3339 dates.
- MissedRuns.Detector.DetectMissedRuns: stored start times lie in that range, and so do those of
  `Retention.History.Apply`; a cron expression that does not parse is a schedule without occurrences,
  and the only answer that is not after its argument is the zero time.
