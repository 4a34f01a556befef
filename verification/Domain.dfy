/** The vocabulary shared by the run engine, the stores and the scheduler. */
module Domain {

  datatype Option<+T> = None | Some(value: T)

  datatype RunStatus =
    | RunPending
    | RunRunning
    | RunSuccess
    | RunWarning
    | RunFailed
    | RunCancelled
    | RunSkipped
    | RunInterrupted
  {
    predicate IsTerminal() {
      this != RunPending && this != RunRunning
    }
  }

  datatype StepType =
    | StepPreflight
    | StepPreBackupScript
    | StepArchive
    | StepRemoteChecksum
    | StepDownload
    | StepLocalChecksum
    | StepVerifyChecksum
    | StepPostBackupScript
    | StepHealthCheck
    | StepRemoteCleanup
    | StepRetention

  datatype StepStatus = StepRunning | StepSuccess | StepFailed | StepSkipped

  datatype ScriptType = PreBackup | PostBackup

  datatype RunCondition = OnSuccess | OnFailure | Always

  datatype RecoveryOutcome = RecoveryNotApplicable | RecoverySuccess | RecoveryFailed

  /** The empty code is NoError; codes that reach the engine inside a foreign error are OtherCode. */
  datatype ErrorCode =
    | NoError
    | ErrInternal
    | ErrInvalidConfig
    | ErrSSHConnectionFailed
    | ErrRemoteSourceNotFound
    | ErrRemotePermissionDenied
    | ErrRemoteToolMissing
    | ErrRemoteNoSpace
    | ErrLocalNoSpace
    | ErrLocalPermissionDenied
    | ErrArchiveFailed
    | ErrArchiveTimeout
    | ErrDownloadFailed
    | ErrChecksumMismatch
    | ErrPreScriptFailed
    | ErrPostScriptFailed
    | ErrHealthCheckFailed
    | OtherCode(text: string)

  datatype Script = Script(
    id: string,
    kind: ScriptType,
    command: string,
    condition: RunCondition,
    criticalCleanup: bool,
    retryOnFailure: bool)
  {
    /** Whether the normal loop runs this script, given the run's failure state so far. */
    predicate ShouldRun(failedSoFar: bool) {
      match condition
      case Always => true
      case OnFailure => failedSoFar
      case OnSuccess => !failedSoFar
    }

    /** Scripts the run promises to attempt whatever else happens. */
    predicate Guaranteed() {
      condition == Always || criticalCleanup
    }

    function Attempts(): nat {
      if retryOnFailure then 2 else 1
    }

    function StepKind(): StepType {
      StepKindOf(kind)
    }
  }

  function StepKindOf(kind: ScriptType): StepType {
    if kind == PostBackup then StepPostBackupScript else StepPreBackupScript
  }

  /** Script ids are primary keys of the job_scripts table. */
  ghost predicate UniqueIds(scripts: seq<Script>) {
    forall i, j :: 0 <= i < j < |scripts| ==> scripts[i].id != scripts[j].id
  }

  type ScriptList = scripts: seq<Script> | UniqueIds(scripts)
}
