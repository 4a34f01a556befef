/** What an observer of one run records, and the promises stated over those records. */
module RunTrace {
  import opened Domain

  /** The message shown with an error code; Detail carries another component's own error text. */
  datatype Message =
    | NoMessage
    | Detail(text: string)
    | StepNotRecorded(kind: StepType)
    | SourceSizeUnknown
    | RemoteFreeUnknown
    | LocalFreeUnknown
    | ScriptFailedAt(phase: ScriptType, id: string)
    | ChecksumUnavailable
    | ChecksumsDiffer(remote: string, local: string)
    | NotFinalized
    | HealthCheckFailedAfter(attempts: int)
    | RemoteArchiveNotRemoved(path: string)
    | RetentionProblem(text: string)

  /** A call to fail or warn. */
  datatype Report =
    | Fail(code: ErrorCode, message: Message)
    | Warn(code: ErrorCode, message: Message)

  datatype Command =
    | ScriptCommand(id: string, text: string)
    | ArchiveCommand
    | RemovePartialCommand
    | ChecksumCommand
    | DownloadTransfer
    | HealthCommand(text: string)
    | RemoveRemoteCommand

  /** A transport error: whether it was the deadline, and the code it carries, if any. */
  datatype Fault = Fault(timedOut: bool, code: Option<ErrorCode>)

  /** One finished remote operation; a command that only exited with another code than 0 has no fault. */
  datatype Ran = Ran(command: Command, ok: bool, output: string, fault: Option<Fault>)

  /** What the normal loop did, script by script: it ran a script with a result, or skipped it. */
  datatype Decisions =
    | Start
    | DidRun(earlier: Decisions, id: string, ok: bool)
    | DidSkip(earlier: Decisions, id: string)

  // ----- the headline error -----

  /** The fail and warn calls of a run, oldest innermost. */
  datatype Calls = NoCalls | Then(earlier: Calls, report: Report) {
    ghost function AsSeq(): seq<Report> {
      if NoCalls? then [] else earlier.AsSeq() + [report]
    }
  }

  ghost function FirstFail(calls: Calls): Option<Report> {
    if calls.NoCalls? then None
    else if FirstFail(calls.earlier).Some? then FirstFail(calls.earlier)
    else if calls.report.Fail? then Some(calls.report) else None
  }

  ghost function FirstWarn(calls: Calls): Option<Report> {
    if calls.NoCalls? then None
    else if FirstWarn(calls.earlier).Some? then FirstWarn(calls.earlier)
    else if calls.report.Warn? then Some(calls.report) else None
  }

  /** The warning on show: a warning without a code gives way to the next one. */
  ghost function ShownWarn(calls: Calls): Option<Report> {
    if calls.NoCalls? then None
    else
      var shown := ShownWarn(calls.earlier);
      if calls.report.Warn? && (shown.None? || shown.value.code == NoError) then Some(calls.report) else shown
  }

  /** Every warning carries a code. */
  ghost predicate AllCoded(calls: Calls) {
    calls.Then? ==> AllCoded(calls.earlier) && (calls.report.Warn? ==> calls.report.code != NoError)
  }

  /** When every warning carries a code, the one on show is the first. */
  lemma {:induction false} CodedShownIsFirst(calls: Calls)
    requires AllCoded(calls)
    ensures ShownWarn(calls) == FirstWarn(calls)
    ensures ShownWarn(calls).Some? ==> ShownWarn(calls).value.code != NoError
  {
    if calls.Then? {
      CodedShownIsFirst(calls.earlier);
    }
  }

  /** The call whose error is shown to the user: the first failure, else the warning on show. */
  ghost function Headline(calls: Calls): Option<Report> {
    if FirstFail(calls).Some? then FirstFail(calls) else ShownWarn(calls)
  }

  /** Position i holds the first call of its kind. */
  ghost predicate IsFirst(calls: seq<Report>, i: nat, fail: bool) {
    && i < |calls|
    && calls[i].Fail? == fail
    && forall j :: 0 <= j < i ==> calls[j].Fail? != fail
  }

  /** The headline, in terms of positions: the first fail call, else the first warn call, else nothing. */
  lemma {:induction false} HeadlineIsFirst(calls: Calls, i: nat)
    ensures IsFirst(calls.AsSeq(), i, true) ==> Headline(calls) == Some(calls.AsSeq()[i])
    ensures AllCoded(calls) && (forall j :: 0 <= j < |calls.AsSeq()| ==> calls.AsSeq()[j].Warn?)
            && IsFirst(calls.AsSeq(), i, false)
            ==> Headline(calls) == Some(calls.AsSeq()[i])
    ensures Headline(calls).None? <==> calls.AsSeq() == []
  {
    if AllCoded(calls) {
      CodedShownIsFirst(calls);
    }
    FirstFailIsFirst(calls, i);
    FirstWarnIsFirst(calls, i);
    if calls.Then? {
      FirstFailIsFirst(calls, |calls.AsSeq()| - 1);
      SomeCallIsFirst(calls);
    }
  }

  lemma {:induction false} FirstFailIsFirst(calls: Calls, i: nat)
    ensures IsFirst(calls.AsSeq(), i, true) ==> FirstFail(calls) == Some(calls.AsSeq()[i])
    ensures (forall j :: 0 <= j < |calls.AsSeq()| ==> calls.AsSeq()[j].Warn?) <==> FirstFail(calls).None?
  {
    if calls.Then? {
      var s, n := calls.earlier.AsSeq(), |calls.earlier.AsSeq()|;
      FirstFailIsFirst(calls.earlier, i);
      assert calls.AsSeq()[n] == calls.report;
      assert forall j :: 0 <= j < n ==> calls.AsSeq()[j] == s[j];
    }
  }

  lemma {:induction false} FirstWarnIsFirst(calls: Calls, i: nat)
    ensures IsFirst(calls.AsSeq(), i, false) ==> FirstWarn(calls) == Some(calls.AsSeq()[i])
    ensures (forall j :: 0 <= j < |calls.AsSeq()| ==> calls.AsSeq()[j].Fail?) <==> FirstWarn(calls).None?
  {
    if calls.Then? {
      var s, n := calls.earlier.AsSeq(), |calls.earlier.AsSeq()|;
      FirstWarnIsFirst(calls.earlier, i);
      assert calls.AsSeq()[n] == calls.report;
      assert forall j :: 0 <= j < n ==> calls.AsSeq()[j] == s[j];
    }
  }

  lemma {:induction false} SomeCallIsFirst(calls: Calls)
    requires calls.Then?
    ensures Headline(calls).Some?
  {
    if calls.earlier.Then? {
      SomeCallIsFirst(calls.earlier);
    }
  }

  // ----- the normal loop over scripts -----

  /** The failure state after these decisions: a script that ran and failed makes the run failed. */
  ghost predicate FailedAfter(failed: bool, decisions: Decisions) {
    match decisions
    case Start => failed
    case DidRun(earlier, _, ok) => FailedAfter(failed, earlier) || !ok
    case DidSkip(earlier, _) => FailedAfter(failed, earlier)
  }

  lemma {:induction false} FailureStays(decisions: Decisions)
    ensures FailedAfter(true, decisions)
  {
    if !decisions.Start? {
      FailureStays(decisions.earlier);
    }
  }

  /**
   * The decisions are those the specification asks for on the first n scripts: every script of the
   * kind, in order, run exactly when its condition holds for the failure state at that moment.
   */
  ghost predicate Follows(scripts: seq<Script>, n: nat, kind: ScriptType, failed: bool, decisions: Decisions)
    requires n <= |scripts|
    decreases n
  {
    if n == 0 then decisions == Start
    else if scripts[n - 1].kind != kind then Follows(scripts, n - 1, kind, failed, decisions)
    else
      && !decisions.Start?
      && Follows(scripts, n - 1, kind, failed, decisions.earlier)
      && decisions.id == scripts[n - 1].id
      && (decisions.DidRun? <==> scripts[n - 1].ShouldRun(FailedAfter(failed, decisions.earlier)))
  }

  lemma NothingDecided(scripts: seq<Script>, kind: ScriptType, failed: bool)
    ensures Follows(scripts, 0, kind, failed, Start) && RunIds(Start) == multiset{}
  {
  }

  /** The decision on one more script, run or skipped by its condition. */
  lemma OneMoreDecision(scripts: seq<Script>, i: nat, failed: bool, earlier: Decisions, ok: bool)
    requires i < |scripts| && Follows(scripts, i, scripts[i].kind, failed, earlier)
    ensures var run := DidRun(earlier, scripts[i].id, ok);
            && (scripts[i].ShouldRun(FailedAfter(failed, earlier)) ==>
                  Follows(scripts, i + 1, scripts[i].kind, failed, run))
            && FailedAfter(failed, run) == (FailedAfter(failed, earlier) || !ok)
            && RunIds(run) == RunIds(earlier) + multiset{scripts[i].id}
    ensures var skip := DidSkip(earlier, scripts[i].id);
            && (!scripts[i].ShouldRun(FailedAfter(failed, earlier)) ==>
                  Follows(scripts, i + 1, scripts[i].kind, failed, skip))
            && FailedAfter(failed, skip) == FailedAfter(failed, earlier) && RunIds(skip) == RunIds(earlier)
  {
  }

  /** The state of a loop before its first script. */
  lemma LoopStarts(scripts: seq<Script>, kind: ScriptType, failed: bool, kinds: seq<StepType>)
    ensures Follows(scripts, 0, kind, failed, Start) && RunIds(Start) == multiset{}
    ensures FailedAfter(failed, Start) == failed
    ensures Extends(kinds, kinds, StepKindOf(kind))
  {
  }

  /** A script of the other kind changes nothing. */
  lemma OtherKindPassed(scripts: seq<Script>, i: nat, kind: ScriptType, failed: bool, decisions: Decisions)
    requires i < |scripts| && scripts[i].kind != kind && Follows(scripts, i, kind, failed, decisions)
    ensures Follows(scripts, i + 1, kind, failed, decisions)
  {
  }

  lemma KindOfScript(script: Script)
    ensures script.StepKind() == StepKindOf(script.kind)
  {
  }

  /** The scripts run by a list of decisions. */
  ghost function RunIds(decisions: Decisions): multiset<string> {
    match decisions
    case Start => multiset{}
    case DidRun(earlier, id, _) => RunIds(earlier) + multiset{id}
    case DidSkip(earlier, _) => RunIds(earlier)
  }

  /** With unique ids, the normal loop runs a script at most once, and only scripts of its kind. */
  lemma {:induction false} LoopRunsOnce(scripts: seq<Script>, n: nat, kind: ScriptType, failed: bool,
                                        decisions: Decisions)
    requires n <= |scripts| && UniqueIds(scripts) && Follows(scripts, n, kind, failed, decisions)
    ensures forall id :: RunIds(decisions)[id] <= 1
    ensures forall id :: id in RunIds(decisions) ==>
                           exists i :: 0 <= i < n && scripts[i].id == id && scripts[i].kind == kind
    decreases n
  {
    if n > 0 {
      if scripts[n - 1].kind != kind {
        LoopRunsOnce(scripts, n - 1, kind, failed, decisions);
      } else {
        LoopRunsOnce(scripts, n - 1, kind, failed, decisions.earlier);
      }
    }
  }

  /** The decisions made before script i had its turn, of those made on the first n scripts. */
  ghost function Before(scripts: seq<Script>, n: nat, kind: ScriptType, decisions: Decisions, i: nat): Decisions
    requires i < n <= |scripts|
    decreases n
  {
    if scripts[n - 1].kind != kind then (if i == n - 1 then decisions else Before(scripts, n - 1, kind, decisions, i))
    else if decisions.Start? then Start
    else if i == n - 1 then decisions.earlier
    else Before(scripts, n - 1, kind, decisions.earlier, i)
  }

  /** A script that had its turn ran exactly when its condition held for the failure state at that moment. */
  lemma {:induction false} RunIffConditionHeld(scripts: seq<Script>, n: nat, kind: ScriptType, failed: bool,
                                               decisions: Decisions, i: nat)
    requires i < n <= |scripts| && UniqueIds(scripts) && scripts[i].kind == kind
    requires Follows(scripts, n, kind, failed, decisions)
    ensures scripts[i].id in RunIds(decisions) <==>
            scripts[i].ShouldRun(FailedAfter(failed, Before(scripts, n, kind, decisions, i)))
    decreases n
  {
    var last := scripts[n - 1];
    if last.kind != kind {
      RunIffConditionHeld(scripts, n - 1, kind, failed, decisions, i);
    } else if i == n - 1 {
      LoopRunsOnce(scripts, n - 1, kind, failed, decisions.earlier);
    } else {
      RunIffConditionHeld(scripts, n - 1, kind, failed, decisions.earlier, i);
      assert last.id != scripts[i].id;
    }
  }

  /** A script whose turn never came, or whose kind is another, did not run. */
  lemma NotReachedNotRun(scripts: seq<Script>, n: nat, kind: ScriptType, failed: bool, decisions: Decisions, i: nat)
    requires n <= |scripts| && i < |scripts| && UniqueIds(scripts) && Follows(scripts, n, kind, failed, decisions)
    requires n <= i || scripts[i].kind != kind
    ensures scripts[i].id !in RunIds(decisions)
  {
    LoopRunsOnce(scripts, n, kind, failed, decisions);
  }

  /** A failure before a script's turn is a failure at the end of the loop. */
  lemma {:induction false} FailedBeforeFailedAfter(scripts: seq<Script>, n: nat, kind: ScriptType, failed: bool,
                                                   decisions: Decisions, i: nat)
    requires i < n <= |scripts| && Follows(scripts, n, kind, failed, decisions)
    requires FailedAfter(failed, Before(scripts, n, kind, decisions, i))
    ensures FailedAfter(failed, decisions)
    decreases n
  {
    if scripts[n - 1].kind != kind {
      if i < n - 1 {
        FailedBeforeFailedAfter(scripts, n - 1, kind, failed, decisions, i);
      }
    } else if i < n - 1 {
      FailedBeforeFailedAfter(scripts, n - 1, kind, failed, decisions.earlier, i);
    }
  }

  /** The decisions of both normal loops, how far each got, and the failure state between them. */
  datatype Loops = Loops(pre: Decisions, preReached: nat, failedBefore: bool, post: Decisions, postReached: nat) {
    ghost predicate FollowScripts(scripts: seq<Script>) {
      && preReached <= |scripts| && Follows(scripts, preReached, PreBackup, false, pre)
      && postReached <= |scripts| && Follows(scripts, postReached, PostBackup, failedBefore, post)
    }

    ghost function RanIds(): multiset<string> {
      RunIds(pre) + RunIds(post)
    }

    /** How far the loop of this kind got, its failure state at the start and its decisions. */
    function Reached(kind: ScriptType): nat {
      if kind == PreBackup then preReached else postReached
    }

    function FailedAtStart(kind: ScriptType): bool {
      kind == PostBackup && failedBefore
    }

    function Made(kind: ScriptType): Decisions {
      if kind == PreBackup then pre else post
    }

    /** The failure state when script i had its turn. */
    ghost predicate FailedAtTurn(scripts: seq<Script>, i: nat)
      requires i < |scripts| && Reached(scripts[i].kind) <= |scripts|
    {
      var kind := scripts[i].kind;
      i < Reached(kind) && FailedAfter(FailedAtStart(kind), Before(scripts, Reached(kind), kind, Made(kind), i))
    }

    /** Script i had its turn in its loop and its condition held then. */
    ghost predicate TookItsTurn(scripts: seq<Script>, i: nat)
      requires i < |scripts| && Reached(scripts[i].kind) <= |scripts|
    {
      i < Reached(scripts[i].kind) && scripts[i].ShouldRun(FailedAtTurn(scripts, i))
    }

    /** A script ran in its loop exactly when its turn came and its condition held then. */
    lemma RanIffTurn(scripts: seq<Script>, i: nat)
      requires UniqueIds(scripts) && FollowScripts(scripts) && i < |scripts|
      ensures scripts[i].id in RanIds() <==> TookItsTurn(scripts, i)
    {
      var kind := scripts[i].kind;
      if i < Reached(kind) {
        RunIffConditionHeld(scripts, Reached(kind), kind, FailedAtStart(kind), Made(kind), i);
      } else {
        NotReachedNotRun(scripts, Reached(kind), kind, FailedAtStart(kind), Made(kind), i);
      }
      if kind == PreBackup {
        NotReachedNotRun(scripts, postReached, PostBackup, failedBefore, post, i);
      } else {
        NotReachedNotRun(scripts, preReached, PreBackup, false, pre, i);
      }
    }

    /**
     * Which guaranteed scripts are drained: exactly those whose turn never came, because the run was
     * cancelled before it, or whose condition did not hold at their turn.
     */
    lemma DrainedIff(scripts: seq<Script>, drained: multiset<string>, i: nat)
      requires UniqueIds(scripts) && FollowScripts(scripts) && i < |scripts|
      requires (RanIds() + drained)[scripts[i].id] == 1
      ensures scripts[i].id in drained <==> !TookItsTurn(scripts, i)
    {
      RanIffTurn(scripts, i);
    }

    /**
     * With both loops complete, an ALWAYS script is never drained, and the others exactly by the state
     * at their turn.
     */
    lemma DrainedByCondition(scripts: seq<Script>, drained: multiset<string>, i: nat)
      requires UniqueIds(scripts) && FollowScripts(scripts) && i < |scripts|
      requires (RanIds() + drained)[scripts[i].id] == 1 && preReached == postReached == |scripts|
      ensures scripts[i].condition == Always ==> scripts[i].id !in drained
      ensures scripts[i].condition == OnSuccess ==> (scripts[i].id in drained <==> FailedAtTurn(scripts, i))
      ensures scripts[i].condition == OnFailure ==> (scripts[i].id in drained <==> !FailedAtTurn(scripts, i))
    {
      DrainedIff(scripts, drained, i);
    }

    /** In a run that never failed, an ON_FAILURE script with the guarantee is always drained. */
    lemma SuccessDrainsOnFailure(scripts: seq<Script>, drained: multiset<string>, i: nat)
      requires UniqueIds(scripts) && FollowScripts(scripts) && i < |scripts|
      requires (RanIds() + drained)[scripts[i].id] == 1
      requires !FailedAfter(false, pre) && !FailedAfter(failedBefore, post) && scripts[i].condition == OnFailure
      ensures scripts[i].id in drained
    {
      DrainedIff(scripts, drained, i);
      var kind := scripts[i].kind;
      if FailedAtTurn(scripts, i) {
        FailedBeforeFailedAfter(scripts, Reached(kind), kind, FailedAtStart(kind), Made(kind), i);
      }
    }
  }

  // ----- guaranteed scripts -----

  ghost function GuaranteedOf(scripts: seq<Script>): seq<Script> {
    if scripts == [] then []
    else
      var n := |scripts| - 1;
      GuaranteedOf(scripts[..n]) + (if scripts[n].Guaranteed() then [scripts[n]] else [])
  }

  lemma {:induction false} GuaranteedOfMembers(scripts: seq<Script>)
    ensures forall s :: s in GuaranteedOf(scripts) <==> s in scripts && s.Guaranteed()
    ensures UniqueIds(scripts) ==> UniqueIds(GuaranteedOf(scripts))
  {
    if scripts != [] {
      var n := |scripts| - 1;
      GuaranteedOfMembers(scripts[..n]);
      assert scripts == scripts[..n] + [scripts[n]];
      var front := GuaranteedOf(scripts[..n]);
      if UniqueIds(scripts) {
        forall i | 0 <= i < |front|
          ensures front[i].id != scripts[n].id
        {
          assert front[i] in scripts[..n];
        }
      }
    }
  }

  // ----- the recovery outcome -----

  /** The outcome promised for a set of finished attempts; a set has no order. */
  ghost function RecoveryOf(scripts: seq<Script>, outcomes: set<(string, bool)>): RecoveryOutcome {
    if !exists s :: s in scripts && s.Guaranteed() && ((s.id, true) in outcomes || (s.id, false) in outcomes) then
      RecoveryNotApplicable
    else if exists s :: s in scripts && s.Guaranteed() && (s.id, false) in outcomes then
      RecoveryFailed
    else
      RecoverySuccess
  }

  /** One more recorded result, folded the way recordRecovery folds it. */
  function FoldRecovery(out: RecoveryOutcome, ok: bool): RecoveryOutcome {
    if !ok then RecoveryFailed else if out != RecoveryFailed then RecoverySuccess else out
  }

  ghost function FoldAll(out: RecoveryOutcome, oks: seq<bool>): RecoveryOutcome {
    if oks == [] then out else FoldRecovery(FoldAll(out, oks[..|oks| - 1]), oks[|oks| - 1])
  }

  lemma FoldAllMore(out: RecoveryOutcome, oks: seq<bool>, ok: bool)
    ensures FoldAll(out, oks + [ok]) == FoldRecovery(FoldAll(out, oks), ok)
  {
    assert (oks + [ok])[..|oks|] == oks;
  }

  lemma RecoveryOfStep(scripts: seq<Script>, outcomes: set<(string, bool)>, s: Script, ok: bool)
    requires UniqueIds(scripts) && s in scripts
    ensures RecoveryOf(scripts, outcomes + {(s.id, ok)}) ==
            if s.Guaranteed() then FoldRecovery(RecoveryOf(scripts, outcomes), ok) else RecoveryOf(scripts, outcomes)
  {
    var more := outcomes + {(s.id, ok)};
    assert forall x :: x in scripts && x.id == s.id ==> x == s;
    assert forall x, b :: x in scripts && x != s ==> ((x.id, b) in more <==> (x.id, b) in outcomes);
  }

  // ----- the step grammar -----

  ghost predicate AllAre(kinds: seq<StepType>, kind: StepType) {
    forall i :: 0 <= i < |kinds| ==> kinds[i] == kind
  }

  lemma ExtendsOptional(kinds: seq<StepType>, present: bool, kind: StepType)
    ensures Extends(kinds, kinds + Optional(present, kind), kind)
  {
  }

  lemma ScriptStepKinds()
    ensures StepKindOf(PreBackup) == StepPreBackupScript && StepKindOf(PostBackup) == StepPostBackupScript
  {
  }

  lemma NoneAre(kind: StepType)
    ensures AllAre([], kind)
  {
  }

  /** after is before followed by steps of one kind only. */
  ghost predicate Extends(before: seq<StepType>, after: seq<StepType>, kind: StepType) {
    && |before| <= |after|
    && before == after[..|before|]
    && forall i :: |before| <= i < |after| ==> after[i] == kind
  }

  lemma ExtendsMore(a: seq<StepType>, b: seq<StepType>, c: seq<StepType>, kind: StepType)
    requires Extends(a, b, kind) && Extends(b, c, kind)
    ensures Extends(a, c, kind)
  {
    assert c[..|a|] == b[..|a|];
  }

  lemma ExtendsBy(before: seq<StepType>, after: seq<StepType>, kind: StepType) returns (more: seq<StepType>)
    requires Extends(before, after, kind)
    ensures after == before + more && before + more + [] == after && AllAre(more, kind)
  {
    more := after[|before|..];
  }

  /** Archive, remote checksum and download, each only after the one before; then the two optional steps. */
  function MidOf(depth: nat, local: bool, verify: bool): seq<StepType> {
    Optional(1 <= depth, StepArchive) + Optional(2 <= depth, StepRemoteChecksum) + Optional(3 <= depth, StepDownload)
    + Optional(local, StepLocalChecksum) + Optional(verify, StepVerifyChecksum)
  }

  ghost predicate ArchiveForm(mid: seq<StepType>) {
    exists depth: nat, local: bool, verify: bool ::
      depth <= 3 && (local || verify ==> depth == 3) && mid == MidOf(depth, local, verify)
  }

  lemma MidJoins(start: seq<StepType>, depth: nat, local: bool, verify: bool)
    requires depth <= 3 && (local || verify ==> depth == 3)
    ensures ArchiveForm(MidOf(depth, local, verify))
    ensures verify ==> StepVerifyChecksum in MidOf(depth, local, verify)
    ensures 1 <= depth ==> StepArchive in MidOf(depth, local, verify)
    ensures start + Optional(1 <= depth, StepArchive) + Optional(2 <= depth, StepRemoteChecksum)
            + Optional(3 <= depth, StepDownload) + Optional(local, StepLocalChecksum)
            + Optional(verify, StepVerifyChecksum) == start + MidOf(depth, local, verify)
    ensures depth <= 1 ==> start + Optional(1 <= depth, StepArchive) == start + MidOf(depth, local, verify)
    ensures depth == 0 ==> start == start + MidOf(depth, local, verify)
  {
  }

  /** The closing stages: each optional, in this order, and only after the stages they depend on. */
  ghost predicate TailForm(tail: seq<StepType>, mid: seq<StepType>) {
    && (exists health: bool, cleanup: bool, retention: bool :: tail == TailOf(health, cleanup, retention))
    && (StepHealthCheck in tail ==> StepVerifyChecksum in mid)
    && (StepRemoteCleanup in tail ==> StepArchive in mid)
    && (StepRetention in tail ==> StepVerifyChecksum in mid)
  }

  function TailOf(health: bool, cleanup: bool, retention: bool): seq<StepType> {
    Optional(health, StepHealthCheck) + Optional(cleanup, StepRemoteCleanup) + Optional(retention, StepRetention)
  }

  lemma TailJoins(start: seq<StepType>, health: bool, cleanup: bool, retention: bool)
    ensures start + Optional(health, StepHealthCheck) + Optional(cleanup, StepRemoteCleanup)
            + Optional(retention, StepRetention)
            == start + TailOf(health, cleanup, retention)
    ensures !health ==> start + Optional(health, StepHealthCheck) == start
    ensures StepRetention in TailOf(health, cleanup, retention) <==> retention
    ensures !health && !cleanup && !retention ==> start == start + TailOf(health, cleanup, retention)
    ensures !retention ==>
              start + Optional(health, StepHealthCheck) + Optional(cleanup, StepRemoteCleanup)
              == start + TailOf(health, cleanup, retention)
  {
  }

  function Optional(present: bool, kind: StepType): seq<StepType> {
    if present then [kind] else []
  }

  /** The normal part of a run's steps, cut into its segments. */
  datatype Segments = Segments(pre: seq<StepType>, mid: seq<StepType>, post: seq<StepType>, tail: seq<StepType>) {
    ghost predicate WellFormed() {
      && AllAre(pre, StepPreBackupScript)
      && ArchiveForm(mid)
      && AllAre(post, StepPostBackupScript)
      && TailForm(tail, mid)
    }

    ghost function All(): seq<StepType> {
      pre + mid + post + tail
    }

    lemma Join(start: seq<StepType>, health: bool, cleanup: bool, retention: bool)
      requires AllAre(pre, StepPreBackupScript) && ArchiveForm(mid) && AllAre(post, StepPostBackupScript)
      requires tail == TailOf(health, cleanup, retention)
      requires health || retention ==> StepVerifyChecksum in mid
      requires cleanup ==> StepArchive in mid
      ensures WellFormed()
      ensures start + All() == start + pre + mid + post + tail
      ensures post == [] && tail == [] ==> start + All() == start + pre + mid
    {
      hide ArchiveForm, AllAre, TailForm, TailOf;
      TailHolds(health, cleanup, retention, mid);
      Regroup(start, pre, mid, post, tail);
    }
  }

  lemma Regroup(start: seq<StepType>, a: seq<StepType>, b: seq<StepType>, c: seq<StepType>, d: seq<StepType>)
    ensures start + (a + b + c + d) == start + a + b + c + d
    ensures c == [] && d == [] ==> start + (a + b + c + d) == start + a + b
  {
  }

  lemma TailHolds(health: bool, cleanup: bool, retention: bool, mid: seq<StepType>)
    requires health || retention ==> StepVerifyChecksum in mid
    requires cleanup ==> StepArchive in mid
    ensures TailForm(TailOf(health, cleanup, retention), mid)
  {
  }

  /** The steps of a whole run: nothing, or a preflight, the segments and the drained scripts. */
  ghost predicate StepGrammar(kinds: seq<StepType>) {
    || kinds == []
    || exists main: Segments, drained: seq<StepType> ::
         && main.WellFormed()
         && (forall k :: k in drained ==> k == StepPreBackupScript || k == StepPostBackupScript)
         && kinds == [StepPreflight] + main.All() + drained
  }

  ghost function NoSegments(): (s: Segments)
    ensures s.WellFormed() && s.All() == []
  {
    var s := Segments([], [], [], []);
    assert MidOf(0, false, false) == [];
    assert TailOf(false, false, false) == [];
    s
  }

  /** after is before followed by script steps only. */
  ghost predicate ScriptSteps(before: seq<StepType>, after: seq<StepType>) {
    && |before| <= |after|
    && before == after[..|before|]
    && forall i :: |before| <= i < |after| ==> after[i] == StepPreBackupScript || after[i] == StepPostBackupScript
  }

  lemma NoScriptSteps(kinds: seq<StepType>)
    ensures ScriptSteps(kinds, kinds)
  {
  }

  lemma OneMoreScriptStep(before: seq<StepType>, after: seq<StepType>, stored: bool, kind: ScriptType)
    requires ScriptSteps(before, after)
    ensures ScriptSteps(before, after + Optional(stored, StepKindOf(kind)))
  {
  }

  /** Drained script steps after the normal part of a run complete the grammar. */
  lemma DrainedGrammar(before: seq<StepType>, after: seq<StepType>, main: Segments)
    requires main.WellFormed() && (before == [] ==> after == [])
    requires before == [] || before == [StepPreflight] + main.All()
    requires ScriptSteps(before, after)
    ensures StepGrammar(after)
  {
    if before != [] {
      var drained := after[|before|..];
      assert after == [StepPreflight] + main.All() + drained;
    }
  }

  /** Of all steps of a run, only the closing stages can be a retention step. */
  lemma RetentionIsInTail(before: seq<StepType>, after: seq<StepType>, main: Segments)
    requires main.WellFormed() && (before == [] || before == [StepPreflight] + main.All()) && ScriptSteps(before, after)
    ensures StepRetention in after ==> before != [] && StepRetention in main.tail
  {
    if StepRetention in after {
      var i :| 0 <= i < |after| && after[i] == StepRetention;
      assert after[..|before|][i] == StepRetention;
      assert StepRetention in main.All();
      MidHasNoRetention(main.mid);
    }
  }

  lemma MidHasNoRetention(mid: seq<StepType>)
    requires ArchiveForm(mid)
    ensures StepRetention !in mid
  {
  }

  lemma NoHeadline(calls: Calls)
    ensures FirstFail(calls).None? && ShownWarn(calls).None? <==> calls == NoCalls
  {
    if calls.Then? {
      SomeCallIsFirst(calls);
    }
  }
}
