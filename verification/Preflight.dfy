/**
 * The checks before a backup in their two forms: the run engine's preflight, which stops at the
 * first failure, and Validate Job, which reports every check.
 */
module Preflight {
  import opened Domain
  import opened Strings
  import opened Shell
  import opened ListColumns
  import Commands = ArchiveCommand

  datatype Answer<S, A> = Answer(next: S, value: A)

  datatype Reply = TransportError | Exited(code: int, stdout: string) {
    predicate Ok() {
      Exited? && code == 0
    }
  }

  datatype Connection = Connected | Refused(code: Option<ErrorCode>, message: string)

  /** Everything outside, deterministic but free to change state S on every call. */
  datatype Env<!S> = Env(
    connect: S -> Answer<S, Connection>,
    run: (S, string) -> Answer<S, Reply>,
    makeLocalDir: S -> Answer<S, Option<string>>,   // the text of the error, if it failed
    probeLocalDir: S -> Answer<S, Option<string>>,  // a temporary file created and removed again
    localFree: S -> Answer<S, Option<int>>)

  /** invalid is the message of job.Validate, if it fails. */
  datatype Job = Job(invalid: Option<string>, sources: seq<string>, remoteTemp: string, remoteDir: string,
                     destDir: string)

  datatype CheckResult = CheckResult(ok: bool, code: ErrorCode, message: string)

  function Passed(message: string): CheckResult {
    CheckResult(true, NoError, message)
  }

  function FailedCheck(code: ErrorCode, message: string): CheckResult {
    CheckResult(false, code, message)
  }

  datatype Sizes = Sizes(source: Option<int>, remoteFree: Option<int>, localFree: Option<int>)

  /** The environment's state, the remote commands issued so far and what was measured. */
  datatype Machine<S> = Machine(state: S, commands: seq<string>, sizes: Sizes)

  datatype Probe =
    | SourceReadable(path: string)
    | ToolAvailable(tool: string)
    | TempWritable
    | RemoteSpace
    | LocalWritable
    | LocalSpace

  // ----- commands and interpretations -----

  function TestExists(path: string): string {
    "test -e " + ShellQuote(path)
  }

  function TestReadable(path: string): string {
    "test -r " + ShellQuote(path)
  }

  function FindTool(tool: string): string {
    "command -v " + ShellQuote(tool)
  }

  function TestWritable(dir: string): string {
    "mkdir -p " + ShellQuote(dir) + " && test -w " + ShellQuote(dir)
  }

  function MeasureSources(sources: seq<string>): string {
    "du -sb " + Join(QuotedPaths(sources), " ") + " 2>/dev/null | awk '{s+=$1} END{print s}'"
  }

  function QuotedPaths(sources: seq<string>): (quoted: seq<string>)
    ensures |quoted| == |sources|
  {
    seq(|sources|, i requires 0 <= i < |sources| => ShellQuote(sources[i]))
  }

  function MeasureFree(dir: string): string {
    "df -B1 --output=avail " + ShellQuote(dir) + " | tail -n1"
  }

  /** unicode.IsSpace. */
  predicate IsSpace(c: char) {
    var n := c as int;
    || 0x09 <= n <= 0x0d || n == 0x20 || n == 0x85 || n == 0xa0
    || n == 0x1680 || 0x2000 <= n <= 0x200a || n == 0x2028 || n == 0x2029 || n == 0x202f || n == 0x205f || n == 0x3000
  }

  function TrimSpace(s: string): string {
    if s != "" && IsSpace(s[0]) then TrimSpace(s[1..])
    else if s != "" && IsSpace(s[|s| - 1]) then TrimSpace(s[..|s| - 1])
    else s
  }

  function Measured(reply: Reply): Option<int> {
    if reply.Ok() then Atoi(TrimSpace(reply.stdout)) else None
  }

  function SpaceCheck(code: ErrorCode, place: string, free: Option<int>, size: Option<int>): CheckResult {
    match free
    case None => Passed(place + " free space could not be measured; continuing without a space check")
    case Some(f) =>
      if size.Some? && size.value > f then
        FailedCheck(code, "estimated source size " + Itoa(size.value) + " bytes exceeds "
                          + place + " free space " + Itoa(f) + " bytes")
      else Passed(place + " free space: " + Itoa(f) + " bytes")
  }

  function CheckRemoteFreeSpace(free: Option<int>, size: Option<int>): CheckResult {
    SpaceCheck(ErrRemoteNoSpace, "remote", free, size)
  }

  function CheckLocalFreeSpace(dir: string, free: Option<int>, size: Option<int>): CheckResult {
    var r := SpaceCheck(ErrLocalNoSpace, "local", free, size);
    if r.ok then r else r.(message := r.message + " on " + dir)
  }

  // ----- the specification: one probe, then a plan of probes -----

  ghost function Exec<S>(env: Env<S>, m: Machine<S>, cmd: string): Answer<Machine<S>, Reply> {
    var a := env.run(m.state, cmd);
    Answer(m.(state := a.next, commands := m.commands + [cmd]), a.value)
  }

  ghost function Judge<S>(a: Answer<Machine<S>, Reply>, good: CheckResult, bad: CheckResult)
    : Answer<Machine<S>, CheckResult>
  {
    Answer(a.next, if a.value.Ok() then good else bad)
  }

  function Exists(path: string): CheckResult {
    Passed("source path " + path + " exists")
  }

  function Missing(path: string): CheckResult {
    FailedCheck(ErrRemoteSourceNotFound, "source path " + path + " does not exist on the remote host")
  }

  function Readable(path: string): CheckResult {
    Passed("source path " + path + " is readable")
  }

  function Unreadable(path: string): CheckResult {
    FailedCheck(ErrRemotePermissionDenied, "source path " + path + " is not readable by the configured user")
  }

  function Available(tool: string): CheckResult {
    Passed(tool + " is available")
  }

  function Unavailable(tool: string): CheckResult {
    FailedCheck(ErrRemoteToolMissing, "required remote utility \"" + tool + "\" is not available")
  }

  function Writable(dir: string): CheckResult {
    Passed("remote temporary directory " + dir + " is writable")
  }

  function NotWritable(dir: string): CheckResult {
    FailedCheck(ErrRemotePermissionDenied, "remote temporary directory " + dir + " is not writable")
  }

  function LocalNotCreated(dir: string, text: string): CheckResult {
    FailedCheck(ErrLocalPermissionDenied, "local destination " + dir + " could not be created: " + text)
  }

  function LocalOutcome(dir: string, failure: Option<string>): CheckResult {
    match failure
    case None => Passed("local destination " + dir + " is writable")
    case Some(text) => FailedCheck(ErrLocalPermissionDenied, "local destination " + dir + " is not writable: " + text)
  }

  ghost function Do<S>(env: Env<S>, job: Job, m: Machine<S>, p: Probe): Answer<Machine<S>, CheckResult> {
    match p
    case SourceReadable(path) =>
      var found := Exec(env, m, TestExists(path));
      if !found.value.Ok() then Answer(found.next, Missing(path))
      else Judge(Exec(env, found.next, TestReadable(path)), Readable(path), Unreadable(path))
    case ToolAvailable(tool) => Judge(Exec(env, m, FindTool(tool)), Available(tool), Unavailable(tool))
    case TempWritable => Judge(Exec(env, m, TestWritable(job.remoteDir)), Writable(job.remoteDir),
                               NotWritable(job.remoteDir))
    case RemoteSpace =>
      var size := Exec(env, m, MeasureSources(job.sources));
      var free := Exec(env, size.next, MeasureFree(job.remoteTemp));
      var sizes := m.sizes.(source := Measured(size.value), remoteFree := Measured(free.value));
      Answer(free.next.(sizes := sizes), CheckRemoteFreeSpace(sizes.remoteFree, sizes.source))
    case LocalWritable =>
      var made := env.makeLocalDir(m.state);
      if made.value.Some? then Answer(m.(state := made.next), LocalNotCreated(job.destDir, made.value.value))
      else
        var probed := env.probeLocalDir(made.next);
        Answer(m.(state := probed.next), LocalOutcome(job.destDir, probed.value))
    case LocalSpace =>
      var a := env.localFree(m.state);
      var sizes := m.sizes.(localFree := a.value);
      Answer(m.(state := a.next, sizes := sizes), CheckLocalFreeSpace(job.destDir, sizes.localFree, sizes.source))
  }

  function SourceProbes(sources: seq<string>): (ps: seq<Probe>)
    ensures |ps| == |sources|
  {
    seq(|sources|, i requires 0 <= i < |sources| => SourceReadable(sources[i]))
  }

  const Tools := ["tar", "gzip", "sha256sum"]

  function ToolProbes(tools: seq<string>): (ps: seq<Probe>)
    ensures |ps| == |tools|
  {
    seq(|tools|, i requires 0 <= i < |tools| => ToolAvailable(tools[i]))
  }

  function Plan(job: Job): seq<Probe> {
    SourceProbes(job.sources) + ToolProbes(Tools) + [TempWritable, RemoteSpace, LocalWritable, LocalSpace]
  }

  datatype Outcome<S> = Outcome(machine: Machine<S>, failure: Option<CheckResult>)

  /** Stops at the first failed probe. */
  ghost function FailFast<S>(env: Env<S>, job: Job, m: Machine<S>, plan: seq<Probe>): Outcome<S> {
    if plan == [] then Outcome(m, None)
    else
      var n := |plan| - 1;
      var before := FailFast(env, job, m, plan[..n]);
      if before.failure.Some? then before
      else
        var a := Do(env, job, before.machine, plan[n]);
        Outcome(a.next, if a.value.ok then None else Some(a.value))
  }

  datatype Report<S> = Report(machine: Machine<S>, results: seq<CheckResult>)

  /** Goes on to the end. */
  ghost function ReportAll<S>(env: Env<S>, job: Job, m: Machine<S>, plan: seq<Probe>): (r: Report<S>)
    ensures |r.results| == |plan|
  {
    if plan == [] then Report(m, [])
    else
      var n := |plan| - 1;
      var before := ReportAll(env, job, m, plan[..n]);
      var a := Do(env, job, before.machine, plan[n]);
      Report(a.next, before.results + [a.value])
  }

  // ----- the code -----

  class Session<S> {
    const env: Env<S>
    var state: S
    var commands: seq<string>

    constructor (env: Env<S>, state: S)
      ensures this.env == env && this.state == state && commands == []
    {
      this.env, this.state, commands := env, state, [];
    }

    ghost function At(sizes: Sizes): Machine<S>
      reads this
    {
      Machine(state, commands, sizes)
    }

    /** runOnTransport. */
    method Run(cmd: string) returns (reply: Reply)
      modifies this
      ensures forall sizes :: Answer(At(sizes), reply) == Exec(env, old(At(sizes)), cmd)
    {
      var a := env.run(state, cmd);
      state, commands, reply := a.next, commands + [cmd], a.value;
    }

    method CheckSourceExists(path: string) returns (r: CheckResult)
      modifies this
      ensures forall sizes ::
                Answer(At(sizes), r) ==
                Judge(Exec(env, old(At(sizes)), TestExists(path)), Exists(path), Missing(path))
    {
      hide TestExists, Exists, Missing, Exec;
      var reply := Run(TestExists(path));
      r := if reply.Ok() then Exists(path) else Missing(path);
    }

    method CheckSourceReadable(job: Job, path: string) returns (r: CheckResult)
      modifies this
      ensures forall sizes :: Answer(At(sizes), r) == Do(env, job, old(At(sizes)), SourceReadable(path))
    {
      hide TestExists, TestReadable, Readable, Unreadable, Exec;
      r := CheckSourceExists(path);
      if !r.ok {
        return;
      }
      var reply := Run(TestReadable(path));
      r := if reply.Ok() then Readable(path) else Unreadable(path);
    }

    method CheckToolAvailable(job: Job, tool: string) returns (r: CheckResult)
      modifies this
      ensures forall sizes :: Answer(At(sizes), r) == Do(env, job, old(At(sizes)), ToolAvailable(tool))
    {
      hide FindTool, Available, Unavailable, Exec;
      var reply := Run(FindTool(tool));
      r := if reply.Ok() then Available(tool) else Unavailable(tool);
    }

    method CheckRemoteTempWritable(job: Job) returns (r: CheckResult)
      modifies this
      ensures forall sizes :: Answer(At(sizes), r) == Do(env, job, old(At(sizes)), TempWritable)
    {
      hide TestWritable, Writable, NotWritable, Exec;
      var reply := Run(TestWritable(job.remoteDir));
      r := if reply.Ok() then Writable(job.remoteDir) else NotWritable(job.remoteDir);
    }

    method EstimateSourceSize(sources: seq<string>) returns (size: Option<int>)
      modifies this
      ensures forall sizes :: var a := Exec(env, old(At(sizes)), MeasureSources(sources));
                At(sizes) == a.next && size == Measured(a.value)
    {
      hide Exec, Measured;
      var quoted: seq<string> := [];
      for i := 0 to |sources|
        invariant quoted == QuotedPaths(sources[..i])
        invariant state == old(state) && commands == old(commands)
      {
        quoted := quoted + [ShellQuote(sources[i])];
      }
      assert sources[..|sources|] == sources;
      var reply := Run("du -sb " + Join(quoted, " ") + " 2>/dev/null | awk '{s+=$1} END{print s}'");
      size := Measured(reply);
    }

    method MeasureRemoteFreeSpace(dir: string) returns (free: Option<int>)
      modifies this
      ensures forall sizes :: var a := Exec(env, old(At(sizes)), MeasureFree(dir));
                At(sizes) == a.next && free == Measured(a.value)
    {
      hide Exec, Measured, MeasureFree;
      var reply := Run(MeasureFree(dir));
      free := Measured(reply);
    }

    method CheckLocalDestinationWritable(job: Job) returns (r: CheckResult)
      modifies this`state
      ensures forall sizes :: Answer(At(sizes), r) == Do(env, job, old(At(sizes)), LocalWritable)
    {
      hide LocalOutcome, LocalNotCreated;
      var made := env.makeLocalDir(state);
      state := made.next;
      if made.value.Some? {
        return LocalNotCreated(job.destDir, made.value.value);
      }
      var probed := env.probeLocalDir(state);
      state := probed.next;
      r := LocalOutcome(job.destDir, probed.value);
    }

    method MeasureLocalFreeSpace() returns (free: Option<int>)
      modifies this`state
      ensures Answer(state, free) == env.localFree(old(state))
    {
      var a := env.localFree(state);
      state, free := a.next, a.value;
    }

    /** The two remote measurements and the check on them. */
    method CheckRemoteSpace(job: Job, sizes: Sizes) returns (now: Sizes, r: CheckResult)
      modifies this
      ensures Answer(At(now), r) == Do(env, job, old(At(sizes)), RemoteSpace)
      ensures now.localFree == sizes.localFree
    {
      hide Exec, Measured, MeasureFree, MeasureSources, CheckRemoteFreeSpace;
      var source := EstimateSourceSize(job.sources);
      ghost var measured := At(sizes);
      var free := MeasureRemoteFreeSpace(job.remoteTemp);
      now := sizes.(source := source, remoteFree := free);
      r := CheckRemoteFreeSpace(free, source);
      assert At(sizes) == Exec(env, measured, MeasureFree(job.remoteTemp)).next;
    }

    method CheckLocalSpace(job: Job, sizes: Sizes) returns (now: Sizes, r: CheckResult)
      modifies this`state
      ensures Answer(At(now), r) == Do(env, job, old(At(sizes)), LocalSpace)
      ensures now == sizes.(localFree := now.localFree)
    {
      hide CheckLocalFreeSpace;
      var free := MeasureLocalFreeSpace();
      now := sizes.(localFree := free);
      r := CheckLocalFreeSpace(job.destDir, free, sizes.source);
    }

    /** runPreflight: the first failure, or None with a warning for each size that could not be measured. */
    method RunPreflight(job: Job, redact: string -> string)
      returns (failure: Option<CheckResult>, warnings: seq<Gap>, connected: bool)
      requires commands == []
      modifies this
      ensures Outcome(At(Engine(env, job, old(state), redact).machine.sizes), failure) ==
              Engine(env, job, old(state), redact)
      ensures failure.None? ==> warnings == Gaps(Engine(env, job, old(state), redact).machine.sizes)
      ensures connected == Connects(env, job, old(state)) && (!connected ==> failure.Some? && warnings == [])
    {
      hide FailFast, Do, Plan;
      warnings, connected := [], false;
      if job.invalid.Some? {
        return Some(FailedCheck(ErrInvalidConfig, job.invalid.value)), [], false;
      }
      var c := env.connect(state);
      state := c.next;
      if c.value.Refused? {
        var code := if c.value.code.Some? then c.value.code.value else ErrSSHConnectionFailed;
        return Some(FailedCheck(code, redact(c.value.message))), [], false;
      }
      connected := true;
      ghost var m, plan := At(NoSizes), Plan(job);
      PlanShape(job);
      var k := |job.sources|;
      StartFailFast(env, job, m, plan);
      for i := 0 to k
        invariant FailFast(env, job, m, plan[..i]) == Outcome(At(NoSizes), None)
        invariant At(NoSizes).commands == commands
      {
        ghost var before := At(NoSizes);
        var r := CheckSourceReadable(job, job.sources[i]);
        Advance(env, job, m, plan, i, before, At(NoSizes), r);
        if !r.ok {
          return Some(r), [], true;
        }
      }
      for i := 0 to 3
        invariant FailFast(env, job, m, plan[..k + i]) == Outcome(At(NoSizes), None)
      {
        ghost var before := At(NoSizes);
        var r := CheckToolAvailable(job, Tools[i]);
        Advance(env, job, m, plan, k + i, before, At(NoSizes), r);
        if !r.ok {
          return Some(r), [], true;
        }
      }
      ghost var before := At(NoSizes);
      var r := CheckRemoteTempWritable(job);
      Advance(env, job, m, plan, k + 3, before, At(NoSizes), r);
      if !r.ok {
        return Some(r), [], true;
      }
      failure, warnings := SpaceAndDestination(job, m);
    }

    /** The second half of runPreflight: sizes, free space and the local destination. */
    method SpaceAndDestination(job: Job, ghost m: Machine<S>) returns (failure: Option<CheckResult>, warnings: seq<Gap>)
      requires |Plan(job)| == |job.sources| + 7
      requires FailFast(env, job, m, Plan(job)[..|job.sources| + 4]) == Outcome(At(NoSizes), None)
      modifies this
      ensures Outcome(At(FailFast(env, job, m, Plan(job)).machine.sizes), failure) == FailFast(env, job, m, Plan(job))
      ensures failure.None? ==> warnings == Gaps(FailFast(env, job, m, Plan(job)).machine.sizes)
    {
      hide FailFast, Do, Plan;
      PlanShape(job);
      ghost var plan, k := Plan(job), |job.sources| + 4;
      warnings := [];
      ghost var before := At(NoSizes);
      var sizes, r := CheckRemoteSpace(job, NoSizes);
      if sizes.source.None? {
        warnings := warnings + [NoSourceSize];
      }
      Advance(env, job, m, plan, k, before, At(sizes), r);
      if !r.ok {
        return Some(r), warnings;
      } else if sizes.remoteFree.None? {
        warnings := warnings + [NoRemoteFree];
      }
      before := At(sizes);
      r := CheckLocalDestinationWritable(job);
      Advance(env, job, m, plan, k + 1, before, At(sizes), r);
      if !r.ok {
        return Some(r), warnings;
      }
      before := At(sizes);
      sizes, r := CheckLocalSpace(job, sizes);
      Advance(env, job, m, plan, k + 2, before, At(sizes), r);
      if !r.ok {
        return Some(r), warnings;
      } else if sizes.localFree.None? {
        warnings := warnings + [NoLocalFree];
      }
      assert plan[..k + 3] == plan;
      return None, warnings;
    }

    /** Validate: every check is run and reported, and success means that all of them passed. */
    method Validate(job: Job) returns (result: ValidateResult)
      requires commands == []
      modifies this
      ensures result == Validation(env, job, old(state)).result && commands == Validation(env, job, old(state)).commands
    {
      hide ReportAll, Do, Plan, Outcomes, Reported, NameOf;
      result := ValidateResult(true, [], NoSizes);
      if job.invalid.Some? {
        result := Add(result, "configuration", FailedCheck(ErrInvalidConfig, job.invalid.value));
        return;
      }
      result := Add(result, "configuration", ValidConfig);
      var c := env.connect(state);
      state := c.next;
      if c.value.Refused? {
        var code := if c.value.code.Some? then c.value.code.value else ErrSSHConnectionFailed;
        result := Add(result, "ssh_connection", FailedCheck(code, c.value.message));
        return;
      }
      result := Add(result, "ssh_connection", SshConnected);
      assert result == Opening;
      ghost var m, plan, first := At(NoSizes), Plan(job), Opening;
      PlanShape(job);
      var k := |job.sources|;
      StartReport(env, job, m, plan, first);
      for i := 0 to k
        invariant Reported(env, job, m, plan, i, first, At(NoSizes), result) && result.sizes == NoSizes
      {
        ghost var before := At(NoSizes);
        var r := CheckSourceReadable(job, job.sources[i]);
        ReportMore(env, job, m, plan, i, first, before, At(NoSizes), result, r);
        result := Add(result, NameOf(SourceReadable(job.sources[i])), r);
      }
      for i := 0 to 3
        invariant Reported(env, job, m, plan, k + i, first, At(NoSizes), result) && result.sizes == NoSizes
      {
        ghost var before := At(NoSizes);
        var r := CheckToolAvailable(job, Tools[i]);
        ReportMore(env, job, m, plan, k + i, first, before, At(NoSizes), result, r);
        result := Add(result, NameOf(ToolAvailable(Tools[i])), r);
      }
      ghost var before := At(NoSizes);
      var r := CheckRemoteTempWritable(job);
      ReportMore(env, job, m, plan, k + 3, first, before, At(NoSizes), result, r);
      result := Add(result, NameOf(TempWritable), r);
      result := ReportSpace(job, result, m, first);
      WholeReport(env, job, old(state), m, At(result.sizes), result);
    }

    method ReportSpace(job: Job, soFar: ValidateResult, ghost m: Machine<S>, ghost first: ValidateResult)
      returns (result: ValidateResult)
      requires |Plan(job)| == |job.sources| + 7
      requires Reported(env, job, m, Plan(job), |job.sources| + 4, first, At(NoSizes), soFar)
      modifies this
      ensures Reported(env, job, m, Plan(job), |Plan(job)|, first, At(result.sizes), result.(sizes := soFar.sizes))
    {
      hide ReportAll, Do, Plan, Outcomes, Reported, NameOf;
      PlanShape(job);
      ghost var plan, k := Plan(job), |job.sources| + 4;
      result := soFar;
      ghost var before := At(NoSizes);
      var sizes, r := CheckRemoteSpace(job, NoSizes);
      ReportMore(env, job, m, plan, k, first, before, At(sizes), result, r);
      result := Add(result, NameOf(RemoteSpace), r);
      before := At(sizes);
      r := CheckLocalDestinationWritable(job);
      ReportMore(env, job, m, plan, k + 1, first, before, At(sizes), result, r);
      result := Add(result, NameOf(LocalWritable), r);
      before := At(sizes);
      sizes, r := CheckLocalSpace(job, sizes);
      ReportMore(env, job, m, plan, k + 2, first, before, At(sizes), result, r);
      result := Add(result, NameOf(LocalSpace), r);
      result := result.(sizes := sizes);
    }
  }

  // ----- the two forms as functions of the environment -----

  /** A size that could not be measured, which preflight turns into a warning. */
  datatype Gap = NoSourceSize | NoRemoteFree | NoLocalFree

  function Gaps(sizes: Sizes): (gaps: seq<Gap>)
    ensures NoSourceSize in gaps <==> sizes.source.None?
    ensures NoRemoteFree in gaps <==> sizes.remoteFree.None?
    ensures NoLocalFree in gaps <==> sizes.localFree.None?
  {
    (if sizes.source.None? then [NoSourceSize] else [])
    + (if sizes.remoteFree.None? then [NoRemoteFree] else [])
    + (if sizes.localFree.None? then [NoLocalFree] else [])
  }

  const NoSizes := Sizes(None, None, None)
  const ValidConfig := Passed("job configuration is valid")
  const SshConnected := Passed("connected and authenticated")

  ghost predicate Connects<S>(env: Env<S>, job: Job, s: S) {
    job.invalid.None? && env.connect(s).value.Connected?
  }

  /** The connection error as preflight reports it is redacted. */
  ghost function Engine<S>(env: Env<S>, job: Job, s: S, redact: string -> string): Outcome<S> {
    if job.invalid.Some? then Outcome(Machine(s, [], NoSizes), Some(FailedCheck(ErrInvalidConfig, job.invalid.value)))
    else
      var c := env.connect(s);
      match c.value
      case Refused(code, message) =>
        Outcome(Machine(c.next, [], NoSizes),
                Some(FailedCheck(if code.Some? then code.value else ErrSSHConnectionFailed, redact(message))))
      case Connected => FailFast(env, job, Machine(c.next, [], NoSizes), Plan(job))
  }

  datatype CheckOutcome = CheckOutcome(name: string, passed: bool, message: string)

  datatype ValidateResult = ValidateResult(success: bool, checks: seq<CheckOutcome>, sizes: Sizes)

  function Add(result: ValidateResult, name: string, r: CheckResult): ValidateResult {
    result.(checks := result.checks + [CheckOutcome(name, r.ok, r.message)], success := result.success && r.ok)
  }

  function NameOf(p: Probe): string {
    match p
    case SourceReadable(path) => "source:" + path
    case ToolAvailable(tool) => "tool:" + tool
    case TempWritable => "remote_temp_writable"
    case RemoteSpace => "remote_free_space"
    case LocalWritable => "local_destination_writable"
    case LocalSpace => "local_free_space"
  }

  function Outcomes(plan: seq<Probe>, results: seq<CheckResult>): (checks: seq<CheckOutcome>)
    requires |results| == |plan|
    ensures |checks| == |plan|
  {
    seq(|plan|, i requires 0 <= i < |plan| => CheckOutcome(NameOf(plan[i]), results[i].ok, results[i].message))
  }

  predicate AllOk(results: seq<CheckResult>) {
    forall i :: 0 <= i < |results| ==> results[i].ok
  }

  datatype Validated = Validated(result: ValidateResult, commands: seq<string>)

  const Config := CheckOutcome("configuration", true, ValidConfig.message)
  const Ssh := CheckOutcome("ssh_connection", true, SshConnected.message)

  const Opening := ValidateResult(true, [Config, Ssh], NoSizes)

  ghost function Validation<S>(env: Env<S>, job: Job, s: S): Validated {
    if job.invalid.Some? then
      Validated(ValidateResult(false, [CheckOutcome("configuration", false, job.invalid.value)], NoSizes), [])
    else
      var c := env.connect(s);
      match c.value
      case Refused(_, message) =>
        Validated(ValidateResult(false, [Config, CheckOutcome("ssh_connection", false, message)], NoSizes), [])
      case Connected =>
        var r := ReportAll(env, job, Machine(c.next, [], NoSizes), Plan(job));
        Validated(ValidateResult(AllOk(r.results), [Config, Ssh] + Outcomes(Plan(job), r.results), r.machine.sizes),
                  r.machine.commands)
  }

  lemma PlanShape(job: Job)
    ensures var k, plan := |job.sources|, Plan(job);
            && |plan| == k + 7
            && (forall i :: 0 <= i < k ==> plan[i] == SourceReadable(job.sources[i]))
            && (forall i :: 0 <= i < 3 ==> plan[k + i] == ToolAvailable(Tools[i]))
            && plan[k + 3] == TempWritable && plan[k + 4] == RemoteSpace
            && plan[k + 5] == LocalWritable && plan[k + 6] == LocalSpace
  {
  }

  lemma StartFailFast<S>(env: Env<S>, job: Job, m: Machine<S>, plan: seq<Probe>)
    ensures FailFast(env, job, m, plan[..0]) == Outcome(m, None)
  {
  }

  /** One more probe: a pass goes on, a failure is the outcome of the whole plan. */
  lemma Advance<S>(env: Env<S>, job: Job, m: Machine<S>, plan: seq<Probe>, i: nat, before: Machine<S>,
                   after: Machine<S>, r: CheckResult)
    requires i < |plan| && FailFast(env, job, m, plan[..i]) == Outcome(before, None)
    requires Answer(after, r) == Do(env, job, before, plan[i])
    ensures r.ok ==> FailFast(env, job, m, plan[..i + 1]) == Outcome(after, None)
    ensures !r.ok ==> FailFast(env, job, m, plan) == Outcome(after, Some(r))
  {
    hide Do;
    assert plan[..i + 1][..i] == plan[..i];
    if !r.ok {
      FailureIsFinal(env, job, m, plan, i + 1, |plan|);
      assert plan[..|plan|] == plan;
    }
  }

  lemma {:induction false} FailureIsFinal<S>(env: Env<S>, job: Job, m: Machine<S>, plan: seq<Probe>, i: nat, n: nat)
    requires i <= n <= |plan| && FailFast(env, job, m, plan[..i]).failure.Some?
    ensures FailFast(env, job, m, plan[..n]) == FailFast(env, job, m, plan[..i])
    decreases n
  {
    hide Do;
    if i < n {
      FailureIsFinal(env, job, m, plan, i, n - 1);
      assert plan[..n][..n - 1] == plan[..n - 1];
    }
  }

  /** After i probes, the result is what came first plus the outcomes of those probes. */
  ghost predicate Reported<S>(env: Env<S>, job: Job, m: Machine<S>, plan: seq<Probe>, i: nat, first: ValidateResult,
                              now: Machine<S>, result: ValidateResult)
  {
    && i <= |plan|
    && var r := ReportAll(env, job, m, plan[..i]);
       && r.machine == now
       && result == ValidateResult(first.success && AllOk(r.results), first.checks + Outcomes(plan[..i], r.results),
                                   first.sizes)
  }

  lemma StartReport<S>(env: Env<S>, job: Job, m: Machine<S>, plan: seq<Probe>, first: ValidateResult)
    ensures Reported(env, job, m, plan, 0, first, m, first)
  {
    assert first.checks + [] == first.checks;
  }

  lemma ReportMore<S>(env: Env<S>, job: Job, m: Machine<S>, plan: seq<Probe>, i: nat, first: ValidateResult,
                      before: Machine<S>, after: Machine<S>, result: ValidateResult, r: CheckResult)
    requires i < |plan| && Reported(env, job, m, plan, i, first, before, result)
    requires Answer(after, r) == Do(env, job, before, plan[i])
    ensures Reported(env, job, m, plan, i + 1, first, after, Add(result, NameOf(plan[i]), r))
  {
    hide Do, NameOf;
    assert plan[..i + 1][..i] == plan[..i];
    var earlier, longer := ReportAll(env, job, m, plan[..i]).results, ReportAll(env, job, m, plan[..i + 1]).results;
    assert longer == earlier + [r];
    assert Outcomes(plan[..i + 1], longer) ==
           Outcomes(plan[..i], earlier) + [CheckOutcome(NameOf(plan[i]), r.ok, r.message)];
    assert AllOk(longer) <==> AllOk(earlier) && r.ok by {
      assert longer[|earlier|] == r;
      assert forall j :: 0 <= j < |earlier| ==> longer[j] == earlier[j];
    }
  }

  lemma WholeReport<S>(env: Env<S>, job: Job, s: S, m: Machine<S>, now: Machine<S>, result: ValidateResult)
    requires job.invalid.None? && env.connect(s) == Answer(m.state, Connected) && m == Machine(m.state, [], NoSizes)
    requires Reported(env, job, m, Plan(job), |Plan(job)|, Opening, now, result.(sizes := NoSizes))
             && result.sizes == now.sizes
    ensures Validation(env, job, s) == Validated(result, now.commands)
  {
    hide ReportAll, Plan, Outcomes;
    assert Plan(job)[..|Plan(job)|] == Plan(job);
  }

  // ----- fail-fast refines report-all -----

  ghost predicate FirstBad(results: seq<CheckResult>, k: nat) {
    k < |results| && !results[k].ok && forall i :: 0 <= i < k ==> results[i].ok
  }

  /** Over any plan: same verdict, commands a prefix, the failure the first one reported. */
  lemma {:induction false} PlanRefines<S>(env: Env<S>, job: Job, m: Machine<S>, plan: seq<Probe>)
    ensures var f, v := FailFast(env, job, m, plan), ReportAll(env, job, m, plan);
            && (f.failure.None? <==> AllOk(v.results))
            && f.machine.commands <= v.machine.commands
            && (f.failure.None? ==> f.machine == v.machine)
            && (f.failure.Some? ==> exists k: nat :: FirstBad(v.results, k) && v.results[k] == f.failure.value)
  {
    if plan != [] {
      var n := |plan| - 1;
      PlanRefines(env, job, m, plan[..n]);
      var f, v := FailFast(env, job, m, plan[..n]), ReportAll(env, job, m, plan[..n]);
      var a := Do(env, job, v.machine, plan[n]);
      CommandsGrow(env, job, v.machine, plan[n]);
      hide Do;
      var results := ReportAll(env, job, m, plan).results;
      assert results == v.results + [a.value];
      if f.failure.Some? {
        var k: nat :| FirstBad(v.results, k) && v.results[k] == f.failure.value;
        assert FirstBad(results, k) && results[k] == f.failure.value;
      } else if !a.value.ok {
        assert FirstBad(results, n) && results[n] == a.value;
      }
    }
  }

  lemma CommandsGrow<S>(env: Env<S>, job: Job, m: Machine<S>, p: Probe)
    ensures m.commands <= Do(env, job, m, p).next.commands
  {
  }

  ghost predicate FirstFailed(checks: seq<CheckOutcome>, k: nat) {
    k < |checks| && !checks[k].passed && forall i :: 0 <= i < k ==> checks[i].passed
  }

  /**
   * Against any deterministic environment, preflight succeeds exactly when Validate does, its
   * remote commands are a prefix of Validate's, and its message is that of Validate's first failed
   * check, redacted when that is the connection.
   */
  lemma PreflightRefinesValidate<S>(env: Env<S>, job: Job, s: S, redact: string -> string)
    ensures var f, v := Engine(env, job, s, redact), Validation(env, job, s);
            && (f.failure.None? <==> v.result.success)
            && f.machine.commands <= v.commands
            && (f.failure.None? ==> f.machine.commands == v.commands && f.machine.sizes == v.result.sizes)
            && (f.failure.Some? ==>
                  exists k: nat ::
                    && FirstFailed(v.result.checks, k)
                    && f.failure.value.message == Shown(v.result.checks[k], redact))
  {
    var f, v := Engine(env, job, s, redact), Validation(env, job, s);
    var checks := v.result.checks;
    if job.invalid.Some? {
      assert FirstFailed(checks, 0) && f.failure.value.message == Shown(checks[0], redact);
    } else if env.connect(s).value.Refused? {
      assert FirstFailed(checks, 1) && f.failure.value.message == Shown(checks[1], redact);
    } else {
      ConnectedRefines(env, job, Machine(env.connect(s).next, [], NoSizes), redact);
    }
  }

  ghost function Shown(check: CheckOutcome, redact: string -> string): string {
    if check.name == "ssh_connection" then redact(check.message) else check.message
  }

  lemma ConnectedRefines<S>(env: Env<S>, job: Job, m: Machine<S>, redact: string -> string)
    ensures var f, v := FailFast(env, job, m, Plan(job)), ReportAll(env, job, m, Plan(job));
            var checks := [Config, Ssh] + Outcomes(Plan(job), v.results);
            && (f.failure.None? <==> AllOk(v.results))
            && f.machine.commands <= v.machine.commands
            && (f.failure.None? ==> f.machine == v.machine)
            && (f.failure.Some? ==>
                  exists k: nat :: FirstFailed(checks, k) && f.failure.value.message == Shown(checks[k], redact))
  {
    PlanRefines(env, job, m, Plan(job));
    hide FailFast, ReportAll, Plan;
    var plan, f, v := Plan(job), FailFast(env, job, m, Plan(job)), ReportAll(env, job, m, Plan(job));
    if f.failure.Some? {
      var k: nat :| FirstBad(v.results, k) && v.results[k] == f.failure.value;
      var checks := [Config, Ssh] + Outcomes(plan, v.results);
      assert checks[k + 2] == Outcomes(plan, v.results)[k];
      assert FirstFailed(checks, k + 2);
      NotTheConnection(plan[k]);
      assert f.failure.value.message == Shown(checks[k + 2], redact);
    }
  }

  lemma NotTheConnection(p: Probe)
    ensures NameOf(p) != "ssh_connection"
  {
    assert NameOf(p)[0] == 's' ==> NameOf(p)[1] == 'o';
  }

  // ----- what a passed preflight means -----

  /** The outside, when its answers depend on the question and not on what was asked before. */
  datatype Host = Host(reply: string -> Reply, makeLocalDir: Option<string>, probeLocalDir: Option<string>,
                       localFree: Option<int>)

  ghost predicate Steady<S(!new)>(env: Env<S>, host: Host) {
    && (forall s, c :: env.run(s, c).value == host.reply(c))
    && (forall s :: env.makeLocalDir(s).value == host.makeLocalDir)
    && (forall s :: env.probeLocalDir(s).value == host.probeLocalDir)
    && (forall s :: env.localFree(s).value == host.localFree)
  }

  ghost predicate TooLarge(size: Option<int>, free: Option<int>) {
    size.Some? && free.Some? && size.value > free.value
  }

  /** Nothing stands in the way of a backup of this job. */
  ghost predicate Prepared(job: Job, host: Host) {
    var size := Measured(host.reply(MeasureSources(job.sources)));
    && (forall path :: path in job.sources ==>
          host.reply(TestExists(path)).Ok() && host.reply(TestReadable(path)).Ok())
    && host.reply(FindTool("tar")).Ok() && host.reply(FindTool("gzip")).Ok() && host.reply(FindTool("sha256sum")).Ok()
    && host.reply(TestWritable(job.remoteDir)).Ok()
    && !TooLarge(size, Measured(host.reply(MeasureFree(job.remoteTemp))))
    && host.makeLocalDir.None? && host.probeLocalDir.None?
    && !TooLarge(size, host.localFree)
  }

  ghost predicate ProbePasses(job: Job, host: Host, p: Probe, size: Option<int>) {
    match p
    case SourceReadable(path) => host.reply(TestExists(path)).Ok() && host.reply(TestReadable(path)).Ok()
    case ToolAvailable(tool) => host.reply(FindTool(tool)).Ok()
    case TempWritable => host.reply(TestWritable(job.remoteDir)).Ok()
    case RemoteSpace => !TooLarge(Measured(host.reply(MeasureSources(job.sources))),
                                  Measured(host.reply(MeasureFree(job.remoteTemp))))
    case LocalWritable => host.makeLocalDir.None? && host.probeLocalDir.None?
    case LocalSpace => !TooLarge(size, host.localFree)
  }

  lemma SteadyProbe<S(!new)>(env: Env<S>, host: Host, job: Job, m: Machine<S>, p: Probe)
    requires Steady(env, host)
    ensures Do(env, job, m, p).value.ok <==> ProbePasses(job, host, p, m.sizes.source)
    ensures Do(env, job, m, p).next.sizes.source ==
            if p == RemoteSpace then Measured(host.reply(MeasureSources(job.sources))) else m.sizes.source
  {
    hide TestExists, TestReadable, FindTool, TestWritable, MeasureSources, MeasureFree, Measured, Itoa;
  }

  /** Every check is judged in the state that the checks before it left. */
  lemma {:induction false} ResultAt<S>(env: Env<S>, job: Job, m: Machine<S>, plan: seq<Probe>, i: nat)
    requires i < |plan|
    ensures ReportAll(env, job, m, plan).results[i] ==
            Do(env, job, ReportAll(env, job, m, plan[..i]).machine, plan[i]).value
    ensures ReportAll(env, job, m, plan[..i + 1]).machine ==
            Do(env, job, ReportAll(env, job, m, plan[..i]).machine, plan[i]).next
  {
    hide Do;
    var n := |plan| - 1;
    assert plan[..i + 1][..i] == plan[..i];
    if i < n {
      assert plan[..n][..i] == plan[..i];
      ResultAt(env, job, m, plan[..n], i);
    }
  }

  /** When the local space is checked, the source size is the one measured for the remote check. */
  lemma SizeAtLocalCheck<S(!new)>(env: Env<S>, host: Host, job: Job, m: Machine<S>)
    requires Steady(env, host)
    ensures |Plan(job)| == |job.sources| + 7
    ensures ReportAll(env, job, m, Plan(job)[..|job.sources| + 6]).machine.sizes.source ==
            Measured(host.reply(MeasureSources(job.sources)))
  {
    hide ReportAll, Do, Steady, Plan, MeasureSources, Measured;
    PlanShape(job);
    var k, plan := |job.sources|, Plan(job);
    ResultAt(env, job, m, plan, k + 4);
    ResultAt(env, job, m, plan, k + 5);
    SteadyProbe(env, host, job, ReportAll(env, job, m, plan[..k + 4]).machine, plan[k + 4]);
    SteadyProbe(env, host, job, ReportAll(env, job, m, plan[..k + 5]).machine, plan[k + 5]);
  }

  lemma PlanPassesIff<S(!new)>(env: Env<S>, host: Host, job: Job, m: Machine<S>)
    requires Steady(env, host)
    ensures AllOk(ReportAll(env, job, m, Plan(job)).results) <==> Prepared(job, host)
  {
    hide ReportAll, Do, Steady, Plan, TestExists, TestReadable, FindTool, TestWritable, MeasureSources, MeasureFree;
    hide Measured, TooLarge;
    PlanShape(job);
    SizeAtLocalCheck(env, host, job, m);
    var k, plan, r := |job.sources|, Plan(job), ReportAll(env, job, m, Plan(job)).results;
    var size := Measured(host.reply(MeasureSources(job.sources)));
    forall i | 0 <= i < |plan|
      ensures r[i].ok <==> ProbePasses(job, host, plan[i], size)
    {
      ResultAt(env, job, m, plan, i);
      SteadyProbe(env, host, job, ReportAll(env, job, m, plan[..i]).machine, plan[i]);
      assert k <= i < k + 3 ==> plan[k + (i - k)] == ToolAvailable(Tools[i - k]);
      assert i != k + 6 ==> plan[i] != LocalSpace;
    }
    assert forall i :: 0 <= i < k ==> plan[i] == SourceReadable(job.sources[i]);
    assert Tools[0] == "tar" && Tools[1] == "gzip" && Tools[2] == "sha256sum";
    assert plan[k] == ToolAvailable("tar") && plan[k + 1] == ToolAvailable("gzip");
    assert plan[k + 2] == ToolAvailable("sha256sum");
  }

  /**
   * On a steady host, preflight lets the run go on if and only if the configuration is valid, the connection
   * opens and nothing stands in the way.
   */
  lemma PreflightPassesIff<S(!new)>(env: Env<S>, host: Host, job: Job, s: S, redact: string -> string)
    requires Steady(env, host)
    ensures Engine(env, job, s, redact).failure.None? <==> Connects(env, job, s) && Prepared(job, host)
    ensures Validation(env, job, s).result.success <==> Connects(env, job, s) && Prepared(job, host)
  {
    hide Steady, Prepared, FailFast, ReportAll;
    if Connects(env, job, s) {
      var m := Machine(env.connect(s).next, [], NoSizes);
      PlanPassesIff(env, host, job, m);
      PlanRefines(env, job, m, Plan(job));
    }
  }

  // ----- only check commands are issued -----

  /** The commands that the checks of a job may issue. */
  ghost predicate IsCheckCommand(job: Job, c: string) {
    || (exists path :: path in job.sources && (c == TestExists(path) || c == TestReadable(path)))
    || (exists tool :: tool in Tools && c == FindTool(tool))
    || c == TestWritable(job.remoteDir) || c == MeasureSources(job.sources) || c == MeasureFree(job.remoteTemp)
  }

  ghost predicate OnlyChecks(job: Job, commands: seq<string>) {
    forall i :: 0 <= i < |commands| ==> IsCheckCommand(job, commands[i])
  }

  lemma OneMoreCheck(job: Job, commands: seq<string>, c: string)
    requires OnlyChecks(job, commands) && IsCheckCommand(job, c)
    ensures OnlyChecks(job, commands + [c])
  {
    hide IsCheckCommand;
  }

  lemma PlanMember(job: Job, p: Probe)
    requires p in Plan(job)
    ensures p.SourceReadable? ==> p.path in job.sources
    ensures p.ToolAvailable? ==> p.tool in Tools
  {
    PlanShape(job);
  }

  lemma ProbeIssuesChecks<S>(env: Env<S>, job: Job, m: Machine<S>, p: Probe)
    requires OnlyChecks(job, m.commands) && p in Plan(job)
    ensures OnlyChecks(job, Do(env, job, m, p).next.commands)
  {
    hide TestExists, TestReadable, FindTool, TestWritable, MeasureSources, MeasureFree, OnlyChecks, Plan, Measured;
    PlanMember(job, p);
    match p
    case SourceReadable(path) =>
      OneMoreCheck(job, m.commands, TestExists(path));
      OneMoreCheck(job, m.commands + [TestExists(path)], TestReadable(path));
    case ToolAvailable(tool) =>
      OneMoreCheck(job, m.commands, FindTool(tool));
    case TempWritable => OneMoreCheck(job, m.commands, TestWritable(job.remoteDir));
    case RemoteSpace =>
      OneMoreCheck(job, m.commands, MeasureSources(job.sources));
      OneMoreCheck(job, m.commands + [MeasureSources(job.sources)], MeasureFree(job.remoteTemp));
    case _ =>
  }

  lemma {:induction false} PlanIssuesChecks<S>(env: Env<S>, job: Job, m: Machine<S>, n: nat)
    requires OnlyChecks(job, m.commands) && n <= |Plan(job)|
    ensures OnlyChecks(job, ReportAll(env, job, m, Plan(job)[..n]).machine.commands)
  {
    hide IsCheckCommand, Plan, Do;
    if n > 0 {
      var plan := Plan(job);
      PlanIssuesChecks(env, job, m, n - 1);
      assert plan[..n][..n - 1] == plan[..n - 1];
      ProbeIssuesChecks(env, job, ReportAll(env, job, m, plan[..n - 1]).machine, plan[n - 1]);
    }
  }

  /** Neither form ever sends anything but the checks' own commands, so no user script runs. */
  lemma OnlyCheckCommands<S>(env: Env<S>, job: Job, s: S, redact: string -> string)
    ensures OnlyChecks(job, Validation(env, job, s).commands)
    ensures OnlyChecks(job, Engine(env, job, s, redact).machine.commands)
  {
    PreflightRefinesValidate(env, job, s, redact);
    hide IsCheckCommand, Plan, ReportAll, FailFast;
    if job.invalid.None? && env.connect(s).value.Connected? {
      PlanIssuesChecks(env, job, Machine(env.connect(s).next, [], NoSizes), |Plan(job)|);
      assert Plan(job)[..|Plan(job)|] == Plan(job);
    }
  }

  // ----- when each check fails, and with which code -----

  /** A source passes exactly when both its tests exit 0; a missing one and an unreadable one differ in code. */
  lemma SourceVerdict<S>(env: Env<S>, job: Job, m: Machine<S>, path: string)
    ensures var first := env.run(m.state, TestExists(path));
            var second := env.run(first.next, TestReadable(path));
            var r := Do(env, job, m, SourceReadable(path)).value;
            var exists' := first.value.Exited? && first.value.code == 0;
            && (r.ok <==> exists' && second.value.Exited? && second.value.code == 0)
            && (!exists' ==> r.code == ErrRemoteSourceNotFound)
            && (exists' && !r.ok ==> r.code == ErrRemotePermissionDenied)
  {
    hide TestExists, TestReadable, Readable, Unreadable;
    assert !Unreadable(path).ok && Unreadable(path).code == ErrRemotePermissionDenied && Readable(path).ok by {
      Texts(path);
    }
  }

  lemma Texts(path: string)
    ensures Readable(path).ok && !Unreadable(path).ok && Unreadable(path).code == ErrRemotePermissionDenied
  {
  }

  /** A tool and the temporary directory pass exactly when their command exits 0. */
  lemma RemoteVerdicts<S>(env: Env<S>, job: Job, m: Machine<S>, tool: string)
    ensures var reply := env.run(m.state, FindTool(tool)).value;
            var r := Do(env, job, m, ToolAvailable(tool)).value;
            (r.ok <==> reply.Exited? && reply.code == 0) && (!r.ok ==> r.code == ErrRemoteToolMissing)
    ensures var reply := env.run(m.state, TestWritable(job.remoteDir)).value;
            var r := Do(env, job, m, TempWritable).value;
            (r.ok <==> reply.Exited? && reply.code == 0) && (!r.ok ==> r.code == ErrRemotePermissionDenied)
  {
    hide FindTool, TestWritable;
  }

  /** The remote check fails exactly when both sizes are known and the sources are larger than the free space. */
  lemma RemoteSpaceVerdict<S>(env: Env<S>, job: Job, m: Machine<S>)
    ensures var a := Do(env, job, m, RemoteSpace);
            var sizes := a.next.sizes;
            && (!a.value.ok <==>
                sizes.source.Some? && sizes.remoteFree.Some? && sizes.source.value > sizes.remoteFree.value)
            && (!a.value.ok ==> a.value.code == ErrRemoteNoSpace)
    ensures var du := env.run(m.state, MeasureSources(job.sources));
            var df := env.run(du.next, MeasureFree(job.remoteTemp));
            Do(env, job, m, RemoteSpace).next.sizes ==
            Sizes(Measured(du.value), Measured(df.value), m.sizes.localFree)
  {
    hide MeasureSources, MeasureFree, Measured, Itoa;
  }

  /** The same for the local volume, against the source size measured before. */
  lemma LocalVerdicts<S>(env: Env<S>, job: Job, m: Machine<S>)
    ensures var a := Do(env, job, m, LocalSpace);
            var free := env.localFree(m.state).value;
            && (!a.value.ok <==> m.sizes.source.Some? && free.Some? && m.sizes.source.value > free.value)
            && (!a.value.ok ==> a.value.code == ErrLocalNoSpace)
            && a.next.sizes == Sizes(m.sizes.source, m.sizes.remoteFree, free)
    ensures var made := env.makeLocalDir(m.state);
            var r := Do(env, job, m, LocalWritable).value;
            && (r.ok <==> made.value.None? && env.probeLocalDir(made.next).value.None?)
            && (!r.ok ==> r.code == ErrLocalPermissionDenied)
  {
    hide Itoa;
  }

  /** A measurement is the number the command printed, blanks around it ignored; a failed command gives none. */
  lemma MeasuredIsPrinted(before: string, n: int, after: string)
    requires IsInt(n) && (forall i :: 0 <= i < |before| ==> IsSpace(before[i]))
    requires forall i :: 0 <= i < |after| ==> IsSpace(after[i])
    ensures Measured(Exited(0, before + Itoa(n) + after)) == Some(n)
  {
    hide IsSpace, Itoa, Atoi, TrimSpace;
    ItoaParses(n);
    ItoaEnds(n);
    TrimBoth(before, Itoa(n), after);
  }

  lemma FailedIsUnknown(reply: Reply)
    ensures !(reply.Exited? && reply.code == 0) ==> Measured(reply).None?
  {
  }

  lemma ItoaEnds(n: int)
    ensures Itoa(n) != "" && !IsSpace(Itoa(n)[0]) && !IsSpace(Itoa(n)[|Itoa(n)| - 1])
  {
    hide ParseDigits, Decimal;
    DecimalParses(if n < 0 then -n else n);
  }

  lemma {:induction false} TrimBoth(before: string, core: string, after: string)
    requires core != "" && !IsSpace(core[0]) && !IsSpace(core[|core| - 1])
    requires forall i :: 0 <= i < |before| ==> IsSpace(before[i])
    requires forall i :: 0 <= i < |after| ==> IsSpace(after[i])
    ensures TrimSpace(before + core + after) == core
    decreases |before| + |after|
  {
    hide IsSpace;
    var s := before + core + after;
    if before != "" {
      assert s[1..] == before[1..] + core + after;
      TrimBoth(before[1..], core, after);
    } else if after != "" {
      assert s[0] == core[0];
      assert s[..|s| - 1] == before + core + after[..|after| - 1];
      TrimBoth(before, core, after[..|after| - 1]);
    } else {
      assert s == core;
    }
  }

  // ----- what a shell reads in the commands -----

  /** The checks' commands read as the intended words. */
  lemma TestCommandsRead(path: string, tool: string)
    requires Commands.NulFree(path) && Commands.NulFree(tool)
    ensures Lex(TestExists(path)) == Some(Words(["test", "-e", path]))
    ensures Lex(TestReadable(path)) == Some(Words(["test", "-r", path]))
    ensures Lex(FindTool(tool)) == Some(Words(["command", "-v", tool]))
  {
    hide Reads, ShellQuote, Lex, Words;
    Commands.Name("test");
    Commands.Name("-e");
    Commands.Name("-r");
    Commands.Name("command");
    Commands.Name("-v");
    Commands.Arg(path);
    Commands.Arg(tool);
    Commands.ThreeWords("test", "test", "-e", "-e", ShellQuote(path), path);
    Commands.ThreeWords("test", "test", "-r", "-r", ShellQuote(path), path);
    Commands.ThreeWords("command", "command", "-v", "-v", ShellQuote(tool), tool);
    assert "test" + " " + "-e" + " " == "test -e " && "test" + " " + "-r" + " " == "test -r ";
    assert "command" + " " + "-v" + " " == "command -v ";
    ReadsLex(TestExists(path), Words(["test", "-e", path]));
    ReadsLex(TestReadable(path), Words(["test", "-r", path]));
    ReadsLex(FindTool(tool), Words(["command", "-v", tool]));
  }

  lemma WritableCommandReads(dir: string)
    requires Commands.NulFree(dir)
    ensures Lex(TestWritable(dir)) ==
            Some(Words(["mkdir", "-p", dir]) + [Operator("&&")] + Words(["test", "-w", dir]))
  {
    hide Reads, ShellQuote, Lex, Words;
    Commands.Name("test");
    Commands.Name("-w");
    Commands.Arg(dir);
    Commands.MkdirReads(dir);
    Commands.ThreeWords("test", "test", "-w", "-w", ShellQuote(dir), dir);
    var a, b := "mkdir" + " " + "-p" + " " + ShellQuote(dir), "test" + " " + "-w" + " " + ShellQuote(dir);
    Commands.Operated(a, Words(["mkdir", "-p", dir]), " && ", "&&", b, Words(["test", "-w", dir]));
    assert "mkdir" + " " + "-p" + " " == "mkdir -p " && " && " + ("test" + " " + "-w" + " ") == " && test -w ";
    assert TestWritable(dir) == a + " && " + b;
    ReadsLex(a + " && " + b, Words(["mkdir", "-p", dir]) + [Operator("&&")] + Words(["test", "-w", dir]));
  }

  lemma FreeText(dir: string)
    ensures MeasureFree(dir) ==
            "df" + " " + "-B1" + " " + "--output=avail" + " " + ShellQuote(dir) + " | " + ("tail" + " " + "-n1")
  {
    hide ShellQuote;
    assert "df" + " " + "-B1" + " " == "df -B1 ";
    assert "df -B1 " + "--output=avail" + " " == "df -B1 --output=avail ";
    assert " | " + ("tail" + " " + "-n1") == " | tail -n1";
    Assoc("df -B1 --output=avail " + ShellQuote(dir), " | ", "tail" + " " + "-n1");
  }

  lemma Assoc(a: string, b: string, c: string)
    ensures a + b + c == a + (b + c)
  {
  }

  lemma FreeCommandReads(dir: string)
    requires Commands.NulFree(dir)
    ensures Lex(MeasureFree(dir)) ==
            Some(Words(["df", "-B1", "--output=avail", dir]) + [Operator("|")] + Words(["tail", "-n1"]))
  {
    hide Reads, ShellQuote, Lex, Words;
    Commands.Name("df");
    Commands.Name("-B1");
    Commands.Name("--output=avail");
    Commands.Name("tail");
    Commands.Name("-n1");
    Commands.Arg(dir);
    Commands.ThreeWords("df", "df", "-B1", "-B1", "--output=avail", "--output=avail");
    Commands.MoreWords("df" + " " + "-B1" + " " + "--output=avail", ["df", "-B1", "--output=avail"],
                       ShellQuote(dir), dir);
    Commands.MoreWords("tail", ["tail"], "-n1", "-n1");
    var a, b := "df" + " " + "-B1" + " " + "--output=avail" + " " + ShellQuote(dir), "tail" + " " + "-n1";
    assert ["df", "-B1", "--output=avail"] + [dir] == ["df", "-B1", "--output=avail", dir];
    assert ["tail"] + ["-n1"] == ["tail", "-n1"];
    Commands.Operated(a, Words(["df", "-B1", "--output=avail", dir]), " | ", "|", b, Words(["tail", "-n1"]));
    FreeText(dir);
    ReadsLex(a + " | " + b, Words(["df", "-B1", "--output=avail", dir]) + [Operator("|")] + Words(["tail", "-n1"]));
  }

  const AwkProgram := "{s+=$1} END{print s}"

  /** du over every source, errors redirected, summed by awk. */
  lemma SizeCommandReads(sources: seq<string>)
    requires sources != [] && forall i :: 0 <= i < |sources| ==> Commands.NulFree(sources[i])
    ensures Lex(MeasureSources(sources)) ==
            Some(Words(["du", "-sb"] + sources + ["2"]) + [Operator(">"), Word("/dev/null", false)]
                 + [Operator("|")] + Words(["awk", AwkProgram]))
  {
    hide Reads, ShellQuote, Lex, Words, Join;
    var parts, words := ["du", "-sb"] + QuotedPaths(sources) + ["2"], ["du", "-sb"] + sources + ["2"];
    SizeWords(sources);
    JoinWords(parts, words);
    var a := Join(parts, " ");
    RedirectReads(a, Words(words), "/dev/null");
    AwkReads();
    var b := "awk" + " " + "'{s+=$1} END{print s}'";
    var x := Words(words) + [Operator(">"), Word("/dev/null", false)];
    Commands.Operated(a + ">" + "/dev/null", x, " | ", "|", b, Words(["awk", AwkProgram]));
    SizeText(sources);
    ReadsLex(MeasureSources(sources), x + [Operator("|")] + Words(["awk", AwkProgram]));
  }

  lemma SizeWords(sources: seq<string>)
    requires forall i :: 0 <= i < |sources| ==> Commands.NulFree(sources[i])
    ensures EachWord(["du", "-sb"] + QuotedPaths(sources) + ["2"], ["du", "-sb"] + sources + ["2"])
  {
    hide Reads, ShellQuote;
    PlainWord("du");
    PlainWord("-sb");
    PlainWord("2");
    forall i | 0 <= i < |sources|
      ensures Reads(QuotedPaths(sources)[i], [Word(sources[i], false)])
    {
      QuotedWord(sources[i]);
    }
  }

  lemma AwkReads()
    ensures Reads("awk" + " " + "'{s+=$1} END{print s}'", Words(["awk", AwkProgram]))
  {
    hide Reads, Words, ShellQuote;
    Commands.Name("awk");
    Commands.FormatReads(AwkProgram, "'{s+=$1} END{print s}'");
    Commands.MoreWords("awk", ["awk"], "'{s+=$1} END{print s}'", AwkProgram);
    assert ["awk"] + [AwkProgram] == ["awk", AwkProgram];
  }

  lemma SizeText(sources: seq<string>)
    requires sources != []
    ensures MeasureSources(sources) ==
            Join(["du", "-sb"] + QuotedPaths(sources) + ["2"], " ") + ">" + "/dev/null" + " | "
            + ("awk" + " " + "'{s+=$1} END{print s}'")
  {
    hide ShellQuote;
    var q := QuotedPaths(sources);
    JoinSplits(["du", "-sb"] + q, ["2"], " ");
    JoinSplits(["du", "-sb"], q, " ");
    assert ["du", "-sb"][..1] == ["du"];
    assert Join(["du", "-sb"], " ") == "du" + " " + "-sb";
    hide Join;
    assert "du" + " " + "-sb" + " " == "du -sb ";
    TailText();
    var head, awk := "du -sb " + Join(q, " "), "awk" + " " + "'{s+=$1} END{print s}'";
    Assoc(head, " ", "2");
    Assoc(head, " " + "2", ">");
    Assoc(head, " " + "2" + ">", "/dev/null");
    Assoc(head, " " + "2" + ">" + "/dev/null", " | ");
    Assoc(head, " " + "2" + ">" + "/dev/null" + " | ", awk);
  }

  lemma TailText()
    ensures " " + "2" + ">" + "/dev/null" + " | " + ("awk" + " " + "'{s+=$1} END{print s}'") ==
            " 2>/dev/null | awk '{s+=$1} END{print s}'"
  {
    var first, rest := " 2>/dev/null", "'{s+=$1} END{print s}'";
    assert " " + "2" + ">" + "/dev/null" == first;
    assert " | " + "awk" + " " == " | awk ";
    assert first + " | awk " == " 2>/dev/null | awk ";
    assert " 2>/dev/null | awk " + rest == " 2>/dev/null | awk '{s+=$1} END{print s}'";
    Assoc(first, " | ", "awk" + " " + rest);
    Assoc(" | ", "awk" + " ", rest);
    Assoc(" | ", "awk", " ");
    Assoc(first, " | awk ", rest);
  }
}
