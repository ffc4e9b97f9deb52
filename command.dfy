/**
 * `run_command`: resolve the working directory under the base, resolve the
 * deadline, hand the command to the process runner, and assemble the
 * result record from what the process did.
 */
module CommandService {
  import opened Wrappers
  import opened PyText
  import opened Paths
  import opened OutputLimit
  import opened Timeout

  /**
   * What running the command came to. The runner itself (shell, process
   * group, kill on expiry, UTF-8 decoding) is outside the model; its
   * outcome is an input, with output already decoded.
   */
  datatype ProcessOutcome =
    | Completed(exitCode: int, stdout: string, stderr: string)
    | TimedOut
    | SpawnFailed(message: string)

  /** What the runner is asked to start. */
  datatype SpawnRequest = SpawnRequest(command: string, stdin: Option<string>, workingDir: string, timeoutSeconds: Option<real>)

  /** The JSON object `run_command` returns, one constructor per shape. */
  datatype CommandResult =
    | CwdRejected(error: string, cwd: string)
    | Report(stdout: string, stderr: string, exitCode: Option<int>, cwd: string, command: string,
             timeoutSeconds: Option<real>, timedOut: bool, truncated: bool,
             stdoutTruncated: bool, stderrTruncated: bool, maxLines: int)
    | RunError(error: string, cwd: string, command: string, truncated: bool,
               stdoutTruncated: bool, stderrTruncated: bool, maxLines: int)

  const CwdOutsideMessage: string := "Cannot use cwd outside of the base directory"
  const TimedOutMessage: string := "Command timed out"
  const RunErrorPrefix: string := "Error running command: "

  /** Whether `cwd` is turned away: only a non-empty `cwd` is checked at all. */
  predicate CwdRejectedBy(cwd: string)
  {
    cwd != [] && Confine(cwd).None?
  }

  /** The directory the command runs in: the base for an empty `cwd`, else the confined `cwd`. */
  function WorkingDir(cwd: string): (dir: string)
    requires !CwdRejectedBy(cwd)
    ensures BaseDir <= dir
  {
    if cwd == [] then BaseDir else Confine(cwd).value
  }

  /**
   * `run_command(command, stdin, cwd, timeout, timeout_ms)` with the limit
   * `maxLines` resolved at start-up and `outcome` standing for what the
   * process did. `spawned` is the process started, None when none was.
   */
  method RunCommand(command: string, stdin: Option<string>, cwd: string,
                    timeout: Option<Arg>, timeoutMs: Option<Arg>,
                    maxLines: int, outcome: ProcessOutcome)
    returns (spawned: Option<SpawnRequest>, r: CommandResult)
    // a rejected cwd: no process, and an error echoing the cwd asked for
    ensures spawned.None? <==> CwdRejectedBy(cwd)
    ensures CwdRejectedBy(cwd) ==> r == CwdRejected(CwdOutsideMessage, cwd)
    // otherwise the process runs in the confined directory under the resolved deadline
    ensures !CwdRejectedBy(cwd) ==>
      spawned == Some(SpawnRequest(command, stdin, WorkingDir(cwd), EffectiveTimeout(timeout, timeoutMs)))
    ensures !CwdRejectedBy(cwd) && outcome.TimedOut? ==>
      r == Report("", TimedOutMessage, None, WorkingDir(cwd), command,
                  EffectiveTimeout(timeout, timeoutMs), true, false, false, false, maxLines)
    ensures !CwdRejectedBy(cwd) && outcome.Completed? ==>
      && r.Report?
      && (r.stdout, r.stdoutTruncated) == TruncateLines(outcome.stdout, maxLines)
      && (r.stderr, r.stderrTruncated) == TruncateLines(outcome.stderr, maxLines)
      && r.exitCode == Some(outcome.exitCode) && !r.timedOut
      && r.cwd == WorkingDir(cwd) && r.command == command
      && r.timeoutSeconds == EffectiveTimeout(timeout, timeoutMs) && r.maxLines == maxLines
    ensures !CwdRejectedBy(cwd) && outcome.SpawnFailed? ==>
      r == RunError(RunErrorPrefix + outcome.message, WorkingDir(cwd), command, false, false, false, maxLines)
    // what holds of every report
    ensures r.Report? ==> r.truncated == (r.stdoutTruncated || r.stderrTruncated)
    ensures r.Report? ==> (r.timedOut <==> r.exitCode.None?)
    ensures r.Report? && r.timedOut ==> !r.truncated
  {
    var workingDir := BaseDir;
    if cwd != [] {
      var candidate := NormPath(PathJoin(BaseDir, cwd));
      if !(BaseDir <= candidate) {
        return None, CwdRejected(CwdOutsideMessage, cwd);
      }
      workingDir := candidate;
    }

    var timeoutSecs: Option<real>;
    if timeout.Some? || timeoutMs.Some? {
      var secs := ToFloat(timeout);
      if secs.None? {
        var ms := ToFloat(timeoutMs);
        secs := if ms.Some? then Some(ms.value / 1000.0) else None;
      }
      timeoutSecs := if secs.Some? && secs.value > 0.0 then secs else None;
    } else {
      timeoutSecs := Some(DefaultSeconds);
    }

    spawned := Some(SpawnRequest(command, stdin, workingDir, timeoutSecs));
    match outcome {
      case TimedOut =>
        r := Report("", TimedOutMessage, None, workingDir, command, timeoutSecs,
                    true, false, false, false, maxLines);
      case Completed(code, out, err) =>
        var (outText, outTruncated) := TruncateLines(out, maxLines);
        var (errText, errTruncated) := TruncateLines(err, maxLines);
        var anyTruncated := outTruncated || errTruncated;
        r := Report(outText, errText, Some(code), workingDir, command, timeoutSecs,
                    false, anyTruncated, outTruncated, errTruncated, maxLines);
      case SpawnFailed(message) =>
        r := RunError(RunErrorPrefix + message, workingDir, command, false, false, false, maxLines);
    }
  }

  /** An empty cwd skips the check and the command runs in the base directory. */
  lemma EmptyCwdUsesBase()
    ensures !CwdRejectedBy("") && WorkingDir("") == BaseDir
  {
  }

  /**
   * What a completed run reports, for a positive limit: each stream is a
   * prefix of what the process wrote, of at most `maxLines` lines, cut
   * exactly when it had more, and unchanged when not cut.
   */
  lemma CompletedStreamBounds(output: string, maxLines: int)
    requires maxLines >= 1
    ensures var (text, cut) := TruncateLines(output, maxLines);
      && text <= output
      && LineCount(text) <= maxLines
      && (cut <==> output != [] && LineCount(output) > maxLines)
      && (!cut ==> text == output)
  {
    TruncatePrefix(output, maxLines);
    TruncateBounded(output, maxLines);
    TruncateUnchanged(output, maxLines);
  }
}
