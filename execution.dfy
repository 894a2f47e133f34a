/**
 * `execute_code` of e2b_service.py: one program run once on one standard
 * input in a fresh sandbox, reported as its output or as one error message.
 *
 * It shares the language table, the API-key check, sandbox creation and
 * `_run_command` with `run_test_cases`, but catches every exception raised
 * inside the sandbox and turns it into a message, telling time-outs apart.
 */
module Execution {
  import opened Common
  import opened Text
  import opened Sandboxes
  import opened Judging
  import Json

  /** The dictionary `execute_code` returns: `{"error": ...}` or the run's report. */
  datatype ExecResult =
    | ExecError(error: string)
    | ExecOutput(stdout: string, stderr: Option<string>, statusId: int, description: string, time: string)

  const TimedOutMessage := "Code execution timed out"
  const FailedPrefix := "Code execution failed: "

  /** The exception message mentions a time-out, in any letter case. */
  predicate MentionsTimeout(message: string) {
    Contains(Lower(message), "timed out") || Contains(Lower(message), "timeout")
  }

  /** The `except Exception as e` handler's message for `str(e)`. */
  function FailureMessage(message: string): string {
    if MentionsTimeout(message) then TimedOutMessage else FailedPrefix + message
  }

  /** The report of a run that finished, whatever its exit code. */
  function Report(r: CommandResult, time: string): ExecResult {
    ExecOutput(ActualOutput(r),
      if r.exitCode != 0 then Some(r.stderr) else None,
      if r.exitCode == 0 then 3 else 11,
      if r.exitCode == 0 then "Accepted" else "Runtime Error",
      time)
  }

  /** What `execute_code` returns for the outcome of its one run: the report, or the handler's message. */
  function RunReport(outcome: Try<CommandResult>, time: string): ExecResult {
    match outcome
    case Raised(e) => ExecError(FailureMessage(e))
    case Ok(r) => Report(r, time)
  }

  /** The `try:` block on a fresh sandbox: write the program, run it once, report. */
  function InSandbox(host: Host, config: LanguageProfile, sourceCode: string, stdin: string): ExecResult {
    match host.provider.write(config.filename, sourceCode)
    case Some(e) => ExecError(FailureMessage(e))
    case None =>
      RunReport(RunCommandSpec(host.provider, SourceFiles(config, sourceCode), config.runCmd, stdin, RunTimeout).0, host.clock(0))
  }

  /** What `execute_code(source_code, language, stdin)` returns. */
  function Execute(host: Host, sourceCode: string, language: string, stdin: string): ExecResult {
    match EarlyExit(host, language)
    case Some(message) => ExecError(message)
    case None => InSandbox(host, LanguageConfig(language).value, sourceCode, stdin)
  }

  /** The `try: ... except: ... finally: sandbox.kill()` block on a freshly created sandbox. */
  method ExecuteInSandbox(sb: Sandbox, host: Host, config: LanguageProfile, sourceCode: string, stdin: string)
    returns (out: ExecResult)
    requires sb.kills == 0 && sb.provider == host.provider && sb.files == map[]
    modifies sb
    ensures out == InSandbox(host, config, sourceCode, stdin)
    ensures sb.kills == 1
  {
    var writeError := sb.Write(config.filename, sourceCode);
    if writeError.Some? {
      out := ExecError(FailureMessage(writeError.value));
    } else {
      assert sb.files == SourceFiles(config, sourceCode);
      var result := RunCommand(sb, config.runCmd, stdin, RunTimeout);
      match result
      case Raised(e) =>
        out := ExecError(FailureMessage(e));
      case Ok(r) =>
        out := ExecOutput(RStripChar(r.stdout.GetOr(""), '\n'),
          if r.exitCode != 0 then Some(r.stderr) else None,
          if r.exitCode == 0 then 3 else 11,
          if r.exitCode == 0 then "Accepted" else "Runtime Error",
          host.clock(0));
    }
    sb.Kill();
  }

  /**
   * `execute_code(source_code, language, stdin)`, with the sandbox it
   * acquired (ghost): it is the only one entered in `ledger`, there is none
   * on an early exit, and it is killed exactly once.
   */
  method ExecuteCode(host: Host, ledger: Ledger, sourceCode: string, language: string, stdin: string)
    returns (out: ExecResult, ghost sandbox: Sandbox?)
    modifies ledger
    ensures out == Execute(host, sourceCode, language, stdin)
    ensures sandbox != null <==> EarlyExit(host, language).None?
    ensures ledger.created == old(ledger.created) + (if sandbox != null then [sandbox] else [])
    ensures sandbox != null ==> fresh(sandbox) && sandbox.kills == 1
  {
    sandbox := null;
    var config := LanguageConfig(language);
    if config.None? {
      out := ExecError("Unsupported language: " + language);
      return;
    }
    if !host.apiKeySet {
      out := ExecError(ApiKeyMessage);
      return;
    }
    var created := Create(host.provider, ledger);
    if created.Raised? {
      out := ExecError("E2B sandbox creation failed: " + created.message);
      return;
    }
    sandbox := created.value;
    out := ExecuteInSandbox(created.value, host, config.value, sourceCode, stdin);
  }

  // ---------------------------------------------------------------------------
  // What the result means

  /** Lower-casing twice is lower-casing once. */
  lemma LowerIdempotent(s: string)
    ensures Lower(Lower(s)) == Lower(s)
  {
    assert forall i :: 0 <= i < |s| ==> LowerChar(LowerChar(s[i])) == LowerChar(s[i]);
  }

  /** So the time-out test gives the same answer on a message and on its lower-cased form. */
  lemma MentionsTimeoutLower(message: string)
    ensures MentionsTimeout(message) <==> MentionsTimeout(Lower(message))
  {
    LowerIdempotent(message);
  }

  /**
   * An exception is reported as a time-out exactly when its lower-cased
   * message contains "timed out" or "timeout" somewhere; any other message
   * is reported in full after "Code execution failed: ".
   */
  lemma FailureMessageMeaning(message: string)
    ensures FailureMessage(message) == TimedOutMessage <==>
      exists i :: OccursAt(Lower(message), "timed out", i) || OccursAt(Lower(message), "timeout", i)
    ensures !MentionsTimeout(message) ==> FailureMessage(message) == FailedPrefix + message
  {
    ContainsIff(Lower(message), "timed out");
    ContainsIff(Lower(message), "timeout");
    if !MentionsTimeout(message) {
      assert (FailedPrefix + message)[15] == 'f' != TimedOutMessage[15];
    }
  }

  /**
   * A report comes from a run that finished: status 3 / "Accepted" with no
   * stderr exactly when it exited 0, and status 11 / "Runtime Error" with
   * its stderr otherwise; the stdout is the run's, with every trailing
   * newline removed, and the time is the clock's first reading.
   */
  lemma ExecuteReport(host: Host, sourceCode: string, language: string, stdin: string)
    requires Execute(host, sourceCode, language, stdin).ExecOutput?
    ensures var e := Execute(host, sourceCode, language, stdin);
      var config := LanguageConfig(language).value;
      var o := RunCommandSpec(host.provider, SourceFiles(config, sourceCode), config.runCmd, stdin, RunTimeout).0;
      && EarlyExit(host, language).None?
      && host.provider.write(config.filename, sourceCode).None?
      && o.Ok?
      && (e.statusId == 3 <==> o.value.exitCode == 0)
      && e.stdout == ActualOutput(o.value)
      && (o.value.exitCode != 0 ==> e.stderr == Some(o.value.stderr))
      && e.time == host.clock(0)
      && (e.statusId == 3 <==> e.description == "Accepted")
      && (e.statusId == 3 <==> e.stderr.None?)
      && (e.statusId == 3 || e.statusId == 11)
      && (e.statusId == 11 <==> e.description == "Runtime Error")
      && (e.stdout == [] || e.stdout[|e.stdout| - 1] != '\n')
  {
  }

  /** Every failure, early or in the sandbox, is one error message; the early ones are those `run_test_cases` reports per case. */
  lemma ExecuteErrors(host: Host, sourceCode: string, language: string, stdin: string)
    ensures EarlyExit(host, language).Some? ==> Execute(host, sourceCode, language, stdin) == ExecError(EarlyExit(host, language).value)
    ensures EarlyExit(host, language).None? && host.provider.write(LanguageConfig(language).value.filename, sourceCode).Some? ==>
      Execute(host, sourceCode, language, stdin) == ExecError(FailureMessage(host.provider.write(LanguageConfig(language).value.filename, sourceCode).value))
  {
  }

  /**
   * For any outcome of a run and any elapsed-time text, `execute_code`'s
   * report and the record `run_test_cases` builds for a case agree: the
   * same output, stderr, status text and time when the run finished, and
   * the handler's rendering of the same exception when it raised.
   */
  lemma ReportMatchesCase(parse: Json.Parser, tc: TestCase, outcome: Try<CommandResult>, time: string)
    ensures var e := RunReport(outcome, time);
      var r := CaseResult(parse, tc, outcome, time);
      && (e.ExecOutput? <==> r.status != CaseStatus.Error)
      && (e.ExecOutput? ==>
           && r.actualOutput == Some(e.stdout) && r.error == e.stderr
           && r.status.Text() == e.description && r.time == Some(e.time))
      && (e.ExecError? ==> r.error.Some? && e.error == FailureMessage(r.error.value))
  {
  }

  /**
   * Under the same host, running the program once on case `tc`'s input
   * reports what `run_test_cases` records when `tc` is its only case.
   */
  lemma ExecuteMatchesJudge(host: Host, parse: Json.Parser, sourceCode: string, language: string, tc: TestCase)
    requires EarlyExit(host, language).None?
    requires host.provider.write(LanguageConfig(language).value.filename, sourceCode).None?
    ensures var e := Execute(host, sourceCode, language, tc.input);
      var r := Judge(host, parse, sourceCode, language, [tc]).value.testResults[0];
      && (e.ExecOutput? <==> r.status != CaseStatus.Error)
      && (e.ExecOutput? ==>
           && r.actualOutput == Some(e.stdout) && r.error == e.stderr
           && r.status.Text() == e.description && r.time == Some(e.time))
      && (e.ExecError? ==> r.error.Some? && e.error == FailureMessage(r.error.value))
  {
    JudgeCaseOutcome(host, parse, sourceCode, language, [tc], 0);
    var config := LanguageConfig(language).value;
    ReportMatchesCase(parse, tc, RunCommandSpec(host.provider, SourceFiles(config, sourceCode), config.runCmd, tc.input, RunTimeout).0, host.clock(0));
  }
}
