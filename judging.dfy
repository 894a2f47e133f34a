/**
 * `run_test_cases` of e2b_service.py: one submission judged against an
 * ordered list of test cases inside one sandbox.
 *
 * `Judge` is the specification: the summary (or the exception that escapes)
 * as a function of the host, the JSON parser, the code, the language and the
 * cases.  `RunTestCases` is the source's procedure, with its loop, counters and
 * `finally: sandbox.kill()`, proved to compute `Judge` and to kill the sandbox
 * exactly once whenever it created one.  The lemmas state what the source
 * promises about the summary.
 */
module Judging {
  import opened Common
  import opened Text
  import opened Json
  import opened Comparison
  import opened Sandboxes

  /** The environment of one call: whether E2B_API_KEY is set, the sandbox provider, and the elapsed-time text of the i-th measured run. */
  datatype Host = Host(apiKeySet: bool, provider: Provider, clock: nat -> string)

  /** `_check_api_key()`'s message when the key is missing or empty. */
  const ApiKeyMessage := "E2B_API_KEY is not set. Add it to your .env file. Get one at https://e2b.dev/dashboard?tab=keys"

  datatype TestCase = TestCase(id: int, input: string, expectedOutput: string, isHidden: bool)

  /** The per-case `status` strings. */
  datatype CaseStatus = Accepted | RuntimeError | Error {
    function Text(): string {
      match this
      case Accepted => "Accepted"
      case RuntimeError => "Runtime Error"
      case Error => "Error"
    }
  }

  /** The `overall_status` strings. */
  datatype Verdict = Passed | Failed | Errored {
    function Text(): string {
      match this
      case Passed => "passed"
      case Failed => "failed"
      case Errored => "error"
    }
  }

  /** One element of `test_results`. */
  datatype TestResult = TestResult(
    testCaseId: int,
    input: string,
    expectedOutput: string,
    actualOutput: Option<string>,
    passed: bool,
    isHidden: bool,
    status: CaseStatus,
    time: Option<string>,
    error: Option<string>)

  datatype Summary = Summary(overallStatus: Verdict, passedCount: nat, totalCount: nat, testResults: seq<TestResult>)

  /** The result recorded for a case that could not be run, with the message that explains why. */
  function ErrorResult(tc: TestCase, message: string): TestResult {
    TestResult(tc.id, tc.input, tc.expectedOutput, None, false, tc.isHidden, Error, None, Some(message))
  }

  /** The all-error summary of the three early exits. */
  function ErrorSummary(cases: seq<TestCase>, message: string): Summary {
    Summary(Errored, 0, |cases|, seq(|cases|, i requires 0 <= i < |cases| => ErrorResult(cases[i], message)))
  }

  /** `(result.stdout or "").rstrip("\n")`. */
  function ActualOutput(r: CommandResult): string {
    RStripChar(r.stdout.GetOr(""), '\n')
  }

  /** The record one loop iteration appends for case `tc`, given what its run did. */
  function CaseResult(parse: Parser, tc: TestCase, outcome: Try<CommandResult>, time: string): (res: TestResult)
    ensures res.testCaseId == tc.id && res.input == tc.input && res.expectedOutput == tc.expectedOutput
    ensures res.isHidden == tc.isHidden
    ensures res.status == Error <==> outcome.Raised?
    ensures res.status == Accepted <==> outcome.Ok? && outcome.value.exitCode == 0
    ensures res.error.Some? <==> res.status != Accepted
    ensures outcome.Raised? ==> !res.passed && res.actualOutput == None && res.time == None && res.error == Some(outcome.message)
    ensures outcome.Ok? ==>
      && res.actualOutput == Some(ActualOutput(outcome.value))
      && res.passed == CompareOutputs(parse, Strip(ActualOutput(outcome.value)), Strip(tc.expectedOutput))
      && res.time == Some(time)
      && (res.status == RuntimeError ==> res.error == Some(outcome.value.stderr))
  {
    match outcome
    case Raised(e) => ErrorResult(tc, e)
    case Ok(r) =>
      var actual := ActualOutput(r);
      TestResult(tc.id, tc.input, tc.expectedOutput, Some(actual),
        CompareOutputs(parse, Strip(actual), Strip(tc.expectedOutput)),
        tc.isHidden,
        if r.exitCode == 0 then Accepted else RuntimeError,
        Some(time),
        if r.exitCode != 0 then Some(r.stderr) else None)
  }

  /** Iteration `i` of the loop: run case `tc` on the sandbox's current files. */
  function Step(host: Host, parse: Parser, cmd: string, files: Files, tc: TestCase, i: nat): (TestResult, Files) {
    var run := RunCommandSpec(host.provider, files, cmd, tc.input, RunTimeout);
    (CaseResult(parse, tc, run.0, host.clock(i)), run.1)
  }

  /** One loop iteration as a value: the record for case `tc` (the i-th) and the files afterwards. */
  type Stepper = (Files, TestCase, nat) -> (TestResult, Files)

  /** The iteration `run_test_cases` performs with run command `cmd`. */
  function CaseStep(host: Host, parse: Parser, cmd: string): Stepper {
    (files: Files, tc: TestCase, i: nat) => Step(host, parse, cmd, files, tc, i)
  }

  /** The results of the first `n` iterations and the sandbox's files after them. */
  function Loop(step: Stepper, files0: Files, cases: seq<TestCase>, n: nat): (r: (seq<TestResult>, Files))
    requires n <= |cases|
    ensures |r.0| == n
  {
    if n == 0 then ([], files0)
    else
      var before := Loop(step, files0, cases, n - 1);
      var next := step(before.1, cases[n - 1], n - 1);
      (before.0 + [next.0], next.1)
  }

  /** `passed_count`: how many results passed. */
  function CountPassed(rs: seq<TestResult>): (count: nat)
    ensures count <= |rs|
    ensures count == |rs| <==> forall i :: 0 <= i < |rs| ==> rs[i].passed
    ensures count == 0 <==> forall i :: 0 <= i < |rs| ==> !rs[i].passed
  {
    if rs == [] then 0
    else
      var front := rs[..|rs| - 1];
      assert forall i :: 0 <= i < |front| ==> front[i] == rs[i];
      CountPassed(front) + if rs[|rs| - 1].passed then 1 else 0
  }

  /** `has_error`: some run exited non-zero or raised. */
  function HasError(rs: seq<TestResult>): bool {
    if rs == [] then false
    else HasError(rs[..|rs| - 1]) || rs[|rs| - 1].status != Accepted
  }

  /** The final if/elif/else on `has_error`, `passed_count` and `total_count`. */
  function OverallStatus(hasError: bool, passedCount: nat, totalCount: nat): Verdict {
    if hasError && passedCount == 0 then Errored
    else if passedCount == totalCount then Passed
    else Failed
  }

  /** The summary the loop path returns. */
  function Aggregate(rs: seq<TestResult>, totalCount: nat): Summary {
    var passedCount := CountPassed(rs);
    Summary(OverallStatus(HasError(rs), passedCount, totalCount), passedCount, totalCount, rs)
  }

  /** The message of the early exit taken before any sandbox exists, if one is. */
  function EarlyExit(host: Host, language: string): Option<string> {
    if LanguageConfig(language).None? then Some("Unsupported language: " + language)
    else if !host.apiKeySet then Some(ApiKeyMessage)
    else if host.provider.createError.Some? then Some("E2B sandbox creation failed: " + host.provider.createError.value)
    else None
  }

  /** The sandbox's files once the source is written, and the command each case runs. */
  function SourceFiles(config: LanguageProfile, sourceCode: string): Files {
    map[config.filename := sourceCode]
  }

  /** What `run_test_cases` returns, or the exception that escapes it. */
  function Judge(host: Host, parse: Parser, sourceCode: string, language: string, cases: seq<TestCase>): Try<Summary> {
    match EarlyExit(host, language)
    case Some(message) => Ok(ErrorSummary(cases, message))
    case None => InSandbox(host, parse, LanguageConfig(language).value, sourceCode, cases)
  }

  /** The `try: ... finally:` block: the source file written into the fresh sandbox, then every case run. */
  function InSandbox(host: Host, parse: Parser, config: LanguageProfile, sourceCode: string, cases: seq<TestCase>): Try<Summary> {
    match host.provider.write(config.filename, sourceCode)
    case Some(e) => Raised(e)
    case None =>
      var rs := Loop(CaseStep(host, parse, config.runCmd), SourceFiles(config, sourceCode), cases, |cases|).0;
      Ok(Aggregate(rs, |cases|))
  }

  /**
   * The body of the `for tc in test_cases` loop: run the case, build its
   * record, and report whether it passed and whether it counts as an error.
   */
  method RunCase(sb: Sandbox, host: Host, parse: Parser, cmd: string, tc: TestCase, i: nat)
    returns (record: TestResult, passed: bool, failed: bool)
    requires sb.kills == 0 && sb.provider == host.provider
    modifies sb
    ensures (record, sb.files) == CaseStep(host, parse, cmd)(old(sb.files), tc, i)
    ensures passed == record.passed && failed == (record.status != Accepted)
    ensures sb.kills == 0
  {
    var time := host.clock(i);
    var result := RunCommand(sb, cmd, tc.input, RunTimeout);
    match result
    case Ok(r) =>
      var actualOutput := RStripChar(r.stdout.GetOr(""), '\n');
      var expectedOutput := Strip(tc.expectedOutput);
      passed := CompareOutputs(parse, Strip(actualOutput), expectedOutput);
      failed := r.exitCode != 0;
      record := TestResult(tc.id, tc.input, tc.expectedOutput, Some(actualOutput), passed, tc.isHidden,
        if r.exitCode == 0 then Accepted else RuntimeError,
        Some(time),
        if r.exitCode != 0 then Some(r.stderr) else None);
    case Raised(e) =>
      record := TestResult(tc.id, tc.input, tc.expectedOutput, None, false, tc.isHidden, Error, None, Some(e));
      passed := false;
      failed := true;
  }

  /** The `for tc in test_cases` loop with its three accumulators, on a live sandbox. */
  method RunCases(sb: Sandbox, host: Host, parse: Parser, cmd: string, testCases: seq<TestCase>)
    returns (testResults: seq<TestResult>, passedCount: nat, hasError: bool)
    requires sb.kills == 0 && sb.provider == host.provider
    modifies sb
    ensures (testResults, sb.files) == Loop(CaseStep(host, parse, cmd), old(sb.files), testCases, |testCases|)
    ensures passedCount == CountPassed(testResults) && hasError == HasError(testResults)
    ensures sb.kills == 0
  {
    ghost var step := CaseStep(host, parse, cmd);
    ghost var files0 := sb.files;
    testResults := [];
    passedCount := 0;
    hasError := false;
    for i := 0 to |testCases|
      invariant sb.kills == 0 && sb.provider == host.provider
      invariant (testResults, sb.files) == Loop(step, files0, testCases, i)
      invariant passedCount == CountPassed(testResults)
      invariant hasError == HasError(testResults)
    {
      var record, passed, failed := RunCase(sb, host, parse, cmd, testCases[i], i);
      if passed {
        passedCount := passedCount + 1;
      }
      if failed {
        hasError := true;
      }
      assert (testResults + [record])[..|testResults|] == testResults;
      testResults := testResults + [record];
    }
  }

  /**
   * `run_test_cases(source_code, language, test_cases)`, with the sandbox it
   * acquired (ghost): it is the only one entered in `ledger`, there is none
   * on an early exit, and it is killed exactly once.
   */
  method RunTestCases(host: Host, ledger: Ledger, parse: Parser, sourceCode: string, language: string, testCases: seq<TestCase>)
    returns (out: Try<Summary>, ghost sandbox: Sandbox?)
    modifies ledger
    ensures out == Judge(host, parse, sourceCode, language, testCases)
    ensures sandbox != null <==> EarlyExit(host, language).None?
    ensures ledger.created == old(ledger.created) + (if sandbox != null then [sandbox] else [])
    ensures sandbox != null ==> fresh(sandbox) && sandbox.kills == 1
  {
    sandbox := null;
    var config := LanguageConfig(language);
    if config.None? {
      out := Ok(ErrorSummary(testCases, "Unsupported language: " + language));
      return;
    }
    if !host.apiKeySet {
      out := Ok(ErrorSummary(testCases, ApiKeyMessage));
      return;
    }
    var created := Create(host.provider, ledger);
    if created.Raised? {
      out := Ok(ErrorSummary(testCases, "E2B sandbox creation failed: " + created.message));
      return;
    }
    var sb := created.value;
    sandbox := sb;
    out := JudgeInSandbox(sb, host, parse, config.value, sourceCode, testCases);
  }

  /** The `try: ... finally: sandbox.kill()` block on a freshly created sandbox. */
  method JudgeInSandbox(sb: Sandbox, host: Host, parse: Parser, config: LanguageProfile, sourceCode: string, testCases: seq<TestCase>)
    returns (out: Try<Summary>)
    requires sb.kills == 0 && sb.provider == host.provider && sb.files == map[]
    modifies sb
    ensures out == InSandbox(host, parse, config, sourceCode, testCases)
    ensures sb.kills == 1
  {
    var writeError := sb.Write(config.filename, sourceCode);
    if writeError.Some? {
      sb.Kill();
      out := Raised(writeError.value);
      return;
    }

    assert sb.files == SourceFiles(config, sourceCode);
    var testResults, passedCount, hasError := RunCases(sb, host, parse, config.runCmd, testCases);

    var totalCount := |testCases|;
    var overallStatus := if hasError && passedCount == 0 then Errored
      else if passedCount == totalCount then Passed
      else Failed;
    out := Ok(Summary(overallStatus, passedCount, totalCount, testResults));
    sb.Kill();
  }

  // ---------------------------------------------------------------------------
  // What the summary means

  /** The loop yields one result per case, in order, each from that case's own iteration on the files the earlier ones left. */
  lemma {:induction false} LoopShape(step: Stepper, files0: Files, cases: seq<TestCase>, n: nat, k: nat)
    requires k < n <= |cases|
    ensures Loop(step, files0, cases, n).0[k] == step(Loop(step, files0, cases, k).1, cases[k], k).0
  {
    if k < n - 1 {
      LoopShape(step, files0, cases, n - 1, k);
    }
  }

  /** `passed_count` is the number of results whose `passed` is true. */
  lemma {:induction false} CountPassedIsCardinality(rs: seq<TestResult>)
    ensures CountPassed(rs) == |set i | 0 <= i < |rs| && rs[i].passed|
  {
    if rs != [] {
      var front := rs[..|rs| - 1];
      CountPassedIsCardinality(front);
      var before := set i | 0 <= i < |front| && front[i].passed;
      var all := set i | 0 <= i < |rs| && rs[i].passed;
      if rs[|rs| - 1].passed {
        assert all == before + {|rs| - 1};
      } else {
        assert all == before;
      }
    }
  }

  /** `has_error` is set exactly when some result is not Accepted. */
  lemma {:induction false} HasErrorIff(rs: seq<TestResult>)
    ensures HasError(rs) <==> exists i :: 0 <= i < |rs| && rs[i].status != Accepted
  {
    if rs != [] {
      var front := rs[..|rs| - 1];
      HasErrorIff(front);
      if HasError(front) {
        var i :| 0 <= i < |front| && front[i].status != Accepted;
        assert rs[i] == front[i];
      }
      if exists i :: 0 <= i < |rs| && rs[i].status != Accepted {
        var i :| 0 <= i < |rs| && rs[i].status != Accepted;
        if i < |front| {
          assert front[i] == rs[i];
        }
      }
    }
  }

  /**
   * On the loop path the verdict is "passed" exactly when every case passed
   * (vacuously for no cases), "error" exactly when none passed and some run
   * failed or raised, and "failed" otherwise.
   */
  lemma VerdictMeaning(rs: seq<TestResult>)
    ensures Aggregate(rs, |rs|).overallStatus == Passed <==> forall i :: 0 <= i < |rs| ==> rs[i].passed
    ensures Aggregate(rs, |rs|).overallStatus == Errored <==>
      (exists i :: 0 <= i < |rs| && rs[i].status != Accepted) && (forall i :: 0 <= i < |rs| ==> !rs[i].passed)
  {
    HasErrorIff(rs);
  }

  /** Each early exit reports every case, in order, as an unrun error carrying the exit's message. */
  lemma JudgeEarlyExit(host: Host, parse: Parser, sourceCode: string, language: string, cases: seq<TestCase>)
    requires EarlyExit(host, language).Some?
    ensures var out := Judge(host, parse, sourceCode, language, cases);
      && out.Ok?
      && out.value.overallStatus == Errored
      && out.value.passedCount == 0
      && out.value.totalCount == |cases| == |out.value.testResults|
      && forall i :: 0 <= i < |cases| ==>
        var r := out.value.testResults[i];
        && r.testCaseId == cases[i].id && r.input == cases[i].input
        && r.expectedOutput == cases[i].expectedOutput && r.isHidden == cases[i].isHidden
        && !r.passed && r.status == Error && r.actualOutput == None && r.time == None
        && r.error == EarlyExit(host, language)
  {
  }

  /** The three early exits, checked in the source's order, and their messages. */
  lemma EarlyExitOrder(host: Host, language: string)
    ensures LanguageConfig(language).None? ==> EarlyExit(host, language) == Some("Unsupported language: " + language)
    ensures LanguageConfig(language).Some? && !host.apiKeySet ==> EarlyExit(host, language) == Some(ApiKeyMessage)
    ensures LanguageConfig(language).Some? && host.apiKeySet && host.provider.createError.Some? ==>
      EarlyExit(host, language) == Some("E2B sandbox creation failed: " + host.provider.createError.value)
    ensures EarlyExit(host, language).None? <==>
      LanguageConfig(language).Some? && host.apiKeySet && host.provider.createError.None?
  {
  }

  /** The only exception that escapes is a failed write of the source file, after the sandbox exists. */
  lemma JudgeRaises(host: Host, parse: Parser, sourceCode: string, language: string, cases: seq<TestCase>)
    ensures Judge(host, parse, sourceCode, language, cases).Raised? <==>
      EarlyExit(host, language).None? && host.provider.write(LanguageConfig(language).value.filename, sourceCode).Some?
  {
  }

  /**
   * Whenever a summary is returned: one result per case, in input order and
   * carrying the case's id, input, expected output and hidden flag unchanged
   * (hidden cases are not redacted); `passed_count` counts the passing
   * results and never exceeds `total_count`.
   */
  lemma JudgeRecords(host: Host, parse: Parser, sourceCode: string, language: string, cases: seq<TestCase>)
    requires Judge(host, parse, sourceCode, language, cases).Ok?
    ensures var s := Judge(host, parse, sourceCode, language, cases).value;
      && s.totalCount == |cases| == |s.testResults|
      && s.passedCount == |set i | 0 <= i < |s.testResults| && s.testResults[i].passed|
      && s.passedCount <= s.totalCount
      && forall i :: 0 <= i < |cases| ==>
        && s.testResults[i].testCaseId == cases[i].id
        && s.testResults[i].input == cases[i].input
        && s.testResults[i].expectedOutput == cases[i].expectedOutput
        && s.testResults[i].isHidden == cases[i].isHidden
  {
    var s := Judge(host, parse, sourceCode, language, cases).value;
    CountPassedIsCardinality(s.testResults);
    if EarlyExit(host, language).None? {
      var config := LanguageConfig(language).value;
      var files0 := SourceFiles(config, sourceCode);
      var n := |cases|;
      if n > 0 {
        forall i | 0 <= i < n
          ensures |s.testResults| == n && s.testResults[i].testCaseId == cases[i].id
          ensures s.testResults[i].input == cases[i].input && s.testResults[i].expectedOutput == cases[i].expectedOutput
          ensures s.testResults[i].isHidden == cases[i].isHidden
        {
          LoopShape(CaseStep(host, parse, config.runCmd), files0, cases, n, i);
        }
      }
    }
  }

  /**
   * On the loop path, result i is case i's own run on the files the earlier
   * cases left: a case that raises becomes a failed "Error" result and the
   * cases after it are still run.
   */
  lemma JudgeCaseOutcome(host: Host, parse: Parser, sourceCode: string, language: string, cases: seq<TestCase>, i: nat)
    requires EarlyExit(host, language).None?
    requires host.provider.write(LanguageConfig(language).value.filename, sourceCode).None?
    requires i < |cases|
    ensures var config := LanguageConfig(language).value;
      var files := Loop(CaseStep(host, parse, config.runCmd), SourceFiles(config, sourceCode), cases, i).1;
      var outcome := RunCommandSpec(host.provider, files, config.runCmd, cases[i].input, RunTimeout).0;
      Judge(host, parse, sourceCode, language, cases).value.testResults[i] == CaseResult(parse, cases[i], outcome, host.clock(i))
  {
    var config := LanguageConfig(language).value;
    var files0 := SourceFiles(config, sourceCode);
    var step := CaseStep(host, parse, config.runCmd);
    var rs := Loop(step, files0, cases, |cases|).0;
    assert Judge(host, parse, sourceCode, language, cases).value.testResults == rs;
    LoopShape(step, files0, cases, |cases|, i);
    var files := Loop(step, files0, cases, i).1;
    assert rs[i] == step(files, cases[i], i).0;
    assert step(files, cases[i], i) == Step(host, parse, config.runCmd, files, cases[i], i);
  }

  /**
   * On the loop path `overall_status` is "passed" iff every case passed (so
   * an empty list of cases is "passed"), "error" iff some run failed or
   * raised and none passed, and "failed" otherwise.
   */
  lemma JudgeVerdict(host: Host, parse: Parser, sourceCode: string, language: string, cases: seq<TestCase>)
    requires EarlyExit(host, language).None?
    requires host.provider.write(LanguageConfig(language).value.filename, sourceCode).None?
    ensures var s := Judge(host, parse, sourceCode, language, cases).value;
      && (s.overallStatus == Passed <==> forall i :: 0 <= i < |s.testResults| ==> s.testResults[i].passed)
      && (s.overallStatus == Errored <==>
           (exists i :: 0 <= i < |s.testResults| && s.testResults[i].status != Accepted)
           && (forall i :: 0 <= i < |s.testResults| ==> !s.testResults[i].passed))
      && (cases == [] ==> s.overallStatus == Passed)
      && (s.overallStatus.Text() == "passed" <==> s.overallStatus == Passed)
      && (s.overallStatus.Text() == "error" <==> s.overallStatus == Errored)
      && (s.overallStatus.Text() == "failed" <==> s.overallStatus == Failed)
  {
    var s := Judge(host, parse, sourceCode, language, cases).value;
    JudgeRecords(host, parse, sourceCode, language, cases);
    VerdictMeaning(s.testResults);
  }

  /** The expected output is compared stripped, so stripping it in advance changes no verdict. */
  lemma ExpectedPaddingIrrelevant(parse: Parser, tc: TestCase, outcome: Try<CommandResult>, time: string)
    ensures CaseResult(parse, tc.(expectedOutput := Strip(tc.expectedOutput)), outcome, time).passed
      == CaseResult(parse, tc, outcome, time).passed
  {
    StripIdempotent(tc.expectedOutput);
  }
}
