# Judging core of a coding-challenge service, in Dafny

This project models and proves properties of the judging core of a small
coding-challenge web service, together with three pieces of request handling
that carry logic of their own.

* **Execution and judging** (`e2b_service.py`).
  - `LANGUAGE_CONFIG` is the fixed table of a file name and a run command per language.
  - `_run_command` runs a command in a sandbox. When there is standard input, it first writes that input to `/tmp/stdin.txt` and redirects from it.
  - `execute_code` runs one program once.
  - `_compare_outputs` is the two-tier comparator: exact text first, then equality of the parsed JSON values.
  - `run_test_cases` runs one submission against an ordered list of test cases in a single sandbox. It aggregates the results into `passed` / `failed` / `error`, and always kills the sandbox it created.
* **Harness** (`harness.py`).
  - Starter code (a stub with the parameter names) for Python and JavaScript.
  - The JSON standard-input/standard-output wrapper put around a user's function.
* **Hoot comments** (`db_helpers.py`). `consolidate_comments_in_hoots` groups the flat rows of a posts-join-comments query into one dictionary per post. Each such dictionary carries a `comments` list.
* **Challenge listing** (`challenges_blueprint.py`). The SQL text and parameter tuple of the `GET /challenges` listing: an optional filter on difficulty and on data-structure type, and a whitelisted sort field.
* **Activity limit** (`progress_blueprint.py`). The `limit` argument of `GET /progress/activity`: parsed with Python's `int()`, 20 when absent or unparsable, then clamped into 1 .. 50.

## Modules

* `common.dfy`: `Option` and `Try`.
* `text.dfy`: the Python string operations the code relies on.
* `json.dfy`: parsed JSON values and Python's `==` on them.
* `comparison.dfy`: `_compare_outputs`.
* `sandboxes.dfy`: the language table, the sandbox handle and `_run_command`.
* `judging.dfy`: `run_test_cases`.
* `execution.dfy`: `execute_code`.
* `harness.dfy`: starters and wrappers.
* `hoot_comments.dfy`, `challenge_listing.dfy`, `activity_limit.dfy`: the three request-handling pieces above.

## How the model is built

**Stateful procedures.** The source's stateful procedures are imperative Dafny, each proved against a specification function:
* `RunTestCases` computes `Judge` through the source's loop and accumulators.
* `ExecuteCode` computes `Execute`.
* `BuildListingQuery` computes `ListingQuery`.
* `ConsolidateCommentsInHoots` mutates `Row` objects in place. It is proved to leave them as `Expected` says.

The lemmas then state what the source promises about those functions.

**The sandbox provider is an oracle.** A `Provider` value fixes three things:
* whether `Sandbox.create()` raises
* whether a file write raises
* what a command prints or raises, given the sandbox's current files (a run changes no file, and killing never raises)

So every property holds for every provider whose answers depend only on what the source passes it: the path and content of a write, and the current files, command and timeout of a run. The `Sandbox` class holds the files written so far and a kill counter. A ghost `Ledger` records every sandbox created through it, in order. Both entry points are proved to kill the sandbox exactly once whenever one was created, including on the path where an exception escapes.

**JSON.** `json.loads` is a parameter of type `string -> Option<Json>`, None where it raises. Python's `==` on parsed values is equality after `Canonical`. Canonicalisation turns booleans into numbers, because `True == 1 == 1.0` in Python. Lists compare element-wise and dicts by keys and values.

**Where the code does something other than what a reader might expect, the model follows the code:**
* **Zero test cases.** With no test cases `run_test_cases` reports `"passed"`, because `passed_count == total_count` is `0 == 0` (`JudgeVerdict`). There is no separate "no verdict" status.
* **Trailing newlines.** `rstrip("\n")` removes every trailing newline of the program's output, not only the final one (`ExecuteReport`, `RStripChar`).
* **Hidden test cases.** Nothing in the judging functions redacts them. Input, expected output, actual output and error text are returned for hidden cases too (`JudgeRecords`).
* **Write failure.** A failed write of the source file in `run_test_cases` escapes as an exception rather than producing an all-error summary (`JudgeRaises`). The sandbox is still killed.

## Model

| member | source | states |
|---|---|---|
| Sandboxes.LanguageConfig | e2b_service.py:17-26 | Only "python" and "javascript" have a profile. Each writes to `/tmp/solution.<ext>` and runs with `python3` / `node` followed by that same file. |
| Sandboxes.Sandbox.Write | e2b_service.py:40 | A write either raises the provider's error and changes nothing, or stores the content under the path. |
| Sandboxes.Sandbox.Run | e2b_service.py:41-42 | The command's outcome is the provider's answer on the current files. |
| Sandboxes.Sandbox.Kill | e2b_service.py:84-85 | Killing counts one more kill and leaves the files alone. |
| Sandboxes.Create | e2b_service.py:57-60 | Creation raises exactly when the provider refuses, with its message. Otherwise it yields a fresh, empty, unkilled sandbox, and that sandbox is appended to the ledger. A refusal leaves the ledger unchanged. |
| Sandboxes.CommandLine | e2b_service.py:39-42 | The command is redirected from `/tmp/stdin.txt` exactly when the standard input is non-empty. Otherwise it runs bare. |
| Sandboxes.RunCommandSpec | e2b_service.py:36-42 | Reference definition of `_run_command`: with non-empty input, the write of `/tmp/stdin.txt` (its error is raised) and then the redirected command on the files with that input added; otherwise the bare command on the unchanged files. |
| Sandboxes.StdinChoice | e2b_service.py:36-42 | Without input nothing is written. With input, and when the write of `/tmp/stdin.txt` succeeds, that file holds exactly the input and no other file changes. |
| Sandboxes.RunCommand | e2b_service.py:36-42 | `_run_command` yields the outcome and the files `RunCommandSpec` describes: a write error raises before anything runs. |
| Json.Canonical | e2b_service.py:92 | The compared form of a parsed value contains no booleans. |
| Json.PyEqual | e2b_service.py:92 | Python's `==` on two parsed values: equality of their compared forms. |
| Json.CanonicalOfBoolFree | e2b_service.py:92 | A value without booleans is its own compared form. |
| Json.BoolFreeEquality | e2b_service.py:92 | Without booleans, Python `==` on parsed values is structural equality. |
| Comparison.CompareOutputs | e2b_service.py:88-94 | Identical texts match. Other texts match iff both parse and the parsed values are `==`. A parse failure is a mismatch. |
| Comparison.IdenticalNeedsNoParse | e2b_service.py:89-90 | Identical texts match even when nothing parses, and then only identical texts match. |
| Comparison.CompareIsEquivalence | e2b_service.py:88-94 | For every parser the comparator is reflexive, symmetric and transitive. |
| Comparison.CompareWithoutBooleans | e2b_service.py:88-94 | When both outputs parse to values without booleans, they match iff the texts are identical or the values are structurally equal. |
| Text.LStrip | e2b_service.py:177 | The result is a suffix of the input, with whitespace before it and a non-whitespace first character. |
| Text.RStrip | e2b_service.py:177 | The result is a prefix of the input, with whitespace after it and a non-whitespace last character. |
| Text.Strip | e2b_service.py:177-178 | The result is the infix of the input between a leading and a trailing run of whitespace, and it is not padded itself. |
| Text.StripUnique | e2b_service.py:177-178 | Any unpadded infix framed by whitespace is `strip()`'s result. |
| Text.StripIdempotent | e2b_service.py:178 | Stripping an already stripped text changes nothing. |
| Text.RStripChar | e2b_service.py:176 | `rstrip("\n")` removes exactly the trailing newlines: the result is a prefix, everything after it is newlines, and it does not end with one. |
| Text.SplitJoin | harness.py:9 | Splitting a join by the separator gives back the parts, when no part contains the separator's first character. |
| Text.ContainsIff | e2b_service.py:81 | `needle in hay` holds iff some position of `hay` starts a copy of `needle`. |
| Text.Lower | e2b_service.py:81 | Lower-casing keeps the length, turns each ASCII capital into its small letter, keeps every other character, and leaves no ASCII capital. |
| Judging.CaseResult | e2b_service.py:168-209 | Per-case record. It keeps the case's id, input, expected output and hidden flag. The status is "Error" iff the run raised and "Accepted" iff it exited 0. `error` is present iff the status is not Accepted. `passed` is the comparison of the stripped outputs. |
| Judging.Loop | e2b_service.py:167-209 | The loop yields exactly one result per case. |
| Judging.CountPassed | e2b_service.py:164-181 | `passed_count` is at most the number of results. It equals that number iff all passed, and is 0 iff none passed. |
| Judging.OverallStatus | e2b_service.py:213-218 | Reference definition of the final if/elif/else: "error" when some run failed and none passed, otherwise "passed" when all passed, otherwise "failed"; its meaning is stated by `Judging.VerdictMeaning`. |
| Judging.ErrorSummary | e2b_service.py:100-156 | Reference definition of the early-exit summary: "error", nothing passed, and one unrun "Error" record per case carrying the message; stated per case by `Judging.JudgeEarlyExit`. |
| Judging.Judge | e2b_service.py:97-227 | Reference definition of what `run_test_cases` returns: the early-exit summary, the escaping write error, or the aggregate of the loop's records. |
| Judging.RunCase | e2b_service.py:168-209 | One loop iteration computes the case's record and the files afterwards, and reports whether it passed and whether it counts as an error. |
| Judging.RunCases | e2b_service.py:163-209 | The loop's results, `passed_count` and `has_error` are those of `Loop`, `CountPassed` and `HasError`. The sandbox stays alive. |
| Judging.JudgeInSandbox | e2b_service.py:158-227 | The `try/finally` block computes the in-sandbox verdict, or the escaping write error, and kills the sandbox exactly once on both paths. |
| Judging.RunTestCases | e2b_service.py:97-227 | `run_test_cases` returns `Judge`'s value. The ledger grows by exactly the returned sandbox when no early exit applies and is unchanged on an early exit, so no other sandbox enters it. That sandbox is killed exactly once. |
| Judging.LoopShape | e2b_service.py:167-209 | Result k is case k's own iteration, run on the files the earlier cases left. |
| Judging.CountPassedIsCardinality | e2b_service.py:178-181 | `passed_count` is the number of results whose `passed` is true. |
| Judging.HasErrorIff | e2b_service.py:183-209 | `has_error` is set iff some result is not Accepted, that is a non-zero exit or a raised run. |
| Judging.VerdictMeaning | e2b_service.py:211-218 | "passed" iff every result passed. "error" iff some run failed or raised and none passed. |
| Judging.JudgeEarlyExit | e2b_service.py:100-156 | Each early exit reports every case, in order, as an unrun "Error" record with the exit's message, overall "error" and 0 passed. |
| Judging.EarlyExitOrder | e2b_service.py:100-156 | The checks run in order (language, then API key, then sandbox creation) with their messages. No early exit applies iff all three succeed. |
| Judging.JudgeRaises | e2b_service.py:158-160 | The only exception that escapes is a failed write of the source file, once a sandbox exists. |
| Judging.JudgeRecords | e2b_service.py:163-225 | Every summary has one record per case, in order, with the case's id, input, expected output and hidden flag unchanged. `passed_count` counts the passing records and is at most `total_count`. |
| Judging.JudgeCaseOutcome | e2b_service.py:167-209 | Record i is `CaseResult` of case i's own run on the files the earlier cases left. A raising case does not stop the later ones. |
| Judging.JudgeVerdict | e2b_service.py:211-218 | On the loop path, `overall_status` is "passed" iff all cases passed, "error" iff some run failed or raised and none passed, and "failed" otherwise. No cases at all gives "passed". |
| Judging.ExpectedPaddingIrrelevant | e2b_service.py:177-178 | Stripping a case's expected output in advance changes no verdict, because the comparison strips it anyway. |
| Execution.ExecuteInSandbox | e2b_service.py:62-85 | The `try/except/finally` block computes `InSandbox` and kills the sandbox exactly once. |
| Execution.FailureMessage | e2b_service.py:79-83 | Reference definition of the handler's message; its meaning is stated by `Execution.FailureMessageMeaning`. |
| Execution.Report | e2b_service.py:69-78 | Reference definition of a finished run's report; its meaning is stated by `Execution.ExecuteReport`. |
| Execution.RunReport | e2b_service.py:62-83 | Reference definition of the `try/except` around the run: the report of a finished run, or the handler's message for a raised one. |
| Execution.Execute | e2b_service.py:45-85 | Reference definition of what `execute_code` returns: the early-exit message, or the outcome of the write and the one run in the sandbox. |
| Execution.ExecuteCode | e2b_service.py:45-85 | `execute_code` returns `Execute`'s value. The ledger grows by exactly the returned sandbox when no early exit applies and is unchanged on an early exit, so no other sandbox enters it. That sandbox is killed exactly once. |
| Execution.LowerIdempotent | e2b_service.py:81 | Lower-casing twice is lower-casing once. |
| Execution.MentionsTimeoutLower | e2b_service.py:81 | The time-out test gives the same answer on a message and on its lower-cased form. |
| Execution.FailureMessageMeaning | e2b_service.py:79-83 | An exception is reported as "Code execution timed out" iff its lower-cased message contains "timed out" or "timeout". Otherwise the message follows "Code execution failed: " in full. |
| Execution.ExecuteReport | e2b_service.py:62-78 | A report comes from a run that finished after the program was written. Its status is 3 / "Accepted" / no stderr iff the run exited 0, else 11 / "Runtime Error" with the run's stderr. Its stdout is the run's stdout with every trailing newline removed, and its time is the clock's first reading. |
| Execution.ExecuteErrors | e2b_service.py:49-63 | The early exits give their own message. A failed write of the program goes through the exception handler. |
| Execution.ReportMatchesCase | e2b_service.py:66-83 | For any outcome of one run and any time text, `execute_code`'s report and the record `run_test_cases` builds from the same outcome agree on output, stderr, status text and time; a raised run is an error on both sides, with the handler's rendering of the same message. |
| Execution.ExecuteMatchesJudge | e2b_service.py:62-78 | Under the same host, running once on a case's input reports what `run_test_cases` records when that case is the only one in the list. |
| Harness.StarterShape | harness.py:8-15 | A starter is the language's fixed prefix, the comma-separated parameter names and the fixed suffix. |
| Harness.StarterParamsRoundTrip | harness.py:8-15 | The parameter list can be read back out of the starter. |
| Harness.StarterNamesInOrder | harness.py:9-15 | The names in the starter are the parameters' names, in order, when no name contains a comma. |
| Harness.GenerateAllStarterCode | harness.py:51-58 | The result has exactly the supported languages as keys, each mapped to that language's starter. |
| Harness.WrapShape | harness.py:20-37 | A wrapped program is a fixed header, the user's code verbatim, and a trailer fixed by the language and function name. |
| Harness.WrapEndsWithNewline | harness.py:20-37 | Both wrapped programs end with a newline, whatever the user's code ends with. |
| Harness.UnwrapWrap | harness.py:61-67 | The user's code can be recovered from the wrapped program. |
| Harness.WrapInjective | harness.py:61-67 | Different user programs never wrap to the same program. |
| Harness.SupportAgrees | harness.py:42-67 | Starters and wrappers exist for exactly the supported languages. Any other language gets None, or the ValueError with its message. |
| Harness.PythonStarter | harness.py:8-10 | Reference definition of `_python_starter`; the return type is ignored. Its shape is stated by `Harness.StarterShape`. |
| Harness.JsStarter | harness.py:13-15 | Reference definition of `_js_starter`; the return type is ignored. Its shape is stated by `Harness.StarterShape`. |
| Harness.GenerateStarterCode | harness.py:42-48 | A starter exists exactly for the supported languages. |
| Harness.PythonWrap | harness.py:20-27 | Reference definition of `_python_wrap`: the import header, the user's code, and the lines that read the arguments, call the function and print its JSON result. |
| Harness.JsWrap | harness.py:30-37 | Reference definition of `_js_wrap`: the user's code and the lines that read standard input, call the function and log its JSON result. |
| Harness.WrapCode | harness.py:61-67 | Wrapping succeeds exactly for the supported languages; otherwise it raises the ValueError with the language in its message. |
| HootComments.Firsts | db_helpers.py:17-32 | The first-appearance indices are in range and strictly increasing. |
| HootComments.FirstsAreFirst | db_helpers.py:19-32 | Every listed index is the first row with its id. |
| HootComments.FirstsComplete | db_helpers.py:19-32 | Every first row is listed. |
| HootComments.FirstExists | db_helpers.py:20-32 | Every row's id is carried by some first row at or before it. |
| HootComments.NoMatchMeansFirst | db_helpers.py:20-32 | A row that no earlier output entry matches is the first of its hoot. |
| HootComments.EntryOther | db_helpers.py:20-29 | A row of another hoot leaves an entry unchanged. |
| HootComments.EntryAppend | db_helpers.py:21-29 | A later row of the same hoot appends its comment to that entry. |
| HootComments.EntryNew | db_helpers.py:33-45 | A new entry holds only its own comment, if it has one. |
| HootComments.PartialNew | db_helpers.py:32-46 | A first row adds its own entry at the end of the output. |
| HootComments.PartialAppend | db_helpers.py:20-29 | A repeated row appends its comment to its hoot's entry and changes nothing else. |
| HootComments.GiveComments | db_helpers.py:33-41 | The row gets a `comments` list with its own comment, which is empty when its comment_id is null. |
| HootComments.DropCommentColumns | db_helpers.py:42-45 | The four comment columns are removed and nothing else changes. |
| HootComments.DropAfterSet | db_helpers.py:33-45 | Setting `comments` and dropping the comment columns commute. |
| HootComments.StartHoot | db_helpers.py:33-45 | A new hoot's row: comment columns gone, `comments` holding its own comment unless comment_id is null. |
| HootComments.AddNewHoot | db_helpers.py:32-46 | The `if not hoot_exists` branch appends the reshaped row to the output. |
| HootComments.FindAndAppend | db_helpers.py:19-29 | The inner search finds the first entry with the row's id and appends the row's comment there. Otherwise no entry has that id and nothing changes. |
| HootComments.Unlisted | db_helpers.py:15-48 | No row other than a first row ends up in the output. |
| HootComments.AddRow | db_helpers.py:17-46 | One outer iteration turns the output for the first i rows into the output for the first i+1. Rows outside the output keep their dictionaries. |
| HootComments.Settle | db_helpers.py:31-46 | After the search, the new-hoot branch or nothing completes the iteration. |
| HootComments.AddFirstRow | db_helpers.py:32-46 | A first row's iteration appends its entry. |
| HootComments.GroupRows | db_helpers.py:16-47 | The outer loop returns the first rows, in input order, holding `Expected`'s dictionaries. Other rows are untouched. |
| HootComments.ConsolidateCommentsInHoots | db_helpers.py:15-48 | The result is the first row of each hoot, in order of first appearance, mutated in place into `Expected(input)`. Every other input row is left unchanged. |
| HootComments.Expected | db_helpers.py:15-48 | Reference definition of the function's result: one entry per first row, in input order, each the first row without its comment columns and with the hoot's comments. |
| HootComments.ExpectedIdsDistinct | db_helpers.py:15-48 | No two output dictionaries share an id. |
| HootComments.ExpectedIdsCover | db_helpers.py:15-48 | Every input id has an output dictionary, and every output id comes from the input. |
| HootComments.ExpectedCount | db_helpers.py:15-48 | There are as many output dictionaries as distinct input ids. |
| HootComments.ExpectedOrder | db_helpers.py:17-46 | Output order is the order of first appearance. |
| HootComments.ExpectedShape | db_helpers.py:33-45 | An output dictionary is its first row without the four comment columns and with a `comments` list. Every other column keeps its value. |
| HootComments.LaterCommentsSplit | db_helpers.py:20-29 | A run of rows' comments splits at any point in between. |
| HootComments.CommentsFromFirst | db_helpers.py:20-41 | A hoot's comments are its first row's, then those of its later rows. |
| HootComments.NoEarlierComments | db_helpers.py:20-32 | No row before a hoot's first row contributes to it. |
| HootComments.ExpectedComments | db_helpers.py:15-48 | A hoot's `comments` are the comments of all its rows in input order, minus the first one when the first row's comment_id is null. |
| ChallengeListing.SortField | challenges_blueprint.py:63-66 | The sort field is always allowed. It is the requested one iff that one is allowed, and otherwise "created_at". |
| ChallengeListing.Conditions | challenges_blueprint.py:81-89 | Reference definition of the conditions: the difficulty one when its filter is truthy, then the data-structure one when its filter is truthy. |
| ChallengeListing.Params | challenges_blueprint.py:80-89 | Reference definition of the parameter values, in the same order as the conditions. |
| ChallengeListing.ListingQuery | challenges_blueprint.py:68-96 | Reference definition of the query text: base text, WHERE clause, ordering clause. |
| ChallengeListing.BuildListingQuery | challenges_blueprint.py:61-96 | The step-by-step construction yields `ListingQuery` and `Params`. |
| ChallengeListing.ConditionsBindParams | challenges_blueprint.py:80-89 | One value per placeholder. The difficulty condition is present iff its filter is truthy and binds that value; likewise the data-structure condition, which is always last. |
| ChallengeListing.QueryShape | challenges_blueprint.py:68-96 | The query is the base text, then the WHERE clause, then the difficulty ordering iff the sort field is "difficulty", else newest first. |
| ChallengeListing.WhereIffFiltered | challenges_blueprint.py:83-92 | " WHERE " follows the base text iff some filter is truthy. With both filters it is the two conditions joined by " AND ". |
| ChallengeListing.OrderStart | challenges_blueprint.py:93-96 | Both orderings start with " ORDER BY ". |
| ChallengeListing.WhereStart | challenges_blueprint.py:91-96 | The tail starts with " WHERE " iff there are conditions. |
| ChallengeListing.BothConditions | challenges_blueprint.py:83-92 | With both filters the WHERE clause is the two conditions joined by " AND ". |
| ChallengeListing.UnfilteredQuery | challenges_blueprint.py:91-96 | Without filters the query is the base text and the ordering, with no parameters. |
| ActivityLimit.ParseStripped | progress_blueprint.py:90 | `int()` only succeeds on text that contains a digit. |
| ActivityLimit.ParseInt | progress_blueprint.py:90 | Reference definition of `int()` on a text: surrounding whitespace stripped, then an optional sign and the digit groups. |
| ActivityLimit.Clamp | progress_blueprint.py:93 | The limit lies in 1 .. 50, is kept when already inside, and otherwise goes to the nearer bound. |
| ActivityLimit.ActivityLimit | progress_blueprint.py:89-93 | The limit is in 1 .. 50. It is 20 when the argument is absent or unparsable, and the clamped number otherwise. |
| ActivityLimit.NatToStringValue | progress_blueprint.py:90 | `str(n)` is a non-empty run of digits worth n. |
| ActivityLimit.ParseNumber | progress_blueprint.py:90 | The sign and digits of `str(n)` are read back as n. |
| ActivityLimit.StripNumber | progress_blueprint.py:90 | `str(n)` has no whitespace to strip. |
| ActivityLimit.ParseIntToString | progress_blueprint.py:90 | `int(str(n)) == n` for every integer n. |
| ActivityLimit.ParseIgnoresPadding | progress_blueprint.py:90 | Whitespace around the text does not change what `int()` reads. |
| ActivityLimit.LimitOfNumber | progress_blueprint.py:89-93 | A limit written as a number is that number clamped. A number already in 1 .. 50 is kept. |
| ActivityLimit.LimitWithoutDigits | progress_blueprint.py:89-92 | A text without digits, the empty text included, gives the default 20. |

## Left out

- Sandboxes.Sandbox.Run: a run is a function of the files, the command and the timeout, and it changes no file. Two things are therefore not captured:
  - a program that writes into the reused sandbox's `/tmp`, and so changes what later cases of `run_test_cases` see
  - a run whose outcome varies between identical calls, such as an intermittent time-out

  So the model gives two identical cases of one submission the same record. `Judging.JudgeCaseOutcome`'s "files the earlier cases left" covers only the files the judge itself writes: the source file and `/tmp/stdin.txt`.
- Sandboxes.Sandbox.Kill: `sandbox.kill()` never raises in the model. In the source it runs in a `finally` (e2b_service.py:84-85 and 226-227), so an exception it raises would replace the summary, the report or the escaping write error. The model does not capture that.
- Judging.RunTestCases: the ledger records only sandboxes created with the ledger passed in. A sandbox entered in another ledger made inside the method would not show up.
- Execution.ExecuteCode: the same holds for its ledger.
- Network, clock and environment: the E2B SDK, the network and the operating-system environment are not modelled. The API-key check is a boolean. The elapsed-time text of each run is a clock parameter. Rounding `time.time()` differences is floating point, which is left out.
- The `"memory": None` field of `execute_code`'s report is constant and not modelled.
- Comparison.CompareOutputs: a parser answer is a value or a decoding error only. Other exceptions `json.loads` can raise (the `ValueError` for an integer of more than 4300 digits, a `RecursionError` on very deep nesting) escape `_compare_outputs` and make `run_test_cases` record that case as an "Error" with `has_error` set. In the model that case is only a failed comparison with status "Accepted" or "Runtime Error".
- `json.loads` itself is a parameter. Every property holds for every parser. Number parsing and the `TypeError` branch of `_compare_outputs` are not modelled; the latter cannot arise for text arguments.
- Json.PyEqual: NaN compares equal to itself here. Python's `float('nan') == float('nan')` is false, but `json.loads` returns one shared NaN object, and the identical-text tier decides a bare `NaN` first.
- Text.Lower: only ASCII letters are lower-cased. Other Unicode case mappings are not modelled.
- ActivityLimit.ParseStripped: only ASCII digits are accepted, not other Unicode decimal digits. Python's 4300-digit conversion limit is not modelled.
- HootComments.ConsolidateCommentsInHoots: two assumptions are required rather than modelled.
  - Distinct row objects. The same dictionary appearing twice in the input would alias, and the model does not describe that aliasing.
  - Every row has `id` and the four comment columns. The `KeyError` raised otherwise is not modelled.
- HootComments: column values are compared with structural equality. Python's `True == 1` across a bool id and an int id is not modelled. Dictionary key order is not modelled either, because `Fields` is a map.
- ChallengeListing.QueryShape: "exactly one ORDER BY" is stated structurally, as base text + WHERE clause + one ordering clause. Occurrences of the words inside the filters' values cannot happen, since those values are parameters, and are not counted.
- `DIFFICULT_ORDER` (challenges_blueprint.py:56) is never used by the code. Its `"hard": "3"` is a string, which does not matter for that reason. It is not modelled.
- Database connections, cursors, `fetchall`, `commit` and the Flask routing around the three handlers are not modelled. Neither is the handlers' `except Exception` that turns a database error into a 500 response.
- Hidden-test redaction: no code in the judging functions strips the input, expected output, actual output or error text of a hidden case, so none is modelled; `Judging.JudgeRecords` states that these fields pass through.
- The AI test-case generation service and the remaining CRUD handlers are not part of this model.
