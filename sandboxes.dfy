/**
 * The isolated execution environment as e2b_service.py uses it: the fixed
 * language table, the sandbox handle (files written into it, commands run in
 * it, how often it was killed) and `_run_command`'s choice of standard input.
 *
 * The provider is an oracle.  Whether creation fails, whether a file write
 * raises, and what a command prints or raises are all fixed by a `Provider`
 * value, so every property below holds for every provider whose answers
 * depend only on the path and content of a write, and on the current files,
 * command and timeout of a run.  A run changes no file and `kill()` never
 * raises.
 */
module Sandboxes {
  import opened Common

  /** One row of `LANGUAGE_CONFIG`. */
  datatype LanguageProfile = LanguageProfile(filename: string, runCmd: string)

  /** Where both languages' programs are written: `/tmp/solution.` and the file extension. */
  const SolutionStem := "/tmp/solution."

  /** `LANGUAGE_CONFIG.get(language)`. */
  function LanguageConfig(language: string): (r: Option<LanguageProfile>)
    ensures r.Some? <==> language == "python" || language == "javascript"
    ensures r.Some? ==> r.value.filename == SolutionStem + (if language == "python" then "py" else "js")
    ensures r.Some? ==> r.value.runCmd == (if language == "python" then "python3 " else "node ") + r.value.filename
  {
    if language == "python" then Some(LanguageProfile(SolutionStem + "py", "python3 " + (SolutionStem + "py")))
    else if language == "javascript" then Some(LanguageProfile(SolutionStem + "js", "node " + (SolutionStem + "js")))
    else None
  }

  /** Where `_run_command` puts a non-empty standard input. */
  const StdinPath := "/tmp/stdin.txt"

  /** The per-run timeout both entry points pass to the sandbox. */
  const RunTimeout := 30

  type Files = map<string, string>

  /** What `sandbox.commands.run` returns; `stdout` is None when the SDK gives no output object. */
  datatype CommandResult = CommandResult(stdout: Option<string>, stderr: string, exitCode: int)

  /** The sandbox provider's behaviour, fixed in advance. */
  datatype Provider = Provider(
    createError: Option<string>,                   // str(e) when Sandbox.create() raises
    write: (string, string) -> Option<string>,     // str(e) when files.write(path, content) raises
    run: (Files, string, int) -> Try<CommandResult>) // commands.run(cmd, timeout) on the current files

  /** Every sandbox acquired so far, in order of creation (ghost bookkeeping only). */
  class Ledger {
    ghost var created: seq<Sandbox>

    constructor ()
      ensures created == []
    {
      created := [];
    }
  }

  /** One acquired sandbox. */
  class Sandbox {
    const provider: Provider
    var files: Files
    var kills: nat

    /** A new sandbox is entered in `ledger`. */
    constructor (provider: Provider, ledger: Ledger)
      modifies ledger
      ensures this.provider == provider && files == map[] && kills == 0
      ensures ledger.created == old(ledger.created) + [this]
    {
      this.provider := provider;
      files := map[];
      kills := 0;
      new;
      ledger.created := ledger.created + [this];
    }

    /** `sandbox.files.write(path, content)`. */
    method Write(path: string, content: string) returns (err: Option<string>)
      requires kills == 0
      modifies this
      ensures err == provider.write(path, content)
      ensures files == if err.None? then old(files)[path := content] else old(files)
      ensures kills == 0
    {
      err := provider.write(path, content);
      if err.None? {
        files := files[path := content];
      }
    }

    /** `sandbox.commands.run(cmd, timeout=timeout)`. */
    method Run(cmd: string, timeout: int) returns (r: Try<CommandResult>)
      requires kills == 0
      ensures r == provider.run(files, cmd, timeout)
    {
      r := provider.run(files, cmd, timeout);
    }

    /** `sandbox.kill()`. */
    method Kill()
      modifies this
      ensures kills == old(kills) + 1 && files == old(files)
    {
      kills := kills + 1;
    }
  }

  /** `Sandbox.create()`: a fresh, empty sandbox, or the message of the exception it raised. */
  method Create(provider: Provider, ledger: Ledger) returns (r: Try<Sandbox>)
    modifies ledger
    ensures r.Raised? <==> provider.createError.Some?
    ensures r.Raised? ==> r.message == provider.createError.value
    ensures r.Ok? ==> fresh(r.value) && r.value.provider == provider && r.value.files == map[] && r.value.kills == 0
    ensures ledger.created == old(ledger.created) + (if r.Ok? then [r.value] else [])
  {
    if provider.createError.Some? {
      r := Raised(provider.createError.value);
    } else {
      var sandbox := new Sandbox(provider, ledger);
      r := Ok(sandbox);
    }
  }

  /** The command `_run_command` issues: redirected from the stdin file exactly when there is input. */
  function CommandLine(cmd: string, stdinInput: string): (line: string)
    ensures stdinInput == "" <==> line == cmd
    ensures stdinInput != "" ==> line == cmd + " < " + StdinPath
  {
    if stdinInput != "" then cmd + " < " + StdinPath else cmd
  }

  /** `_run_command` on a sandbox whose files are `files`: the outcome and the files afterwards. */
  function RunCommandSpec(provider: Provider, files: Files, cmd: string, stdinInput: string, timeout: int): (Try<CommandResult>, Files)
  {
    if stdinInput != "" then
      match provider.write(StdinPath, stdinInput)
      case Some(e) => (Raised(e), files)
      case None =>
        var written := files[StdinPath := stdinInput];
        (provider.run(written, CommandLine(cmd, stdinInput), timeout), written)
    else
      (provider.run(files, CommandLine(cmd, stdinInput), timeout), files)
  }

  /** Without input nothing is written and the bare command runs; with input the program reads exactly that input. */
  lemma StdinChoice(provider: Provider, files: Files, cmd: string, stdinInput: string, timeout: int)
    ensures stdinInput == "" ==>
      RunCommandSpec(provider, files, cmd, stdinInput, timeout) == (provider.run(files, cmd, timeout), files)
    ensures stdinInput != "" && provider.write(StdinPath, stdinInput).None? ==>
      var (_, after) := RunCommandSpec(provider, files, cmd, stdinInput, timeout);
      StdinPath in after && after[StdinPath] == stdinInput && after - {StdinPath} == files - {StdinPath}
  {
  }

  /** `_run_command(sandbox, cmd, stdin_input, timeout)`. */
  method RunCommand(sandbox: Sandbox, cmd: string, stdinInput: string, timeout: int) returns (r: Try<CommandResult>)
    requires sandbox.kills == 0
    modifies sandbox
    ensures (r, sandbox.files) == RunCommandSpec(sandbox.provider, old(sandbox.files), cmd, stdinInput, timeout)
    ensures sandbox.kills == 0
  {
    if stdinInput != "" {
      var err := sandbox.Write(StdinPath, stdinInput);
      if err.Some? {
        return Raised(err.value);
      }
      r := sandbox.Run(cmd + " < " + StdinPath, timeout);
      return;
    }
    r := sandbox.Run(cmd, timeout);
  }
}
