/** The back end's code-execution task: the language name is lower-cased,
    dispatched to a script file name and an interpreter, the script file is
    written with the submitted code, the interpreter is run with a time
    limit, and the process outcome is turned into one output string. The
    temporary directory and the subprocess are outside the model: the
    directory is a parameter and the subprocess's outcome is a value. */
module CodeExecution {
  import opened Wrappers
  import Text

  /** The subprocess time limit, in seconds. */
  const TimeoutSeconds: nat := 5

  const TimeoutMessage: string := "Execution timed out (limit: 5 seconds)"

  /** How one supported language is run: the script's file name, the
      interpreter's command, the name used in generic error messages, and
      the dedicated message for a missing interpreter, where there is one. */
  datatype Runner = Runner(
    fileName: string,
    interpreter: string,
    displayName: string,
    missingInterpreter: Option<string>)

  /** The `if`/`elif` chain on the lower-cased language name. */
  function RunnerFor(language: string): (r: Option<Runner>)
    ensures r.Some? <==> language in {"python", "javascript", "ruby"}
    ensures language == "python" ==> r == Some(Runner("script.py", "python", "Python", None))
    ensures language == "javascript" ==>
      r == Some(Runner("script.js", "node", "JavaScript", Some("Node.js is not installed or not found in PATH")))
    ensures language == "ruby" ==>
      r == Some(Runner("script.rb", "ruby", "Ruby", Some("Ruby is not installed or not found in PATH")))
  {
    if language == "python" then
      Some(Runner("script.py", "python", "Python", None))
    else if language == "javascript" then
      Some(Runner("script.js", "node", "JavaScript", Some("Node.js is not installed or not found in PATH")))
    else if language == "ruby" then
      Some(Runner("script.rb", "ruby", "Ruby", Some("Ruby is not installed or not found in PATH")))
    else
      None
  }

  /** What `subprocess.run` did: the process exited with a return code and
      its captured streams; the time limit expired; the interpreter was not
      found (`FileNotFoundError`); or some other exception, with its text. */
  datatype ProcessOutcome =
    | Exited(returnCode: int, stdout: string, stderr: string)
    | TimedOut
    | InterpreterMissing(detail: string)
    | Crashed(detail: string)

  /** The script file written and the command started for it. */
  datatype Invocation = Invocation(scriptPath: string, script: string, argv: seq<string>, timeout: nat)

  /** The task's result: the output string, and the invocation, if any
      process was started at all. */
  datatype Execution = Execution(output: string, invocation: Option<Invocation>)

  /** `os.path.join(dir, name)` for a directory that does not end in `/`. */
  function JoinPath(dir: string, name: string): (path: string)
    ensures |path| == |dir| + 1 + |name|
    ensures path[..|dir|] == dir && path[|dir|] == '/' && path[|dir| + 1..] == name
  {
    dir + "/" + name
  }

  /** The message of an exception the runner has no dedicated branch for:
      the language's display name, then the exception's text verbatim. */
  function GenericError(runner: Runner, detail: string): (r: string)
    ensures |r| == 16 + |runner.displayName| + 7 + |detail|
    ensures r[..16] == "Error executing "
    ensures r[16..16 + |runner.displayName|] == runner.displayName
    ensures r[16 + |runner.displayName|..|r| - |detail|] == " code: "
    ensures r[|r| - |detail|..] == detail
  {
    "Error executing " + runner.displayName + " code: " + detail
  }

  /** The output chosen for one outcome of one runner. */
  function OutputFor(runner: Runner, outcome: ProcessOutcome): (r: string)
    ensures outcome.Exited? && outcome.returnCode == 0 ==> r == outcome.stdout
    ensures outcome.Exited? && outcome.returnCode != 0 ==> r == outcome.stderr
    ensures outcome.TimedOut? ==> r == TimeoutMessage
    ensures outcome.InterpreterMissing? && runner.missingInterpreter.Some? ==> r == runner.missingInterpreter.value
    ensures outcome.InterpreterMissing? && runner.missingInterpreter.None? ==> r == GenericError(runner, outcome.detail)
    ensures outcome.Crashed? ==> r == GenericError(runner, outcome.detail)
  {
    match outcome
    case Exited(code, out, err) => if code == 0 then out else err
    case TimedOut => TimeoutMessage
    case InterpreterMissing(detail) =>
      if runner.missingInterpreter.Some? then runner.missingInterpreter.value
      else GenericError(runner, detail)
    case Crashed(detail) => GenericError(runner, detail)
  }

  /** The reply for a name outside the table, which echoes the name. */
  function UnsupportedMessage(language: string): (r: string)
    ensures |r| == 10 + |language| + 23
    ensures r[..10] == "Language '"
    ensures r[10..10 + |language|] == language
    ensures r[10 + |language|..] == "' is not supported yet."
  {
    "Language '" + language + "' is not supported yet."
  }

  /** `execute_code(code, language)`, with the temporary directory and the
      subprocess's outcome given. */
  function ExecuteCode(code: string, language: string, tempDir: string, outcome: ProcessOutcome): (r: Execution)
    ensures var lang := Text.Lower(language);
      && (r.invocation.None? <==> lang !in {"python", "javascript", "ruby"})
      && (r.invocation.None? ==> r.output == UnsupportedMessage(lang))
    ensures r.invocation.Some? ==>
      var runner := RunnerFor(Text.Lower(language)).value;
      && r.invocation.value.script == code
      && r.invocation.value.scriptPath == JoinPath(tempDir, runner.fileName)
      && r.invocation.value.argv == [runner.interpreter, r.invocation.value.scriptPath]
      && r.invocation.value.timeout == TimeoutSeconds
      && r.output == OutputFor(runner, outcome)
  {
    var lang := Text.Lower(language);
    match RunnerFor(lang)
    case None => Execution(UnsupportedMessage(lang), None)
    case Some(runner) =>
      var path := JoinPath(tempDir, runner.fileName);
      Execution(OutputFor(runner, outcome), Some(Invocation(path, code, [runner.interpreter, path], TimeoutSeconds)))
  }

  /** Any casing of a language name takes the same branch with the same
      result. */
  lemma DispatchIgnoresCase(code: string, a: string, b: string, tempDir: string, outcome: ProcessOutcome)
    requires Text.SameLetters(a, b)
    ensures ExecuteCode(code, a, tempDir, outcome) == ExecuteCode(code, b, tempDir, outcome)
  {
    Text.SameLettersIffSameLower(a, b);
  }

  /** "Python", "PYTHON" and "python" all run `python script.py`. */
  lemma PythonInAnyCase(code: string, language: string, tempDir: string, outcome: ProcessOutcome)
    requires Text.SameLetters(language, "python")
    ensures ExecuteCode(code, language, tempDir, outcome).invocation ==
      Some(Invocation(JoinPath(tempDir, "script.py"), code, ["python", JoinPath(tempDir, "script.py")], 5))
  {
    Text.SameLettersIffSameLower(language, "python");
    Text.LowerOfLowerCase("python");
  }

  /** A run that finishes normally reports standard output on success and
      standard error otherwise, whichever supported language it was. */
  lemma CompletedRunOutput(code: string, language: string, tempDir: string, rc: int, out: string, err: string)
    requires Text.Lower(language) in {"python", "javascript", "ruby"}
    ensures ExecuteCode(code, language, tempDir, Exited(rc, out, err)).output == if rc == 0 then out else err
  {
  }

  /** The time limit gives the same message for every supported language. */
  lemma TimeoutIsUniform(code: string, language: string, tempDir: string)
    requires Text.Lower(language) in {"python", "javascript", "ruby"}
    ensures ExecuteCode(code, language, tempDir, TimedOut).output == TimeoutMessage
  {
  }

  /** The three supported names are already in lower case. */
  lemma PythonIsLowerCase()
    ensures Text.Lower("python") == "python"
  {
    Text.LowerOfLowerCase("python");
  }

  lemma JavaScriptIsLowerCase()
    ensures Text.Lower("javascript") == "javascript"
  {
    Text.LowerOfLowerCase("javascript");
  }

  lemma RubyIsLowerCase()
    ensures Text.Lower("ruby") == "ruby"
  {
    Text.LowerOfLowerCase("ruby");
  }

  /** Python has no handler for a missing interpreter: it falls through to
      its generic error. */
  lemma PythonMissingInterpreter(code: string, tempDir: string, detail: string)
    ensures ExecuteCode(code, "python", tempDir, InterpreterMissing(detail)).output ==
      "Error executing Python code: " + detail
  {
    PythonIsLowerCase();
  }

  /** JavaScript and Ruby report a missing interpreter with a dedicated
      message. */
  lemma JavaScriptMissingInterpreter(code: string, tempDir: string, detail: string)
    ensures ExecuteCode(code, "javascript", tempDir, InterpreterMissing(detail)).output ==
      "Node.js is not installed or not found in PATH"
  {
    JavaScriptIsLowerCase();
  }

  lemma RubyMissingInterpreter(code: string, tempDir: string, detail: string)
    ensures ExecuteCode(code, "ruby", tempDir, InterpreterMissing(detail)).output ==
      "Ruby is not installed or not found in PATH"
  {
    RubyIsLowerCase();
  }

  /** An unsupported name starts no process and is echoed back in lower
      case, whatever the outcome the subprocess would have had. */
  lemma UnsupportedRunsNothing(code: string, language: string, tempDir: string, o1: ProcessOutcome, o2: ProcessOutcome)
    requires Text.Lower(language) !in {"python", "javascript", "ruby"}
    ensures ExecuteCode(code, language, tempDir, o1) == ExecuteCode(code, language, tempDir, o2)
    ensures ExecuteCode(code, language, tempDir, o1) == Execution(UnsupportedMessage(Text.Lower(language)), None)
  {
  }
}
