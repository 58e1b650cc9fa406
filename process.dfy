/** Running one operation (ExecuteOp and ExecuteCommand in
    pkg/monobrew/process.go). The subprocess, the PATH lookup and the clock
    are outside the model: their answers are the fields of an Env. */
module Process {
  import opened Maybe
  import opened Configuration

  /** What the subprocess is started with: the program path, its argument
      vector (argv[0] included) and its standard input. */
  datatype Invocation = Invocation(path: string, argv: seq<string>, stdin: string)

  /** How a subprocess ends: it ran and exited with a code, its combined
      output and the error CombinedOutput reported (None when it reported
      none, Some with the error's text otherwise), or it could not be started
      at all. */
  datatype Outcome =
    | Exited(code: int, output: string, err: Option<string>)
    | LaunchFailed(message: string)

  /** The world one operation runs in: what exec.LookPath answers, what a
      subprocess does, the clock readings before and after it, and which files
      can be written. */
  datatype Env = Env(
    lookPath: string -> string,
    run: Invocation -> Outcome,
    startTime: int,
    endTime: int,
    canWrite: string -> bool)

  /** The three results ExecuteCommand returns. */
  datatype CommandResult = CommandResult(exitCode: int, output: string, error: string)

  /** The rule for the error string: an error's text when there is an error
      and its text is not empty, "" otherwise. */
  function ErrorText(err: Option<string>): (e: string)
    ensures e != "" <==> err.Some? && err.value != ""
    ensures e != "" ==> e == err.value
  {
    match err
    case None => ""
    case Some(msg) => if msg != "" then msg else ""
  }

  /** ExecuteCommand: the program is started with argv [command] + args and
      stdin as its input. A process that never started has no ProcessState,
      whose ExitCode is -1, and no output. */
  function ExecuteCommand(run: Invocation -> Outcome, stdin: string, command: string, args: seq<string>): (r: CommandResult)
  {
    match run(Invocation(command, [command] + args, stdin))
    case Exited(code, output, err) => CommandResult(code, output, ErrorText(err))
    case LaunchFailed(message) => CommandResult(-1, "", ErrorText(Some(message)))
  }

  /** What ExecuteOp leaves in the block. */
  function Executed(op: Block, env: Env): Block
  {
    var path := env.lookPath(op.command);
    var c := ExecuteCommand(env.run, op.stdin, path, op.args);
    op.(commandPath := path,
        startTime := env.startTime,
        endTime := env.endTime,
        elapsedTime := env.endTime - env.startTime,
        runError := c.error,
        stdouterrIsEmpty := if |c.output| == 0 then true else op.stdouterrIsEmpty,
        stdouterr := c.output,
        exitCode := c.exitCode,
        success := if c.exitCode == 0 then true else op.success)
  }

  /** ExecuteOp, field by field as the source assigns them. */
  method ExecuteOp(op: Block, env: Env) returns (r: Block)
    ensures r == Executed(op, env)
    ensures r.success == (op.success || r.exitCode == 0)
    ensures r.stdouterrIsEmpty == (op.stdouterrIsEmpty || r.stdouterr == "")
  {
    r := op;
    r := r.(commandPath := env.lookPath(r.command));
    r := r.(startTime := env.startTime);
    var c := ExecuteCommand(env.run, r.stdin, r.commandPath, r.args);
    r := r.(endTime := env.endTime);
    r := r.(elapsedTime := r.endTime - r.startTime);
    r := r.(runError := c.error);
    if |c.output| == 0 {
      r := r.(stdouterrIsEmpty := true);
    }
    r := r.(stdouterr := c.output);
    r := r.(exitCode := c.exitCode);
    if c.exitCode == 0 {
      r := r.(success := true);
    }
  }

  // ---- lemmas ----

  /** Success is exit code 0, and a success recorded earlier is never undone. */
  lemma SuccessRule(op: Block, env: Env)
    ensures Executed(op, env).success <==> op.success || Executed(op, env).exitCode == 0
    ensures op.success ==> Executed(op, env).success
    ensures NotExecuted(op) ==> (Executed(op, env).success <==> Executed(op, env).exitCode == 0)
  {
  }

  /** The empty-output flag is raised by empty output and never lowered. */
  lemma EmptyOutputRule(op: Block, env: Env)
    ensures Executed(op, env).stdouterrIsEmpty <==> op.stdouterrIsEmpty || Executed(op, env).stdouterr == ""
  {
  }

  /** The result fields are those of the command, the path is the looked-up
      one, the elapsed time is the difference of the clock readings, and the
      fields that describe the operation are left as they were. */
  lemma ExecutedFields(op: Block, env: Env)
    ensures Executed(op, env).commandPath == env.lookPath(op.command)
    ensures Executed(op, env).startTime == env.startTime && Executed(op, env).endTime == env.endTime
    ensures Executed(op, env).elapsedTime == Executed(op, env).endTime - Executed(op, env).startTime
    ensures var c := ExecuteCommand(env.run, op.stdin, env.lookPath(op.command), op.args);
      Executed(op, env).exitCode == c.exitCode && Executed(op, env).stdouterr == c.output
      && Executed(op, env).runError == c.error
    ensures Executed(op, env).(commandPath := op.commandPath, startTime := op.startTime, endTime := op.endTime,
                               elapsedTime := op.elapsedTime, runError := op.runError,
                               stdouterrIsEmpty := op.stdouterrIsEmpty, stdouterr := op.stdouterr,
                               exitCode := op.exitCode, success := op.success) == op
  {
  }

  /** The command sees only one invocation: two worlds that answer it alike
      give the same result, so the program is started with the looked-up
      path, argv [path] + args, and the block's script as stdin. */
  lemma OneInvocation(op: Block, env1: Env, env2: Env)
    requires env1.lookPath(op.command) == env2.lookPath(op.command)
    requires env1.startTime == env2.startTime && env1.endTime == env2.endTime
    requires var path := env1.lookPath(op.command);
      env1.run(Invocation(path, [path] + op.args, op.stdin)) == env2.run(Invocation(path, [path] + op.args, op.stdin))
    ensures Executed(op, env1) == Executed(op, env2)
  {
  }

  /** A process that could not be started reports exit code -1, no output and
      its launch error, so the operation fails unless it had already
      succeeded. */
  lemma LaunchFailure(op: Block, env: Env)
    requires var path := env.lookPath(op.command);
      env.run(Invocation(path, [path] + op.args, op.stdin)).LaunchFailed?
    ensures Executed(op, env).exitCode == -1 && Executed(op, env).stdouterr == ""
    ensures Executed(op, env).stdouterrIsEmpty
    ensures Executed(op, env).success == op.success
  {
  }

  /** The error string is empty exactly when the command reported no error or
      an error with empty text. */
  lemma ErrorStringRule(run: Invocation -> Outcome, stdin: string, command: string, args: seq<string>)
    ensures var o := run(Invocation(command, [command] + args, stdin));
      ExecuteCommand(run, stdin, command, args).error != "" <==>
        (o.Exited? && o.err.Some? && o.err.value != "") || (o.LaunchFailed? && o.message != "")
  {
  }
}
