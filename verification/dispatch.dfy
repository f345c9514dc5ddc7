/**
 * The decisions `ShellCommand::execute` in src/lib.rs makes for each command:
 * whether the shell goes on reading lines, what it writes and where, which
 * directory it changes to and which program it runs with which arguments.
 *
 * The process state it consults (the working directory, `HOME`, whether a
 * path is a directory, the executable search) is passed in as an `Env`, and
 * what it does is returned as an `Effect` instead of being performed.
 */
module Dispatch {
  import opened Wrappers
  import opened Words
  import opened Command
  import opened Redirect

  /** The ambient process state `execute` reads. */
  datatype Env = Env(
    cwd: string,                               // env::current_dir
    home: Option<string>,                      // env::var("HOME")
    isDir: string -> bool,                     // Path::is_dir
    findExecutable: string -> Option<string>)  // the executable search on the search path

  /** What one command does. */
  datatype Effect =
      // nothing at all
    | Nothing
      // `text` and a newline: into `file` (created or truncated) when given, else to standard output
    | WriteLine(text: string, file: Option<string>)
      // change the working directory; a failure is reported on standard error
    | ChangeDir(target: string)
      // run `program` with `args`; its standard output goes into `stdoutFile`
      // (created or truncated) when given, else to standard output; its standard
      // error always goes to standard error
    | Run(program: string, args: seq<string>, stdoutFile: Option<string>)

  /** `keepGoing` is the value `execute` returns: whether the loop reads another line. */
  datatype Outcome = Outcome(keepGoing: bool, effect: Effect)

  /** The answer to `type name`. */
  function TypeMessage(name: string, findExecutable: string -> Option<string>): (msg: string)
    ensures name <= msg
    ensures IsBuiltin(name) ==> msg == name + " is a shell builtin"
    ensures !IsBuiltin(name) && findExecutable(name).Some? ==> msg == name + " is " + findExecutable(name).value
    ensures !IsBuiltin(name) && findExecutable(name).None? ==> msg == name + ": not found"
  {
    if IsBuiltin(name) then name + " is a shell builtin"
    else match findExecutable(name)
      case Some(exe) => name + " is " + exe
      case None => name + ": not found"
  }

  /** The directory `cd path` goes to: `~` is `HOME`, or `/` when `HOME` is unset. */
  function CdTarget(path: string, home: Option<string>): (target: string)
    ensures path != "~" ==> target == path
    ensures path == "~" && home.Some? ==> target == home.value
    ensures path == "~" && home.None? ==> target == "/"
  {
    if path == "~" then home.GetOr("/") else path
  }

  function Execute(cmd: ShellCommand, env: Env): (r: Outcome)
    // the loop stops exactly on `exit`
    ensures !r.keepGoing <==> cmd == Exit
    // only `exit` and `Empty` do nothing
    ensures r.effect.Nothing? <==> cmd == Exit || cmd == Empty
    // a process is started exactly for an external program the search finds
    ensures r.effect.Run? <==> cmd.External? && env.findExecutable(cmd.program).Some?
    ensures r.effect.Run? ==> r.effect.program == cmd.program && r.effect.args <= cmd.args
    // the directory changes only on `cd` to an existing directory
    ensures r.effect.ChangeDir? <==> cmd.Cd? && env.isDir(CdTarget(cmd.path, env.home))
    // only `echo` writes its line into a file
    ensures r.effect.WriteLine? && r.effect.file.Some? ==> cmd.Echo?
    // what each command writes, where, and which directory or program it acts on
    ensures cmd.Echo? ==> r.effect == WriteLine(Join(SplitRedirect(cmd.args).operands, " "), SplitRedirect(cmd.args).target)
    ensures cmd == Pwd ==> r.effect == WriteLine(env.cwd, None)
    ensures cmd.Type? ==> r.effect == WriteLine(TypeMessage(cmd.name, env.findExecutable), None)
    ensures cmd.Cd? && env.isDir(CdTarget(cmd.path, env.home)) ==>
      r.effect == ChangeDir(CdTarget(cmd.path, env.home))
    ensures cmd.Cd? && !env.isDir(CdTarget(cmd.path, env.home)) ==>
      r.effect == WriteLine("cd: " + CdTarget(cmd.path, env.home) + ": No such file or directory", None)
    ensures cmd.External? && env.findExecutable(cmd.program).None? ==>
      r.effect == WriteLine(cmd.program + ": command not found", None)
    ensures cmd.External? && env.findExecutable(cmd.program).Some? ==>
      r.effect == Run(cmd.program, SplitRedirect(cmd.args).operands, SplitRedirect(cmd.args).target)
  {
    match cmd
    case Exit => Outcome(false, Nothing)
    case Echo(args) =>
      var split := SplitRedirect(args);
      Outcome(true, WriteLine(Join(split.operands, " "), split.target))
    case Pwd => Outcome(true, WriteLine(env.cwd, None))
    case Type(name) => Outcome(true, WriteLine(TypeMessage(name, env.findExecutable), None))
    case Cd(path) =>
      var target := CdTarget(path, env.home);
      if env.isDir(target) then Outcome(true, ChangeDir(target))
      else Outcome(true, WriteLine("cd: " + target + ": No such file or directory", None))
    case External(program, args) =>
      var split := SplitRedirect(args);
      if env.findExecutable(program).None? then
        Outcome(true, WriteLine(program + ": command not found", None))
      else
        Outcome(true, Run(program, split.operands, split.target))
    case Empty => Outcome(true, Nothing)
  }

  // ---------------------------------------------------------------------
  // Properties of the dispatch

  /**
   * `type` calls a name a builtin exactly when `parse` would not run it as
   * an external program, unless the search answers with the very text
   * "a shell builtin".
   */
  lemma TypeAgreesWithParse(name: string, findExecutable: string -> Option<string>)
    requires findExecutable(name) != Some("a shell builtin")
    ensures TypeMessage(name, findExecutable) == name + " is a shell builtin"
        <==> !Parse([name]).External?
  {
    var msg := TypeMessage(name, findExecutable);
    var builtin := name + " is a shell builtin";
    if !IsBuiltin(name) {
      match findExecutable(name)
      case Some(exe) =>
        assert msg[|name| + 4..] == exe;
        assert builtin[|name| + 4..] == "a shell builtin";
      case None =>
        assert msg[|name|] == ':';
        assert builtin[|name|] == ' ';
    }
  }

  /** A builtin is reported without consulting the executable search. */
  lemma BuiltinNeedsNoSearch(name: string, f: string -> Option<string>, g: string -> Option<string>)
    requires IsBuiltin(name)
    ensures TypeMessage(name, f) == TypeMessage(name, g)
  {
  }

  /** `echo` without an operator prints its words joined by single spaces. */
  lemma EchoPrintsWords(args: seq<string>, env: Env)
    requires forall i :: 0 <= i < |args| ==> !IsRedirectOperator(args[i])
    ensures Execute(Echo(args), env) == Outcome(true, WriteLine(Join(args, " "), None))
  {
    NoOperatorNoRedirect(args);
  }

  /** `echo hi > out.txt` writes the line `hi` into out.txt and nothing to the terminal. */
  lemma EchoIntoFile(env: Env)
    ensures Execute(Parse(["echo", "hi", ">", "out.txt"]), env) == Outcome(true, WriteLine("hi", Some("out.txt")))
  {
    var args := ["hi", ">", "out.txt"];
    assert ["echo", "hi", ">", "out.txt"][1..] == args;
    assert IsFirstOperator(args, 1);
    assert args[..1] == ["hi"];
  }

  /**
   * A program the search does not find is reported on the terminal, even
   * when its output was to be redirected, and nothing is run.
   */
  lemma UnknownProgramIsReported(program: string, args: seq<string>, env: Env)
    requires env.findExecutable(program).None?
    ensures Execute(External(program, args), env) == Outcome(true, WriteLine(program + ": command not found", None))
  {
  }

  /** A program that is found runs with the operands before the operator, its output into the target. */
  lemma ProgramRunsWithOperands(program: string, args: seq<string>, p: nat, env: Env)
    requires env.findExecutable(program).Some?
    requires IsFirstOperator(args, p) && p + 1 < |args|
    ensures Execute(External(program, args), env) == Outcome(true, Run(program, args[..p], Some(args[p + 1])))
  {
  }

  /** `cd` to something that is not a directory reports it and changes nothing. */
  lemma CdToMissingDirectory(path: string, env: Env)
    requires path != "~" && !env.isDir(path)
    ensures Execute(Cd(path), env) == Outcome(true, WriteLine("cd: " + path + ": No such file or directory", None))
  {
  }

  /** `pwd` and `type` are never redirected: the words after them are dropped by `parse`. */
  lemma PwdAndTypeIgnoreRedirection(rest: seq<string>, name: string, env: Env)
    ensures Execute(Parse(["pwd"] + rest), env) == Outcome(true, WriteLine(env.cwd, None))
    ensures Execute(Parse(["type", name] + rest), env).effect.file == None
  {
    assert (["pwd"] + rest)[0] == "pwd";
    assert (["type", name] + rest)[0] == "type" && (["type", name] + rest)[1] == name;
  }
}
