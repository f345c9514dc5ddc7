/**
 * The command model of src/lib.rs: the closed set of commands the shell
 * knows (`ShellCommand`) and their recognition from the first word of a
 * line (`parse`, `is_builtin`).
 */
module Command {

  datatype ShellCommand =
    | Exit
    | Echo(args: seq<string>)
    | Pwd
    | Type(name: string)
    | Cd(path: string)
    | External(program: string, args: seq<string>)
    | Empty  // `type` or `cd` with nothing to act on

  /** The five names the shell handles itself. */
  const Builtins: set<string> := {"exit", "echo", "pwd", "type", "cd"}

  /** Whether a name is handled by the shell itself; the match is case-sensitive. */
  function IsBuiltin(name: string): (b: bool)
    ensures b <==> name in Builtins
  {
    name == "exit" || name == "echo" || name == "pwd" || name == "type" || name == "cd"
  }

  /**
   * The words a command is written with; `Empty` is never written, only
   * reached from an incomplete `type` or `cd`.
   */
  function Spelling(c: ShellCommand): seq<string> {
    match c
    case Exit => ["exit"]
    case Echo(args) => ["echo"] + args
    case Pwd => ["pwd"]
    case Type(name) => ["type", name]
    case Cd(path) => ["cd", path]
    case External(program, args) => [program] + args
    case Empty => []
  }

  /** The command a non-empty list of words denotes. */
  function Parse(tokens: seq<string>): (r: ShellCommand)
    requires |tokens| > 0
    // a builtin name is exactly a name that is not run as an external program
    ensures r.External? <==> !IsBuiltin(tokens[0])
    // only `type` or `cd` alone degrade to Empty
    ensures r == Empty <==> (tokens[0] == "type" || tokens[0] == "cd") && |tokens| == 1
    // the command keeps a prefix of the words: trailing words are dropped, never altered
    ensures r != Empty ==> Spelling(r) <= tokens
    // echo and external programs keep every word
    ensures r.Echo? || r.External? ==> Spelling(r) == tokens
  {
    match tokens[0]
    case "exit" => Exit
    case "echo" => Echo(tokens[1..])
    case "pwd" => Pwd
    case "type" => if |tokens| > 1 then Type(tokens[1]) else Empty
    case "cd" => if |tokens| > 1 then Cd(tokens[1]) else Empty
    case cmd => External(cmd, tokens[1..])
  }

  /**
   * Every command but `Empty` is read back from its spelling, provided an
   * external program's name is not one of the builtin names.
   */
  lemma ParseSpelling(c: ShellCommand)
    requires c != Empty
    requires c.External? ==> !IsBuiltin(c.program)
    ensures |Spelling(c)| > 0 && Parse(Spelling(c)) == c
  {
    match c
    case Echo(args) =>
      assert (["echo"] + args)[1..] == args;
    case External(program, args) =>
      assert ([program] + args)[1..] == args;
    case _ =>
  }

  /** The command is decided by the first word and, for `type` and `cd`, the second: later words do not matter. */
  lemma ParseIgnoresTrailingWords(tokens: seq<string>, tail: seq<string>)
    requires |tokens| > 0
    requires tokens[0] != "echo" && IsBuiltin(tokens[0])
    requires (tokens[0] == "type" || tokens[0] == "cd") ==> |tokens| > 1
    ensures Parse(tokens + tail) == Parse(tokens)
  {
    assert (tokens + tail)[0] == tokens[0];
    if |tokens| > 1 {
      assert (tokens + tail)[1] == tokens[1];
    }
  }
}
