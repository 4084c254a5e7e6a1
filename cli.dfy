/** The entry point's choice of mode from the command line, and the exit
    status the program ends with when a git command fails. */
module Cli {

  /** What the program does, chosen from the arguments after the program name. */
  datatype Command =
    | ShowHelp
    | SwitchAll
    | SwitchRemote
    | SwitchDirect(branch: string)
    | SwitchLocal

  const HelpFlags: set<string> := {"--help", "-h"}
  const AllFlags: set<string> := {"--all", "-a"}
  const RemoteFlags: set<string> := {"--remote", "-r"}

  /** Only the first argument is looked at: the three flag pairs pick their
      mode, any other token (the previous-branch token "-" included) is a
      branch to switch to directly, and no argument at all means the
      interactive local mode. */
  function Dispatch(args: seq<string>): (c: Command)
    ensures c == SwitchLocal <==> args == []
    ensures c == ShowHelp <==> args != [] && args[0] in HelpFlags
    ensures c == SwitchAll <==> args != [] && args[0] in AllFlags
    ensures c == SwitchRemote <==> args != [] && args[0] in RemoteFlags
    ensures c.SwitchDirect? <==> args != [] && args[0] !in HelpFlags + AllFlags + RemoteFlags
    ensures c.SwitchDirect? ==> c.branch == args[0]
  {
    if |args| > 0 then
      match args[0]
      case "--help" => ShowHelp
      case "-h" => ShowHelp
      case "--all" => SwitchAll
      case "-a" => SwitchAll
      case "--remote" => SwitchRemote
      case "-r" => SwitchRemote
      case _ => SwitchDirect(args[0])
    else SwitchLocal
  }

  /** The command depends on the first argument alone. */
  lemma DispatchFirstOnly(args: seq<string>, others: seq<string>)
    requires args != [] && others != [] && args[0] == others[0]
    ensures Dispatch(args) == Dispatch(others)
  {
  }

  /** Tokens that always reach `git switch` verbatim. */
  lemma DispatchDirectExamples(rest: seq<string>)
    ensures Dispatch(["-"] + rest) == SwitchDirect("-")
    ensures Dispatch(["feature/auth"] + rest) == SwitchDirect("feature/auth")
  {
    assert (["-"] + rest)[0] == "-";
    assert (["feature/auth"] + rest)[0] == "feature/auth";
  }

  /** How a command ended unsuccessfully: with an exit status of its own,
      or in some other way (it could not be started, say). */
  datatype Failure =
    | ExitError(code: int)
    | OtherError(message: string)

  /** An exit status a failed child process can report: exec.ExitError's
      ExitCode is a non-zero status, or -1 when a signal ended the process. */
  predicate ReportedByChild(err: Failure) {
    err.ExitError? ==> err.code == -1 || 1 <= err.code <= 255
  }

  /** What exitWithStatus does: the lines it prints to standard error, then
      the status it passes to os.Exit. */
  datatype Exit = Exit(printed: seq<string>, status: int)

  /** exitWithStatus: a child's exit status is adopted and nothing more is
      printed (git has already written its own diagnostics); any other error
      is printed and ends the program with status 1. */
  function ExitWithStatus(err: Failure): (e: Exit)
    ensures err.ExitError? ==> e == Exit([], err.code)
    ensures err.OtherError? ==> e == Exit([err.message], 1)
  {
    match err
    case ExitError(code) => Exit([], code)
    case OtherError(message) => Exit([message], 1)
  }

  /** The status the parent shell sees: os.Exit's argument in eight bits. */
  function ObservedStatus(status: int): (s: int)
    ensures 0 <= s < 256
    ensures 0 <= status < 256 ==> s == status
  {
    status % 256
  }

  /** A failure never looks like success to the caller of the program: the
      status it observes is non-zero, and it is the child's own when the
      child exited normally. */
  lemma FailureIsNeverSuccess(err: Failure)
    requires ReportedByChild(err)
    ensures ObservedStatus(ExitWithStatus(err).status) != 0
    ensures err.ExitError? && err.code != -1 ==> ObservedStatus(ExitWithStatus(err).status) == err.code
    ensures err.ExitError? && err.code == -1 ==> ObservedStatus(ExitWithStatus(err).status) == 255
  {
  }
}
