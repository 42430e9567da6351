/**
  The child side of an external command: what the forked child sets up
  before execvp (signal dispositions, then standard input, then standard
  output) and how it ends when one of those calls fails.
 */
module Launch {
  import opened Wrappers
  import opened Command
  import opened Signals

  /** The open flags (and creation mode) a stream is opened with. */
  datatype OpenMode = ReadOnly | WriteOnly | WriteCreateTruncate(permissions: nat)

  /** Where a standard stream of the child comes from. */
  datatype Redirect =
    | Inherit                                 // the shell's own stream is kept
    | File(path: string, mode: OpenMode)      // a file named on the command line
    | NullDevice(mode: OpenMode)              // the background default

  const DevNull: string := "/dev/null"

  /** The creation mode 0666: read and write for owner, group and others. */
  const OutputPermissions: nat := 6 * 64 + 6 * 8 + 6

  /** The path a non-inherited stream is opened at. */
  function PathOf(r: Redirect): string
    requires !r.Inherit?
  {
    if r.File? then r.path else DevNull
  }

  /**
    Standard input: the `<` file if there is one, read-only; otherwise
    /dev/null read-only for a background command; otherwise the shell's.
   */
  function StdinRedirect(c: CommandLine): (r: Redirect)
    ensures r.File? <==> c.inputFile.Some?
    ensures r.File? ==> r.path == c.inputFile.value
    ensures r.NullDevice? <==> c.inputFile.None? && c.isBg
    ensures !r.Inherit? ==> r.mode == ReadOnly
  {
    if c.inputFile.Some? then File(c.inputFile.value, ReadOnly)
    else if c.isBg then NullDevice(ReadOnly)
    else Inherit
  }

  /**
    Standard output: the `>` file if there is one, write-only, created if
    missing and truncated, mode 0666; otherwise /dev/null write-only for a
    background command; otherwise the shell's.
   */
  function StdoutRedirect(c: CommandLine): (r: Redirect)
    ensures r.File? <==> c.outputFile.Some?
    ensures r.File? ==> r.path == c.outputFile.value && r.mode == WriteCreateTruncate(OutputPermissions)
    ensures r.NullDevice? <==> c.outputFile.None? && c.isBg
    ensures r.NullDevice? ==> r.mode == WriteOnly
  {
    if c.outputFile.Some? then File(c.outputFile.value, WriteCreateTruncate(OutputPermissions))
    else if c.isBg then NullDevice(WriteOnly)
    else Inherit
  }

  /** A background command never shares the shell's input or output. */
  lemma BackgroundNeverInherits(c: CommandLine)
    requires c.isBg
    ensures StdinRedirect(c) != Inherit && StdoutRedirect(c) != Inherit
    ensures c.inputFile.None? ==> PathOf(StdinRedirect(c)) == DevNull
    ensures c.outputFile.None? ==> PathOf(StdoutRedirect(c)) == DevNull
  {
  }

  /**
    Each stream is decided on its own: standard input depends only on the
    `<` file and the background flag, standard output only on the `>` file
    and the background flag, and neither on the words.
   */
  lemma StreamsDecidedIndependently(c: CommandLine, d: CommandLine)
    ensures c.inputFile == d.inputFile && c.isBg == d.isBg ==> StdinRedirect(c) == StdinRedirect(d)
    ensures c.outputFile == d.outputFile && c.isBg == d.isBg ==> StdoutRedirect(c) == StdoutRedirect(d)
  {
  }

  /** Everything the child decides before execvp. */
  datatype LaunchPlan = LaunchPlan(
    sigtstp: Disposition,
    sigint: Disposition,
    stdin: Redirect,
    stdout: Redirect,
    program: string,
    args: seq<string>)

  /** The plan of a command record that reaches fork; `argv` is never empty there. */
  function PlanFor(c: CommandLine): (p: LaunchPlan)
    requires |c.argv| > 0
    ensures p.program == c.argv[0] && p.args == c.argv
    ensures p.sigtstp == Ignore
    ensures p.sigint == Default <==> !c.isBg
    ensures p.stdin == StdinRedirect(c) && p.stdout == StdoutRedirect(c)
    ensures c.isBg ==> !p.stdin.Inherit? && !p.stdout.Inherit?
  {
    LaunchPlan(
      ChildDisposition(SIGTSTP, c.isBg),
      ChildDisposition(SIGINT, c.isBg),
      StdinRedirect(c),
      StdoutRedirect(c),
      c.argv[0],
      c.argv)
  }

  /** What the operating system answers to the child's open/dup2 pair on one stream. */
  datatype StreamReply = Opened | OpenFailed | DupFailed

  /** The operating system's answers to the child's calls, in the order they are made. */
  datatype ChildReplies = ChildReplies(stdin: StreamReply, stdout: StreamReply, execOk: bool)

  /** What the child writes to standard error before it exits. */
  datatype Diagnostic =
    | CannotOpenForInput(path: string)   // "cannot open %s for input"
    | Perror(prefix: string)             // perror(prefix)

  /** How the child ends: its image replaced by the program, or an early exit. */
  datatype ChildEnd =
    | Replaced(plan: LaunchPlan)
    | Failed(diagnostic: Diagnostic, code: int)

  /** EXIT_FAILURE. */
  const ExitFailure: int := 1

  /** A stream is set up when it is inherited (no call is made) or both its calls succeed. */
  predicate StreamReady(r: Redirect, reply: StreamReply) {
    r.Inherit? || reply == Opened
  }

  /**
    The failure of one stream's open/dup2 pair, if it failed. An explicit
    input file that cannot be opened gets its own message; the /dev/null
    input whose dup2 fails exits with a literal 1, the value of EXIT_FAILURE.
   */
  function StreamFailure(r: Redirect, reply: StreamReply, isInput: bool): (f: Option<ChildEnd>)
    ensures f.None? <==> StreamReady(r, reply)
    ensures f.Some? ==> f.value.Failed? && f.value.code == ExitFailure
  {
    if r.Inherit? || reply == Opened then None
    else if reply == OpenFailed then
      Some(Failed(if isInput && r.File? then CannotOpenForInput(r.path) else Perror("open"), ExitFailure))
    else if isInput && r.NullDevice? then Some(Failed(Perror("dup2"), 1))
    else Some(Failed(Perror("dup2"), ExitFailure))
  }

  /** The child after fork: standard input first, then standard output, then execvp. */
  function ChildRun(p: LaunchPlan, os: ChildReplies): (e: ChildEnd)
    ensures e.Replaced? <==> StreamReady(p.stdin, os.stdin) && StreamReady(p.stdout, os.stdout) && os.execOk
    ensures e.Replaced? ==> e.plan == p
    ensures e.Failed? ==> e.code == ExitFailure
  {
    var inFailure := StreamFailure(p.stdin, os.stdin, true);
    var outFailure := StreamFailure(p.stdout, os.stdout, false);
    if inFailure.Some? then inFailure.value
    else if outFailure.Some? then outFailure.value
    else if !os.execOk then Failed(Perror(p.program), ExitFailure)
    else Replaced(p)
  }

  /** An inherited stream makes no call, so nothing the system would answer for it matters. */
  lemma InheritedStreamMakesNoCall(p: LaunchPlan, os: ChildReplies, answer: StreamReply)
    ensures p.stdin.Inherit? ==> ChildRun(p, os) == ChildRun(p, os.(stdin := answer))
    ensures p.stdout.Inherit? ==> ChildRun(p, os) == ChildRun(p, os.(stdout := answer))
  {
  }

  /** An input file that cannot be opened is reported by name, before anything else is tried. */
  lemma UnopenableInputReportedByName(c: CommandLine, os: ChildReplies)
    requires |c.argv| > 0 && c.inputFile.Some? && os.stdin == OpenFailed
    ensures ChildRun(PlanFor(c), os) == Failed(CannotOpenForInput(c.inputFile.value), ExitFailure)
  {
  }
}
