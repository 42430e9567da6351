/**
  The decision `main` takes for one parsed record: skip it, run one of the
  built-ins `exit`, `cd` and `status`, or fork an external command, after
  forcing it into the foreground when foreground-only mode is on. The
  operating system's answers (chdir, fork, the foreground waitpid) are
  parameters.
 */
module Dispatch {
  import opened Command
  import opened Signals
  import opened Status
  import opened Launch

  /** The directory `cd` changes to: its first argument, or $HOME. */
  datatype CdTarget = Dir(path: string) | Home

  /** Where a record goes in the if-chain of `main`. */
  datatype Route = Skip | ExitBuiltin | CdBuiltin(target: CdTarget) | StatusBuiltin | External

  /** `strncmp(argv[0], "#", 1) == 0`: the first word starts with `#`. */
  predicate IsComment(word: string) {
    |word| > 0 && word[0] == '#'
  }

  /**
    Empty and comment lines are skipped before any built-in is looked at;
    the built-ins match the whole first word; everything else is external.
   */
  function Classify(c: CommandLine): (r: Route)
    ensures r == Skip <==> |c.argv| == 0 || IsComment(c.argv[0])
    ensures r == ExitBuiltin <==> |c.argv| > 0 && c.argv[0] == "exit"
    ensures r.CdBuiltin? <==> |c.argv| > 0 && c.argv[0] == "cd"
    ensures r.CdBuiltin? ==> r.target == (if |c.argv| > 1 then Dir(c.argv[1]) else Home)
    ensures r == StatusBuiltin <==> |c.argv| > 0 && c.argv[0] == "status"
    ensures r == External ==> |c.argv| > 0
  {
    if |c.argv| == 0 || IsComment(c.argv[0]) then Skip
    else if c.argv[0] == "exit" then ExitBuiltin
    else if c.argv[0] == "cd" then CdBuiltin(if |c.argv| > 1 then Dir(c.argv[1]) else Home)
    else if c.argv[0] == "status" then StatusBuiltin
    else External
  }

  /** Only the words decide the route: redirections and `&` never turn a built-in into a program. */
  lemma RouteIgnoresRedirectionAndBackground(c: CommandLine, d: CommandLine)
    requires c.argv == d.argv
    ensures Classify(c) == Classify(d)
  {
  }

  /** The foreground-only override: the background flag survives only when the mode is off. */
  function Override(c: CommandLine, fgOnly: bool): (r: CommandLine)
    ensures r.isBg <==> c.isBg && !fgOnly
    ensures r.argv == c.argv && r.inputFile == c.inputFile && r.outputFile == c.outputFile
  {
    if fgOnly then c.(isBg := false) else c
  }

  /** The result of fork in the parent. */
  datatype ForkResult = ForkFailed | Forked(pid: nat)

  /** The operating system's answers during one dispatch. */
  datatype Replies = Replies(chdirOk: bool, fork: ForkResult, waited: WaitStatus)

  /** What one dispatch does, as the shell's process observes it. */
  datatype Outcome =
    | Skipped
    | ShellExit(groupSignal: Signal, code: int)            // kill(0, SIGTERM); exit(0)
    | Chdir(target: CdTarget, errorReported: bool)         // chdir called; perror("cd") only for an explicit directory
    | ReportedStatus(message: string)
    | ForkError                                            // perror("fork"); the loop goes on
    | Background(pid: nat, plan: LaunchPlan, message: string)
    | Foreground(pid: nat, plan: LaunchPlan, status: WaitStatus, notice: string)

  /** An outcome, the record as it stands afterwards, and the new `last_status`. */
  datatype Decision = Decision(outcome: Outcome, record: CommandLine, lastStatus: WaitStatus)

  /**
    One pass through the dispatch part of `main` for record `c`, with
    foreground-only mode `fgOnly` and previous status `last`.
   */
  function Decide(c: CommandLine, fgOnly: bool, last: WaitStatus, os: Replies): (d: Decision)
    ensures d.record.argv == c.argv && d.record.inputFile == c.inputFile && d.record.outputFile == c.outputFile
    ensures d.lastStatus != last ==> d.outcome.Foreground?
    ensures d.outcome.Foreground? ==> d.lastStatus == os.waited && d.outcome.status == os.waited
    ensures d.outcome.Foreground? || d.outcome.Background? ==>
              Classify(c) == External && os.fork.Forked? && d.outcome.plan == PlanFor(d.record)
    ensures d.outcome.Background? <==> Classify(c) == External && os.fork.Forked? && c.isBg && !fgOnly
    ensures d.record.isBg != c.isBg ==> Classify(c) == External && fgOnly
    ensures d.outcome.Foreground? <==> Classify(c) == External && os.fork.Forked? && !(c.isBg && !fgOnly)
    ensures d.outcome.Foreground? || d.outcome.Background? ==> d.outcome.pid == os.fork.pid
    ensures d.outcome.Foreground? ==> d.outcome.notice == ForegroundNotice(os.waited)
    ensures d.outcome.Background? ==> d.outcome.message == BackgroundStartMessage(d.outcome.pid)
    ensures d.outcome == Skipped <==> Classify(c) == Skip
    ensures d.outcome == ShellExit(SIGTERM, 0) <==> Classify(c) == ExitBuiltin
    ensures d.outcome.Chdir? <==> Classify(c).CdBuiltin?
    ensures d.outcome.Chdir? ==>
              d.outcome.target == Classify(c).target
              && (d.outcome.errorReported <==> Classify(c).target.Dir? && !os.chdirOk)
    ensures d.outcome == ReportedStatus(StatusMessage(last)) <==> Classify(c) == StatusBuiltin
    ensures d.outcome == ForkError <==> Classify(c) == External && os.fork.ForkFailed?
  {
    match Classify(c)
    case Skip => Decision(Skipped, c, last)
    case ExitBuiltin => Decision(ShellExit(SIGTERM, 0), c, last)
    case CdBuiltin(target) => Decision(Chdir(target, target.Dir? && !os.chdirOk), c, last)
    case StatusBuiltin => Decision(ReportedStatus(StatusMessage(last)), c, last)
    case External =>
      var e := Override(c, fgOnly);
      match os.fork
      case ForkFailed => Decision(ForkError, e, last)
      case Forked(pid) =>
        if e.isBg then Decision(Background(pid, PlanFor(e), BackgroundStartMessage(pid)), e, last)
        else Decision(Foreground(pid, PlanFor(e), os.waited, ForegroundNotice(os.waited)), e, os.waited)
  }

  /**
    While foreground-only mode is on, a command that reaches fork runs in
    the foreground whatever it asked for, and its streams are planned as a
    foreground command's.
   */
  lemma ForegroundOnlyModeForcesForeground(c: CommandLine, last: WaitStatus, os: Replies)
    requires Classify(c) == External && os.fork.Forked?
    ensures Decide(c, true, last, os).outcome.Foreground?
    ensures Decide(c, true, last, os).outcome.plan == PlanFor(c.(isBg := false))
    ensures c.inputFile.None? ==> Decide(c, true, last, os).outcome.plan.stdin == Inherit
    ensures Decide(c, true, last, os).lastStatus == os.waited
  {
  }

  /** With the mode off, the record reaches fork exactly as it was parsed. */
  lemma NormalModeKeepsRecord(c: CommandLine, last: WaitStatus, os: Replies)
    ensures Decide(c, false, last, os).record == c
  {
  }

  /** `cd` with no argument calls chdir($HOME), and a failure there is not reported. */
  lemma CdWithoutArgumentGoesHome(c: CommandLine, fgOnly: bool, last: WaitStatus, os: Replies)
    requires c.argv == ["cd"]
    ensures Decide(c, fgOnly, last, os).outcome == Chdir(Home, false)
  {
  }

  /**
    `status` right after a foreground command prints the line for exactly
    that command's wait status.
   */
  lemma StatusReportsLastForegroundCommand(
    c: CommandLine, fgOnly: bool, last: WaitStatus, os: Replies, s: CommandLine, os2: Replies)
    requires Decide(c, fgOnly, last, os).outcome.Foreground?
    requires Classify(s) == StatusBuiltin
    ensures Decide(s, fgOnly, Decide(c, fgOnly, last, os).lastStatus, os2).outcome
            == ReportedStatus(StatusMessage(os.waited))
  {
  }

  /** ... and that line tells the status apart from every other one. */
  lemma StatusLineIdentifiesCommand(
    c: CommandLine, fgOnly: bool, last: WaitStatus, os: Replies,
    s: CommandLine, os2: Replies, w: WaitStatus)
    requires Decide(c, fgOnly, last, os).outcome.Foreground?
    requires Classify(s) == StatusBuiltin
    requires Decide(s, fgOnly, Decide(c, fgOnly, last, os).lastStatus, os2).outcome == ReportedStatus(StatusMessage(w))
    ensures w == os.waited
  {
    StatusMessageDetermines(w, os.waited);
  }
}
