/**
  Signal dispositions of smallsh and its children, and the fixed banners the
  SIGTSTP handler writes when it toggles foreground-only mode.
 */
module Signals {

  /** The signals the shell acts on: SIGINT and SIGTSTP are set up, SIGTERM is sent at `exit`. */
  datatype Signal = SIGINT | SIGTSTP | SIGTERM

  /** A sigaction disposition: SIG_DFL, SIG_IGN, or the shell's toggle handler. */
  datatype Disposition = Default | Ignore | ToggleHandler

  /**
    What `main` installs before its loop: SIGTSTP runs the toggle handler,
    SIGINT is ignored, every other signal keeps its default.
   */
  function ShellDisposition(s: Signal): (d: Disposition)
    ensures d == ToggleHandler <==> s == SIGTSTP
    ensures s == SIGINT ==> d == Ignore
  {
    match s
    case SIGTSTP => ToggleHandler
    case SIGINT => Ignore
    case SIGTERM => Default
  }

  /**
    What a forked child sets before execvp: SIGTSTP ignored in every child,
    SIGINT ignored in a background child and back to the default in a
    foreground one. Other signals keep the shell's defaults.
   */
  function ChildDisposition(s: Signal, isBg: bool): (d: Disposition)
    ensures d != ToggleHandler
    ensures s == SIGTSTP ==> d == Ignore
    ensures s == SIGINT ==> (d == Default <==> !isBg)
  {
    match s
    case SIGTSTP => Ignore
    case SIGINT => if isBg then Ignore else Default
    case SIGTERM => ShellDisposition(SIGTERM)
  }

  /**
    The interrupt signal kills a foreground child but not the shell, and a
    background child is shielded from it exactly as the shell is.
   */
  lemma InterruptReachesOnlyForegroundChildren()
    ensures ShellDisposition(SIGINT) == Ignore
    ensures ChildDisposition(SIGINT, false) == Default
    ensures ChildDisposition(SIGINT, true) == ShellDisposition(SIGINT)
  {
  }

  const EnterBanner: string := "\nEntering foreground-only mode (& is now ignored)\n: "
  const ExitBanner: string := "\nExiting foreground-only mode\n: "

  /** The byte counts the handler passes to write for the two banners. */
  const EnterCount: nat := 52
  const ExitCount: nat := 32

  /**
    `write(STDOUT_FILENO, message, count)` on a C string literal: the first
    `count` bytes of the literal's storage, which ends with a NUL byte.
   */
  function Write(message: string, count: nat): (out: string)
    requires count <= |message| + 1
    ensures |out| == count
    ensures count <= |message| ==> out == message[..count]
  {
    (message + "\0")[..count]
  }

  /** Each byte count is exactly its banner's length: the banner is written whole, with no NUL. */
  lemma BannerCountsExact()
    ensures Write(EnterBanner, EnterCount) == EnterBanner
    ensures Write(ExitBanner, ExitCount) == ExitBanner
  {
    assert |EnterBanner| == EnterCount;
    assert |ExitBanner| == ExitCount;
  }
}
