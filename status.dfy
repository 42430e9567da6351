/**
  How a child ended, as waitpid reports it, and the lines the shell prints
  about it: the `status` built-in, the foreground termination notice and the
  background start and completion notices.
 */
module Status {

  /**
    A wait status as the WIFEXITED/WEXITSTATUS and WIFSIGNALED/WTERMSIG
    macros read it: a normal exit with its exit value, or a terminating signal.
   */
  datatype WaitStatus = Exited(code: nat) | Signaled(signal: nat)

  /** `last_status` starts at 0, which the macros read as a normal exit with value 0. */
  const InitialStatus := Exited(0)

  predicate IsDigit(c: char) {
    '0' <= c <= '9'
  }

  /** printf's `%d` of a non-negative number. */
  function Decimal(n: nat): (s: string)
    ensures |s| > 0
    ensures forall i :: 0 <= i < |s| ==> IsDigit(s[i])
  {
    var last := ['0' + (n % 10) as char];
    if n < 10 then last else Decimal(n / 10) + last
  }

  /** Reads back a string of decimal digits. */
  function DecimalValue(s: string): nat
    requires forall i :: 0 <= i < |s| ==> IsDigit(s[i])
  {
    if s == [] then 0
    else
      var d := s[|s| - 1];
      assert IsDigit(d);
      DecimalValue(s[..|s| - 1]) * 10 + (d as int - '0' as int)
  }

  /** `%d` loses nothing: the printed digits read back as the number. */
  lemma {:induction false} DecimalRoundTrip(n: nat)
    ensures DecimalValue(Decimal(n)) == n
  {
    var s := Decimal(n);
    if n >= 10 {
      DecimalRoundTrip(n / 10);
      assert s[..|s| - 1] == Decimal(n / 10);
    }
  }

  lemma DecimalInjective(a: nat, b: nat)
    requires Decimal(a) == Decimal(b)
    ensures a == b
  {
    DecimalRoundTrip(a);
    DecimalRoundTrip(b);
  }

  /** The fixed words of the `status` line, of the foreground notice and of the completion notice. */
  const ExitWords := "exit value "
  const SignalWords := "terminated by signal "
  const DoneHead := "background pid "
  const DoneMid := " is done: "

  /**
    What the `status` built-in prints for the last foreground status: one
    line, "exit value " followed by the exit value for a normal exit, or
    "terminated by signal " followed by the signal number; the digits read
    back as that number.
   */
  function StatusMessage(w: WaitStatus): (s: string)
    ensures |s| > 1 && s[|s| - 1] == '\n'
    ensures s[0] == 't' <==> w.Signaled?
    ensures forall i :: 0 <= i < |s| - 1 ==> s[i] != '\n'
    ensures w.Exited? ==>
              && |s| > 12 && s[..11] == ExitWords
              && (forall i :: 11 <= i < |s| - 1 ==> IsDigit(s[i]))
              && DecimalValue(s[11..|s| - 1]) == w.code
    ensures w.Signaled? ==>
              && |s| > 22 && s[..21] == SignalWords
              && (forall i :: 21 <= i < |s| - 1 ==> IsDigit(s[i]))
              && DecimalValue(s[21..|s| - 1]) == w.signal
  {
    match w
    case Exited(code) =>
      var s := ExitWords + Decimal(code) + "\n";
      DecimalRoundTrip(code);
      assert s[11..|s| - 1] == Decimal(code);
      s
    case Signaled(signal) =>
      var s := SignalWords + Decimal(signal) + "\n";
      DecimalRoundTrip(signal);
      assert s[21..|s| - 1] == Decimal(signal);
      s
  }

  lemma PrefixCancel(p: string, x: string, y: string)
    requires p + x == p + y
    ensures x == y
  {
    assert x == (p + x)[|p|..];
    assert y == (p + y)[|p|..];
  }

  /**
    The `status` line tells the status apart: it names a signal exactly when
    the child was signalled, and the number it prints is that status's own.
   */
  lemma StatusMessageDetermines(v: WaitStatus, w: WaitStatus)
    requires StatusMessage(v) == StatusMessage(w)
    ensures v == w
  {
    var m := StatusMessage(v);
    assert m[0] == (if v.Exited? then 'e' else 't');
    assert m[0] == (if w.Exited? then 'e' else 't');
    match v
    case Exited(a) =>
      var b := w.code;
      assert ExitWords + Decimal(a) + "\n" == ExitWords + (Decimal(a) + "\n");
      assert ExitWords + Decimal(b) + "\n" == ExitWords + (Decimal(b) + "\n");
      PrefixCancel(ExitWords, Decimal(a) + "\n", Decimal(b) + "\n");
      assert Decimal(a) == (Decimal(a) + "\n")[..|Decimal(a) + "\n"| - 1];
      assert Decimal(b) == (Decimal(b) + "\n")[..|Decimal(b) + "\n"| - 1];
      DecimalInjective(a, b);
    case Signaled(a) =>
      var b := w.signal;
      assert SignalWords + Decimal(a) + "\n" == SignalWords + (Decimal(a) + "\n");
      assert SignalWords + Decimal(b) + "\n" == SignalWords + (Decimal(b) + "\n");
      PrefixCancel(SignalWords, Decimal(a) + "\n", Decimal(b) + "\n");
      assert Decimal(a) == (Decimal(a) + "\n")[..|Decimal(a) + "\n"| - 1];
      assert Decimal(b) == (Decimal(b) + "\n")[..|Decimal(b) + "\n"| - 1];
      DecimalInjective(a, b);
  }

  /** Before any foreground command, `status` reports "exit value 0". */
  lemma InitialStatusReport()
    ensures StatusMessage(InitialStatus) == "exit value 0\n"
  {
  }

  /** What the shell prints right after a foreground wait: a line only for a signal. */
  function ForegroundNotice(w: WaitStatus): (s: string)
    ensures s != [] <==> w.Signaled?
    ensures w.Signaled? ==> s == StatusMessage(w)
  {
    if w.Signaled? then SignalWords + Decimal(w.signal) + "\n" else ""
  }

  /**
    "background pid is P", printed when a background child is started: the
    digits after the fixed prefix read back as the child's pid.
   */
  function BackgroundStartMessage(pid: nat): (s: string)
    ensures |s| > 19 && s[..18] == "background pid is " && s[|s| - 1] == '\n'
    ensures forall i :: 18 <= i < |s| - 1 ==> IsDigit(s[i])
    ensures DecimalValue(s[18..|s| - 1]) == pid
  {
    var s := "background pid is " + Decimal(pid) + "\n";
    DecimalRoundTrip(pid);
    assert s[18..|s| - 1] == Decimal(pid);
    s
  }

  lemma Regroup(h: string, p: string, q: string, d: string, nl: string)
    ensures h + (p + q) + d + nl == h + p + (q + d + nl)
  {
  }

  /** What the reap loop prints for a finished background child. */
  function BackgroundDoneMessage(pid: nat, w: WaitStatus): string {
    match w
    case Exited(code) => DoneHead + Decimal(pid) + (DoneMid + ExitWords) + Decimal(code) + "\n"
    case Signaled(signal) => DoneHead + Decimal(pid) + (DoneMid + SignalWords) + Decimal(signal) + "\n"
  }

  /** A completion notice is the pid line followed by what `status` would say for that child. */
  lemma DoneMessageEndsWithStatus(pid: nat, w: WaitStatus)
    ensures BackgroundDoneMessage(pid, w) == DoneHead + Decimal(pid) + DoneMid + StatusMessage(w)
  {
    var head := DoneHead + Decimal(pid);
    match w
    case Exited(code) =>
      Regroup(head, DoneMid, ExitWords, Decimal(code), "\n");
    case Signaled(signal) =>
      Regroup(head, DoneMid, SignalWords, Decimal(signal), "\n");
  }
}
