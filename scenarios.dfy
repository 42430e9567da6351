/**
  Three command lines followed from the text the user types to what the
  shell decides for them.
 */
module Scenarios {
  import opened Wrappers
  import opened Tokenizer
  import opened Command
  import opened Signals
  import opened Status
  import opened Launch
  import opened Dispatch

  const ListingLine: string := "ls -l > out.txt\n"
  const SleepLine: string := "sleep 5 &\n"
  const BadLine: string := "badcmd\n"

  /** A line as fgets leaves it: the words joined by spaces, then the newline. */
  lemma LineOf(c: CommandLine)
    requires Printable(c)
    ensures Complete(Tokens(Join(Render(c)) + "\n"))
    ensures ParseLine(Join(Render(c)) + "\n") == c
  {
    var text := Join(Render(c));
    assert text + "\n" == text + ['\n'] + [];
    TokensSplit(text, '\n', []);
    assert Tokens([]) == [];
    assert Tokens(text + "\n") == Tokens(text) + [] == Tokens(text);
    ParseLineRoundTrip(c);
  }

  /** The words of `ls -l > out.txt`, joined by single spaces. */
  lemma ListingWords()
    ensures Join(["ls", "-l", ">", "out.txt"]) + "\n" == ListingLine
  {
    assert Join([">", "out.txt"]) == "> out.txt";
    assert Join(["-l", ">", "out.txt"]) == "-l > out.txt" by {
      assert ["-l", ">", "out.txt"][1..] == [">", "out.txt"];
    }
    assert Join(["ls", "-l", ">", "out.txt"]) == "ls -l > out.txt" by {
      assert ["ls", "-l", ">", "out.txt"][1..] == ["-l", ">", "out.txt"];
    }
  }

  /** The record written out by `Render` and `Join` is the listing line, without its newline. */
  lemma ListingText(c: CommandLine)
    requires c == CommandLine(["ls", "-l"], None, Some("out.txt"), false)
    ensures Printable(c) && Join(Render(c)) + "\n" == ListingLine
  {
    assert IsToken("ls") && IsToken("-l") && IsToken("out.txt");
    assert Render(c) == ["ls", "-l", ">", "out.txt"];
    ListingWords();
  }

  lemma ListingParses()
    ensures Complete(Tokens(ListingLine))
    ensures ParseLine(ListingLine) == CommandLine(["ls", "-l"], None, Some("out.txt"), false)
  {
    var c := CommandLine(["ls", "-l"], None, Some("out.txt"), false);
    ListingText(c);
    LineOf(c);
  }

  /** The record written out by `Render` and `Join` is the sleep line, without its newline. */
  lemma SleepText(c: CommandLine)
    requires c == CommandLine(["sleep", "5"], None, None, true)
    ensures Printable(c) && Join(Render(c)) + "\n" == SleepLine
  {
    assert Printable(c) by {
      assert IsToken("sleep") && IsToken("5");
    }
    assert Render(c) == ["sleep", "5", "&"];
    assert Join(["5", "&"]) == "5 &";
    assert Join(["sleep", "5", "&"]) == "sleep 5 &" by {
      assert ["sleep", "5", "&"][1..] == ["5", "&"];
    }
  }

  lemma SleepParses()
    ensures Complete(Tokens(SleepLine))
    ensures ParseLine(SleepLine) == CommandLine(["sleep", "5"], None, None, true)
  {
    var c := CommandLine(["sleep", "5"], None, None, true);
    SleepText(c);
    LineOf(c);
  }

  lemma BadParses()
    ensures Complete(Tokens(BadLine))
    ensures ParseLine(BadLine) == CommandLine(["badcmd"], None, None, false)
  {
    var c := CommandLine(["badcmd"], None, None, false);
    assert IsToken("badcmd");
    assert Join(Render(c)) + "\n" == BadLine;
    LineOf(c);
  }

  /**
    `ls -l > out.txt`: an external foreground command whose output goes to
    out.txt, created or truncated with mode 0666, and whose input is the
    shell's; `status` afterwards reports what the wait returned.
   */
  lemma ListingIntoFile(line: string, last: WaitStatus, pid: nat, code: nat)
    requires line == ListingLine
    ensures Complete(Tokens(line))
    ensures ParseLine(line).argv == ["ls", "-l"] && ParseLine(line).outputFile == Some("out.txt")
    ensures var d := Decide(ParseLine(line), false, last, Replies(true, Forked(pid), Exited(code)));
      && d.outcome.Foreground?
      && d.outcome.plan.stdin == Inherit
      && d.outcome.plan.stdout == File("out.txt", WriteCreateTruncate(OutputPermissions))
      && d.outcome.plan.program == "ls"
      && d.lastStatus == Exited(code)
  {
    ListingParses();
    var c := CommandLine(["ls", "-l"], None, Some("out.txt"), false);
    assert Classify(c) == External;
  }

  /**
    `sleep 5 &`: outside foreground-only mode a background command, both of
    whose streams are /dev/null, and which leaves `last_status` alone; in
    foreground-only mode the same line runs in the foreground.
   */
  lemma SleepInBackground(line: string, last: WaitStatus, os: Replies)
    requires line == SleepLine && os.fork.Forked?
    ensures Complete(Tokens(line))
    ensures var d := Decide(ParseLine(line), false, last, os);
      && d.outcome.Background?
      && d.outcome.plan.stdin == NullDevice(ReadOnly)
      && d.outcome.plan.stdout == NullDevice(WriteOnly)
      && d.outcome.plan.sigint == Ignore
      && d.lastStatus == last
    ensures Decide(ParseLine(line), true, last, os).outcome.Foreground?
  {
    SleepParses();
    var c := CommandLine(["sleep", "5"], None, None, true);
    assert Classify(c) == External;
  }

  /** What the shell and the child do with the record of `badcmd`. */
  lemma BadcmdDecided(c: CommandLine, last: WaitStatus, pid: nat)
    requires c == CommandLine(["badcmd"], None, None, false)
    ensures var d := Decide(c, false, last, Replies(true, Forked(pid), Exited(ExitFailure as nat)));
      && d.outcome.Foreground?
      && ChildRun(d.outcome.plan, ChildReplies(Opened, Opened, false)) == Failed(Perror("badcmd"), ExitFailure)
      && StatusMessage(d.lastStatus) == "exit value 1\n"
  {
    assert Classify(c) == External;
    assert Decimal(1) == "1";
  }

  /**
    `badcmd`: execvp fails, the child reports the name and exits with
    EXIT_FAILURE; when the wait returns that exit, `status` says
    "exit value 1".
   */
  lemma UnknownProgram(line: string, last: WaitStatus, pid: nat)
    requires line == BadLine
    ensures Complete(Tokens(line))
    ensures var d := Decide(ParseLine(line), false, last, Replies(true, Forked(pid), Exited(ExitFailure as nat)));
      && d.outcome.Foreground?
      && ChildRun(d.outcome.plan, ChildReplies(Opened, Opened, false)) == Failed(Perror("badcmd"), ExitFailure)
      && StatusMessage(d.lastStatus) == "exit value 1\n"
  {
    BadParses();
    BadcmdDecided(ParseLine(line), last, pid);
  }
}
