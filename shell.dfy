/**
  The shell process's own state, the globals `is_fg_only` and `last_status`,
  and the steps of `main` that read or change them: the SIGTSTP handler,
  the reap loop at the top of each iteration, and the dispatch of a record.
 */
module Shell {
  import opened Tokenizer
  import opened Command
  import opened Signals
  import opened Status
  import opened Launch
  import opened Dispatch
  import opened Session

  /** A background child that waitpid(-1, ..., WNOHANG) returned: its pid and how it ended. */
  datatype Reaped = Reaped(pid: nat, status: WaitStatus)

  /**
    What reaches the shell between two prompts: an input line (with the
    background children the reap loop finds before it, and the system's
    answers while it is dispatched), or a SIGTSTP.
   */
  datatype Input = Line(finished: seq<Reaped>, line: string, os: Replies) | Sigtstp

  /** Every line avoids the parser's undefined behaviour. */
  predicate Parsable(ins: seq<Input>) {
    forall i :: 0 <= i < |ins| && ins[i].Line? ==>
      Complete(Tokens(ins[i].line)) && |ParseLine(ins[i].line).argv| <= Slots
  }

  /** The session events the inputs amount to: each line is parsed into its record. */
  function Events(ins: seq<Input>): (es: seq<Event>)
    requires Parsable(ins)
    ensures |es| == |ins|
    decreases |ins|
  {
    if ins == [] then []
    else
      var last := ins[|ins| - 1];
      Events(ins[..|ins| - 1]) + [EventOf(last)]
  }

  /** The session event one input amounts to. */
  function EventOf(input: Input): Event
    requires input.Line? ==> Complete(Tokens(input.line))
  {
    if input.Line? then Dispatched(ParseLine(input.line), input.os) else Tstp
  }

  lemma EventsStep(ins: seq<Input>, k: nat)
    requires Parsable(ins) && k < |ins|
    ensures Parsable(ins[..k + 1])
    ensures Events(ins[..k + 1])
            == Events(ins[..k]) + [EventOf(ins[k])]
  {
    assert ins[..k + 1][..k] == ins[..k];
  }

  /** Among the first `n` inputs, none but the last can have been an `exit` line. */
  predicate NoExitBefore(start: Globals, ins: seq<Input>, n: nat)
    requires Parsable(ins) && n <= |ins|
  {
    forall j :: 0 < j < n ==> !EndsWithExit(start, Events(ins[..j]))
  }

  lemma NoExitStep(start: Globals, ins: seq<Input>, k: nat)
    requires Parsable(ins) && k < |ins|
    requires NoExitBefore(start, ins, k)
    requires k > 0 ==> !EndsWithExit(start, Events(ins[..k]))
    ensures NoExitBefore(start, ins, k + 1)
  {
  }

  /** One turn of the loop of `main` in terms of the session: the state, the prefix read and the exit flag advance together. */
  lemma RunStep(start: Globals, ins: seq<Input>, k: nat, before: Globals, after: Globals, exited: bool)
    requires Parsable(ins) && k < |ins|
    requires before == After(start, Events(ins[..k]))
    requires NoExitBefore(start, ins, k)
    requires k > 0 ==> !EndsWithExit(start, Events(ins[..k]))
    requires after == Step(before, EventOf(ins[k]))
    requires exited == Exits(before, EventOf(ins[k]))
    ensures Parsable(ins[..k + 1])
    ensures after == After(start, Events(ins[..k + 1]))
    ensures NoExitBefore(start, ins, k + 1)
    ensures exited == EndsWithExit(start, Events(ins[..k + 1]))
  {
    EventsStep(ins, k);
    AfterStep(start, Events(ins[..k]), EventOf(ins[k]));
    ExitStep(start, Events(ins[..k]), EventOf(ins[k]));
    NoExitStep(start, ins, k);
  }

  /** The completion line for one reaped child. */
  function Note(r: Reaped): string {
    BackgroundDoneMessage(r.pid, r.status)
  }

  /** `f` applied to each element, in order. */
  function Map<A, B>(f: A -> B, xs: seq<A>): (ys: seq<B>)
    ensures |ys| == |xs|
    ensures forall i :: 0 <= i < |xs| ==> ys[i] == f(xs[i])
    decreases |xs|
  {
    if xs == [] then [] else Map(f, xs[..|xs| - 1]) + [f(xs[|xs| - 1])]
  }

  lemma MapAppend<A, B>(f: A -> B, xs: seq<A>, x: A)
    ensures Map(f, xs + [x]) == Map(f, xs) + [f(x)]
  {
    assert (xs + [x])[..|xs|] == xs;
  }

  class Shell {
    /** `is_fg_only`: whether `&` is ignored. */
    var isFgOnly: bool
    /** `last_status`: how the last foreground child ended. */
    var lastStatus: WaitStatus

    function State(): Globals
      reads this
    {
      Session.Globals(isFgOnly, lastStatus)
    }

    /** Both globals start at 0. */
    constructor ()
      ensures !isFgOnly && lastStatus == InitialStatus
      ensures State() == Start
    {
      isFgOnly := false;
      lastStatus := InitialStatus;
    }

    /**
      `handle_SIGTSTP`, taken as one atomic step: flip the mode and write the
      banner for the new mode, whole, to standard output.
     */
    method HandleSigtstp() returns (written: string)
      modifies this`isFgOnly
      ensures isFgOnly == !old(isFgOnly)
      ensures written == (if isFgOnly then EnterBanner else ExitBanner)
      ensures lastStatus == old(lastStatus)
    {
      if !isFgOnly {
        isFgOnly := true;
        written := Write(EnterBanner, EnterCount);
      } else {
        isFgOnly := false;
        written := Write(ExitBanner, ExitCount);
      }
    }

    /**
      The reap loop: one completion line per child the non-blocking waitpid
      returns, in that order. It reads no global and changes none, so
      `last_status` is never touched by a background child.
     */
    method ReapBackground(finished: seq<Reaped>) returns (notes: seq<string>)
      ensures |notes| == |finished|
      ensures forall i :: 0 <= i < |finished| ==>
                notes[i] == BackgroundDoneMessage(finished[i].pid, finished[i].status)
    {
      notes := [];
      var k := 0;
      while k < |finished|
        invariant 0 <= k <= |finished|
        invariant notes == Map(Note, finished[..k])
      {
        var child := finished[k];
        assert finished[..k + 1] == finished[..k] + [child];
        MapAppend(Note, finished[..k], child);
        notes := notes + [BackgroundDoneMessage(child.pid, child.status)];
        k := k + 1;
      }
      assert finished[..k] == finished;
    }

    /**
      The dispatch part of one loop iteration on the parsed record `cmd`: the
      if-chain of built-ins, the foreground-only override written into the
      record, fork, and for a foreground child the blocking wait whose status
      becomes `last_status`.
     */
    method Dispatch(cmd: CommandRecord, os: Replies) returns (out: Outcome)
      requires cmd.Valid()
      modifies this`lastStatus, cmd`isBg
      ensures cmd.Valid()
      ensures isFgOnly == old(isFgOnly)
      ensures out == Decide(old(cmd.Value()), isFgOnly, old(lastStatus), os).outcome
      ensures cmd.Value() == Decide(old(cmd.Value()), isFgOnly, old(lastStatus), os).record
      ensures lastStatus == Decide(old(cmd.Value()), isFgOnly, old(lastStatus), os).lastStatus
    {
      var route := Classify(cmd.Value());
      if route == Skip {
        out := Skipped;
      } else if route == ExitBuiltin {
        out := ShellExit(SIGTERM, 0);
      } else if route.CdBuiltin? {
        out := Chdir(route.target, route.target.Dir? && !os.chdirOk);
      } else if route == StatusBuiltin {
        out := ReportedStatus(StatusMessage(lastStatus));
      } else {
        if isFgOnly {
          cmd.ForceForeground();
        }
        match os.fork
        case ForkFailed =>
          out := ForkError;
        case Forked(pid) =>
          var plan := PlanFor(cmd.Value());
          if cmd.isBg {
            out := Background(pid, plan, BackgroundStartMessage(pid));
          } else {
            out := Foreground(pid, plan, os.waited, ForegroundNotice(os.waited));
            lastStatus := os.waited;
          }
      }
    }

    /**
      One iteration of the endless loop of `main`: reap, read and parse a
      line, dispatch it.
     */
    method Iteration(finished: seq<Reaped>, line: string, os: Replies)
      returns (notes: seq<string>, out: Outcome)
      requires Complete(Tokens(line))
      requires |ParseLine(line).argv| <= Slots
      modifies this`lastStatus
      ensures isFgOnly == old(isFgOnly)
      ensures |notes| == |finished|
      ensures forall i :: 0 <= i < |finished| ==>
                notes[i] == BackgroundDoneMessage(finished[i].pid, finished[i].status)
      ensures out == Decide(ParseLine(line), isFgOnly, old(lastStatus), os).outcome
      ensures lastStatus == Decide(ParseLine(line), isFgOnly, old(lastStatus), os).lastStatus
    {
      notes := ReapBackground(finished);
      var cmd := ParseInput(line);
      out := Dispatch(cmd, os);
    }

    /**
      What the shell does with one input: a whole iteration of the loop for a
      line, the handler for a SIGTSTP. `exited` says whether the line was
      `exit`, which ends the process.
     */
    method Handle(input: Input) returns (exited: bool)
      requires input.Line? ==> Complete(Tokens(input.line)) && |ParseLine(input.line).argv| <= Slots
      modifies this
      ensures State() == Step(old(State()), EventOf(input))
      ensures exited == Exits(old(State()), EventOf(input))
    {
      match input {
        case Line(finished, line, os) =>
          var notes, out := Iteration(finished, line, os);
          exited := out.ShellExit?;
        case Sigtstp =>
          var written := HandleSigtstp();
          exited := false;
      }
    }

    /**
      The loop of `main` over a finite run of inputs: each line is reaped
      for, parsed and dispatched; each SIGTSTP runs the handler. An `exit`
      line ends the process, so the inputs after it are never read;
      `consumed` counts the inputs handled.
     */
    method Run(inputs: seq<Input>) returns (consumed: nat)
      requires Parsable(inputs)
      modifies this
      ensures consumed <= |inputs|
      ensures State() == After(old(State()), Events(inputs[..consumed]))
      ensures NoExitBefore(old(State()), inputs, consumed)
      ensures consumed < |inputs| ==> EndsWithExit(old(State()), Events(inputs[..consumed]))
    {
      ghost var start := State();
      var k := 0;
      var exited := false;
      while k < |inputs| && !exited
        invariant 0 <= k <= |inputs|
        invariant Parsable(inputs[..k])
        invariant State() == After(start, Events(inputs[..k]))
        invariant NoExitBefore(start, inputs, k)
        invariant k == 0 ==> !exited
        invariant k > 0 ==> exited == EndsWithExit(start, Events(inputs[..k]))
      {
        var input := inputs[k];
        ghost var before := State();
        exited := Handle(input);
        RunStep(start, inputs, k, before, State(), exited);
        k := k + 1;
      }
      consumed := k;
    }
  }

  /** Two SIGTSTPs in a row restore the mode, writing the two different banners. */
  method ToggleTwice(sh: Shell) returns (first: string, second: string)
    modifies sh
    ensures sh.isFgOnly == old(sh.isFgOnly) && sh.lastStatus == old(sh.lastStatus)
    ensures {first, second} == {EnterBanner, ExitBanner}
  {
    first := sh.HandleSigtstp();
    second := sh.HandleSigtstp();
    assert |EnterBanner| != |ExitBanner|;
  }
}
