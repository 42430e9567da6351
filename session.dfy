/**
  The shell's two globals across a whole session: a sequence of dispatched
  records, with SIGTSTP arriving between them. Each SIGTSTP flips the mode;
  each record goes through `Decide` under the mode and status of that moment.
 */
module Session {
  import opened Status
  import opened Command
  import opened Dispatch

  /** Something that happens to the shell between two prompts. */
  datatype Event = Dispatched(c: CommandLine, os: Replies) | Tstp

  /** `is_fg_only` and `last_status`. */
  datatype Globals = Globals(fgOnly: bool, last: WaitStatus)

  const Start := Globals(false, InitialStatus)

  /**
    One event: SIGTSTP flips the mode and leaves the status; a dispatched
    record leaves the mode, and changes the status only by waiting for a
    foreground child, to the status that wait reported.
   */
  function Step(g: Globals, e: Event): (r: Globals)
    ensures r.fgOnly != g.fgOnly <==> e.Tstp?
    ensures r.last != g.last ==>
              e.Dispatched? && Decide(e.c, g.fgOnly, g.last, e.os).outcome.Foreground? && r.last == e.os.waited
  {
    match e
    case Tstp => Globals(!g.fgOnly, g.last)
    case Dispatched(c, os) => Globals(g.fgOnly, Decide(c, g.fgOnly, g.last, os).lastStatus)
  }

  /**
    The globals after the events `es`, starting from `g`: signals alone
    never change the status, and commands alone never change the mode.
   */
  function After(g: Globals, es: seq<Event>): (r: Globals)
    ensures Toggles(es) == |es| ==> r.last == g.last
    ensures Toggles(es) == 0 ==> r.fgOnly == g.fgOnly
    decreases |es|
  {
    if es == [] then g else Step(After(g, es[..|es| - 1]), es[|es| - 1])
  }

  lemma SplitLast(es: seq<Event>)
    requires es != []
    ensures es == es[..|es| - 1] + [es[|es| - 1]]
  {
  }

  lemma AfterStep(g: Globals, es: seq<Event>, e: Event)
    ensures After(g, es + [e]) == Step(After(g, es), e)
  {
    assert (es + [e])[..|es|] == es;
  }

  /** What the `i`-th event, a dispatched record, did. */
  function OutcomeAt(g: Globals, es: seq<Event>, i: nat): Outcome
    requires i < |es| && es[i].Dispatched?
  {
    var before := After(g, es[..i]);
    Decide(es[i].c, before.fgOnly, before.last, es[i].os).outcome
  }

  /** Whether event `e`, met in state `g`, is a line that makes `main` exit. */
  predicate Exits(g: Globals, e: Event) {
    e.Dispatched? && Decide(e.c, g.fgOnly, g.last, e.os).outcome.ShellExit?
  }

  /**
    Whether the last of the events was an `exit` line: `main` has then
    exited, and reads nothing more.
   */
  predicate EndsWithExit(g: Globals, es: seq<Event>) {
    es != [] && Exits(After(g, es[..|es| - 1]), es[|es| - 1])
  }

  lemma ExitStep(g: Globals, p: seq<Event>, e: Event)
    ensures EndsWithExit(g, p + [e]) == Exits(After(g, p), e)
  {
    assert (p + [e])[..|p|] == p;
  }

  /** The session ends exactly at an `exit` line, whatever the mode and status. */
  lemma OnlyExitLineEnds(g: Globals, es: seq<Event>)
    ensures EndsWithExit(g, es) <==>
              es != [] && es[|es| - 1].Dispatched? && Classify(es[|es| - 1].c) == ExitBuiltin
  {
  }

  /** How many of the events are SIGTSTPs. */
  function Toggles(es: seq<Event>): (n: nat)
    ensures n <= |es|
    decreases |es|
  {
    if es == [] then 0 else Toggles(es[..|es| - 1]) + (if es[|es| - 1].Tstp? then 1 else 0)
  }

  lemma OddAfterEven(t: nat)
    ensures (t + 1) % 2 == 1 <==> t % 2 != 1
  {
  }

  lemma TogglesStep(p: seq<Event>, e: Event)
    ensures Toggles(p + [e]) == Toggles(p) + (if e.Tstp? then 1 else 0)
  {
    assert (p + [e])[..|p|] == p;
  }

  /** One more event flips the mode exactly when it is a SIGTSTP. */
  lemma ModeStep(g: Globals, p: seq<Event>, e: Event)
    ensures After(g, p + [e]).fgOnly == (After(g, p).fgOnly != e.Tstp?)
  {
    AfterStep(g, p, e);
  }

  /** One more event flips the parity of the SIGTSTP count exactly when it is a SIGTSTP. */
  lemma ToggleParityStep(p: seq<Event>, e: Event)
    ensures (Toggles(p + [e]) % 2 == 1) == ((Toggles(p) % 2 == 1) != e.Tstp?)
  {
    TogglesStep(p, e);
    OddAfterEven(Toggles(p));
  }

  /** The mode is on exactly when it started on and an even number of SIGTSTPs arrived, or the reverse. */
  lemma {:induction false} ModeIsToggleParity(g: Globals, es: seq<Event>)
    ensures After(g, es).fgOnly == (g.fgOnly != (Toggles(es) % 2 == 1))
    decreases |es|
  {
    if es != [] {
      var p := es[..|es| - 1];
      SplitLast(es);
      ModeIsToggleParity(g, p);
      ModeStep(g, p, es[|es| - 1]);
      ToggleParityStep(p, es[|es| - 1]);
    }
  }

  /**
    Foreground-only mode, once on, makes every later command that reaches
    fork a foreground one, until the next SIGTSTP.
   */
  lemma NoBackgroundUntilToggled(g: Globals, es: seq<Event>, i: nat)
    requires i < |es| && es[i].Dispatched?
    requires g.fgOnly && Toggles(es[..i]) == 0
    ensures !OutcomeAt(g, es, i).Background?
  {
    ModeIsToggleParity(g, es[..i]);
    var before := After(g, es[..i]);
    assert before.fgOnly;
    var d := Decide(es[i].c, before.fgOnly, before.last, es[i].os);
    assert OutcomeAt(g, es, i) == d.outcome;
  }

  lemma OutcomeAtPrefix(g: Globals, p: seq<Event>, e: Event, i: nat)
    requires i < |p| && p[i].Dispatched?
    ensures (p + [e])[i] == p[i]
    ensures OutcomeAt(g, p + [e], i) == OutcomeAt(g, p, i)
  {
    assert (p + [e])[..i] == p[..i];
  }

  /** No dispatched event from index `from` on waited for a foreground child. */
  predicate NoForegroundFrom(g: Globals, es: seq<Event>, from: nat) {
    forall j :: from <= j < |es| && es[j].Dispatched? ==> !OutcomeAt(g, es, j).Foreground?
  }

  /** An event that waits for a foreground child sets `last_status` to that child's status. */
  lemma LastAfterForeground(g: Globals, p: seq<Event>, e: Event)
    requires e.Dispatched? && OutcomeAt(g, p + [e], |p|).Foreground?
    ensures After(g, p + [e]).last == OutcomeAt(g, p + [e], |p|).status
  {
    assert (p + [e])[..|p|] == p;
    AfterStep(g, p, e);
  }

  /** Any other event leaves `last_status` as it was. */
  lemma LastAfterOther(g: Globals, p: seq<Event>, e: Event)
    requires e.Tstp? || !OutcomeAt(g, p + [e], |p|).Foreground?
    ensures After(g, p + [e]).last == After(g, p).last
  {
    assert (p + [e])[..|p|] == p;
    AfterStep(g, p, e);
  }

  /**
    With no foreground child among the events, `last_status` keeps its
    starting value: SIGTSTP, built-ins, background commands and failed forks
    never change it.
   */
  lemma {:induction false} StatusKeptWithoutForeground(g: Globals, es: seq<Event>)
    requires NoForegroundFrom(g, es, 0)
    ensures After(g, es).last == g.last
    decreases |es|
  {
    if es != [] {
      var p := es[..|es| - 1];
      var e := es[|es| - 1];
      SplitLast(es);
      forall j | 0 <= j < |p| && p[j].Dispatched?
        ensures !OutcomeAt(g, p, j).Foreground?
      {
        OutcomeAtPrefix(g, p, e, j);
      }
      StatusKeptWithoutForeground(g, p);
      LastAfterOther(g, p, e);
    }
  }

  /**
    `last_status` is the status of the latest foreground child: once the
    `i`-th event waited for one, no later event that does not also wait for
    a foreground child changes it.
   */
  lemma {:induction false} StatusIsLatestForeground(g: Globals, es: seq<Event>, i: nat)
    requires i < |es| && es[i].Dispatched? && OutcomeAt(g, es, i).Foreground?
    requires NoForegroundFrom(g, es, i + 1)
    ensures After(g, es).last == OutcomeAt(g, es, i).status
    decreases |es|
  {
    var p := es[..|es| - 1];
    var e := es[|es| - 1];
    SplitLast(es);
    if i == |p| {
      LastAfterForeground(g, p, e);
    } else {
      OutcomeAtPrefix(g, p, e, i);
      forall j | i + 1 <= j < |p| && p[j].Dispatched?
        ensures !OutcomeAt(g, p, j).Foreground?
      {
        OutcomeAtPrefix(g, p, e, j);
      }
      StatusIsLatestForeground(g, p, i);
      LastAfterOther(g, p, e);
    }
  }
}
