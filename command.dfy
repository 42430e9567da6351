/**
  The command record of smallsh (`struct command_line`) and the tokenising
  loop of `parse_input` that fills it.

  The loop reads tokens in order: `<` and `>` take the next token as the
  input or output file name (a later one replaces an earlier one), `&` sets
  the background flag wherever it stands, and every other token is appended
  to `argv`, incrementing `argc`.
 */
module Command {
  import opened Wrappers
  import opened Tokenizer

  /** MAX_ARGS: `argv` has MAX_ARGS + 1 slots, the last one meant for execvp's NULL terminator. */
  const MaxArgs: nat := 512

  /**
    How many words the loop can store before it writes past `argv`: every
    slot, the one meant for the terminator included.
   */
  const Slots: nat := MaxArgs + 1

  /** The value of a command record. */
  datatype CommandLine = CommandLine(
    argv: seq<string>,
    inputFile: Option<string>,
    outputFile: Option<string>,
    isBg: bool)

  /** A record as calloc leaves it: no words, NULL file names, foreground. */
  const Blank := CommandLine([], None, None, false)

  predicate IsRedirect(t: string) {
    t == "<" || t == ">"
  }

  predicate IsOperator(t: string) {
    IsRedirect(t) || t == "&"
  }

  /**
    Every `<` and `>` the loop meets is followed by a file-name token. When one
    is the last token, the source passes strtok's NULL to strdup, which is
    undefined behaviour; the model requires it does not happen.
   */
  predicate Complete(toks: seq<string>)
    decreases |toks|
  {
    if toks == [] then true
    else if IsRedirect(toks[0]) then |toks| >= 2 && Complete(toks[2..])
    else Complete(toks[1..])
  }

  /**
    What the loop produces from the remaining tokens `toks` when the record
    already holds `acc`. Words are only ever appended.
   */
  function ParseFrom(acc: CommandLine, toks: seq<string>): (r: CommandLine)
    requires Complete(toks)
    ensures |acc.argv| <= |r.argv| && r.argv[..|acc.argv|] == acc.argv
    decreases |toks|
  {
    if toks == [] then acc
    else if toks[0] == "<" then ParseFrom(acc.(inputFile := Some(toks[1])), toks[2..])
    else if toks[0] == ">" then ParseFrom(acc.(outputFile := Some(toks[1])), toks[2..])
    else if toks[0] == "&" then ParseFrom(acc.(isBg := true), toks[1..])
    else
      var r := ParseFrom(acc.(argv := acc.argv + [toks[0]]), toks[1..]);
      assert r.argv[..|acc.argv|] == r.argv[..|acc.argv| + 1][..|acc.argv|];
      r
  }

  /**
    One turn of the loop at position `i`: what the token there does to the
    record, and where the remaining tokens start.
   */
  lemma ParseFromAdvance(acc: CommandLine, toks: seq<string>, i: nat)
    requires i < |toks| && Complete(toks[i..])
    ensures IsRedirect(toks[i]) ==> i + 2 <= |toks| && Complete(toks[i + 2..])
    ensures !IsRedirect(toks[i]) ==> Complete(toks[i + 1..])
    ensures toks[i] == "<" ==>
              ParseFrom(acc, toks[i..]) == ParseFrom(acc.(inputFile := Some(toks[i + 1])), toks[i + 2..])
    ensures toks[i] == ">" ==>
              ParseFrom(acc, toks[i..]) == ParseFrom(acc.(outputFile := Some(toks[i + 1])), toks[i + 2..])
    ensures toks[i] == "&" ==>
              ParseFrom(acc, toks[i..]) == ParseFrom(acc.(isBg := true), toks[i + 1..])
    ensures !IsOperator(toks[i]) ==>
              ParseFrom(acc, toks[i..]) == ParseFrom(acc.(argv := acc.argv + [toks[i]]), toks[i + 1..])
  {
    var rest := toks[i..];
    assert rest[0] == toks[i];
    if IsRedirect(toks[i]) {
      assert rest[1] == toks[i + 1];
      assert rest[2..] == toks[i + 2..];
    } else {
      assert rest[1..] == toks[i + 1..];
    }
  }

  /**
    Where the fields of the record come from: every word added to `argv` is
    one of the tokens and never an operator, and a file name that is set is
    one of the tokens too.
   */
  lemma {:induction false} ParseFromOrigin(acc: CommandLine, toks: seq<string>)
    requires Complete(toks)
    ensures var r := ParseFrom(acc, toks);
      && |r.argv| <= |acc.argv| + |toks|
      && (forall i :: |acc.argv| <= i < |r.argv| ==> r.argv[i] in toks && !IsOperator(r.argv[i]))
      && (r.inputFile == acc.inputFile || (r.inputFile.Some? && r.inputFile.value in toks))
      && (r.outputFile == acc.outputFile || (r.outputFile.Some? && r.outputFile.value in toks))
    decreases |toks|
  {
    if toks != [] {
      var r := ParseFrom(acc, toks);
      var rest := if IsRedirect(toks[0]) then toks[2..] else toks[1..];
      assert forall x :: x in rest ==> x in toks;
      if toks[0] == "<" {
        ParseFromOrigin(acc.(inputFile := Some(toks[1])), rest);
      } else if toks[0] == ">" {
        ParseFromOrigin(acc.(outputFile := Some(toks[1])), rest);
      } else if toks[0] == "&" {
        ParseFromOrigin(acc.(isBg := true), rest);
      } else {
        ParseFromOrigin(acc.(argv := acc.argv + [toks[0]]), rest);
      }
    }
  }

  /**
    The record `parse_input` builds from a token sequence: its words are
    tokens other than `<`, `>` and `&`, at most one per token, and its file
    names are tokens.
   */
  function Parse(toks: seq<string>): (r: CommandLine)
    requires Complete(toks)
    ensures |r.argv| <= |toks|
    ensures forall i :: 0 <= i < |r.argv| ==> r.argv[i] in toks && !IsOperator(r.argv[i])
    ensures r.inputFile.Some? ==> r.inputFile.value in toks
    ensures r.outputFile.Some? ==> r.outputFile.value in toks
  {
    ParseFromOrigin(Blank, toks);
    ParseFrom(Blank, toks)
  }

  /**
    The record `parse_input` builds from an input line: every word and file
    name is a non-empty run without spaces or newlines, and no word is an
    operator.
   */
  function ParseLine(line: string): (r: CommandLine)
    requires Complete(Tokens(line))
    ensures forall i :: 0 <= i < |r.argv| ==> IsToken(r.argv[i]) && !IsOperator(r.argv[i])
    ensures r.inputFile.Some? ==> IsToken(r.inputFile.value)
    ensures r.outputFile.Some? ==> IsToken(r.outputFile.value)
  {
    Parse(Tokens(line))
  }

  /** Of two optional file names, the one set later wins. */
  function Later(earlier: Option<string>, later: Option<string>): Option<string> {
    if later.Some? then later else earlier
  }

  /**
    The record for `first` followed by `second`: words in order, a file name
    from `second` replacing one from `first`, background if either says so.
   */
  function Combine(first: CommandLine, second: CommandLine): CommandLine {
    CommandLine(
      first.argv + second.argv,
      Later(first.inputFile, second.inputFile),
      Later(first.outputFile, second.outputFile),
      first.isBg || second.isBg)
  }

  lemma CombineAssociative(x: CommandLine, y: CommandLine, z: CommandLine)
    ensures Combine(Combine(x, y), z) == Combine(x, Combine(y, z))
  {
    assert (x.argv + y.argv) + z.argv == x.argv + (y.argv + z.argv);
  }

  /** The record each single step of the loop contributes. */
  lemma ParseUnits(w: string, file: string)
    ensures Complete(["&"]) && Parse(["&"]) == Blank.(isBg := true)
    ensures Complete(["<", file]) && Parse(["<", file]) == Blank.(inputFile := Some(file))
    ensures Complete([">", file]) && Parse([">", file]) == Blank.(outputFile := Some(file))
    ensures !IsOperator(w) ==> Complete([w]) && Parse([w]) == Blank.(argv := [w])
  {
    assert ["&"][1..] == [];
    assert ["<", file][2..] == [];
    assert Parse(["<", file]) == ParseFrom(Blank.(inputFile := Some(file)), []);
    assert [">", file][2..] == [];
    assert Parse([">", file]) == ParseFrom(Blank.(outputFile := Some(file)), []);
    assert [w][1..] == [];
    if !IsOperator(w) {
      assert Parse([w]) == ParseFrom(Blank.(argv := [] + [w]), []);
    }
  }

  /** Starting from a non-blank record is the same as combining it with the blank-start result. */
  lemma {:induction false} ParseFromCombine(acc: CommandLine, toks: seq<string>)
    requires Complete(toks)
    ensures ParseFrom(acc, toks) == Combine(acc, Parse(toks))
    decreases |toks|
  {
    if toks == [] {
      assert acc.argv + [] == acc.argv;
    } else {
      var unit :=
        if toks[0] == "<" then Blank.(inputFile := Some(toks[1]))
        else if toks[0] == ">" then Blank.(outputFile := Some(toks[1]))
        else if toks[0] == "&" then Blank.(isBg := true)
        else Blank.(argv := [toks[0]]);
      var rest := if IsRedirect(toks[0]) then toks[2..] else toks[1..];
      assert acc.argv + [] == acc.argv;
      assert Combine(Blank, unit) == unit;
      assert ParseFrom(acc, toks) == ParseFrom(Combine(acc, unit), rest);
      assert Parse(toks) == ParseFrom(unit, rest);
      ParseFromCombine(Combine(acc, unit), rest);
      ParseFromCombine(unit, rest);
      CombineAssociative(acc, unit, Parse(rest));
    }
  }

  lemma {:induction false} CompleteAppend(a: seq<string>, b: seq<string>)
    requires Complete(a) && Complete(b)
    ensures Complete(a + b)
    decreases |a|
  {
    if a == [] {
      assert a + b == b;
    } else if IsRedirect(a[0]) {
      assert (a + b)[2..] == a[2..] + b;
      CompleteAppend(a[2..], b);
    } else {
      assert (a + b)[1..] == a[1..] + b;
      CompleteAppend(a[1..], b);
    }
  }

  lemma {:induction false} ParseFromAppend(acc: CommandLine, a: seq<string>, b: seq<string>)
    requires Complete(a) && Complete(b)
    ensures Complete(a + b)
    ensures ParseFrom(acc, a + b) == ParseFrom(ParseFrom(acc, a), b)
    decreases |a|
  {
    CompleteAppend(a, b);
    if a == [] {
      assert a + b == b;
    } else if IsRedirect(a[0]) {
      assert (a + b)[2..] == a[2..] + b;
      var next := if a[0] == "<" then acc.(inputFile := Some(a[1])) else acc.(outputFile := Some(a[1]));
      ParseFromAppend(next, a[2..], b);
    } else {
      assert (a + b)[1..] == a[1..] + b;
      var next := if a[0] == "&" then acc.(isBg := true) else acc.(argv := acc.argv + [a[0]]);
      ParseFromAppend(next, a[1..], b);
    }
  }

  /**
    Parsing distributes over concatenation: the words of `a` come before
    the words of `b`, a file name in `b` replaces one in `a`, and an `&` on
    either side makes the command background.
   */
  lemma ParseConcat(a: seq<string>, b: seq<string>)
    requires Complete(a) && Complete(b)
    ensures Complete(a + b)
    ensures Parse(a + b) == Combine(Parse(a), Parse(b))
  {
    ParseFromAppend(Blank, a, b);
    ParseFromCombine(Parse(a), b);
  }

  /** An `&` anywhere on the line sets the background flag and changes nothing else. */
  lemma AmpersandAnywhere(a: seq<string>, b: seq<string>)
    requires Complete(a) && Complete(b)
    ensures Complete(a + ["&"] + b) && Complete(a + b)
    ensures Parse(a + ["&"] + b) == Parse(a + b).(isBg := true)
  {
    ParseUnits("&", "");
    ParseConcat(a, ["&"]);
    ParseConcat(a + ["&"], b);
    ParseConcat(a, b);
    assert Parse(a).argv + [] == Parse(a).argv;
  }

  /** The operator `<` or `>` and the file name after it never reach `argv`. */
  lemma RedirectNotInArgv(a: seq<string>, op: string, file: string, b: seq<string>)
    requires Complete(a) && Complete(b) && IsRedirect(op)
    ensures Complete(a + [op, file] + b) && Complete(a + b)
    ensures Parse(a + [op, file] + b).argv == Parse(a + b).argv
  {
    ParseUnits("&", file);
    ParseConcat(a, [op, file]);
    ParseConcat(a + [op, file], b);
    ParseConcat(a, b);
    assert Parse(a).argv + [] == Parse(a).argv;
  }

  /** The file name of a `<` stands unless a later `<` replaces it; likewise for `>`. */
  lemma LaterRedirectWins(a: seq<string>, file: string, b: seq<string>)
    requires Complete(a) && Complete(b)
    ensures Complete(a + ["<", file] + b) && Complete(a + [">", file] + b)
    ensures Parse(a + ["<", file] + b).inputFile == Later(Some(file), Parse(b).inputFile)
    ensures Parse(a + [">", file] + b).outputFile == Later(Some(file), Parse(b).outputFile)
  {
    ParseUnits("&", file);
    ParseConcat(a, ["<", file]);
    ParseConcat(a + ["<", file], b);
    ParseConcat(a, [">", file]);
    ParseConcat(a + [">", file], b);
  }

  /** A plain word is appended to `argv` after the words before it and before the words after it. */
  lemma WordKeepsItsPlace(a: seq<string>, w: string, b: seq<string>)
    requires Complete(a) && Complete(b) && !IsOperator(w)
    ensures Complete(a + [w] + b)
    ensures Parse(a + [w] + b).argv == Parse(a).argv + [w] + Parse(b).argv
  {
    ParseUnits(w, "");
    ParseConcat(a, [w]);
    ParseConcat(a + [w], b);
  }

  /** Words free of operators parse to exactly themselves. */
  lemma {:induction false} ParseWords(words: seq<string>)
    requires forall i :: 0 <= i < |words| ==> !IsOperator(words[i])
    ensures Complete(words)
    ensures Parse(words) == CommandLine(words, None, None, false)
  {
    if words != [] {
      var init := words[..|words| - 1];
      var last := words[|words| - 1];
      assert words == init + [last];
      ParseWords(init);
      ParseUnits(last, "");
      ParseConcat(init, [last]);
    }
  }

  /** The canonical token sequence of a record: words, then `< in`, `> out` and `&` as set. */
  function Render(c: CommandLine): seq<string> {
    c.argv
    + (if c.inputFile.Some? then ["<", c.inputFile.value] else [])
    + (if c.outputFile.Some? then [">", c.outputFile.value] else [])
    + (if c.isBg then ["&"] else [])
  }

  /** Every record whose words are not operators is what its rendering parses to. */
  lemma ParseRender(c: CommandLine)
    requires forall i :: 0 <= i < |c.argv| ==> !IsOperator(c.argv[i])
    ensures Complete(Render(c))
    ensures Parse(Render(c)) == c
  {
    var inPart := if c.inputFile.Some? then ["<", c.inputFile.value] else [];
    var outPart := if c.outputFile.Some? then [">", c.outputFile.value] else [];
    var bgPart := if c.isBg then ["&"] else [];
    assert Complete([]) && Parse([]) == Blank;
    assert Complete(inPart) && Parse(inPart) == Blank.(inputFile := c.inputFile) by {
      if c.inputFile.Some? { ParseUnits("&", c.inputFile.value); }
    }
    assert Complete(outPart) && Parse(outPart) == Blank.(outputFile := c.outputFile) by {
      if c.outputFile.Some? { ParseUnits("&", c.outputFile.value); }
    }
    assert Complete(bgPart) && Parse(bgPart) == Blank.(isBg := c.isBg) by {
      if c.isBg { ParseUnits("&", ""); }
    }
    ParseWords(c.argv);
    var words := c.argv;
    ParseConcat(words, inPart);
    assert Parse(words + inPart) == CommandLine(c.argv, c.inputFile, None, false) by {
      assert c.argv + [] == c.argv;
    }
    ParseConcat(words + inPart, outPart);
    assert Parse(words + inPart + outPart) == CommandLine(c.argv, c.inputFile, c.outputFile, false) by {
      assert c.argv + [] == c.argv;
    }
    ParseConcat(words + inPart + outPart, bgPart);
    assert Parse(words + inPart + outPart + bgPart) == c by {
      assert c.argv + [] == c.argv;
    }
  }

  /** The words of the line: what strtok can return, and not operators. */
  predicate Printable(c: CommandLine) {
    && (forall i :: 0 <= i < |c.argv| ==> IsToken(c.argv[i]) && !IsOperator(c.argv[i]))
    && (c.inputFile.Some? ==> IsToken(c.inputFile.value))
    && (c.outputFile.Some? ==> IsToken(c.outputFile.value))
  }

  /** Writing a record out as a line and parsing that line gives the record back. */
  lemma ParseLineRoundTrip(c: CommandLine)
    requires Printable(c)
    ensures Complete(Tokens(Join(Render(c))))
    ensures ParseLine(Join(Render(c))) == c
  {
    var r := Render(c);
    forall i | 0 <= i < |r| ensures IsToken(r[i]) {
      if i >= |c.argv| {
        assert IsToken("<") && IsToken(">") && IsToken("&");
      }
    }
    TokensOfJoin(r);
    ParseRender(c);
  }

  /**
    The record as the shell holds it: a calloc'd struct whose `argv` array has
    MAX_ARGS + 1 slots and whose first `argc` slots hold the words.
   */
  class CommandRecord {
    var argv: array<string>
    var argc: nat
    var inputFile: Option<string>
    var outputFile: Option<string>
    var isBg: bool

    ghost predicate Valid()
      reads this
    {
      argv.Length == Slots && argc <= Slots
    }

    /** The record's value. */
    function Value(): CommandLine
      reads this, argv
      requires Valid()
    {
      CommandLine(argv[..argc], inputFile, outputFile, isBg)
    }

    /** calloc: every field zero. */
    constructor ()
      ensures Valid() && fresh(argv)
      ensures Value() == Blank
    {
      argv := new string[Slots](_ => "");
      argc := 0;
      inputFile := None;
      outputFile := None;
      isBg := false;
    }

    /** `argv[argc++] = strdup(token)`: the word goes into the next free slot. */
    method Append(word: string)
      requires Valid() && argc < Slots
      modifies this`argc, argv
      ensures Valid()
      ensures Value() == old(Value()).(argv := old(Value()).argv + [word])
    {
      argv[argc] := word;
      argc := argc + 1;
      assert argv[..argc] == old(argv[..argc]) + [word];
    }

    /** `curr_command->is_bg = false`: the only field the shell changes after parsing. */
    method ForceForeground()
      requires Valid()
      modifies this`isBg
      ensures Valid()
      ensures Value() == old(Value()).(isBg := false)
    {
      isBg := false;
    }
  }

  /**
    The tokenising loop of `parse_input`: each strtok token is dispatched on,
    and a redirection consumes the token after it.
   */
  method ParseTokens(toks: seq<string>) returns (cmd: CommandRecord)
    requires Complete(toks)
    requires |Parse(toks).argv| <= Slots
    ensures fresh(cmd) && fresh(cmd.argv) && cmd.Valid()
    ensures cmd.Value() == Parse(toks)
  {
    cmd := new CommandRecord();
    var i := 0;
    while i < |toks|
      invariant 0 <= i <= |toks|
      invariant fresh(cmd) && fresh(cmd.argv) && cmd.Valid()
      invariant Complete(toks[i..])
      invariant ParseFrom(cmd.Value(), toks[i..]) == Parse(toks)
      decreases |toks| - i
    {
      ghost var before := cmd.Value();
      ParseFromAdvance(before, toks, i);
      var token := toks[i];
      if token == "<" {
        cmd.inputFile := Some(toks[i + 1]);
        i := i + 2;
      } else if token == ">" {
        cmd.outputFile := Some(toks[i + 1]);
        i := i + 2;
      } else if token == "&" {
        cmd.isBg := true;
        i := i + 1;
      } else {
        assert |before.argv| + 1 <= |Parse(toks).argv|;
        cmd.Append(token);
        i := i + 1;
      }
    }
  }

  /** `parse_input` on a line: the loop over the tokens strtok yields for it. */
  method ParseInput(line: string) returns (cmd: CommandRecord)
    requires Complete(Tokens(line))
    requires |ParseLine(line).argv| <= Slots
    ensures fresh(cmd) && fresh(cmd.argv) && cmd.Valid()
    ensures cmd.Value() == ParseLine(line)
  {
    cmd := ParseTokens(Tokens(line));
  }
}
