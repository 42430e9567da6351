# smallsh in Dafny

A model of `smallsh`, a small Unix shell written in C (`smallsh.c`), and
proofs about it. The shell prints a prompt, reads a line, and splits it
into words with `strtok` on space and newline. It runs the built-ins
`exit`, `cd` and `status` itself and forks every other command. Before
`execvp`, a child sets up its signal dispositions and its `<`/`>`
redirections. An `&` anywhere on the line makes the command run in the
background, with `/dev/null` as its default input and output. SIGTSTP toggles
"foreground-only mode", in which `&` is ignored. The global `last_status`
holds how the last foreground child ended, and `status` reports it.

The model follows the program's parts:

- `Tokenizer`: what `strtok(…, " \n")` yields for a line.
- `Command`: the command record (`struct command_line`). The datatype
  `CommandLine` is its value, with the function `Parse` as the
  specification of the tokenising loop. The class `CommandRecord` holds the
  `argv` array of `MAX_ARGS + 1` slots, and the method `ParseTokens` runs
  the loop of `parse_input` over that class and is proved against `Parse`.
- `Signals`: the dispositions `main` and each child install, and the
  SIGTSTP banners with the byte counts passed to `write`.
- `Status`: wait statuses and the lines the shell prints about them.
- `Launch`: what a forked child does before `execvp` (the launch plan), and
  how it ends when `open`, `dup2` or `execvp` fails.
- `Dispatch`: the if-chain of `main` for one record. It covers comment and
  empty lines, the built-ins, the foreground-only override, fork, and the
  foreground wait that sets `last_status`.
- `Session`: the two globals across a whole run of records and SIGTSTPs.
- `Shell`: the class `Shell` with the fields `isFgOnly` and `lastStatus`.
  Its methods are the SIGTSTP handler, the reap loop, one dispatch, one
  iteration of the main loop, and a run of many. Each is proved against
  the functions above.
- `Scenarios`: three concrete lines followed from text to decision.

The operating system's answers are parameters of the model. These are
`chdir`'s success, `fork`'s result, the foreground `waitpid` status, the
background children a non-blocking `waitpid` returns, and the outcome of
the child's `open`, `dup2` and `execvp` calls.

## Model

| member | source | states |
|---|---|---|
| Tokenizer.RunLength | smallsh.c:37 | the run strtok returns: no delimiter before its end, and a delimiter (or the end of the line) right after |
| Tokenizer.Tokens | smallsh.c:37-51 | every token strtok yields is non-empty and holds no space or newline |
| Tokenizer.TokensLoseOnlyDelimiters | smallsh.c:37-51 | the tokens put back together are the line with every space and newline removed, so nothing else is lost or reordered |
| Tokenizer.TokensSplit | smallsh.c:37-51 | a delimiter anywhere splits the line: the tokens of `a d b` are the tokens of `a` followed by those of `b` |
| Tokenizer.TokensOfToken | smallsh.c:37-51 | a string that is one token tokenises to exactly itself |
| Tokenizer.TokensOfJoin | smallsh.c:37-51 | words joined by single spaces tokenise back to the same words |
| Command.ParseFrom | smallsh.c:38-52 | the loop only ever appends to `argv`: the words already in the record stay a prefix of the result |
| Command.ParseFromOrigin | smallsh.c:38-52 | every word the loop adds is one of the tokens and never `<`, `>` or `&`, at most one per token; a file name it sets is one of the tokens |
| Command.Parse | smallsh.c:37-53 | the record's words are tokens other than `<`, `>` and `&`, at most one per token, and its file names are tokens |
| Command.ParseLine | smallsh.c:37-53 | every word and file name of the record for a line is a non-empty run without space or newline, and no word is `<`, `>` or `&` |
| Command.ParseFromAdvance | smallsh.c:39-51 | one turn of the loop: `<` and `>` take the next token as file name and skip it, `&` sets the flag, any other token is appended |
| Command.ParseUnits | smallsh.c:39-50 | the record each single step builds on its own: `&` sets is_bg, `< f` sets the input file, `> f` the output file, a word becomes argv |
| Command.ParseFromCombine | smallsh.c:38-52 | running the loop from a filled record equals combining that record with the blank-start result |
| Command.ParseFromAppend | smallsh.c:38-52 | the loop over `a` then `b` is the loop over `b` continued from the record after `a` |
| Command.ParseConcat | smallsh.c:38-52 | parsing distributes over concatenation: words in order, a later file name replaces an earlier one, `&` on either side sets the flag |
| Command.AmpersandAnywhere | smallsh.c:45-46 | an `&` anywhere on the line makes the command background and changes nothing else |
| Command.RedirectNotInArgv | smallsh.c:39-44 | `<`/`>` and the file name after it never reach argv |
| Command.LaterRedirectWins | smallsh.c:39-44 | the file name of a `<` (or `>`) is kept unless a later `<` (or `>`) replaces it |
| Command.WordKeepsItsPlace | smallsh.c:48-49 | an ordinary word lands in argv after the words before it and before the words after it |
| Command.ParseWords | smallsh.c:48-49 | a line of ordinary words parses to exactly those words, no files, foreground |
| Command.ParseRender | smallsh.c:38-52 | every record whose words are not operators is what its canonical token sequence parses to |
| Command.ParseLineRoundTrip | smallsh.c:37-52 | writing a record out as a space-separated line and parsing that line gives the record back |
| Command.CommandRecord.constructor | smallsh.c:29 | calloc: no words, both file names NULL, foreground, argv of MAX_ARGS + 1 slots |
| Command.CommandRecord.Append | smallsh.c:49 | `argv[argc++] = token`: the word is added after the existing words, nothing else changes |
| Command.CommandRecord.ForceForeground | smallsh.c:144-146 | clears is_bg and leaves the words and file names as they were |
| Command.ParseTokens | smallsh.c:38-52 | the loop leaves in the fresh record exactly `Parse` of the token sequence |
| Command.ParseInput | smallsh.c:27-54 | the record `parse_input` returns for a line is `ParseLine` of that line |
| Signals.ShellDisposition | smallsh.c:78-90 | in the shell only SIGTSTP runs the toggle handler, and SIGINT is ignored |
| Signals.ChildDisposition | smallsh.c:158-175 | in a child SIGTSTP is ignored, SIGINT is back to the default exactly for a foreground child, and the toggle handler is never inherited |
| Signals.InterruptReachesOnlyForegroundChildren | smallsh.c:165-175 | SIGINT is ignored by the shell and by a background child, and takes its default action in a foreground child |
| Signals.Write | smallsh.c:63 | `write` of `count` bytes from a C literal gives exactly `count` bytes, the literal's prefix when it is long enough |
| Signals.BannerCountsExact | smallsh.c:60-69 | the counts 52 and 32 are the banners' lengths: each banner is written whole, with no NUL byte |
| Status.Decimal | smallsh.c:135-138 | `%d` of a number is a non-empty string of decimal digits |
| Status.DecimalRoundTrip | smallsh.c:135-138 | the digits printed read back as the number |
| Status.DecimalInjective | smallsh.c:135-138 | different numbers print differently |
| Status.StatusMessage | smallsh.c:134-139 | the `status` output is one line ending in a newline: "exit value " followed by digits that read back as the exit value after a normal exit, "terminated by signal " followed by digits that read back as the signal number after a signal |
| Status.StatusMessageDetermines | smallsh.c:133-141 | the `status` line determines the wait status: whether it was a signal, and which number |
| Status.InitialStatusReport | smallsh.c:14 | before any foreground command, `status` prints "exit value 0" |
| Status.ForegroundNotice | smallsh.c:246-250 | after a foreground wait a line is printed exactly when the child was signalled, and it is the `status` line for it |
| Status.BackgroundStartMessage | smallsh.c:240 | "background pid is " followed by digits that read back as the child's pid, then a newline |
| Status.DoneMessageEndsWithStatus | smallsh.c:96-101 | a background completion line is "background pid P is done: " followed by what `status` would print for that child |
| Launch.StdinRedirect | smallsh.c:177-202 | input comes from the `<` file exactly when there is one, read-only; from /dev/null exactly when there is none and the command is background; otherwise it is the shell's |
| Launch.StdoutRedirect | smallsh.c:204-229 | output goes to the `>` file exactly when there is one, write-only, created and truncated with mode 0666; to /dev/null write-only exactly when there is none and the command is background; otherwise it is the shell's |
| Launch.BackgroundNeverInherits | smallsh.c:190-229 | a background child never shares the shell's input or output, and defaults to /dev/null |
| Launch.StreamsDecidedIndependently | smallsh.c:177-229 | input depends only on the `<` file and is_bg, output only on the `>` file and is_bg |
| Launch.PlanFor | smallsh.c:158-232 | the child ignores SIGTSTP, takes SIGINT's default exactly when foreground, sets up both streams as above, and executes argv[0] with argv |
| Launch.StreamFailure | smallsh.c:177-229 | a stream's setup fails exactly when a call is made and the system refuses it, and every failure exits with EXIT_FAILURE |
| Launch.ChildRun | smallsh.c:177-235 | the child's image is replaced exactly when both streams are set up and execvp succeeds; every other end is an exit with EXIT_FAILURE |
| Launch.InheritedStreamMakesNoCall | smallsh.c:177-229 | an inherited stream makes no call, so the system's answer for it changes nothing |
| Launch.UnopenableInputReportedByName | smallsh.c:178-183 | an input file that cannot be opened is reported by name before anything else is tried |
| Dispatch.Classify | smallsh.c:108-141 | empty and `#` lines are skipped; `exit`, `cd` (with its target, or $HOME) and `status` are recognised by the whole first word; everything else is external |
| Dispatch.RouteIgnoresRedirectionAndBackground | smallsh.c:109-133 | only the words decide the route; redirections and `&` never change it |
| Dispatch.Override | smallsh.c:143-146 | the background flag survives exactly when foreground-only mode is off; nothing else changes |
| Dispatch.Decide | smallsh.c:108-253 | each route has its own outcome and only it: skipped exactly for a blank or comment line, `kill(0, SIGTERM)` then exit 0 exactly for `exit`, a directory change exactly for `cd` (an error reported exactly when an explicit directory fails), the line for the previous status exactly for `status`, a fork error exactly when fork fails; background exactly for a forked external `&` command outside foreground-only mode and foreground exactly for every other forked external command, with the child's pid, the plan of the record after the override, and the start message or the termination notice; only a foreground wait changes `last_status`, to the waited status |
| Dispatch.ForegroundOnlyModeForcesForeground | smallsh.c:143-251 | in foreground-only mode a forked command runs in the foreground with a foreground command's plan, and sets `last_status` |
| Dispatch.NormalModeKeepsRecord | smallsh.c:143-146 | outside foreground-only mode the record reaches fork exactly as parsed |
| Dispatch.CdWithoutArgumentGoesHome | smallsh.c:120-129 | `cd` alone calls chdir($HOME) and reports no error, whether or not that call succeeds |
| Dispatch.StatusReportsLastForegroundCommand | smallsh.c:133-139 | `status` right after a foreground command prints the line for that command's own wait status |
| Dispatch.StatusLineIdentifiesCommand | smallsh.c:133-139 | the line `status` prints right after a foreground command names that command's wait status and no other |
| Session.Step | smallsh.c:58-251 | SIGTSTP flips the mode and keeps the status; a dispatched record keeps the mode and changes the status only by a foreground wait, to the status that wait reported |
| Session.After | smallsh.c:92-255 | over a run of events, commands alone never change the mode and SIGTSTPs alone never change the status |
| Session.ModeIsToggleParity | smallsh.c:58-70 | foreground-only mode is on exactly when an odd number of SIGTSTPs flipped it from its start |
| Session.NoBackgroundUntilToggled | smallsh.c:143-146 | once foreground-only mode is on, no command runs in the background until a SIGTSTP arrives |
| Session.StatusKeptWithoutForeground | smallsh.c:238-252 | with no foreground child in a run, `last_status` keeps its value |
| Session.StatusIsLatestForeground | smallsh.c:246-251 | `last_status` is the status of the latest foreground child |
| Shell.Shell.constructor | smallsh.c:13-14 | both globals start at 0: normal mode, and a status read as "exit value 0" |
| Shell.Shell.HandleSigtstp | smallsh.c:58-70 | flips the mode, writes the banner of the new mode whole, and leaves `last_status` alone |
| Shell.Shell.ReapBackground | smallsh.c:95-103 | one completion line per finished background child, in order; no global is read or changed |
| Shell.Shell.Dispatch | smallsh.c:108-253 | the outcome, the record afterwards and the new `last_status` are those of `Decide`, and the mode is unchanged |
| Shell.Shell.Iteration | smallsh.c:94-253 | reap, parse and dispatch: the notes of the reap loop, then `Decide` on the parsed line |
| Session.OnlyExitLineEnds | smallsh.c:114-117 | the session ends exactly at a line whose route is `exit`, whatever the mode and status |
| Shell.Shell.Handle | smallsh.c:58-253 | one input moves the globals as `Session.Step` does for its event, and reports an exit exactly for an `exit` line |
| Shell.Shell.Run | smallsh.c:92-255 | the loop handles the inputs up to and including the first `exit` line and none after it; no earlier input was `exit`, it stops early only at one, and the globals are those `Session.After` gives for the events it handled |
| Shell.ToggleTwice | smallsh.c:58-70 | two SIGTSTPs restore the mode and write the two different banners |
| Scenarios.LineOf | smallsh.c:34-52 | a line as fgets leaves it, words and a final newline, parses to the record it was written from |
| Scenarios.ListingIntoFile | smallsh.c:204-216 | `ls -l > out.txt` runs in the foreground with the shell's input and its output in out.txt (mode 0666), and sets `last_status` |
| Scenarios.SleepInBackground | smallsh.c:190-242 | `sleep 5 &` runs in the background with /dev/null streams, ignores SIGINT and leaves `last_status`; in foreground-only mode it runs in the foreground |
| Scenarios.UnknownProgram | smallsh.c:231-235 | for an unknown program the child reports the name and exits with EXIT_FAILURE, and `status` then prints "exit value 1" |

## Left out

- System calls are not executed. `chdir`, `fork`, `waitpid`, `open`, `dup2` and `execvp` are answers passed in as parameters. `kill` and `exit` are outcomes the model records; after `exit` the loop reads no more input.
- The prompt, `fflush` and `fgets` are left out. Lines are given whole. The 2048-byte buffer that splits longer input across reads is not modelled, and neither is end of input.
- The SIGTSTP handler runs between iterations only, as one atomic step. A signal arriving mid-iteration is not modelled. Neither is `SA_RESTART` or the blocking of other signals while the handler runs.
- The wait-status encoding is left out. `WIFEXITED` and `WIFSIGNALED` are read as the two constructors of `WaitStatus`. A status that is neither, which the reap loop skips silently, is not modelled.
- How process ids are allocated (they are parameters: the pid fork returns, the pids the reap loop finds), concurrency, and the race between a child ending and the reap loop are left out.
- Memory is left out: the record is never freed, and `strdup` copies are values.
- `close` of the duplicated descriptors is not modelled.
- Command.ParseTokens: requires that every `<` and `>` is followed by a file name. In the source, a final `<` passes strtok's NULL to `strdup`, which is undefined behaviour.
- Command.ParseTokens: requires at most MAX_ARGS + 1 words, one per slot of `argv`. More would write past the array, which is undefined behaviour.
- Launch.PlanFor: a command of exactly MAX_ARGS + 1 words fills the slot meant for the NULL that ends `argv`, so `execvp` would read past the array (undefined behaviour). The plan passes such an `argv` as if it were terminated.
- Tokenizer.Tokens: a NUL byte that `fgets` stores in the line ends the string for `strtok`. The model treats `'\0'` as an ordinary character.
- Command.ParseInput: carries the same two requirements as `ParseTokens`.
- Dispatch.Decide: `exit` is recorded as `kill(0, SIGTERM)` followed by `exit(0)`. The SIGTERM also reaches the shell itself, whose disposition for it is the default, so the shell may end by that signal before `exit(0)` runs.
- Dispatch.Decide: `$HOME` is symbolic (`Home`). Its value, and a NULL `getenv` result, are not modelled.
- Signals.ShellDisposition: covers only the three signals the program names. Every other signal keeps its default.
- Status.Decimal: prints only non-negative numbers. Exit values and signal numbers are never negative.
- `is_fg_only` is modelled as a `bool`, since the source only ever stores 0 and 1 in it.
