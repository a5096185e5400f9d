# NuttX: shell scripts, PCM decoding and their neighbours, verified

A Dafny model of some stateful cores of NuttX and its applications, with proofs about all
inputs and all runs.

**The shell as a script interpreter** (`Shell*.dfy`). NSH runs scripts without a syntax tree.
A line is read at a file position and cut at semicolons; the first word of a command is
matched against the keywords; two stacks of fixed depth record the loops and `if`s around it
and decide whether it runs; `done` seeks back to the position recorded at the loop head.

- `ShellParser` has the transitions of the two stacks, `ShellState` the same as a class over
  two arrays, each method proved to be its transition.
- `ShellTree` has the structured meaning after section 2.9.4 of the POSIX.1-2017 Shell Command
  Language, with the shell's own rule that a script stops at its first failing command.
- `ShellMachine`, `ShellRefinement` and `ShellScriptMeaning` prove that the flat machine and
  the tree agree, for an arbitrary oracle of command results, on scripts that end and on
  scripts that do not.
- `ShellExactness`, `ShellDrift` and `ShellBreak` build, for a script with a fault, a world in
  which machine and tree part, and so prove the conditions of the refinement exact.
  `ShellRepair` has the scripts with a fault that does not show.
- `ShellPlain` proves that along the runs of the refinement only plain commands fail, and
  `ShellStatus` when the exit status is that of the standard.
- `ShellText`, `ShellFile`, `ShellSeek`, `ShellLayout`, `ShellLines`, `ShellShape` and
  `ShellDropped` go down to characters: splitting and tokenising, their round trip, the recorded
  offsets and where a seek lands, and when the layout of a file in lines does not matter.
- `ShellNotation` and `ShellPrinted` are scripts as they are written: words of letters, blanks,
  tabs, newlines, semicolons, quotes and comments in any layout, read as what was written, and
  trees printed and run. `ShellRejected` has the commands and lines that are errors.
- `ShellRun` joins both ends: what the class does with a script file is what the tree says.
- `ShellExpand` is the expansion of an argument in the line buffer.

The script layers model the build without background commands (`CONFIG_NSH_DISABLEBG`), in
which `nice` and `&` have no meaning of their own.

**The PCM decoder** (`Pcm*.dfy`). `PcmFilter` is fast forward as a filter on single bytes,
`PcmDecoder` the decoder that does it in place, buffer by buffer, and `PcmStream` says what
comes out of whole streams with rate changes and stops. `WavHeader` writes the headers that the
decoder takes.

**Smaller cores.** The Modbus master's event machine (`ModbusMaster`, `ModbusReports`) and the
slave's handler table (`ModbusTable`), `dd` under short reads and writes (`DdCopy`, `Devices`), output
redirection (`ConsoleRedirect`), the packed argument list (`ArgvCopy`) and `hexdump`
(`Hexdump`).

`dafny verify dfyconfig.toml` checks everything.

## Reading the model

What the outside decides is a parameter: the results of commands and the output of backquoted
ones, environment variables, how much a device reads or writes, the answers of the lower audio
driver, received Modbus frames and the results of Modbus handlers. An oracle of command
results sees everything that has run, so it may answer differently each time.

Where code and expectation part, the code is followed:

- A loop directly in the body of another has its condition run even when the outer loop is
  off. `AgreesExactly` and `InertExactly` prove the exact conditions.
- `break` inside an `if` cuts the if stack, and an `fi` that follows fails the script.
  `SoundExactly` proves the exact condition for loops and `if`s nested at any depth, unless a
  `break` of an outer loop sets the stack right again, as `RepairedAgrees` shows it can. When
  failures are ignored the `fi` only leaves a failed status behind (`IgnoredExactly`), which
  the next command covers up (`IgnoredHides`).
- The type of a Modbus failure is kept in one place only, so two pending failures are reported
  alike. `ReportsExactly` proves the exact condition on schedules.
- A quoted string in a loop command moves the offset recorded for it, and `done` then seeks into
  the middle of the command. `SeekExactly` proves the exact condition.
- When failures are ignored, a failing command still drops the rest of its line. `LineExactly`
  and `BegunExactly` prove the exact condition on lines, and `TextMeansTree` that it is enough
  for whole files; `LossUnseen` is a file that does not need it.
- A command that changes the redirect flag of its parser, by having further lines parsed, breaks
  the pairing of redirect and undirect. `ForegroundExactly` and `BackgroundExactly` prove the
  exact conditions.
- The decoder carries a pending part of a frame from one stream to the next, where it may be
  larger than a frame, and accepts frames of size zero. `SafeExactly` proves the exact condition
  on frame sizes under which no call overruns the buffer or hangs.
- A loop that its condition ends counts as success, because conditions clear the status, where
  the standard gives it the status of its last round. `StoppingIsPosix` proves that this does not
  show in scripts that stop at their first failure, and `StatusExactly` exactly when it shows in
  others.
- A script without any line is a failure (`RunScript`).
- The 8-bit drop counter of the decoder wraps for large frames and rates. `RateExact` proves
  the exact condition.
- The decoder's checks of sample size and channel count return a negative number as a truth
  value, so they reject nothing, and the model accepts those formats too.

The tree semantics uses fuel, one unit for each round of a loop. The theorems quantify over all
amounts of it, so it bounds nothing: a tree ends in a way if some amount of fuel lets it.

## Model

| member | source | states |
|---|---|---|
| `ShellParser.Fresh` | apps/nshlib/nsh.h:783-821 | a new parser is in a valid state and lets commands run |
| `ShellParser.LoopReset` | apps/nshlib/nsh_parse.c:1660-1668 | a rejected loop keyword, in any state, leaves both stacks in a valid state |
| `ShellParser.ItefReset` | apps/nshlib/nsh_parse.c:1806-1811 | a rejected if keyword, in any state, leaves both stacks in a valid state |
| `ShellParser.EnterLoop` | apps/nshlib/nsh_parse.c:1499-1558 | accepted or rejected, `while` and `until` keep both stacks within their depth and the invariant of the slots |
| `ShellParser.LeaveLoop` | apps/nshlib/nsh_parse.c:1583-1643 | `done` on an open body keeps the invariant, so there is always a slot to pop |
| `ShellParser.ScanLoop` | apps/nshlib/nsh_parse.c:1486-1669 | every command, malformed ones too, keeps the invariant of both stacks through the loop keywords |
| `ShellParser.ScanItef` | apps/nshlib/nsh_parse.c:1677-1812 | every command, malformed ones too, keeps the invariant of both stacks through the if keywords |
| `ShellParser.SaveResult` | apps/nshlib/nsh_parse.c:411-467 | recording a result in any state keeps the invariant and runs nothing |
| `ShellParser.BreakLoop` | apps/nshlib/nsh_parse.c:2299-2322 | `break` in any state keeps the invariant, although it cuts the if stack |
| `ShellParser.Execute` | apps/nshlib/nsh_parse.c:473-715 | running a command and taking its result keeps the invariant |
| `ShellParser.ParseCommand` | apps/nshlib/nsh_parse.c:1998-2077 | one command, whatever it is and however it ends, keeps the invariant of both stacks |
| `ShellMachine.StacksStayInBounds` | apps/nshlib/nsh_parse.c:1533-1606 | over every run of commands, well-formed or not: both indices stay below the nesting depth, slot 0 of each stack stays normal, all loop slots strictly between 0 and the top are in their body, and neither "should not happen" branch can be reached |
| `ShellMachine.ParseKeepsDepth` | apps/nshlib/nsh_parse.c:1998-2077 | no command changes the size of the stacks |
| `ShellMachine.FindExact` | apps/nshlib/nsh_parse.c:1617-1631 | a seek to the recorded position of a command finds exactly that command |
| `ShellMachine.LogGrows` | apps/nshlib/nsh_script.c:107-147 | what a script has run is never taken back |
| `ShellMachine.StepsAtRest` | apps/nshlib/nsh_script.c:147-147 | a script that has ended or stopped stays so |
| `ShellRefinement.Inert` | apps/nshlib/nsh_parse.c:1436-1478 | disabled code is inert: a well-nested block runs no command, keeps the status, never jumps, takes exactly its own commands and leaves both stacks as it found them |
| `ShellRefinement.BreakEscapes` | apps/nshlib/nsh_parse.c:2299-2322 | in the tree, code after a `break` of its own level is never reached |
| `ShellRefinement.Simulates` | apps/nshlib/nsh_parse.c:1998-2166 | where commands are enabled, the flat machine does what the tree does: same commands at the same positions in the same order, same status, same stop, and not faster than the tree allows when a loop goes on |
| `ShellScriptMeaning.TrackedAgrees` | apps/nshlib/nsh_script.c:107-147 | whenever the machine can be followed along the tree for every number of loop rounds, the two end alike and run the same commands, whatever the script is |
| `ShellScriptMeaning.Follow` | apps/nshlib/nsh_script.c:107-147 | for every number of loop rounds there is a machine run with the very log, status and ending of the tree |
| `ShellScriptMeaning.TreeEndIsMachineEnd` | apps/nshlib/nsh_script.c:107-147 | every ending of the structured meaning is an ending of the machine |
| `ShellScriptMeaning.MachineEndIsTreeEnd` | apps/nshlib/nsh_script.c:107-147 | every ending of the machine is an ending of the structured meaning |
| `ShellScriptMeaning.MachineLogIsTreeLog` | apps/nshlib/nsh_script.c:107-147 | also on scripts that never end, all that the machine has run by some time is run by the tree |
| `ShellScriptMeaning.Refinement` | apps/nshlib/nsh_parse.c:1486-1812 | main result: for every well-nested script within the depth limit with loops separated by an `if` and `break` at its loop's own level, and for every oracle of command results, the two-stack machine with seeks and the structured meaning end alike and run the same commands |
| `ShellExactness.InertExactly` | apps/nshlib/nsh_parse.c:1409-1425 | exact condition for inertness: a disabled block is inert if and only if an `if` disables it or it has no loop at its own level |
| `ShellExactness.RunsFirstLoop` | apps/nshlib/nsh_parse.c:1418-1425 | in a body that only its loop has switched off, the condition of the first loop in it is run all the same |
| `ShellExactness.NeverRuns` | apps/nshlib/nsh_parse.c:1409-1478 | in the world built to lead to a misplaced loop, the tree never runs that loop's condition |
| `ShellExactness.RunsCulprit` | apps/nshlib/nsh_parse.c:426-446 | in that world the machine does run it |
| `ShellExactness.Disagrees` | apps/nshlib/nsh_parse.c:1409-1478 | every script with a loop straight in the body of another, where that can matter, is run differently from its tree in some world |
| `ShellExactness.AgreesExactly` | apps/nshlib/nsh_parse.c:1409-1478 | exact condition for the refinement: machine and tree agree in every world if and only if nested loops are separated by an `if` |
| `ShellDrift.Glides` | apps/nshlib/nsh_parse.c:1486-1812 | where commands succeed and loops are left, balanced code is passed over in exactly its own number of steps with both stacks as before, whatever the if index is |
| `ShellDrift.StaysShut` | apps/nshlib/nsh_parse.c:1677-1812 | over every run that stops at its first failure, of code in which no `if` has `break` as its condition, only the top if slot can be waiting for its condition |
| `ShellDrift.Drifts` | apps/nshlib/nsh_parse.c:1745-1792 | an if index that has fallen behind the nesting of the code stays behind through any code, or an unmatched `else` or `fi` stops the script |
| `ShellBreak.Sinks` | apps/nshlib/nsh_parse.c:2299-2322 | in the world built to lead to a misplaced `break`, the machine runs into it, and from then on the script dies or its if index stays too low to its end |
| `ShellPlain.NeverStops` | apps/nshlib/nsh_script.c:147-147 | a tree whose plain commands all succeed is never stopped |
| `ShellPlain.OnlyPlainFail` | apps/nshlib/nsh_parse.c:1486-1812 | over every run of a well-nested script with loops separated by an `if` and `break` at its loop's own level, in every world and with failures ignored or not, no keyword is ever rejected: only plain commands fail |
| `ShellBreak.Disagrees` | apps/nshlib/nsh_parse.c:2299-2322 | every script in the class with a misplaced `break`, at whatever depth of loops and `if`s, is run differently from its tree in some world: the machine dies and the tree does not |
| `ShellBreak.SoundExactly` | apps/nshlib/nsh_parse.c:2299-2322 | exact condition for nested loops and `break` together, at any depth: unless a `break` of an outer loop inside an `if` follows the loop with the first misplaced `break`, machine and tree agree in every world if and only if no reachable `break` stands in an `if` inside its loop and nested loops are separated by an `if` |
| `ShellRepair.RepairedAgrees` | apps/nshlib/nsh_parse.c:2299-2322 | outside that class the condition is not necessary: a family of scripts with a misplaced `break` followed by the `break` of an outer loop inside an `if` agrees with its tree in every world, failures ignored or not |
| `ShellRepair.IgnoredExactly` | apps/nshlib/nsh_script.c:147-147 | with failures ignored, a loop left by a misplaced `break` runs the commands of the tree, but ends with a failed status exactly when it ends by the `break` |
| `ShellRepair.IgnoredHides` | apps/nshlib/nsh_script.c:147-147 | followed by any command, the same script agrees with its tree in every world |
| `ShellText.SplitFrom` | apps/nshlib/nsh_parse.c:2203-2286 | the commands of a line lie inside it, the first one where the cut began, and the offset recorded for a command is never before its start |
| `ShellText.Argument` | apps/nshlib/nsh_parse.c:1257-1402 | the scan for an argument always moves on and stays in the command, so tokenising ends |
| `ShellNotation.AnyLayout` | apps/nshlib/nsh_parse.c:1257-1402 | reading back, for any layout: words written bare or in quotes, with backquoted parts, with any non-empty run of blanks, tabs and newlines between them and any such run around them, are read as exactly these words; the signs of a redirection are words of their own; a `#` at the beginning of a word ends the words |
| `ShellNotation.LineReads` | apps/nshlib/nsh_parse.c:2203-2286 | a line of commands in any such layout, with semicolons between them and a comment and a newline behind them, is read as exactly these commands, and a command without quotes is recorded at its beginning |
| `ShellNotation.FileReads` | apps/nshlib/nsh_script.c:107-147 | a file of such lines has exactly the commands that were written in it, in order; seeks land if its loop commands hold no quotes |
| `ShellNotation.HeadsAre` | apps/nshlib/nsh_parse.c:1486-1812 | the nine words of the shell, spelled out, are the ones with a meaning to the parser, each with its own |
| `ShellText.RoundTrip` | apps/nshlib/nsh_parse.c:1257-1402 | printing any list of commands (words quoted where needed, joined by semicolons) and splitting and tokenising the line gives the same list back |
| `ShellText.ReadWords` | apps/nshlib/nsh_parse.c:1269-1402 | the tokens of a printed command are the words it was printed from |
| `ShellFile.LineIsRead` | apps/nshlib/nsh_script.c:131-131 | what is read at a position fits the buffer with its terminator, has no newline before its last character, and ends in a newline, at the end of the file or with the buffer full; and only one line does |
| `ShellFile.LinesMakeFile` | apps/nshlib/nsh_script.c:107-147 | the lines from any position on concatenate to the rest of the file, and each fits the buffer |
| `ShellFile.SplitShift` | apps/nshlib/nsh_parse.c:2203-2286 | cutting a line from its middle gives the same commands with shifted offsets |
| `ShellSeek.HeadWords` | apps/nshlib/nsh_parse.c:1257-1402 | up to the recorded offset the words keep step with the quotes and leave a word behind, or a word swallows a quote |
| `ShellSeek.SeekExactly` | apps/nshlib/nsh_parse.c:2203-2286 | exact condition: for every command of a line that fits the buffer, reading from the offset recorded for it gives it and everything after it if and only if no quoted string comes before its end, provided that no quoted string in it holds a comment sign |
| `ShellSeek.SeekByChance` | apps/nshlib/nsh_parse.c:2203-2286 | the proviso is needed: a loop command with a comment sign in a quoted string whose words are found again from the recorded offset |
| `ShellFile.SeekLandsOnHead` | apps/nshlib/nsh_parse.c:1543-1558 | the position recorded at `while` or `until` leads back to that command: reading on from there gives it and everything after it, wherever it stood on its line |
| `ShellFile.SpreadSeek` | apps/nshlib/nsh_parse.c:1613-1631 | a seek into the middle of a line leaves a line on which no plain command is followed by another |
| `ShellFile.ReadLines` | apps/nshlib/nsh_script.c:107-147 | reading any number of lines keeps the parser invariant and the file position in the file |
| `ShellLayout.ParseTops` | apps/nshlib/nsh_parse.c:1538-1558 | every loop top that the parser ever holds or jumps to is the position of a loop command of the file |
| `ShellLayout.CodeRises` | apps/nshlib/nsh_parse.c:2203-2265 | recorded positions rise along the file |
| `ShellLayout.JumpLands` | apps/nshlib/nsh_parse.c:1613-1631 | a seek puts the file and the flat machine at the same loop |
| `ShellLayout.LineIsSteps` | apps/nshlib/nsh_parse.c:2182-2292 | running a line is some steps of the flat machine |
| `ShellLayout.LayoutIrrelevant` | apps/nshlib/nsh_script.c:107-147 | the shell, reading the file line by line with seeks, ends in a way if and only if the flat machine on its commands does: lines, semicolons, blank lines and comments do not matter |
| `ShellLayout.LayoutLogs` | apps/nshlib/nsh_script.c:107-147 | and what it has run at any time is what the flat machine runs, also when neither ends |
| `ShellLayout.TextMeansTree` | apps/nshlib/nsh_script.c:107-147 | from characters to meaning: a script file ends in a way if and only if the tree that its text spells does, and runs the same commands in the same order, also when it never ends, and with failures ignored if no plain command is followed by another command on its line |
| `ShellPrinted.NotationIsFlat` | apps/nshlib/nsh_parse.c:1486-1812 | the commands of a tree, with the words of the shell written out in letters, are the ones that the parser flattens the tree to |
| `ShellPrinted.WrittenMeans` | apps/nshlib/nsh_script.c:107-147 | a file in which a tree is written down, the words of the shell in letters and in any layout of blanks, tabs, newlines, semicolons, quotes and comments, ends in a way if and only if the tree does, and runs the same commands |
| `ShellPrinted.PrintedIsWritten` | apps/nshlib/nsh_script.c:107-147 | a tree printed with a line for each command and bodies indented by tabs is written down in that sense, for every tree with words that can be written |
| `ShellRejected.LoopRejectedExactly` | apps/nshlib/nsh_parse.c:1486-1669 | exact condition, in the words of the shell, for a command to be rejected by the loop keywords; then no loop is open any more and the if stack is untouched |
| `ShellRejected.ItefRejectedExactly` | apps/nshlib/nsh_parse.c:1677-1812 | exact condition, in the words of the shell, for a command to be rejected by the if keywords; then no `if` is open any more and the loop stack is untouched |
| `ShellRejected.RejectedFails` | apps/nshlib/nsh_parse.c:1998-2077 | a rejected command is not run, and fails the script unless a condition that is due takes the failure |
| `ShellRejected.OpenExactly` | apps/nshlib/nsh_parse.c:2203-2286 | the scan of a line comes to its end if and only if the line, read character by character with comments left out, does not end inside quotes |
| `ShellRejected.OpenReported` | apps/nshlib/nsh_parse.c:2266-2281 | a line that leaves a quote open is an error, unless a command before the quote leaves the line |
| `ShellLines.LineExactly` | apps/nshlib/nsh_parse.c:2241-2265 | exact condition on a line: where everything around is on and no keyword of the line is rejected, and it has no `else`, `done` or `break` before its first plain command, its commands leave on one line what they leave one by one, stacks, status and log, in every world, if and only if no plain command is followed by another command |
| `ShellLines.ElseHides` | apps/nshlib/nsh_parse.c:1745-1759 | that beginning is needed: after `else` at the end of a branch that was taken, two plain commands do the same on one line and one by one in every world |
| `ShellShape.Passes` | apps/nshlib/nsh_parse.c:1486-1812 | well-nested code without `break` is accepted command by command in every world and leaves both stacks in the shape in which it found them |
| `ShellShape.BegunExactly` | apps/nshlib/nsh_parse.c:2241-2265 | the exact condition on lines, for every line that begins well-nested code without `break` |
| `ShellDropped.LayoutMatters` | apps/nshlib/nsh_parse.c:2241-2265 | the file `a;b`, where everything fails and failures are ignored, ends after `a`; the flat machine runs both |
| `ShellDropped.LossUnseen` | apps/nshlib/nsh_parse.c:2241-2265 | for whole files the condition on lines is not necessary: one with the lines `if c; then` and `x; fi` loses the `fi` when `x` fails, and ends as its tree does in every world |
| `ShellRun.RunFile` | apps/nshlib/nsh_script.c:107-147 | the shell code itself: what it has run after any number of lines the tree runs too, and once it is done it ends as the tree does |
| `ShellRun.RunPrinted` | apps/nshlib/nsh_script.c:107-147 | the shell code on the printed text of a tree: what it has run after any number of lines the tree runs too, and once it is done it ends as the tree does |
| `ShellRun.EnoughLines` | apps/nshlib/nsh_script.c:107-147 | whenever the tree ends, some number of lines is enough for the shell to be done |
| `ShellRun.TextIsPosix` | apps/nshlib/nsh_script.c:107-147 | a script file that stops at its first failure ends as section 2.9.4 of the standard says, exit status included |
| `ShellStatus.StoppingIsPosix` | apps/nshlib/nsh_parse.c:411-467 | for every script and world, well-nested or not, the structured meaning of a script that stops at its first failure has the exit status of the standard |
| `ShellStatus.MachineIsPosix` | apps/nshlib/nsh_parse.c:411-467 | so has the two-stack machine, on the scripts of the refinement |
| `ShellStatus.StatusExactly` | apps/nshlib/nsh_parse.c:411-467 | exact condition with failures ignored: the machine ends with the status of the standard in every world if and only if no loop whose body may end with a failed status can be the last to set the status of the script |
| `ShellStatus.StatusSame` | apps/nshlib/nsh_parse.c:411-467 | without such a loop both statuses are the same, for every statement, world and number of rounds |
| `ShellStatus.LoopForgets` | apps/nshlib/nsh_parse.c:426-446 | `while a; do b; done` whose only round fails ends with success in the shell and with failure by the standard, when failures are ignored |
| `ShellState.Shell.IsEnabled` | apps/nshlib/nsh_parse.c:1409-1478 | computes whether commands are enabled in the current state |
| `ShellState.Shell.StoreResult` | apps/nshlib/nsh_parse.c:411-467 | the arrays change as recording a result demands, nothing else does |
| `ShellState.Shell.ResetLoops` | apps/nshlib/nsh_parse.c:1660-1668 | the arrays after a rejected loop keyword |
| `ShellState.Shell.ResetItef` | apps/nshlib/nsh_parse.c:1806-1811 | the arrays after a rejected if keyword |
| `ShellState.Shell.PushLoop` | apps/nshlib/nsh_parse.c:1499-1558 | `while` and `until` on the arrays do what the specified transition says, accepted or not |
| `ShellState.Shell.PopLoop` | apps/nshlib/nsh_parse.c:1583-1643 | `done` on the arrays: the stack is not empty, and the file is moved exactly when the loop is on |
| `ShellState.Shell.HandleLoop` | apps/nshlib/nsh_parse.c:1486-1669 | all loop keywords in place |
| `ShellState.Shell.PushItef` | apps/nshlib/nsh_parse.c:1688-1721 | `if` in place, accepted or not |
| `ShellState.Shell.MoveItef` | apps/nshlib/nsh_parse.c:1726-1802 | `then`, `else`, `fi` and misplaced words in place; `fi` never finds an empty stack |
| `ShellState.Shell.BreakCommand` | apps/nshlib/nsh_parse.c:2299-2322 | `break` in place |
| `ShellState.Shell.RunCommand` | apps/nshlib/nsh_parse.c:473-715 | a command with its result in place |
| `ShellState.Shell.HandleCommand` | apps/nshlib/nsh_parse.c:1998-2166 | a whole command in place is the specified transition on stacks, status, log and result; the file moves only with a jump |
| `ShellState.Shell.ReadWords` | apps/nshlib/nsh_parse.c:1998-2166 | the token loop gives the words of the command |
| `ShellState.Shell.HandleLine` | apps/nshlib/nsh_parse.c:2182-2292 | the line loop with its three pointers gives what the split commands give, run in order up to a failure or jump |
| `ShellState.NextArgument` | apps/nshlib/nsh_parse.c:1257-1402 | the scanning loops find the specified argument |
| `ShellState.Shell.RunNextLine` | apps/nshlib/nsh_script.c:120-145 | one line of a script: position, stacks, status, log, whether it failed and whether the script stops |
| `ShellState.Shell.RunScript` | apps/nshlib/nsh_script.c:107-147 | the script loop is the specified reading of lines; its result is that of the last line, and without ignored failures it succeeds only if a line was read and none failed |
| `ShellExpand.ExpandMeans` | apps/nshlib/nsh_parse.c:1012-1196 | an argument made of literal text, commands in backquotes, `${name}` and `$name` expands to their values in a row; each command is run once, from left to right, each value is the one after the commands before it, and values are not expanded again |
| `ShellExpand.ReadPieces` | apps/nshlib/nsh_parse.c:1012-1196 | every argument begins with such a row of pieces whose commands are exactly the ones run, and is that row unless a quote or brace is unmatched |
| `ShellExpand.UnmatchedExactly` | apps/nshlib/nsh_parse.c:1077-1151 | an argument is reported as unmatched, and is then empty, if and only if no pieces print to it |
| `ShellExpand.ExpandArgument` | apps/nshlib/nsh_parse.c:1012-1196 | the loop that writes NULs into the buffer as it goes ends, gives the expansion of the original text, has run exactly its commands in order, and touches nothing outside the argument |
| `ShellExpand.TakeConstruct` | apps/nshlib/nsh_parse.c:1063-1185 | one construct: the text before it, its value, where it ends and what has been run |
| `ShellExpand.TakeCommand` | apps/nshlib/nsh_parse.c:1063-1111 | a command in backquotes: it is run, and its output after the commands run before; or no closing quote and nothing is run |
| `ShellExpand.TakeVariable` | apps/nshlib/nsh_parse.c:1118-1185 | `${name}` ends at the brace, `$name` takes the rest of the argument |
| `ShellExpand.PlainRoundTrip` | apps/nshlib/nsh_parse.c:1257-1402 | printing a list of commands, reading the line back and expanding each word gives the list again, for words without double quotes, backquotes and dollar signs |
| `ConsoleRedirect.Console.OpenIfNotOpen` | apps/nshlib/nsh_console.c:101-117 | an output without a stream gets one on its descriptor, exactly if that can be opened; one that has a stream keeps it; the result says whether there is one |
| `ConsoleRedirect.Console.WriteText` | apps/nshlib/nsh_console.c:164-229 | a text is written to the descriptor under the stream, which is opened if need be; without a stream nothing is written and the result is a failure |
| `ConsoleRedirect.Console.CloseIfNotClosed` | apps/nshlib/nsh_console.c:129-151 | what is open beyond standard output is closed once, and forgotten |
| `ConsoleRedirect.Console.Redirect` | apps/nshlib/nsh_console.c:346-387 | saves the old output and installs the new descriptor without a stream |
| `ConsoleRedirect.Console.Undirect` | apps/nshlib/nsh_console.c:398-405 | closes the redirected output and restores the saved one; a save area that was never filled loses the output |
| `ConsoleRedirect.Console.ExecuteCommand` | apps/nshlib/nsh_parse.c:686-715 | a foreground command in place: redirect and undirect hang on the flag as it is before and after the command |
| `ConsoleRedirect.Console.Perform` | apps/nshlib/nsh_parse.c:1883-2166 | a line, a timed line or a command parameter in place, with what each does to the flag |
| `ConsoleRedirect.Console.ReleaseArgs` | apps/nshlib/nsh_parse.c:324-353 | the descriptor is closed by the release only if the flag of the clone is set |
| `ConsoleRedirect.RunBackground` | apps/nshlib/nsh_parse.c:562-619 | the background part of the code closes and writes what the specification says, in order |
| `ConsoleRedirect.FlagIs` | apps/nshlib/nsh_parse.c:1998-2166 | what is left of the flag after an action depends on the flag before alone |
| `ConsoleRedirect.Disciplined` | apps/nshlib/nsh_parse.c:686-715 | arbitrarily nested redirections whose commands leave the flag as found obey stack discipline: the output is as before, and each descriptor was closed exactly once, innermost first, whether or not anything was written |
| `ConsoleRedirect.WritesReach` | apps/nshlib/nsh_parse.c:686-715 | in any nest of redirections whose commands leave the flag as found, every write reaches the descriptor of the innermost redirection around it, in order, and the output goes on where it went |
| `ConsoleRedirect.NothingLost` | apps/nshlib/nsh_console.c:101-229 | where streams can be opened, every text is written once and in order |
| `ConsoleRedirect.BackgroundReaches` | apps/nshlib/nsh_parse.c:562-619 | what a redirected background command writes outside redirections of its own goes to its file |
| `ConsoleRedirect.ForegroundExactly` | apps/nshlib/nsh_parse.c:686-715 | exact condition: a foreground command gives the output back if and only if it leaves the redirect flag as it found it; one that clears it leaves its file as the output, one that sets it loses the output |
| `ConsoleRedirect.BackgroundExactly` | apps/nshlib/nsh_parse.c:324-379 | exact condition: a redirected background command closes its descriptor exactly once if and only if it leaves the flag of its clone clear, and twice otherwise |
| `ConsoleRedirect.RedirectedLineSets` | apps/nshlib/nsh_parse.c:2019-2140 | a redirected line leaves the flag set, a plain one clear, and a timed line restores it |
| `PcmFilter.CutIndependent` | nuttx/audio/pcm_decode.c:600-653 | what the sub-sampler passes on does not depend on how the stream is cut into buffers |
| `PcmFilter.KeepsByPosition` | nuttx/audio/pcm_decode.c:506-659 | it keeps exactly the bytes at positions p with p mod (align + drop) < align, and is at the phase of the next position afterwards |
| `PcmFilter.SessionPicks` | nuttx/audio/pcm_decode.c:432-492 | with rate changes on the way, the output is the input at the kept positions |
| `PcmFilter.FramesSurvive` | nuttx/audio/pcm_decode.c:538-593 | through any mixture of buffers and rate changes every kept run is a whole frame that starts at a multiple of the frame size |
| `PcmFilter.StaysProper` | nuttx/audio/pcm_decode.c:600-653 | bytes are never dropped in the middle of a frame |
| `PcmFilter.RateExact` | nuttx/audio/pcm_decode.c:538-538 | exact condition: fast forward keeps one frame in `rate`, for every stream, if and only if the drop between two frames fits the 8-bit counter |
| `PcmFilter.ReloadWholeFrames` | nuttx/audio/pcm_decode.c:538-538 | if the frame size divides 256, a drop cut to 8 bits is still a number of whole frames |
| `PcmFilter.WholeDropsExactly` | nuttx/audio/pcm_decode.c:538-538 | exact condition: every rate drops whole frames if and only if the frame size divides 256 |
| `PcmDecoder.FilterSkip` | nuttx/audio/pcm_decode.c:604-616 | dropping a run at once is dropping it byte by byte |
| `PcmDecoder.FilterFrame` | nuttx/audio/pcm_decode.c:564-593 | completing a frame keeps its bytes and begins the drop |
| `PcmDecoder.FilterShort` | nuttx/audio/pcm_decode.c:549-557 | a buffer smaller than the rest of a frame is kept as a whole |
| `PcmDecoder.CopyDown` | nuttx/audio/pcm_decode.c:641-644 | the byte loop moves the old bytes down in the same array, although the ranges may overlap |
| `PcmDecoder.Decoder.KeepNext` | nuttx/audio/pcm_decode.c:620-652 | the next frame or what there is of it is moved down, the rest of the source is still intact |
| `PcmDecoder.Decoder.Sift` | nuttx/audio/pcm_decode.c:600-653 | the main loop leaves the filtered bytes at the bottom of the array |
| `PcmDecoder.Decoder.FinishFrame` | nuttx/audio/pcm_decode.c:564-593 | the pending frame is completed at the bottom of the array |
| `PcmDecoder.Decoder.FastForward` | nuttx/audio/pcm_decode.c:525-659 | in place in one array, for any start offset, frame size and pending part, the payload becomes its filtered form, or the code overruns the buffer or does not end, exactly as specified |
| `PcmDecoder.Decoder.Subsample` | nuttx/audio/pcm_decode.c:506-659 | the payload of a buffer becomes its sampled form, or stays as it is in normal play |
| `PcmDecoder.Decoder.Configure` | nuttx/audio/pcm_decode.c:432-492 | a change of rate: phase kept in fast forward, cleared when it begins or ends |
| `PcmDecoder.Decoder.EnqueueBuffer` | nuttx/audio/pcm_decode.c:1020-1166 | header consumed once, format taken, payload sampled and passed down, streaming flag set, with all error returns, or the fault by which the call does not come back |
| `PcmDecoder.Decoder.Stop` | nuttx/audio/pcm_decode.c:851-863 | stopping ends streaming and keeps the rest |
| `PcmDecoder.Enqueue` | nuttx/audio/pcm_decode.c:1020-1166 | every state, whatever the header, keeps dropping nothing before a pending frame is complete |
| `PcmDecoder.SetRate` | nuttx/audio/pcm_decode.c:432-492 | a change of rate keeps that invariant |
| `PcmStream.Run` | nuttx/audio/pcm_decode.c:783-1166 | over every sequence of buffers, rate changes and stops, whatever the headers, the invariant of the phase holds |
| `PcmStream.StreamPayload` | nuttx/audio/pcm_decode.c:1020-1166 | of a whole stream the driver gets exactly the bytes after the header, sampled as one piece, however they were cut; if sampling them does not come back, neither does the stream |
| `PcmStream.StreamPositions` | nuttx/audio/pcm_decode.c:1020-1166 | whatever phase is left over, these are the payload bytes at positions p with p mod (align + drop) < align, counted from where the pending frame began or the pending drop ends; in normal play all of them |
| `PcmStream.MiddleSession` | nuttx/audio/pcm_decode.c:432-492 | a stream with rate changes is a session of the filter |
| `PcmStream.StreamFrames` | nuttx/audio/pcm_decode.c:432-492 | with any rate changes on the way whose drops are whole frames, and any frame size, the driver gets whole frames of the payload, in order |
| `PcmStream.StreamingStep` | nuttx/audio/pcm_decode.c:1020-1166 | one call begins, keeps or ends streaming as specified |
| `PcmStream.FramesExactly` | nuttx/audio/pcm_decode.c:538-593 | exact condition: at a rate only whole frames are kept of every stream if and only if the drop is whole frames |
| `PcmStream.StreamingExactly` | nuttx/audio/pcm_decode.c:783-863 | the decoder is streaming if and only if an accepted first buffer that was not final has been followed by no final buffer, stop or shutdown |
| `PcmStream.ShrinkingOverruns` | nuttx/audio/pcm_decode.c:549-575 | a second stream whose frame is at least two bytes smaller than that of the first can make the copy leave the buffer |
| `PcmStream.EmptyHangs` | nuttx/audio/pcm_decode.c:600-653 | a header with frame size zero makes the loop of the sub-sampler never end |
| `PcmStream.FilePlays` | nuttx/audio/pcm_decode.c:1020-1166 | a WAV file written from any format that fits and any samples, cut into buffers in any way with the header in the first, is played as exactly its samples, and the decoder has its five values |
| `PcmStream.SafeExactly` | nuttx/audio/pcm_decode.c:506-659 | exact condition: every run whose headers have frame sizes from a set comes back if and only if none of them is zero and no two differ by more than one |
| `WavHeader.WrittenRead` | nuttx/audio/pcm_decode.c:345-392 | a header written from any sample rate, byte rate, frame size, bit width and channel count that fit, with its chunk names in letters, is valid and read as exactly these five values |
| `WavHeader.HeaderExactly` | nuttx/audio/pcm_decode.c:324-335 | exact condition: a buffer has a valid header of a format if and only if it begins with one written so |
| `WavHeader.HeaderTaken` | nuttx/audio/pcm_decode.c:1020-1166 | a decoder that waits takes every buffer with such a header: it has these five values, hands the bytes after it down, and streams unless the driver refuses them or they are the last |
| `WavHeader.OthersRefused` | nuttx/audio/pcm_decode.c:1020-1166 | and refuses every other buffer, with nothing handed down and nothing changed |
| `WavHeader.ChangedRefused` | nuttx/audio/pcm_decode.c:324-335 | a header in which any byte of a chunk name or of a fixed number is changed, or the upper byte of a field that has to fit 8 bits, is refused |
| `DdCopy.CopiedIsSlice` | apps/nshlib/nsh_ddcmd.c:312-353 | the blocks `dd` is to write are the zero-padded input from byte skip * bs on, at most count * bs bytes |
| `DdCopy.Padded` | apps/nshlib/nsh_ddcmd.c:327-332 | padding adds less than a block of zeros, at the end only |
| `DdCopy.Dd.ReadBlock` | apps/nshlib/nsh_ddcmd.c:140-163 | a block is gathered from any number of short reads: what was read and what is left make up the input |
| `DdCopy.Dd.WriteBlock` | apps/nshlib/nsh_ddcmd.c:109-134 | a block goes out whole in any number of short writes, or a prefix of it if the device fails |
| `DdCopy.Dd.PadBlock` | apps/nshlib/nsh_ddcmd.c:327-332 | the buffer is filled up with zeros behind what was read |
| `DdCopy.Dd.Transfer` | apps/nshlib/nsh_ddcmd.c:312-353 | for every pattern of short reads and writes exactly the chosen blocks are written, and the loop ends; if a device fails, a prefix of them |
| `ModbusMaster.Lookup` | apps/modbus/mb_m.c:338-376 | the entry found is the first with the code and no unused entry precedes it; none is found only if there is none to reach |
| `ModbusMaster.PollConserves` | apps/modbus/mb_m.c:274-436 | a poll neither loses nor adds a completion, makes one callback for each release and does not leave the master in master mode |
| `ModbusMaster.Conservation` | apps/modbus/mb_m.c:274-436 | over every run, completions in the queue plus releases grow exactly with the completing events posted from outside, every release comes with one callback, and the master never stays in master mode |
| `ModbusMaster.DrainedReleases` | apps/modbus/mb_m.c:274-436 | once the queue is empty every received frame and posted error has led to exactly one release |
| `ModbusReports.ReportsTrue` | apps/modbus/mb_m.c:382-430 | over every run in which a failure is posted only when no completing event is pending, and a frame only when none waits or is executed, the success and error callbacks made, and the failure that may still wait, tell exactly how the requests ended, in order |
| `ModbusReports.CarelessMisleads` | apps/modbus/mb_m.c:405-430 | every other run can be given contents with which some report is wrong |
| `ModbusReports.ReportsExactly` | apps/modbus/mb_m.c:382-430 | exact condition: for a schedule of events and polls, the reports are true whatever the contents and however the queue is emptied, if and only if every run of it is of that kind |
| `ModbusMaster.HandlersRun` | apps/modbus/mb_m.c:324-393 | a reply to a broadcast runs the matched handler once for each slave 1..N in order with that destination, an exception reply runs none, any other reply at most one, over every table; the master is left addressed to the slave of the last call |
| `ModbusMaster.FrameTaken` | apps/modbus/mb_m.c:306-409 | over every run, the PDU at hand is the one taken up last: that of a frame received, or the one in the send buffer when a frame is sent or an error is processed |
| `ModbusMaster.Master.FindHandler` | apps/modbus/mb_m.c:338-376 | the table loop finds the specified entry |
| `ModbusMaster.Master.RunForAll` | apps/modbus/mb_m.c:354-365 | the broadcast loop makes the calls for all slaves in order and leaves the last one as destination |
| `ModbusMaster.Master.ExecuteReply` | apps/modbus/mb_m.c:324-377 | executing a reply makes the specified calls, raises the specified exception and leaves master mode |
| `ModbusMaster.Master.PollOnce` | apps/modbus/mb_m.c:273-430 | the poll function is the specified transition of the whole state |
| `ModbusTable.Register` | apps/modbus/mb.c:243-290 | registering and removing keep code and handler of an entry present or absent together |
| `ModbusTable.RegisterExactly` | apps/modbus/mb.c:243-262 | exact conditions: a handler is refused if and only if the code is out of range, or the table has neither room for it nor the handler itself; otherwise the first entry that is free or holds it has the new code and this handler, and nothing else changes |
| `ModbusTable.RemoveExactly` | apps/modbus/mb.c:264-278 | a removal in range never fails, empties the first entry with the code, and changes nothing else |
| `ModbusTable.DispatchReach` | apps/modbus/mb.c:398-411 | dispatch reaches exactly the codes before the first hole and takes the first entry of a code |
| `ModbusTable.CompactDispatches` | apps/modbus/mb.c:398-411 | in a compact table every registered code is dispatched, to its first entry |
| `ModbusTable.RegisterKeepsCompact` | apps/modbus/mb.c:250-262 | a registration keeps a compact table compact |
| `ModbusTable.RegistrationsDispatch` | apps/modbus/mb.c:243-290 | in any run of registrations the table stays compact and every code in it not hidden by an earlier entry is dispatched |
| `ModbusTable.RemovalCutsOff` | apps/modbus/mb.c:264-278 | a removal cuts dispatch off at the removed entry and changes no other entry |
| `ModbusTable.FreshFillsHole` | apps/modbus/mb.c:250-262 | a handler not in the table fills the lowest hole, and dispatch reaches further |
| `ModbusTable.FreshRestoreCompact` | apps/modbus/mb.c:250-262 | as many new handlers as there are entries behind the first hole make the table compact again |
| `ModbusTable.Slave.RegisterHandler` | apps/modbus/mb.c:243-290 | the loops over the array register and remove as specified, with the specified status |
| `ModbusTable.Slave.FindHandler` | apps/modbus/mb.c:398-411 | the dispatch loop finds the specified handler |
| `ArgvCopy.RegionsTile` | nuttx/binfmt/binfmt_copyargv.c:126-151 | the string regions follow each other without gap or overlap, begin right behind four bytes for each pointer and its terminator, and end with the allocation |
| `ArgvCopy.Binary.Measure` | nuttx/binfmt/binfmt_copyargv.c:98-120 | the count is refused exactly when it exceeds the limit, else the bytes are summed up |
| `ArgvCopy.Binary.PutString` | nuttx/binfmt/binfmt_copyargv.c:143-145 | one string with its terminator is in place and nothing else has changed |
| `ArgvCopy.Binary.PutAll` | nuttx/binfmt/binfmt_copyargv.c:136-146 | all strings are in place, each at its pointer |
| `ArgvCopy.Binary.CopyArgv` | nuttx/binfmt/binfmt_copyargv.c:98-151 | lists of more than 256 strings are refused before any allocation; for others every pointer leads to a copy of its string, the list ends in a null pointer, and one allocation of exactly the needed size holds it all |
| `Hexdump.Hexdumper.DumpFile` | apps/nshlib/nsh_dbgcmds.c:417-495 | for every pattern of short reads the dumps hold exactly the bytes skip to min(skip + count, size), once each and in order, each dump labelled with its true offset; a failing read leaves a prefix |
| `Hexdump.Hexdumper.ShowPart` | apps/nshlib/nsh_dbgcmds.c:433-489 | a piece of the buffer that is dumped continues what has been dumped so far |
| `Hexdump.Hexdumper.DumpBuffer` | apps/nshlib/nsh_dbgcmds.c:300-336 | a dump has its offset, its bytes and the lines that show them |
| `Hexdump.FormatLine` | apps/nshlib/nsh_dbgcmds.c:308-335 | the line built up in place is the specified line, and no write leaves the 128 characters |
| `Hexdump.FormatLines` | apps/nshlib/nsh_dbgcmds.c:306-336 | the line loop shows all bytes, sixteen a line |
| `Hexdump.LineFits` | apps/nshlib/nsh_dbgcmds.c:302-302 | a formatted line with its terminator fits the buffer |
| `Hexdump.HexBack` | apps/nshlib/nsh_dbgcmds.c:308-318 | reading the digits of a number back gives the number, whatever the width |
| `Hexdump.LineShows` | apps/nshlib/nsh_dbgcmds.c:308-331 | a line begins with digits that spell its offset, and every byte is shown by two digits that spell its value and as a character, each in its own column |
| `Hexdump.LineBlanks` | apps/nshlib/nsh_dbgcmds.c:312-322 | every byte is followed by a blank, and the columns without a byte are blank |
| `Hexdump.PrintedIs` | apps/nshlib/nsh_dbgcmds.c:331-331 | a byte is shown by its character in the chart of ASCII, and by a dot if it has none there |
| `Hexdump.EveryByteShown` | apps/nshlib/nsh_dbgcmds.c:306-335 | a dump shows every byte: byte p is on line p / 16, under the offset of that line, in digits and as a character in column p mod 16 |
| `Hexdump.LineCount` | apps/nshlib/nsh_dbgcmds.c:306-336 | and it has no more lines than its bytes fill |

## Left out

- ShellBreak.SoundExactly: leaves out scripts in which a `break` of an outer loop that stands inside an `if` follows the loop with the first misplaced `break`, where the outer `break` may set the if index right again; there the condition is sufficient (`Refinement`) and shown not to be necessary (`RepairedAgrees`), and no exact one is given.
- ShellBreak.SoundExactly: is about scripts that stop at their first failure; when failures are ignored the condition is sufficient (`Refinement`), and the exact behaviour is given for one loop with a misplaced `break` only (`IgnoredExactly`, `IgnoredHides`).
- ShellBreak.Disagrees: leaves out the same scripts.
- ShellSeek.SeekExactly: says nothing about commands with a comment sign in a quoted string, where the seek may land (`SeekByChance`); and it is about single commands, not about what becomes of a whole script.
- ShellShape.BegunExactly: leaves out lines with a `break`, and lines that come to an `else` or `done` before a plain command, which may hide what follows (`ElseHides`); it starts where all `if`s and loops around are on.
- ShellLayout.TextMeansTree: requires lines that fit the line buffer, closed quotes, no quoted string in a loop command, and, when failures are ignored, no plain command followed by another on its line.
- ShellPrinted.WrittenMeans: has the conditions of `TextMeansTree`, and a bare word on a line holds no double quote, semicolon or comment sign.
- ShellPrinted.PrintedIsWritten: words that hold a double quote, a newline or an unpaired backquote cannot be written, and those of a loop condition have to do without quotes.
- ShellParser.Execute: does not separate redirection from the arguments, and takes the result of the command from the oracle.
- ShellState.Shell.RunCommand: the same, on the arrays.
- ShellState.Shell.HandleCommand: the same, for a whole command.
- ShellText.RoundTrip: is about words before their expansion; `PlainRoundTrip` goes on to the expanded words.
- ShellText.ReadWords: is about words before their expansion.
- ShellState.NextArgument: finds the argument and does not expand it, which `ExpandArgument` does.
- ShellState.Shell.ReadWords: gives the raw words; the script layer does not expand arguments, `ExpandArgument` does that for one argument.
- ShellState.Shell.RunScript: runs at most a given number of lines, since a script need not end; `EnoughLines` says when that is enough.
- The limit on the number of arguments of one command.
- Nested `sh` scripts and interactive sessions, which share the line buffer and the offsets with their caller.
- ConsoleRedirect.WritesReach: is about commands that leave the flag as found, and takes a write to an open stream to succeed.
- ConsoleRedirect.Disciplined: is about descriptors other than standard output, and about commands that leave the flag as found; the other two cases are `ForegroundExactly` and `BackgroundExactly`.
- The temporary file of a command parameter, beyond its descriptor.
- Allocation failures and failures to start a background thread.
- ShellExpand.ExpandArgument: models the variant with argument concatenation, command parameters and environment, without allocation failures.
- PcmDecoder.Decoder.EnqueueBuffer: after a fault, by which the code overruns the buffer or does not come back, nothing is said of the state.
- PcmStream.StreamFrames: is about streams that begin at the start of a frame; `StreamPositions` is about any left-over phase.
- The big-endian conversion of WAV headers, other decoder calls that are only passed on, and buffer callbacks.
- DdCopy.Dd.Transfer: counts sectors without the 32-bit bound, and takes a write to transfer at least one byte, as a write of nothing would not end the loop.
- ModbusMaster.Conservation: takes the event queue as lossless, which a real port need not be.
- Modbus framing, checksums and timers, the replies of the slave, and the lifecycle calls beyond enabling and disabling.
- ConsoleRedirect.RunBackground: the clone is one object here; that it is allocated and freed once is not modelled.
- ArgvCopy.Binary.CopyArgv: pointers are offsets into the allocation, of 4 bytes each; the bytes of the pointers themselves are not modelled, and allocation succeeds.
- Hexdump.Hexdumper.DumpFile: the text of a heading is its offset; file names and the 32 characters of the heading are not modelled, and skip and count are not negative.
- `cp` and `cat`, whose copy loops are right for full writes only.
- Codec, network, mount, login and USB commands, help, and the thin wrappers around built-in applications.
