/**
 The shell's own code and the meaning of scripts: what the shell has done with a script file
 when it comes back is what the tree says.
 */
module ShellRun {
  import opened ShellParser
  import opened ShellFile
  import opened ShellTree
  import opened ShellScriptMeaning
  import opened ShellLayout
  import opened ShellPrinted
  import opened ShellState
  import opened ShellStatus

  /**
   A new shell runs a script file for at most `lines` lines. What it has run by then, the tree
   runs too; and once it is done, it ends as the tree does.
   */
  method RunFile(s: Script, depth: nat, lines: nat, ghost t: Stmt)
    returns (done: bool, log: Log, fail: bool, stopped: bool)
    requires Sound(s, t, depth)
    ensures TreeRuns(MachineOf(s), t, log)
    ensures done ==> TreeEnds(MachineOf(s), t, End(log, fail, stopped))
    ensures done <==> AtRest(s, ReadLines(s, Opened(depth), lines))
  {
    hide Tidy, ReadLines, TreeRuns, TreeEnds, Flat, WellFormed, BreaksPlaced, LoopsSeparated, Spells, MachineOf;
    var shell := new Shell(depth, s.world);
    var ok;
    ok, stopped := shell.RunScript(s, lines);
    done, log, fail := stopped || shell.position == |s.file|, shell.log, shell.fail;
    TextMeansTree(s, t, depth);
    ghost var r := ReadLines(s, Opened(depth), lines);
    assert r.log == log && r.p.fail == fail && r.stopped == stopped && r.pos == shell.position;
    assert log <= r.log;
    assert TextRuns(s, depth, log);
    assert done ==> TextEnds(s, depth, End(log, fail, stopped));
  }

  /**
   The same for the text of a tree, as the shell's own words and letters: a shell that is given the
   printed script ends as the tree does.
   */
  method RunPrinted(s: Script, depth: nat, lines: nat, ghost t: Stmt)
    returns (done: bool, log: Log, fail: bool, stopped: bool)
    requires PrintedIn(s, t) && Safe(t, depth)
    ensures |MachineOf(s).code| == Size(t) && 0 < depth
    ensures TreeRuns(MachineOf(s), t, log)
    ensures done ==> TreeEnds(MachineOf(s), t, End(log, fail, stopped))
    ensures done <==> AtRest(s, ReadLines(s, Opened(depth), lines))
  {
    hide PrintedIn, Safe, Sound, TreeRuns, TreeEnds, MachineOf, ReadLines;
    PrintedIsWritten(s, t, depth);
    SoundIs(s, t, depth);
    done, log, fail, stopped := RunFile(s, depth, lines, t);
  }

  /** When the tree ends, some number of lines is enough. */
  lemma EnoughLines(s: Script, t: Stmt, depth: nat, end: End) returns (lines: nat)
    requires Sound(s, t, depth) && TreeEnds(MachineOf(s), t, end)
    ensures AtRest(s, ReadLines(s, Opened(depth), lines))
  {
    hide Tidy, ReadLines, TreeEnds, Flat, WellFormed, BreaksPlaced, LoopsSeparated, Spells, MachineOf;
    TextMeansTree(s, t, depth);
    assert TextEnds(s, depth, end);
    lines :| AtRest(s, ReadLines(s, Opened(depth), lines));
  }

  /** A script file that stops at its first failure ends as the standard says, status included. */
  lemma TextIsPosix(s: Script, t: Stmt, depth: nat, end: End)
    requires Sound(s, t, depth) && !s.ignore
    ensures TextEnds(s, depth, end) <==> PosixEnds(MachineOf(s), t, end)
  {
    hide Tidy, TreeEnds, TextEnds, PosixEnds, Flat, WellFormed, BreaksPlaced, LoopsSeparated;
    TextMeansTree(s, t, depth);
    StoppingIsPosix(MachineOf(s), t, end);
  }
}
