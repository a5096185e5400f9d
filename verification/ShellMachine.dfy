/**
 The shell as a flat machine: a list of located commands, a current index, and the
 parser's two stacks. A `done` moves the index back by seeking to a file position.
 */
module ShellMachine {
  import opened Options
  import opened ShellParser

  datatype Located = Located(at: int, words: Words)

  datatype Machine = Machine(code: seq<Located>, world: World, ignore: bool) {
    /** Later commands have larger file positions. */
    predicate Ordered() {
      forall j, k :: 0 <= j < k < |code| ==> code[j].at < code[k].at
    }
  }

  datatype Config = Config(p: Parser, i: nat, log: Log, halted: bool) {
    predicate Running(m: Machine) {
      !halted && i < |m.code|
    }
  }

  // ----- Any commands at all, well-formed or not -----

  lemma ScanLoopKeepsDepth(p: Parser, words: Words, here: int)
    requires p.Valid()
    ensures |ScanLoop(p, words, here).p.lp| == |p.lp|
  {
    hide TokenOf;
  }

  lemma ScanItefKeepsDepth(p: Parser, words: Words)
    requires p.Valid()
    ensures |ScanItef(p, words).p.lp| == |p.lp|
  {
    hide TokenOf;
  }

  lemma ExecuteKeepsDepth(p: Parser, argv: Words, here: int, world: World, log: Log)
    requires p.Valid() && argv != []
    ensures |Execute(p, argv, here, world, log).p.lp| == |p.lp|
  {
    hide TokenOf;
  }

  lemma ParseKeepsDepth(p: Parser, words: Words, here: int, world: World, log: Log)
    requires p.Valid()
    ensures |ParseCommand(p, words, here, world, log).p.lp| == |p.lp|
  {
    hide TokenOf, ScanLoop, ScanItef, Execute;
    var a := ScanLoop(p, words, here);
    var b := ScanItef(a.p, a.words);
    ScanLoopKeepsDepth(p, words, here);
    ScanItefKeepsDepth(a.p, a.words);
    if b.words != [] {
      ExecuteKeepsDepth(b.p, b.words, here, world, log);
    }
  }

  /** Runs a list of commands one after the other, whatever they are and however they end. */
  function RunAll(p: Parser, cmds: seq<Located>, world: World, log: Log): (r: Outcome)
    requires p.Valid()
    ensures r.p.Valid()
    decreases |cmds|
  {
    if cmds == [] then Outcome(p, log, true) else
      var out := ParseCommand(p, cmds[0].words, cmds[0].at, world, log);
      RunAll(out.p, cmds[1..], world, out.log)
  }

  /**
   Over every sequence of commands, also malformed ones, both stack indices stay within the
   depth, slot 0 of each stack stays normal, all loop slots strictly below the top are in
   their bodies, and neither internal-error branch (a `done` or `fi` that is accepted with
   nothing to pop) can be reached.
   */
  lemma {:induction false} StacksStayInBounds(p: Parser, cmds: seq<Located>, world: World, log: Log)
    requires p.Valid()
    ensures var q := RunAll(p, cmds, world, log).p;
            && |q.lp| == |q.ie| == |p.lp| && q.lpndx < |p.lp| && q.iendx < |p.lp|
            && q.lp[0].state == LoopNormal && q.ie[0].state == ItefNormal
            && (forall k :: 0 < k < q.lpndx ==> q.lp[k].state == LoopDo)
            && (q.LoopTop().state == LoopDo ==> q.lpndx >= 1)
            && (q.ItefTop().state == ItefThen || q.ItefTop().state == ItefElse ==> q.iendx >= 1)
    decreases |cmds|
  {
    hide ParseCommand;
    if cmds != [] {
      ParseKeepsDepth(p, cmds[0].words, cmds[0].at, world, log);
      var out := ParseCommand(p, cmds[0].words, cmds[0].at, world, log);
      StacksStayInBounds(out.p, cmds[1..], world, out.log);
    }
  }

  /** The first command at or after a file position. */
  function Find(code: seq<Located>, target: int, from: nat): (k: nat)
    requires from <= |code|
    ensures from <= k <= |code|
    decreases |code| - from
  {
    if from == |code| || code[from].at >= target then from else Find(code, target, from + 1)
  }

  function Step(m: Machine, c: Config): (r: Config)
    requires c.p.Valid() && c.i <= |m.code|
    ensures r.p.Valid() && r.i <= |m.code|
  {
    if !c.Running(m) then c else
      var cmd := m.code[c.i];
      var out := ParseCommand(c.p.(jump := None), cmd.words, cmd.at, m.world, c.log);
      if !out.ok && !m.ignore then
        Config(out.p.(jump := None), c.i, out.log, true)
      else
        var next := if out.p.jump.Some? then Find(m.code, out.p.jump.value, 0) else c.i + 1;
        Config(out.p.(jump := None), next, out.log, false)
  }

  function Steps(m: Machine, c: Config, n: nat): (r: Config)
    requires c.p.Valid() && c.i <= |m.code|
    ensures r.p.Valid() && r.i <= |m.code|
    decreases n
  {
    if n == 0 then c else Steps(m, Step(m, c), n - 1)
  }

  lemma {:induction false} StepsAdd(m: Machine, c: Config, a: nat, b: nat)
    requires c.p.Valid() && c.i <= |m.code|
    ensures Steps(m, Steps(m, c, a), b) == Steps(m, c, a + b)
    decreases a
  {
    hide Step;
    if a > 0 {
      StepsAdd(m, Step(m, c), a - 1, b);
    }
  }

  lemma {:induction false} StepsAtRest(m: Machine, c: Config, n: nat)
    requires c.p.Valid() && c.i <= |m.code| && !c.Running(m)
    ensures Steps(m, c, n) == c
  {
    if n > 0 {
      StepsAtRest(m, c, n - 1);
    }
  }

  /** A seek to the position of a command finds that command. */
  lemma {:induction false} FindExact(m: Machine, k: nat, from: nat)
    requires m.Ordered() && from <= k < |m.code|
    ensures Find(m.code, m.code[k].at, from) == k
    decreases k - from
  {
    if from < k {
      FindExact(m, k, from + 1);
    }
  }

  lemma StepLogGrows(m: Machine, c: Config)
    requires c.p.Valid() && c.i <= |m.code|
    ensures c.log <= Step(m, c).log
  {
  }

  /** The log only ever grows. */
  lemma {:induction false} LogGrows(m: Machine, c: Config, n: nat)
    requires c.p.Valid() && c.i <= |m.code|
    ensures c.log <= Steps(m, c, n).log
    decreases n
  {
    hide Step;
    if n > 0 {
      StepLogGrows(m, c);
      LogGrows(m, Step(m, c), n - 1);
    }
  }

  // ----- Where the commands of a log stand -----

  /** Nothing at this position has run. */
  ghost predicate Absent(log: Log, at: int) {
    forall e :: e in log ==> e.at != at
  }

  lemma AbsentNext(m: Machine, log: Log, i: nat, argv: Words, q: nat)
    requires m.Ordered() && i < |m.code| && q < |m.code| && i != q && Absent(log, m.code[q].at)
    ensures Absent(log + [Event(m.code[i].at, argv)], m.code[q].at)
  {
  }

  /** No command from index `i` on has run. */
  ghost predicate Unseen(m: Machine, log: Log, i: nat) {
    forall q :: i <= q < |m.code| ==> Absent(log, m.code[q].at)
  }

  lemma UnseenNext(m: Machine, log: Log, i: nat, argv: Words)
    requires m.Ordered() && i < |m.code| && Unseen(m, log, i)
    ensures Unseen(m, log + [Event(m.code[i].at, argv)], i + 1)
  {
    hide Absent;
    forall q | i + 1 <= q < |m.code| ensures Absent(log + [Event(m.code[i].at, argv)], m.code[q].at) {
      AbsentNext(m, log, i, argv, q);
    }
  }

  lemma UnseenLater(m: Machine, log: Log, i: nat, j: nat)
    requires Unseen(m, log, i) && i <= j
    ensures Unseen(m, log, j)
  {
    hide Absent;
  }
}
