/**
 Whole scripts: the flat machine and the structured meaning agree.
 */
module ShellScriptMeaning {
  import opened ShellParser
  import opened ShellTree
  import opened ShellMachine
  import opened ShellRefinement

  /** `m` runs the flat form of `s`, and the nesting fits the parser's stacks. */
  ghost predicate RunsScript(m: Machine, s: Stmt, depth: nat) {
    && m.Ordered() && WellFormed(s)
    && |m.code| == Size(s) && Holds(m, 0, Flat(s))
    && IfDepth(s) < depth && LoopDepth(s) < depth
  }

  function Init(depth: nat): Config
    requires 0 < depth
  {
    Config(Fresh(depth), 0, [], false)
  }

  ghost function After(m: Machine, depth: nat, n: nat): Config
    requires 0 < depth
  {
    Steps(m, Init(depth), n)
  }

  ghost function TreeRun(m: Machine, s: Stmt, fuel: nat): Result
    requires |m.code| == Size(s)
  {
    Eval(EnvOf(m), s, 0, false, [], false, fuel)
  }

  /** How a script ends: what it ran, its last status, and whether a failure stopped it. */
  datatype End = End(log: Log, fail: bool, stopped: bool)

  ghost predicate MachineEnds(m: Machine, depth: nat, end: End)
    requires 0 < depth
  {
    exists n: nat ::
      var c := After(m, depth, n);
      !c.Running(m) && end == End(c.log, c.p.fail, c.halted)
  }

  ghost predicate TreeEnds(m: Machine, s: Stmt, end: End)
    requires |m.code| == Size(s)
  {
    exists fuel: nat ::
      var r := TreeRun(m, s, fuel);
      (r.Normal? && end == End(r.log, r.fail, false)) || (r.Stopped? && end == End(r.log, true, true))
  }

  ghost predicate MachineRuns(m: Machine, depth: nat, log: Log)
    requires 0 < depth
  {
    exists n: nat :: log <= After(m, depth, n).log
  }

  ghost predicate TreeRuns(m: Machine, s: Stmt, log: Log)
    requires |m.code| == Size(s)
  {
    exists fuel: nat :: log <= TreeRun(m, s, fuel).log
  }

  /**
   Machine and tree agree: they end in the same ways, and whatever one has run at
   some time (also when the script never ends), the other runs too, in the same order.
   */
  ghost predicate Agrees(m: Machine, s: Stmt, depth: nat)
    requires 0 < depth && |m.code| == Size(s)
  {
    && (forall end :: MachineEnds(m, depth, end) <==> TreeEnds(m, s, end))
    && (forall log :: MachineRuns(m, depth, log) <==> TreeRuns(m, s, log))
  }

  /** After `n` steps the machine is where the tree is with this fuel. */
  ghost predicate Tracks(m: Machine, s: Stmt, depth: nat, fuel: nat, n: nat)
    requires 0 < depth && |m.code| == Size(s)
  {
    var c := After(m, depth, n);
    var r := TreeRun(m, s, fuel);
    && c.log == r.log && !r.Broke?
    && (r.Normal? ==> !c.Running(m) && !c.halted && c.p.fail == r.fail)
    && (r.Stopped? ==> c.halted && c.p.fail)
    && (r.Timeout? ==> c.Running(m) && n >= fuel)
  }

  ghost predicate Caught(m: Machine, s: Stmt, depth: nat, fuel: nat)
    requires 0 < depth && |m.code| == Size(s)
  {
    exists n: nat :: Tracks(m, s, depth, fuel, n)
  }

  /** However far the tree is followed, the machine gets there. */
  ghost predicate Tracked(m: Machine, s: Stmt, depth: nat)
    requires 0 < depth && |m.code| == Size(s)
  {
    forall fuel: nat :: Caught(m, s, depth, fuel)
  }

  /** What the simulation says about a whole script. */
  lemma Follow(m: Machine, s: Stmt, depth: nat, fuel: nat) returns (n: nat)
    requires RunsScript(m, s, depth) && BreaksPlaced(s, Top) && LoopsSeparated(s, Top)
    ensures Tracks(m, s, depth, fuel, n)
  {
    hide Step, Steps, Flat, Eval, WellFormed, BreaksPlaced, LoopsSeparated, Holds;
    var r;
    r, n := Simulates(m, s, Init(depth), Top, fuel);
  }

  /** Once the machine is at rest, time changes nothing. */
  lemma RestIsFinal(m: Machine, depth: nat, a: nat, b: nat)
    requires 0 < depth && !After(m, depth, a).Running(m) && a <= b
    ensures After(m, depth, b) == After(m, depth, a)
  {
    hide Step, Steps;
    StepsAdd(m, Init(depth), a, b - a);
    StepsAtRest(m, After(m, depth, a), b - a);
  }

  lemma LogOverTime(m: Machine, depth: nat, a: nat, b: nat)
    requires 0 < depth && a <= b
    ensures After(m, depth, a).log <= After(m, depth, b).log
  {
    hide Step, Steps;
    StepsAdd(m, Init(depth), a, b - a);
    LogGrows(m, After(m, depth, a), b - a);
  }

  lemma TreeEndIsMachineEnd(m: Machine, s: Stmt, depth: nat, end: End)
    requires 0 < depth && |m.code| == Size(s) && Tracked(m, s, depth)
    requires TreeEnds(m, s, end)
    ensures MachineEnds(m, depth, end)
  {
    hide Step, Steps, Flat, Eval, Fresh;
    var fuel: nat :| var r := TreeRun(m, s, fuel);
      (r.Normal? && end == End(r.log, r.fail, false)) || (r.Stopped? && end == End(r.log, true, true));
    assert Caught(m, s, depth, fuel);
    var n: nat :| Tracks(m, s, depth, fuel, n);
    assert !After(m, depth, n).Running(m);
  }

  lemma MachineEndIsTreeEnd(m: Machine, s: Stmt, depth: nat, end: End)
    requires 0 < depth && |m.code| == Size(s) && Tracked(m, s, depth)
    requires MachineEnds(m, depth, end)
    ensures TreeEnds(m, s, end)
  {
    hide Step, Steps, Flat, Eval, Fresh;
    var n: nat :| var c := After(m, depth, n); !c.Running(m) && end == End(c.log, c.p.fail, c.halted);
    assert Caught(m, s, depth, n);
    var k: nat :| Tracks(m, s, depth, n, k);
    if k <= n {
      if !After(m, depth, k).Running(m) {
        RestIsFinal(m, depth, k, n);
      }
    } else {
      RestIsFinal(m, depth, n, k);
    }
    var r := TreeRun(m, s, n);
    assert (r.Normal? && end == End(r.log, r.fail, false)) || (r.Stopped? && end == End(r.log, true, true));
  }

  lemma MachineLogIsTreeLog(m: Machine, s: Stmt, depth: nat, n: nat) returns (fuel: nat)
    requires 0 < depth && |m.code| == Size(s) && Tracked(m, s, depth)
    ensures After(m, depth, n).log <= TreeRun(m, s, fuel).log
  {
    hide Step, Steps, Flat, Eval, Fresh;
    fuel := n;
    assert Caught(m, s, depth, fuel);
    var k: nat :| Tracks(m, s, depth, fuel, k);
    if k < n {
      RestIsFinal(m, depth, k, n);
    } else {
      LogOverTime(m, depth, n, k);
    }
  }

  lemma TrackedAgrees(m: Machine, s: Stmt, depth: nat)
    requires 0 < depth && |m.code| == Size(s) && Tracked(m, s, depth)
    ensures Agrees(m, s, depth)
  {
    hide Step, Steps, Flat, Eval, Fresh, MachineEnds, TreeEnds;
    forall end ensures MachineEnds(m, depth, end) <==> TreeEnds(m, s, end) {
      if MachineEnds(m, depth, end) {
        MachineEndIsTreeEnd(m, s, depth, end);
      }
      if TreeEnds(m, s, end) {
        TreeEndIsMachineEnd(m, s, depth, end);
      }
    }
    forall log ensures MachineRuns(m, depth, log) <==> TreeRuns(m, s, log) {
      if MachineRuns(m, depth, log) {
        var n: nat :| log <= After(m, depth, n).log;
        var fuel := MachineLogIsTreeLog(m, s, depth, n);
        assert log <= TreeRun(m, s, fuel).log;
      }
      if TreeRuns(m, s, log) {
        var fuel: nat :| log <= TreeRun(m, s, fuel).log;
        assert Caught(m, s, depth, fuel);
        var n: nat :| Tracks(m, s, depth, fuel, n);
        assert log <= After(m, depth, n).log;
      }
    }
  }

  /**
   Main result: for every well-nested script within the depth limit, with loops separated
   by an `if` and `break` only at its loop's own level, and for every world, the flat
   machine and the structured meaning agree.
   */
  lemma Refinement(m: Machine, s: Stmt, depth: nat)
    requires RunsScript(m, s, depth) && BreaksPlaced(s, Top) && LoopsSeparated(s, Top)
    ensures Agrees(m, s, depth)
  {
    hide Agrees, Tracks, BreaksPlaced, LoopsSeparated, Flat, WellFormed, Holds, IfDepth, LoopDepth;
    forall fuel: nat ensures Caught(m, s, depth, fuel) {
      var n := Follow(m, s, depth, fuel);
    }
    TrackedAgrees(m, s, depth);
  }
}
