/**
 The converse of the refinement: a script that has a loop straight in the body of another
 (where it can matter) is run differently from its tree by some world.

 The world is built by following the script to its first such loop: loops on the way are
 skipped or entered as needed, and the loop around the culprit is left at once. The parser
 then passes over the disabled body, but runs the condition of the culprit all the same.
 */
module ShellExactness {
  import opened ShellParser
  import opened ShellTree
  import opened ShellMachine
  import opened ShellRefinement
  import opened ShellScriptMeaning

  /** The world in which exactly the commands with these indices fail. */
  ghost function Failing(code: seq<Located>, fails: set<nat>): World {
    var places := set k | k in fails && k < |code| :: code[k].at;
    (log: Log) => log != [] && log[|log| - 1].at in places
  }

  lemma FailsAt(m: Machine, fails: set<nat>, log: Log, k: nat, argv: Words)
    requires m.Ordered() && k < |m.code| && m.world == Failing(m.code, fails)
    ensures m.world(log + [Event(m.code[k].at, argv)]) <==> k in fails
  {
    var places := set j | j in fails && j < |m.code| :: m.code[j].at;
    if m.code[k].at in places {
      var j :| j in fails && j < |m.code| && m.code[j].at == m.code[k].at;
      assert j == k;
    }
  }

  /** The failures that make a statement run through without entering a loop. */
  function Quiet(s: Stmt, i: nat): (fails: set<nat>)
    ensures forall k :: k in fails ==> i <= k < i + Size(s)
  {
    match s
    case Seq(a, b) => Quiet(a, i) + Quiet(b, i + Size(a))
    case Cond(_, t, _) => Quiet(t, i + 2)
    case Loop(until, _, _) => if until then {} else {i}
    case _ => {}
  }

  /** Looking for a misplaced loop: none straight in a body, that is found one level up. */
  predicate Faulty(s: Stmt, place: Place) {
    !LoopsSeparated(s, place) && (place == Body ==> NoDirectLoop(s))
  }

  /** The failures that lead a run to the first misplaced loop. */
  function Steer(s: Stmt, i: nat, place: Place): (fails: set<nat>)
    requires Faulty(s, place)
    ensures forall k :: k in fails ==> i <= k < i + Size(s)
  {
    match s
    case Seq(a, b) =>
      if !LoopsSeparated(a, place) then Steer(a, i, place) else Quiet(a, i) + Steer(b, i + Size(a), place)
    case Cond(_, t, e) =>
      if !LoopsSeparated(t, InIf(place)) then Steer(t, i + 2, InIf(place))
      else
        assert LoopsSeparated(Skip, InIf(place)) && |FlatElse(e)| == 1 + Size(e);
        {i} + Steer(e, i + 3 + Size(t), InIf(place))
    case Loop(until, _, b) =>
      if NoDirectLoop(b) then (if until then {i} else {}) + Steer(b, i + 2, Body)
      else if until then {} else {i}
  }

  function FirstLoop(s: Stmt, i: nat): (k: nat)
    requires !NoDirectLoop(s)
    ensures i <= k < i + Size(s)
  {
    match s
    case Seq(a, b) => if NoDirectLoop(a) then FirstLoop(b, i + Size(a)) else FirstLoop(a, i)
    case Loop(_, _, _) => i
  }

  /** The index of the first misplaced loop. */
  function Culprit(s: Stmt, i: nat, place: Place): (k: nat)
    requires Faulty(s, place)
    ensures i < k < i + Size(s) || (s.Seq? && i <= k < i + Size(s))
  {
    match s
    case Seq(a, b) =>
      if !LoopsSeparated(a, place) then Culprit(a, i, place) else Culprit(b, i + Size(a), place)
    case Cond(_, t, e) =>
      if !LoopsSeparated(t, InIf(place)) then Culprit(t, i + 2, InIf(place))
      else
        assert LoopsSeparated(Skip, InIf(place)) && |FlatElse(e)| == 1 + Size(e);
        Culprit(e, i + 3 + Size(t), InIf(place))
    case Loop(_, _, b) =>
      if NoDirectLoop(b) then Culprit(b, i + 2, Body) else FirstLoop(b, i + 2)
  }

  ghost predicate EndsAt(log: Log, at: int) {
    log != [] && log[|log| - 1].at == at
  }

  // ----- The tree does not run the culprit -----

  /** A tree runs only its own commands. */
  lemma {:induction false} RunsOwn(m: Machine, s: Stmt, i: nat, inLoop: bool, log: Log, fail: bool, fuel: nat, q: nat)
    requires m.Ordered() && i + Size(s) <= |m.code| && q < |m.code|
    requires !(i <= q < i + Size(s)) && Absent(log, m.code[q].at)
    ensures Absent(Eval(EnvOf(m), s, i, inLoop, log, fail, fuel).log, m.code[q].at)
    decreases fuel, s
  {
    hide Absent, Flat, FlatElse, Eval;
    SizeOf(s);
    match s
    case Seq(a, b) =>
      EvalSeq(EnvOf(m), s, i, inLoop, log, fail, fuel);
      RunsOwn(m, a, i, inLoop, log, fail, fuel, q);
      var r := Eval(EnvOf(m), a, i, inLoop, log, fail, fuel);
      if r.Normal? {
        RunsOwn(m, b, i + Size(a), inLoop, r.log, r.fail, fuel, q);
      }
    case Cond(cond, t, e) =>
      EvalCond(EnvOf(m), s, i, inLoop, log, fail, fuel);
      AbsentNext(m, log, i, cond, q);
      var log' := log + [Event(m.code[i].at, cond)];
      if !m.world(log') {
        RunsOwn(m, t, i + 2, inLoop, log', false, fuel, q);
      } else if !e.Skip? {
        RunsOwn(m, e, i + 3 + Size(t), inLoop, log', false, fuel, q);
      }
    case Loop(until, cond, b) =>
      EvalLoop(EnvOf(m), s, i, inLoop, log, fail, fuel);
      AbsentNext(m, log, i, cond, q);
      var log' := log + [Event(m.code[i].at, cond)];
      if fuel > 0 && m.world(log') == until {
        RunsOwn(m, b, i + 2, true, log', false, fuel, q);
        var r := Eval(EnvOf(m), b, i + 2, true, log', false, fuel);
        if r.Normal? {
          RunsOwn(m, s, i, inLoop, r.log, r.fail, fuel - 1, q);
        }
      }
    case _ =>
      RunsOwnLeaf(m, s, i, inLoop, log, fail, fuel, q);
  }

  lemma RunsOwnLeaf(m: Machine, s: Stmt, i: nat, inLoop: bool, log: Log, fail: bool, fuel: nat, q: nat)
    requires s.Skip? || s.Cmd? || s.BreakOut?
    requires m.Ordered() && i + Size(s) <= |m.code| && q < |m.code|
    requires !(i <= q < i + Size(s)) && Absent(log, m.code[q].at)
    ensures Absent(Eval(EnvOf(m), s, i, inLoop, log, fail, fuel).log, m.code[q].at)
  {
  }

  /** In the steering world the tree never runs the condition of the culprit. */
  lemma {:induction false} NeverRuns(m: Machine, fails: set<nat>, s: Stmt, i: nat, place: Place,
                                     log: Log, fail: bool, fuel: nat)
    requires m.Ordered() && i + Size(s) <= |m.code| && m.world == Failing(m.code, fails)
    requires Faulty(s, place) && Only(fails, s, i, Steer(s, i, place))
    requires Absent(log, m.code[Culprit(s, i, place)].at)
    ensures Absent(Eval(EnvOf(m), s, i, place != Top, log, fail, fuel).log, m.code[Culprit(s, i, place)].at)
    decreases fuel, s
  {
    hide Absent, Failing, Flat, FlatElse, Eval;
    SizeOf(s);
    var q := Culprit(s, i, place);
    match s
    case Seq(a, b) =>
      NeverRunsSeq(m, fails, s, i, place, log, fail, fuel);
    case Cond(cond, t, e) =>
      EvalCond(EnvOf(m), s, i, place != Top, log, fail, fuel);
      var log' := log + [Event(m.code[i].at, cond)];
      AbsentNext(m, log, i, cond, q);
      FailsAt(m, fails, log, i, cond);
      if !LoopsSeparated(t, InIf(place)) {
        NeverRuns(m, fails, t, i + 2, InIf(place), log', false, fuel);
      } else {
        assert LoopsSeparated(Skip, InIf(place));
        NeverRuns(m, fails, e, i + 3 + Size(t), InIf(place), log', false, fuel);
      }
    case Loop(until, cond, b) =>
      EvalLoop(EnvOf(m), s, i, place != Top, log, fail, fuel);
      if fuel > 0 {
        var log' := log + [Event(m.code[i].at, cond)];
        AbsentNext(m, log, i, cond, q);
        FailsAt(m, fails, log, i, cond);
        if NoDirectLoop(b) {
          NeverRuns(m, fails, b, i + 2, Body, log', false, fuel);
          var r := Eval(EnvOf(m), b, i + 2, true, log', false, fuel);
          if r.Normal? {
            NeverRuns(m, fails, s, i, place, r.log, r.fail, fuel - 1);
          }
        }
      }
  }

  lemma {:induction false} NeverRunsSeq(m: Machine, fails: set<nat>, s: Stmt, i: nat, place: Place,
                                        log: Log, fail: bool, fuel: nat)
    requires m.Ordered() && i + Size(s) <= |m.code| && m.world == Failing(m.code, fails)
    requires s.Seq? && Faulty(s, place) && Only(fails, s, i, Steer(s, i, place))
    requires Absent(log, m.code[Culprit(s, i, place)].at)
    ensures Absent(Eval(EnvOf(m), s, i, place != Top, log, fail, fuel).log, m.code[Culprit(s, i, place)].at)
    decreases fuel, s, 0
  {
    hide Absent, Failing, Flat, FlatElse, Eval;
    var a, b, q := s.first, s.second, Culprit(s, i, place);
    EvalSeq(EnvOf(m), s, i, place != Top, log, fail, fuel);
    var r := Eval(EnvOf(m), a, i, place != Top, log, fail, fuel);
    if !LoopsSeparated(a, place) {
      NeverRuns(m, fails, a, i, place, log, fail, fuel);
      if r.Normal? {
        RunsOwn(m, b, i + Size(a), place != Top, r.log, r.fail, fuel, q);
      }
    } else {
      RunsOwn(m, a, i, place != Top, log, fail, fuel, q);
      if r.Normal? {
        NeverRuns(m, fails, b, i + Size(a), place, r.log, r.fail, fuel);
      }
    }
  }

  // ----- The machine does -----

  /** Without its loops, a statement that may run runs through. */
  lemma {:induction false} QuietRun(m: Machine, fails: set<nat>, s: Stmt, i: nat, place: Place,
                                    log: Log, fail: bool, fuel: nat)
    requires m.Ordered() && i + Size(s) <= |m.code| && m.world == Failing(m.code, fails) && fuel > 0
    requires Only(fails, s, i, Quiet(s, i))
    requires BreaksPlaced(s, place) && (place == Body ==> !HasBreak(s))
    ensures Eval(EnvOf(m), s, i, place != Top, log, fail, fuel).Normal?
    decreases s
  {
    hide Failing, Flat, FlatElse, Eval;
    SizeOf(s);
    match s
    case Seq(a, b) =>
      EvalSeq(EnvOf(m), s, i, place != Top, log, fail, fuel);
      QuietRun(m, fails, a, i, place, log, fail, fuel);
      var r := Eval(EnvOf(m), a, i, place != Top, log, fail, fuel);
      QuietRun(m, fails, b, i + Size(a), place, r.log, r.fail, fuel);
    case Cond(cond, t, e) =>
      EvalCond(EnvOf(m), s, i, place != Top, log, fail, fuel);
      FailsAt(m, fails, log, i, cond);
      QuietRun(m, fails, t, i + 2, InIf(place), log + [Event(m.code[i].at, cond)], false, fuel);
    case Loop(until, cond, b) =>
      EvalLoop(EnvOf(m), s, i, place != Top, log, fail, fuel);
      FailsAt(m, fails, log, i, cond);
    case _ =>
      QuietLeaf(m, fails, s, i, place, log, fail, fuel);
  }

  lemma QuietLeaf(m: Machine, fails: set<nat>, s: Stmt, i: nat, place: Place, log: Log, fail: bool, fuel: nat)
    requires s.Skip? || s.Cmd? || (s.BreakOut? && place == Top)
    requires m.Ordered() && i + Size(s) <= |m.code| && m.world == Failing(m.code, fails)
    requires Only(fails, s, i, Quiet(s, i))
    ensures Eval(EnvOf(m), s, i, place != Top, log, fail, fuel).Normal?
  {
    hide Failing;
    if s.Cmd? {
      FailsAt(m, fails, log, i, s.argv);
    }
  }

  lemma HoldsSeq(m: Machine, i: nat, s: Stmt)
    requires s.Seq? && Holds(m, i, Flat(s))
    ensures Holds(m, i, Flat(s.first)) && Holds(m, i + Size(s.first), Flat(s.second)) && i + Size(s) <= |m.code|
  {
    HoldsPart(m, i, Flat(s), Flat(s.first), Flat(s.second));
  }

  /**
   In a loop body that is off, with no `if` between, the parser passes over everything up
   to the first loop, and then runs the condition of that loop.
   */
  lemma {:induction false} RunsFirstLoop(m: Machine, s: Stmt, c: Config) returns (n: nat)
    requires Start(m, c, s) && !c.p.Enabled() && c.p.ItefEnabled() && !NoDirectLoop(s)
    ensures n <= Size(s) && |Steps(m, c, n).log| > |c.log|
    ensures EndsAt(Steps(m, c, n).log, m.code[FirstLoop(s, c.i)].at)
    decreases s
  {
    hide Step, Steps, Plain, TokenOf, Spelling, Flat, Holds;
    SizeOf(s);
    match s
    case Seq(a, b) =>
      HoldsSeq(m, c.i, s);
      if NoDirectLoop(a) {
        var d := Inert(m, a, c);
        var k := RunsFirstLoop(m, b, d);
        StepsAdd(m, c, Size(a), k);
        n := Size(a) + k;
      } else {
        n := RunsFirstLoop(m, a, c);
      }
    case Loop(until, cond, b) =>
      LayoutLoop(m, c.i, s);
      StepLoop(m, c, until, cond);
      First(m, c);
      n := 1;
  }

  /**
   Where commands are disabled, exactly these statements are inert: any, when it is an `if`
   that disables them; those without a loop at their own level, when only the loop does.
   */
  lemma InertExactly(m: Machine, s: Stmt, c: Config)
    requires Start(m, c, s) && !c.p.Enabled()
    ensures Passed(c, Steps(m, c, Size(s)), Size(s)) <==> (c.p.ItefEnabled() ==> NoDirectLoop(s))
  {
    hide Step, Steps, Flat, WellFormed, Holds, TokenOf, Spelling;
    HoldsSize(m, c.i, s);
    if c.p.ItefEnabled() && !NoDirectLoop(s) {
      var n := RunsFirstLoop(m, s, c);
      StepsAdd(m, c, n, Size(s) - n);
      LogGrows(m, Steps(m, c, n), Size(s) - n);
    } else {
      var r := Inert(m, s, c);
    }
  }

  /** In the steering world the machine runs the condition of the culprit. */
  lemma {:induction false} RunsCulprit(m: Machine, fails: set<nat>, s: Stmt, c: Config, place: Place) returns (n: nat)
    requires Able(m, c, s, place) && m.world == Failing(m.code, fails)
    requires Faulty(s, place) && Only(fails, s, c.i, Steer(s, c.i, place))
    ensures EndsAt(Steps(m, c, n).log, m.code[Culprit(s, c.i, place)].at)
    decreases s, 1
  {
    match s
    case Seq(a, b) =>
      n := RunsCulpritSeq(m, fails, s, c, place);
    case Cond(cond, t, e) =>
      n := RunsCulpritIf(m, fails, s, c, place);
    case Loop(until, cond, b) =>
      n := RunsCulpritLoop(m, fails, s, c, place);
  }

  lemma {:induction false} RunsCulpritSeq(m: Machine, fails: set<nat>, s: Stmt, c: Config, place: Place) returns (n: nat)
    requires s.Seq? && Able(m, c, s, place) && m.world == Failing(m.code, fails)
    requires Faulty(s, place) && Only(fails, s, c.i, Steer(s, c.i, place))
    ensures EndsAt(Steps(m, c, n).log, m.code[Culprit(s, c.i, place)].at)
    decreases s, 0
  {
    hide Failing, Flat, Eval, Step, Steps, Plain, TokenOf, Spelling, Holds, EndsAt;
    var a, b := s.first, s.second;
    SizeOf(s);
    AptFirst(m, s, c, place);
    if !LoopsSeparated(a, place) {
      n := RunsCulprit(m, fails, a, c, place);
    } else {
      var d, k := RunsQuietly(m, fails, s, c, place);
      n := RunsCulprit(m, fails, b, d, place);
      StepsAdd(m, c, k, n);
      n := k + n;
    }
  }

  /** The first part is passed, and the second is as able as the whole. */
  lemma RunsQuietly(m: Machine, fails: set<nat>, s: Stmt, c: Config, place: Place) returns (d: Config, k: nat)
    requires s.Seq? && Able(m, c, s, place) && m.world == Failing(m.code, fails) && LoopsSeparated(s.first, place)
    requires Faulty(s, place) && Only(fails, s, c.i, Steer(s, c.i, place))
    ensures Reaches(m, c, d, k) && d.i == c.i + Size(s.first)
    ensures Able(m, d, s.second, place) && Faulty(s.second, place)
    ensures Only(fails, s.second, d.i, Steer(s.second, d.i, place))
  {
    hide Failing, Flat, Eval, Step, Steps, Plain, TokenOf, Spelling, Holds, EndsAt;
    SizeOf(s);
    AptFirst(m, s, c, place);
    HoldsSize(m, c.i, s);
    QuietRun(m, fails, s.first, c.i, place, c.log, c.p.fail, 1);
    d, k := Simulates(m, s.first, c, place, 1);
    AptSecond(m, s, c, place, d);
  }

  lemma {:induction false} RunsCulpritIf(m: Machine, fails: set<nat>, s: Stmt, c: Config, place: Place) returns (n: nat)
    requires s.Cond? && Able(m, c, s, place) && m.world == Failing(m.code, fails)
    requires Faulty(s, place) && Only(fails, s, c.i, Steer(s, c.i, place))
    ensures EndsAt(Steps(m, c, n).log, m.code[Culprit(s, c.i, place)].at)
    decreases s, 0
  {
    hide Failing, Flat, FlatElse, Eval, Step, Steps, Plain, TokenOf, Spelling, Holds, EndsAt;
    SizeOf(s);
    HoldsSize(m, c.i, s);
    FailsAt(m, fails, c.log, c.i, s.cond);
    var d := OpenIf(m, s, c);
    if !LoopsSeparated(s.thn, InIf(place)) {
      AptThen(m, s, c, place, d);
      n := RunsCulprit(m, fails, s.thn, d, InIf(place));
    } else {
      n := RunsCulpritElse(m, fails, s, c, place, d);
    }
    StepsAdd(m, c, 2, n);
    n := 2 + n;
  }

  lemma {:induction false} RunsCulpritElse(m: Machine, fails: set<nat>, s: Stmt, c: Config, place: Place, d: Config)
    returns (n: nat)
    requires s.Cond? && Able(m, c, s, place) && m.world == Failing(m.code, fails) && LoopsSeparated(s.thn, InIf(place))
    requires Faulty(s, place) && Only(fails, s, c.i, Steer(s, c.i, place)) && c.p.iendx + 1 < |c.p.ie|
    requires Culprit(s, c.i, place) < |m.code| && d.i <= |m.code| && d.p.Valid()
    requires d == Config(PushIf(c.p, ItefSlot(ItefThen, false, true)).(fail := false), c.i + 2, d.log, false)
    ensures EndsAt(Steps(m, d, n).log, m.code[Culprit(s, c.i, place)].at)
    decreases s, 0, 0
  {
    hide Failing, Flat, FlatElse, Eval, Step, Steps, Plain, TokenOf, Spelling, Holds, EndsAt;
    SizeOf(s);
    HoldsSize(m, c.i, s);
    assert LoopsSeparated(Skip, InIf(place));
    var e, k := SkipThen(m, s, c, d);
    AptElse(m, s, c, place, e);
    n := RunsCulprit(m, fails, s.els, e, InIf(place));
    StepsAdd(m, d, k, n);
    n := k + n;
  }

  lemma {:induction false} RunsCulpritLoop(m: Machine, fails: set<nat>, s: Stmt, c: Config, place: Place) returns (n: nat)
    requires s.Loop? && Able(m, c, s, place) && m.world == Failing(m.code, fails)
    requires Faulty(s, place) && Only(fails, s, c.i, Steer(s, c.i, place))
    ensures EndsAt(Steps(m, c, n).log, m.code[Culprit(s, c.i, place)].at)
    decreases s, 0
  {
    hide Failing, Flat, Eval, Step, Steps, Plain, TokenOf, Spelling, EndsAt;
    SizeOf(s);
    LayoutLoop(m, c.i, s);
    FailsAt(m, fails, c.log, c.i, s.cond);
    var d := OpenLoop(m, s, c);
    if NoDirectLoop(s.body) {
      AptBody(m, s, c, place, d);
      n := RunsCulprit(m, fails, s.body, d, Body);
    } else {
      n := RunsFirstLoop(m, s.body, d);
    }
    StepsAdd(m, c, 2, n);
    n := 2 + n;
  }

  /** A script with a misplaced loop is not run as its tree says, in some world. */
  lemma Disagrees(code: seq<Located>, ignore: bool, s: Stmt, depth: nat) returns (m: Machine)
    requires RunsScript(Machine(code, log => false, ignore), s, depth) && BreaksPlaced(s, Top)
    requires !LoopsSeparated(s, Top)
    ensures m.code == code && m.ignore == ignore && |code| == Size(s) && !Agrees(m, s, depth)
  {
    hide Step, Steps, Flat, Eval, WellFormed, BreaksPlaced, LoopsSeparated, IfDepth, LoopDepth, Failing, MachineEnds, TreeEnds;
    var fails := Steer(s, 0, Top);
    m := Machine(code, Failing(code, fails), ignore);
    var q := Culprit(s, 0, Top);
    assert Holds(m, 0, Flat(s));
    var n := RunsCulprit(m, fails, s, Init(depth), Top);
    var log := After(m, depth, n).log;
    assert MachineRuns(m, depth, log);
    if TreeRuns(m, s, log) {
      var fuel: nat :| log <= TreeRun(m, s, fuel).log;
      NeverRuns(m, fails, s, 0, Top, [], false, fuel);
      assert false;
    }
  }

  /**
   The exact condition: for a well-nested script within the depth limit whose reachable
   `break`s stand at their loop's own level, the flat machine agrees with the structured
   meaning in every world if and only if loops are separated by an `if`.
   */
  lemma AgreesExactly(code: seq<Located>, ignore: bool, s: Stmt, depth: nat)
    requires RunsScript(Machine(code, log => false, ignore), s, depth) && BreaksPlaced(s, Top)
    ensures |code| == Size(s)
    ensures (forall world :: Agrees(Machine(code, world, ignore), s, depth)) <==> LoopsSeparated(s, Top)
  {
    hide Step, Steps, Flat, Eval, WellFormed, BreaksPlaced, LoopsSeparated, IfDepth, LoopDepth, Agrees;
    if LoopsSeparated(s, Top) {
      forall world ensures Agrees(Machine(code, world, ignore), s, depth) {
        var m := Machine(code, world, ignore);
        assert Holds(m, 0, Flat(s));
        Refinement(m, s, depth);
      }
    } else {
      var m := Disagrees(code, ignore, s, depth);
      assert !Agrees(Machine(code, m.world, ignore), s, depth);
    }
  }
}
