/**
 Which commands fail: along every run of a script for which the machine follows the tree, only
 plain commands do. No keyword is ever rejected, whatever the world answers.
 */
module ShellPlain {
  import opened Options
  import opened ShellParser
  import opened ShellTree
  import opened ShellMachine
  import opened ShellRefinement
  import opened ShellScriptMeaning

  /** If the next command fails, it is a plain one. */
  ghost predicate Clean(m: Machine, c: Config)
    requires c.p.Valid() && c.i <= |m.code|
  {
    c.Running(m) ==>
      var cmd := m.code[c.i];
      ParseCommand(c.p.(jump := None), cmd.words, cmd.at, m.world, c.log).ok || Head(cmd.words) == Other
  }

  /** From here on only plain commands fail. */
  ghost predicate AllClean(m: Machine, c: Config)
    requires c.p.Valid() && c.i <= |m.code|
  {
    forall n: nat :: Clean(m, Steps(m, c, n))
  }

  lemma CleanNext(m: Machine, c: Config)
    requires c.p.Valid() && c.i <= |m.code| && AllClean(m, c)
    ensures Clean(m, c) && AllClean(m, Step(m, c))
  {
    hide Step, Clean;
    assert Steps(m, c, 0) == c;
    forall n: nat ensures Clean(m, Steps(m, Step(m, c), n)) {
      assert Steps(m, c, n + 1) == Steps(m, Step(m, c), n);
    }
  }

  // ----- Worlds in which plain commands succeed -----

  ghost predicate Obliging(m: Machine) {
    forall k, log :: 0 <= k < |m.code| && Head(m.code[k].words) == Other ==>
      !m.world(log + [Event(m.code[k].at, m.code[k].words)])
  }

  /** A tree whose plain commands all succeed is not stopped. */
  lemma {:induction false} NeverStops(m: Machine, s: Stmt, i: nat, inLoop: bool, log: Log, fail: bool, fuel: nat)
    requires Obliging(m) && WellFormed(s) && Holds(m, i, Flat(s)) && i + Size(s) <= |m.code|
    ensures !Eval(EnvOf(m), s, i, inLoop, log, fail, fuel).Stopped?
    decreases fuel, s
  {
    hide Flat, FlatElse, Eval, Spelling, TokenOf, Holds, Obliging;
    SizeOf(s);
    match s
    case Seq(a, b) =>
      HoldsPart(m, i, Flat(s), Flat(a), Flat(b)) by { FlatSeq(s); }
      EvalSeq(EnvOf(m), s, i, inLoop, log, fail, fuel);
      NeverStops(m, a, i, inLoop, log, fail, fuel);
      var r := Eval(EnvOf(m), a, i, inLoop, log, fail, fuel);
      if r.Normal? {
        NeverStops(m, b, i + Size(a), inLoop, r.log, r.fail, fuel);
      }
    case Cond(cond, t, e) =>
      LayoutIf(m, i, s);
      EvalCond(EnvOf(m), s, i, inLoop, log, fail, fuel);
      var log' := log + [Event(m.code[i].at, cond)];
      NeverStops(m, t, i + 2, inLoop, log', false, fuel);
      if !e.Skip? {
        LayoutElse(m, i + 2 + Size(t), e);
        NeverStops(m, e, i + 3 + Size(t), inLoop, log', false, fuel);
      }
    case Loop(until, cond, b) =>
      LayoutLoop(m, i, s);
      EvalLoop(EnvOf(m), s, i, inLoop, log, fail, fuel);
      if fuel > 0 {
        var log' := log + [Event(m.code[i].at, cond)];
        NeverStops(m, b, i + 2, true, log', false, fuel);
        var r := Eval(EnvOf(m), b, i + 2, true, log', false, fuel);
        if r.Normal? {
          NeverStops(m, s, i, inLoop, r.log, r.fail, fuel - 1);
        }
      }
    case _ =>
      LeafNeverStops(m, s, i, inLoop, log, fail, fuel);
  }

  lemma LeafNeverStops(m: Machine, s: Stmt, i: nat, inLoop: bool, log: Log, fail: bool, fuel: nat)
    requires Obliging(m) && WellFormed(s)
    requires (s.Skip? || s.Cmd? || s.BreakOut?) && Holds(m, i, Flat(s)) && i + Size(s) <= |m.code|
    ensures !Eval(EnvOf(m), s, i, inLoop, log, fail, fuel).Stopped?
  {
    hide Spelling, TokenOf;
    if s.Cmd? {
      HoldsAt(m, i, Flat(s), 0);
    }
  }

  // ----- The twin of a machine -----

  ghost predicate PlainAt(code: seq<Located>, at: int) {
    exists k :: 0 <= k < |code| && code[k].at == at && Head(code[k].words) == Other
  }

  /** The same world, but that plain commands succeed. */
  ghost function Mild(code: seq<Located>, world: World): World {
    (log: Log) => log != [] && !PlainAt(code, log[|log| - 1].at) && world(log)
  }

  /** The machine that stops at the first failure, in a world where plain commands succeed. */
  ghost function Twin(m: Machine): Machine {
    Machine(m.code, Mild(m.code, m.world), false)
  }

  lemma TwinObliges(m: Machine)
    ensures Obliging(Twin(m))
  {
    hide TokenOf;
    forall k, log | 0 <= k < |m.code| && Head(m.code[k].words) == Other
      ensures !Twin(m).world(log + [Event(m.code[k].at, m.code[k].words)])
    {
      assert PlainAt(m.code, m.code[k].at);
    }
  }

  /** At other commands the twin has the answers of the machine. */
  lemma MildAt(m: Machine, k: nat, log: Log, argv: Words)
    requires m.Ordered() && k < |m.code| && Head(m.code[k].words) != Other
    ensures Twin(m).world(log + [Event(m.code[k].at, argv)]) == m.world(log + [Event(m.code[k].at, argv)])
  {
    hide TokenOf;
    assert !PlainAt(m.code, m.code[k].at);
  }

  lemma TwinNeverHalts(m: Machine, t: Stmt, depth: nat, n: nat)
    requires RunsScript(m, t, depth) && BreaksPlaced(t, Top) && LoopsSeparated(t, Top)
    ensures !After(Twin(m), depth, n).halted
  {
    hide Step, Steps, Flat, Eval, BreaksPlaced, LoopsSeparated, WellFormed, Fresh;
    var twin := Twin(m);
    Refinement(twin, t, depth);
    var c := After(twin, depth, n);
    if c.halted {
      var end := End(c.log, c.p.fail, true);
      assert MachineEnds(twin, depth, end);
      assert TreeEnds(twin, t, end);
      var fuel: nat :| var r := TreeRun(twin, t, fuel);
        (r.Normal? && end == End(r.log, r.fail, false)) || (r.Stopped? && end == End(r.log, true, true));
      TwinObliges(m);
      NeverStops(twin, t, 0, false, [], false, fuel);
    }
  }

  // ----- Machine and twin go in step -----

  /** The same but for the status. */
  ghost predicate Alike(p: Parser, q: Parser) {
    q == p.(fail := q.fail)
  }

  /** The stacks do not hang on the status. */
  lemma TopsAlike(p: Parser, f: bool)
    requires p.Valid()
    ensures var q := p.(fail := f);
            && q.Valid() && q.LoopTop() == p.LoopTop() && q.ItefTop() == p.ItefTop()
            && q.InLoopCondition() == p.InLoopCondition() && q.Enabled() == p.Enabled()
  {
  }

  lemma EnterAlike(p: Parser, f: bool, words: Words, here: int)
    requires p.Valid() && words != []
    ensures p.(fail := f).Valid()
    ensures var a := EnterLoop(p, words, here); EnterLoop(p.(fail := f), words, here) == a.(p := a.p.(fail := f))
  {
    hide Parser.Enabled, Parser.Valid;
    TopsAlike(p, f);
  }

  lemma MoveAlike(p: Parser, f: bool)
    requires p.Valid()
    ensures p.(fail := f).Valid()
    ensures LoopReset(p.(fail := f)) == LoopReset(p).(fail := f)
    ensures ItefReset(p.(fail := f)) == ItefReset(p).(fail := f)
    ensures p.LoopTop().state == LoopDo ==> LeaveLoop(p.(fail := f)) == LeaveLoop(p).(fail := f)
  {
  }

  /** The keywords leave the status alone. */
  lemma ScanAlike(p: Parser, f: bool, words: Words, here: int)
    requires p.Valid()
    ensures p.(fail := f).Valid()
    ensures var a := ScanLoop(p, words, here); ScanLoop(p.(fail := f), words, here) == a.(p := a.p.(fail := f))
  {
    hide TokenOf, EnterLoop, LeaveLoop, LoopReset, Parser.Valid, Parser.Enabled;
    TopsAlike(p, f);
    MoveAlike(p, f);
    if words != [] {
      EnterAlike(p, f, words, here);
    }
  }

  lemma IfAlike(p: Parser, f: bool, words: Words)
    requires p.Valid() && Head(words) == If
    ensures p.(fail := f).Valid()
    ensures var a := ScanItef(p, words); ScanItef(p.(fail := f), words) == a.(p := a.p.(fail := f))
  {
    hide TokenOf, ItefReset, Parser.Valid, Parser.Enabled;
    TopsAlike(p, f);
    MoveAlike(p, f);
  }

  lemma ItefAlike(p: Parser, f: bool, words: Words)
    requires p.Valid()
    ensures p.(fail := f).Valid()
    ensures var a := ScanItef(p, words); ScanItef(p.(fail := f), words) == a.(p := a.p.(fail := f))
  {
    hide TokenOf, ItefReset, Parser.Valid, Parser.Enabled;
    if Head(words) == If {
      IfAlike(p, f, words);
    } else {
      TopsAlike(p, f);
      MoveAlike(p, f);
    }
  }

  lemma SaveAlike(p: Parser, q: Parser, failed: bool, log: Log)
    requires p.Valid() && q.Valid() && Alike(p, q)
    ensures var a, b := SaveResult(p, failed, log), SaveResult(q, failed, log);
            a.ok == b.ok && Alike(a.p, b.p)
  {
  }

  lemma ExecuteAlike(p: Parser, q: Parser, argv: Words, here: int, v: World, w: World, log: Log)
    requires p.Valid() && q.Valid() && Alike(p, q) && argv != []
    requires v(log + [Event(here, argv)]) == w(log + [Event(here, argv)])
    ensures var a, b := Execute(p, argv, here, v, log), Execute(q, argv, here, w, log);
            a.ok == b.ok && a.log == b.log && Alike(a.p, b.p)
  {
    hide TokenOf, SaveResult;
    var log' := log + [Event(here, argv)];
    SaveAlike(BreakLoop(p), BreakLoop(q), false, log');
    SaveAlike(p, q, v(log'), log');
  }

  /** With the same answers, the status before a command changes nothing but the status. */
  lemma ParseAlike(p: Parser, q: Parser, words: Words, here: int, v: World, w: World, log: Log)
    requires p.Valid() && q.Valid() && Alike(p, q)
    requires forall argv :: v(log + [Event(here, argv)]) == w(log + [Event(here, argv)])
    ensures var a, b := ParseCommand(p, words, here, v, log), ParseCommand(q, words, here, w, log);
            a.ok == b.ok && a.log == b.log && Alike(a.p, b.p)
  {
    hide TokenOf, ScanLoop, ScanItef, SaveResult, Execute, Alike;
    ScanBoth(p, q, words, here);
    var a, b := ScanLoop(p, words, here), ScanLoop(q, words, here);
    SaveAlike(a.p, b.p, true, log);
    ItefBoth(a.p, b.p, a.words);
    var c, d := ScanItef(a.p, a.words), ScanItef(b.p, a.words);
    SaveAlike(c.p, d.p, true, log);
    EnabledAlike(c.p, d.p);
    if c.words != [] {
      ExecuteAlike(c.p, d.p, c.words, here, v, w, log);
    }
  }

  lemma EnabledAlike(p: Parser, q: Parser)
    requires p.Valid() && q.Valid() && Alike(p, q)
    ensures p.Enabled() == q.Enabled()
  {
  }

  lemma ScanBoth(p: Parser, q: Parser, words: Words, here: int)
    requires p.Valid() && q.Valid() && Alike(p, q)
    ensures var a, b := ScanLoop(p, words, here), ScanLoop(q, words, here);
            a.ok == b.ok && a.words == b.words && Alike(a.p, b.p)
  {
    hide ScanLoop;
    ScanAlike(p, q.fail, words, here);
  }

  lemma ItefBoth(p: Parser, q: Parser, words: Words)
    requires p.Valid() && q.Valid() && Alike(p, q)
    ensures var a, b := ScanItef(p, words), ScanItef(q, words);
            a.ok == b.ok && a.words == b.words && Alike(a.p, b.p)
  {
    hide ScanItef;
    ItefAlike(p, q.fail, words);
  }

  /** A plain command that is scanned well is a plain command of the script. */
  lemma ScanPlain(p: Parser, words: Words, here: int)
    requires p.Valid() && Head(words) == Other
    ensures ScanLoop(p, words, here) == if words != [] && p.InLoopCondition() then Scan(LoopReset(p), words, false) else Scan(p, words, true)
    ensures ScanItef(p, words) == if words != [] && p.ItefTop().state == ItefIf then Scan(ItefReset(p), words, false) else Scan(p, words, true)
  {
    hide TokenOf;
  }

  lemma SavePlain(p: Parser, q: Parser, a: bool, b: bool, log: Log)
    requires p.Valid() && q.Valid() && Alike(p, q) && !p.InLoopCondition() && p.ItefTop().state != ItefIf
    ensures Alike(SaveResult(p, a, log).p, SaveResult(q, b, log).p)
  {
  }

  /** A plain command, whatever it is answered, changes nothing but the status and the log. */
  lemma ParsePlain(p: Parser, q: Parser, words: Words, here: int, v: World, w: World, log: Log)
    requires p.Valid() && q.Valid() && Alike(p, q) && Head(words) == Other
    ensures var a, b := ParseCommand(p, words, here, v, log), ParseCommand(q, words, here, w, log);
            a.log == b.log && Alike(a.p, b.p)
  {
    hide TokenOf, ScanLoop, ScanItef, SaveResult, LoopReset, ItefReset, Parser.Valid, Parser.Enabled;
    ScanPlain(p, words, here);
    ScanPlain(q, words, here);
    TopsAlike(p, q.fail);
    MoveAlike(p, q.fail);
    SaveAlike(LoopReset(p), LoopReset(q), true, log);
    SaveAlike(ItefReset(p), ItefReset(q), true, log);
    if !p.InLoopCondition() && p.ItefTop().state != ItefIf {
      var log' := log + [Event(here, words)];
      SavePlain(p, q, v(log'), w(log'), log');
    }
  }

  /** One step of both, when the twin is not stopped by it. */
  lemma StepTogether(m: Machine, c: Config, d: Config)
    requires m.Ordered() && c.p.Valid() && c.i <= |m.code| && !c.halted
    requires d == c.(p := d.p) && Alike(c.p, d.p) && !Step(Twin(m), d).halted
    ensures Clean(m, c)
    ensures var e, f := Step(m, c), Step(Twin(m), d); e.halted || (f == e.(p := f.p) && Alike(e.p, f.p))
  {
    hide ParseCommand, TokenOf, Parser.Valid;
    if c.Running(m) {
      var cmd := m.code[c.i];
      var p, q := c.p.(jump := None), d.p.(jump := None);
      WithoutJump(c.p);
      WithoutJump(d.p);
      if Head(cmd.words) == Other {
        ParsePlain(p, q, cmd.words, cmd.at, m.world, Twin(m).world, c.log);
      } else {
        forall argv ensures m.world(c.log + [Event(cmd.at, argv)]) == Twin(m).world(c.log + [Event(cmd.at, argv)]) {
          MildAt(m, c.i, c.log, argv);
        }
        ParseAlike(p, q, cmd.words, cmd.at, m.world, Twin(m).world, c.log);
      }
    }
  }

  /** As long as the machine has not been stopped, it is where its twin is. */
  lemma {:induction false} InStep(m: Machine, t: Stmt, depth: nat, n: nat)
    requires RunsScript(m, t, depth) && BreaksPlaced(t, Top) && LoopsSeparated(t, Top)
    ensures var c, d := After(m, depth, n), After(Twin(m), depth, n);
            c.halted || (d == c.(p := d.p) && Alike(c.p, d.p))
    decreases n
  {
    hide Step, Flat, BreaksPlaced, LoopsSeparated, WellFormed, Holds, IfDepth, LoopDepth, Twin, Fresh;
    if n > 0 {
      InStep(m, t, depth, n - 1);
      var c, d := After(m, depth, n - 1), After(Twin(m), depth, n - 1);
      NextAfter(m, depth, n - 1);
      NextAfter(Twin(m), depth, n - 1);
      TwinNeverHalts(m, t, depth, n);
      if c.halted {
        assert Step(m, c) == c by { HaltedStays(m, c); }
      } else {
        TwinCode(m);
        StepTogether(m, c, d);
      }
    }
  }

  lemma TwinCode(m: Machine)
    ensures Twin(m).code == m.code
  {
  }

  lemma HaltedStays(m: Machine, c: Config)
    requires c.p.Valid() && c.i <= |m.code| && c.halted
    ensures Step(m, c) == c
  {
  }

  lemma NextAfter(m: Machine, depth: nat, n: nat)
    requires 0 < depth
    ensures After(m, depth, n + 1) == Step(m, After(m, depth, n))
  {
    hide Step;
    var c := After(m, depth, n);
    assert Steps(m, c, 1) == Steps(m, Step(m, c), 0);
    StepsAdd(m, Init(depth), n, 1);
  }

  /**
   Over every run of a well-nested script in which loops are separated by an `if` and `break`
   stands at its loop's own level, only plain commands fail: no keyword is ever rejected.
   */
  lemma OnlyPlainFail(m: Machine, t: Stmt, depth: nat)
    requires RunsScript(m, t, depth) && BreaksPlaced(t, Top) && LoopsSeparated(t, Top)
    ensures AllClean(m, Init(depth))
  {
    hide Step, Steps, Flat, BreaksPlaced, LoopsSeparated, WellFormed, Holds, IfDepth, LoopDepth, Twin, Clean, Fresh;
    forall n: nat ensures Clean(m, Steps(m, Init(depth), n)) {
      var c, d := After(m, depth, n), After(Twin(m), depth, n);
      if c.halted {
        HaltedClean(m, c);
      } else {
        InStep(m, t, depth, n);
        TwinNeverHalts(m, t, depth, n + 1);
        NextAfter(Twin(m), depth, n);
        TwinCode(m);
        StepTogether(m, c, d);
      }
    }
  }

  lemma HaltedClean(m: Machine, c: Config)
    requires c.p.Valid() && c.i <= |m.code| && c.halted
    ensures Clean(m, c)
  {
  }
}
