/**
 A misplaced `break` that does no harm. In

   if z; then while a; do if b; then while c; do if d; then break; fi; done; fi; break; done; fi

 the inner `break` stands inside an `if` of its own loop, and it drops the slot of that `if`,
 so that each `fi` after it closes one `if` too many. But the `break` that follows belongs to a
 loop that stands inside an `if` as well, and it sets the index to where that loop began, before
 an `fi` finds nothing to close.
 */
module ShellRepair {
  import opened Options
  import opened ShellParser
  import opened ShellTree
  import opened ShellMachine
  import opened ShellRefinement
  import opened ShellScriptMeaning
  import opened ShellDrift

  function Inner(c: Words, d: Words): Stmt {
    Loop(false, c, Cond(d, BreakOut, Skip))
  }

  function Outer(a: Words, b: Words, c: Words, d: Words): Stmt {
    Loop(false, a, Seq(Cond(b, Inner(c, d), Skip), BreakOut))
  }

  function Repaired(z: Words, a: Words, b: Words, c: Words, d: Words): Stmt {
    Cond(z, Outer(a, b, c, d), Skip)
  }

  predicate IsInner(s: Stmt) {
    s.Loop? && s.body.Cond? && s == Inner(s.cond, s.body.cond)
  }

  /** As `Restored`, but that the topmost if slot is gone. */
  ghost predicate Dropped(p: Parser, q: Parser) {
    && |q.lp| == |p.lp| && |q.ie| == |p.ie|
    && q.lpndx == p.lpndx < |p.lp| && q.iendx == p.iendx - 1 < |p.ie| && 0 <= q.iendx
    && q.scripted == p.scripted
    && (forall k :: 0 <= k <= p.lpndx ==> q.lp[k] == p.lp[k])
    && (forall k :: 0 <= k <= q.iendx ==> q.ie[k] == p.ie[k])
  }

  /** The last command run is a `break`. */
  predicate ByBreak(log: Log) {
    log != [] && log[|log| - 1].argv == Word(Break)
  }

  /**
   Where the inner loop may stand: inside the then part of an `if`, or outside all of them when
   failures are ignored.
   */
  ghost predicate Hosts(m: Machine, p: Parser) {
    && p.Valid() && p.Enabled()
    && (if p.iendx > 0 then p.ItefTop().state == ItefThen else m.ignore && p.ie[0] == ItefSlot(ItefNormal, false, false))
  }

  /** What the machine does while the tree comes to `t`; an ignored `fi` leaves a failed status behind. */
  ghost predicate Keeps(m: Machine, c: Config, s: Stmt, t: Result, fuel: nat, r: Config, n: nat) {
    && Reaches(m, c, r, n) && r.p.Valid() && !r.halted && r.log == t.log
    && (t.Normal? || t.Timeout?)
    && (t.Timeout? ==> r.Running(m) && n >= fuel)
    && (t.Normal? ==> r.i == c.i + Size(s) && r.p.fail == (t.fail || (c.p.iendx == 0 && ByBreak(t.log))))
  }

  lemma InnerParts(s: Stmt)
    requires IsInner(s)
    ensures IfDepth(s) == IfDepth(s.body) == 1 && LoopDepth(s) == 1 && LoopDepth(s.body) == 0
    ensures WellFormed(s) ==> WellFormed(s.body)
    ensures Size(s) == 7 && Size(s.body) == 4
  {
    hide Plain, Flat;
    SizeOf(s);
    SizeOf(s.body);
    SizeOf(s.body.thn);
    assert LoopDepth(s.body) == Max(LoopDepth(s.body.thn), LoopDepth(s.body.els));
    assert IfDepth(s.body) == 1 + Max(IfDepth(s.body.thn), IfDepth(s.body.els));
  }

  /** In the body of the inner loop. */
  ghost predicate Turns(m: Machine, s: Stmt, c: Config, d: Config) {
    && IsInner(s) && Start(m, c, s) && Hosts(m, c.p)
    && c.p.iendx < |c.p.ie| - 1 && c.p.lpndx + 1 < |c.p.lp| && c.i < |m.code|
    && d == Config(PushLoop(c.p, LoopSlot(LoopDo, true, c.p.iendx, m.code[c.i].at)).(fail := false), c.i + 2, d.log, false)
  }

  /** From the `break` of the inner loop to the command after its `done`. */
  lemma InnerBreaks(m: Machine, s: Stmt, c: Config, d: Config, e: Config) returns (r: Config)
    requires Turns(m, s, c, d) && e.i < |m.code|
    requires e == Config(PushIf(d.p, ItefSlot(ItefThen, false, false)).(fail := false), d.i + 2, e.log, false)
    ensures Reaches(m, e, r, 3) && r.p.Valid() && !r.halted && r.i == c.i + Size(s)
    ensures r.log == e.log + [Event(m.code[e.i].at, Word(Break))] && r.p.fail == (c.p.iendx == 0)
    ensures Restored(c.p, r.p) || Dropped(c.p, r.p)
  {
    hide Step, Steps, Reaches, TokenOf, Spelling, Plain, Flat, Find, Holds, WellFormed, IfDepth, LoopDepth;
    LayoutLoop(m, c.i, s);
    LayoutIf(m, c.i + 2, s.body);
    LeafBreak(m, e.i, s.body.thn);
    InnerParts(s);
    StepBreakOn(m, e);
    First(m, e);
    var f := Step(m, e);
    r := InnerLeaves(m, s, c, f);
    Join(m, e, f, r, 1, 2);
  }

  /** The `fi` and the `done` after the `break`. */
  lemma InnerLeaves(m: Machine, s: Stmt, c: Config, f: Config) returns (r: Config)
    requires IsInner(s) && Start(m, c, s) && Hosts(m, c.p) && c.i + Size(s) <= |m.code| && 2 < Size(s)
    requires f.i == c.i + Size(s) - 2 && m.code[f.i].words == Word(Fi) && m.code[f.i + 1].words == Word(Done)
    requires f.p.Valid() && !f.p.fail && !f.halted && c.p.lpndx + 1 < |c.p.lp|
    requires Restored(PushLoop(c.p, LoopSlot(LoopDo, false, c.p.iendx, m.code[c.i].at)), f.p)
    ensures Reaches(m, f, r, 2) && r.p.Valid() && !r.halted && r.i == c.i + Size(s)
    ensures r.log == f.log && r.p.fail == (c.p.iendx == 0) && (Restored(c.p, r.p) || Dropped(c.p, r.p))
  {
    hide Step, Steps, Reaches, TokenOf, Spelling, Plain, Flat, Find, Holds, WellFormed, IfDepth, LoopDepth, IsInner;
    if c.p.iendx > 0 {
      StepFi(m, f);
    } else {
      StepIgnored(m, f);
    }
    First(m, f);
    var g := Step(m, f);
    StepDone(m, g);
    Next(m, f, g, 1);
    r := Step(m, g);
  }

  /** An `fi` that closes nothing, when failures are ignored. */
  lemma StepIgnored(m: Machine, c: Config)
    requires Ready(c.p) && c.Running(m) && m.ignore && m.code[c.i].words == Word(Fi) && c.p.ItefTop().state == ItefNormal
    ensures Step(m, c) == Config(ItefReset(c.p).(jump := None, fail := true), c.i + 1, c.log, false)
  {
    hide TokenOf, Spelling, ScanLoop;
    ScanLoopOther(c.p.(jump := None), m.code[c.i].words, m.code[c.i].at);
  }

  lemma LeafBreak(m: Machine, i: nat, s: Stmt)
    requires s.BreakOut? && Holds(m, i, Flat(s))
    ensures Size(s) == 1 && m.code[i].words == Word(Break)
  {
    HoldsAt(m, i, Flat(s), 0);
  }

  /** The inner loop: at most one if slot is lost, and the log is the tree's. */
  lemma {:induction false} InnerRuns(m: Machine, s: Stmt, c: Config, inLoop: bool, fuel: nat) returns (r: Config, n: nat)
    requires IsInner(s) && Start(m, c, s)
    requires Hosts(m, c.p)
    ensures Keeps(m, c, s, Eval(EnvOf(m), s, c.i, inLoop, c.log, c.p.fail, fuel), fuel, r, n)
    ensures Eval(EnvOf(m), s, c.i, inLoop, c.log, c.p.fail, fuel).Normal? ==> Restored(c.p, r.p) || Dropped(c.p, r.p)
    decreases fuel, 1
  {
    hide Step, Steps, Reaches, TokenOf, Spelling, Plain, Flat, Holds, Eval, WellFormed, IfDepth, LoopDepth;
    LayoutLoop(m, c.i, s);
    InnerParts(s);
    EvalLoop(EnvOf(m), s, c.i, inLoop, c.log, c.p.fail, fuel);
    if fuel == 0 {
      AtOnce(m, c);
      r, n := c, 0;
    } else {
      var d := OpenLoop(m, s, c);
      NotBreak(s);
      if m.world(d.log) {
        var e := Inert(m, s.body, d);
        Join(m, c, d, e, 2, Size(s.body));
        r := CloseLoop(m, s, c, e, false);
        n := Size(s);
        Join(m, c, e, r, n - 1, 1);
      } else {
        r, n := InnerTurn(m, s, c, d, inLoop, fuel);
      }
    }
  }

  lemma NotBreak(s: Stmt)
    requires s.Loop? && WellFormed(s)
    ensures s.cond != Word(Break)
  {
  }

  /** One turn of the inner loop: it breaks out, or it goes round. */
  lemma {:induction false} InnerTurn(m: Machine, s: Stmt, c: Config, d: Config, inLoop: bool, fuel: nat)
    returns (r: Config, n: nat)
    requires Turns(m, s, c, d) && fuel > 0 && Reaches(m, c, d, 2)
    requires d.log == c.log + [Event(m.code[c.i].at, s.cond)] && !m.world(d.log)
    ensures Keeps(m, c, s, Eval(EnvOf(m), s, c.i, inLoop, c.log, c.p.fail, fuel), fuel, r, n)
    ensures Eval(EnvOf(m), s, c.i, inLoop, c.log, c.p.fail, fuel).Normal? ==> Restored(c.p, r.p) || Dropped(c.p, r.p)
    decreases fuel, 0
  {
    hide Step, Steps, Reaches, TokenOf, Spelling, Plain, Flat, Holds, Eval, Restored, Dropped, WellFormed, IfDepth, LoopDepth;
    LayoutLoop(m, c.i, s);
    InnerParts(s);
    EvalLoop(EnvOf(m), s, c.i, inLoop, c.log, c.p.fail, fuel);
    EvalCond(EnvOf(m), s.body, d.i, true, d.log, false, fuel);
    var e := OpenIf(m, s.body, d);
    Join(m, c, d, e, 2, 2);
    if m.world(e.log) {
      var h, k := InnerRound(m, s, c, d, e);
      Join(m, c, e, h, 4, k);
      var l;
      r, l := InnerAgain(m, s, c, h, inLoop, fuel - 1);
      n := 4 + k + l;
      Join(m, c, h, r, 4 + k, l);
    } else {
      EvalBreak(EnvOf(m), s.body.thn, e.i, e.log, false, fuel);
      r := InnerBreaks(m, s, c, d, e);
      n := 7;
      Join(m, c, e, r, 4, 3);
    }
  }

  /** Back at the loop with the stacks as they were, it runs as before. */
  lemma {:induction false} InnerAgain(m: Machine, s: Stmt, c: Config, h: Config, inLoop: bool, fuel: nat)
    returns (r: Config, n: nat)
    requires IsInner(s) && Start(m, c, s) && Hosts(m, c.p)
    requires h.p.Valid() && Restored(c.p, h.p) && h.i == c.i && !h.halted
    ensures Keeps(m, h, s, Eval(EnvOf(m), s, c.i, inLoop, h.log, h.p.fail, fuel), fuel, r, n)
    ensures Eval(EnvOf(m), s, c.i, inLoop, h.log, h.p.fail, fuel).Normal? ==> Restored(c.p, r.p) || Dropped(c.p, r.p)
    decreases fuel, 2
  {
    hide Reaches, TokenOf, Spelling, Plain, Flat, Holds, Eval, Keeps;
    r, n := InnerRuns(m, s, h, inLoop, fuel);
  }

  /** The inner `if` is not taken: to its `fi` and back to the loop. */
  lemma InnerRound(m: Machine, s: Stmt, c: Config, d: Config, e: Config) returns (r: Config, n: nat)
    requires Turns(m, s, c, d)
    requires e == Config(PushIf(d.p, ItefSlot(ItefThen, false, true)).(fail := false), d.i + 2, e.log, false)
    ensures Reaches(m, e, r, n) && r.p.Valid() && Restored(c.p, r.p) && n > 0
    ensures r.i == c.i && !r.halted && r.log == e.log && !r.p.fail && r.p.iendx == c.p.iendx
  {
    hide Step, Steps, Reaches, TokenOf, Spelling, Plain, Flat, Holds, WellFormed, IfDepth, LoopDepth;
    LayoutLoop(m, c.i, s);
    LayoutIf(m, d.i, s.body);
    InnerParts(s);
    var f, k := SkipThen(m, s.body, d, e);
    var g := CloseIf(m, d.p, ItefSlot(ItefThen, false, true), f);
    Join(m, e, f, g, k, 1);
    r := CloseLoop(m, s, c, g, true);
    n := k + 2;
    Join(m, e, g, r, k + 1, 1);
  }

  lemma EvalBreak(env: Env, s: Stmt, i: nat, log: Log, fail: bool, fuel: nat)
    requires s.BreakOut? && i + Size(s) <= |env.pos|
    ensures Size(s) == 1
    ensures Eval(env, s, i, true, log, fail, fuel) == Broke(log + [Event(env.pos[i], Word(Break))], false)
  {
  }

  // ----- The outer loop, and the script -----

  predicate IsOuter(s: Stmt) {
    && s.Loop? && s.body.Seq? && s.body.second.BreakOut? && !s.until
    && s.body.first.Cond? && s.body.first.els.Skip? && IsInner(s.body.first.thn)
  }

  /** At the outer loop, inside the outermost `if`. */
  ghost predicate AtOuter(m: Machine, s: Stmt, c: Config) {
    && IsOuter(s) && Start(m, c, s) && c.p.Enabled() && c.i + Size(s) <= |m.code| && Size(s) > 4
    && c.p.iendx == 1 < |c.p.ie| - 2 && c.p.lpndx + 2 < |c.p.lp|
    && c.p.ie[0] == ItefSlot(ItefNormal, false, false) && c.p.ItefTop().state == ItefThen
  }

  ghost function OuterSlot(m: Machine, c: Config): LoopSlot
    requires c.i < |m.code|
  {
    LoopSlot(LoopDo, true, 1, m.code[c.i].at)
  }

  /** In the outer loop, with the if index right or one too low. */
  ghost predicate Almost(p: Parser, q: Parser) {
    && |q.lp| == |p.lp| && |q.ie| == |p.ie|
    && q.lpndx == p.lpndx < |p.lp| && p.iendx - 1 <= q.iendx <= p.iendx < |p.ie|
    && q.scripted == p.scripted
    && (forall k :: 0 <= k <= p.lpndx ==> q.lp[k] == p.lp[k])
    && (forall k :: 0 <= k <= p.iendx ==> q.ie[k] == p.ie[k])
  }

  lemma OuterLayout(m: Machine, i: nat, s: Stmt)
    requires IsOuter(s) && Holds(m, i, Flat(s))
    ensures Size(s) == 4 + Size(s.body.first) && Size(s.body.first) == 3 + Size(s.body.first.thn)
    ensures i + Size(s) <= |m.code| && Holds(m, i + 2, Flat(s.body.first))
    ensures m.code[i + Size(s) - 3].words == Word(Fi)
    ensures m.code[i + Size(s) - 2].words == Word(Break)
    ensures m.code[i + Size(s) - 1].words == Word(Done)
  {
    hide TokenOf, Spelling, Plain, Flat, Holds;
    LayoutLoop(m, i, s);
    SizeOf(s);
    SizeOf(s.body);
    SizeOf(s.body.first);
    HoldsPart(m, i + 2, Flat(s.body), Flat(s.body.first), Flat(s.body.second)) by { FlatSeq(s.body); }
    LayoutIf(m, i + 2, s.body.first);
    LeafBreak(m, i + 2 + Size(s.body.first), s.body.second);
  }

  /** The `break` of the outer loop sets the index right. */
  lemma OuterBreaks(m: Machine, s: Stmt, c: Config, f: Config) returns (r: Config)
    requires AtOuter(m, s, c) && f.p.Valid() && Almost(PushLoop(c.p, OuterSlot(m, c)), f.p)
    requires f.i == c.i + Size(s) - 2 && !f.halted
    ensures Reaches(m, f, r, 2) && r.p.Valid() && !r.halted && r.i == c.i + Size(s)
    ensures r.log == f.log + [Event(m.code[f.i].at, Word(Break))] && !r.p.fail && Restored(c.p, r.p)
  {
    hide Step, Steps, Reaches, TokenOf, Spelling, Plain, Flat, Find, Holds, WellFormed, IfDepth, LoopDepth;
    OuterLayout(m, c.i, s);
    StepBreakOn(m, f);
    First(m, f);
    var g := Step(m, f);
    StepDone(m, g);
    Next(m, f, g, 1);
    r := Step(m, g);
  }

  /** The `fi` after the inner loop closes its own `if`, or the one outside the outer loop. */
  lemma OuterFi(m: Machine, s: Stmt, c: Config, slot: ItefSlot, f: Config) returns (r: Config)
    requires AtOuter(m, s, c) && f.p.Valid() && slot.state == ItefThen && !f.halted && f.i == c.i + Size(s) - 3
    requires var q := PushIf(PushLoop(c.p, OuterSlot(m, c)), slot); Restored(q, f.p) || Dropped(q, f.p)
    ensures Reaches(m, f, r, 1) && r.p.Valid() && !r.halted && r.i == f.i + 1 && r.log == f.log && r.p.fail == f.p.fail
    ensures Almost(PushLoop(c.p, OuterSlot(m, c)), r.p)
  {
    hide Step, Steps, Reaches, TokenOf, Spelling, Plain, Flat, Holds, WellFormed, IfDepth, LoopDepth;
    OuterLayout(m, c.i, s);
    StepFi(m, f);
    First(m, f);
    r := Step(m, f);
  }

  lemma OuterParts(s: Stmt)
    requires IsOuter(s)
    ensures IfDepth(s) == IfDepth(s.body) == IfDepth(s.body.first) == 1 + IfDepth(s.body.first.thn)
    ensures LoopDepth(s) == 1 + LoopDepth(s.body) && LoopDepth(s.body) == LoopDepth(s.body.first) == LoopDepth(s.body.first.thn)
    ensures WellFormed(s) ==> WellFormed(s.body) && WellFormed(s.body.first) && WellFormed(s.body.first.thn)
    ensures NoDirectLoop(s.body)
  {
    hide IsInner, Plain;
    var first := s.body.first;
    assert IfDepth(s.body) == Max(IfDepth(first), IfDepth(s.body.second));
    assert LoopDepth(s.body) == Max(LoopDepth(first), LoopDepth(s.body.second));
    assert IfDepth(first) == 1 + Max(IfDepth(first.thn), IfDepth(first.els));
    assert LoopDepth(first) == Max(LoopDepth(first.thn), LoopDepth(first.els));
    assert NoDirectLoop(s.body) == (NoDirectLoop(first) && NoDirectLoop(s.body.second));
  }

  lemma OuterRuns(m: Machine, s: Stmt, c: Config, fuel: nat) returns (r: Config, n: nat)
    requires AtOuter(m, s, c)
    ensures var t := Eval(EnvOf(m), s, c.i, false, c.log, c.p.fail, fuel);
            Keeps(m, c, s, t, fuel, r, n) && (t.Normal? ==> Restored(c.p, r.p))
  {
    hide Step, Steps, Reaches, TokenOf, Spelling, Plain, Flat, Holds, Eval, IsInner, WellFormed, IfDepth, LoopDepth, NoDirectLoop;
    OuterLayout(m, c.i, s);
    LayoutLoop(m, c.i, s);
    OuterParts(s);
    EvalLoop(EnvOf(m), s, c.i, false, c.log, c.p.fail, fuel);
    if fuel == 0 {
      AtOnce(m, c);
      r, n := c, 0;
    } else {
      var d := OpenLoop(m, s, c);
      if m.world(d.log) {
        var e := Inert(m, s.body, d);
        Join(m, c, d, e, 2, Size(s.body));
        r := CloseLoop(m, s, c, e, false);
        n := Size(s);
        Join(m, c, e, r, n - 1, 1);
      } else {
        r, n := OuterTurn(m, s, c, d, fuel);
        Join(m, c, d, r, 2, n);
        n := 2 + n;
      }
    }
  }

  /** The only turn of the outer loop. */
  lemma OuterTurn(m: Machine, s: Stmt, c: Config, d: Config, fuel: nat) returns (r: Config, n: nat)
    requires AtOuter(m, s, c) && fuel > 0
    requires d == Config(PushLoop(c.p, OuterSlot(m, c)).(fail := false), c.i + 2, d.log, false)
    requires d.log == c.log + [Event(m.code[c.i].at, s.cond)] && !m.world(d.log)
    ensures var t := Eval(EnvOf(m), s, c.i, false, c.log, c.p.fail, fuel);
            && Reaches(m, d, r, n) && r.p.Valid() && !r.halted && r.log == t.log
            && (t.Normal? || t.Timeout?)
            && (t.Timeout? ==> r.Running(m) && n >= fuel)
            && (t.Normal? ==> r.i == c.i + Size(s) && r.p.fail == t.fail && Restored(c.p, r.p))
  {
    hide Step, Steps, Reaches, TokenOf, Spelling, Plain, Flat, Holds, Eval, IsInner, Restored, Almost, Dropped;
    OuterLayout(m, c.i, s);
    EvalLoop(EnvOf(m), s, c.i, false, c.log, c.p.fail, fuel);
    EvalSeq(EnvOf(m), s.body, d.i, true, d.log, false, fuel);
    var f;
    f, n := OuterFirst(m, s, c, d, fuel);
    r := f;
    if Eval(EnvOf(m), s.body.first, d.i, true, d.log, false, fuel).Normal? {
      r := OuterBreaks(m, s, c, f);
      EvalBreak(EnvOf(m), s.body.second, f.i, f.log, f.p.fail, fuel);
      Join(m, d, f, r, n, 2);
      n := n + 2;
    }
  }

  /** The inner loop is run, and the `fi` after it. */
  lemma OuterInside(m: Machine, s: Stmt, c: Config, d: Config, e: Config, fuel: nat) returns (r: Config, n: nat)
    requires AtOuter(m, s, c) && e.i + Size(s.body.first.thn) <= |m.code|
    requires d == Config(PushLoop(c.p, OuterSlot(m, c)).(fail := false), c.i + 2, d.log, false)
    requires e == Config(PushIf(d.p, ItefSlot(ItefThen, false, false)).(fail := false), d.i + 2, e.log, false)
    ensures var t := Eval(EnvOf(m), s.body.first.thn, e.i, true, e.log, false, fuel);
            && Reaches(m, e, r, n) && r.p.Valid() && !r.halted && r.log == t.log
            && (t.Normal? || t.Timeout?)
            && (t.Timeout? ==> r.Running(m) && n >= fuel)
            && (t.Normal? ==> r.i == c.i + Size(s) - 2 && r.p.fail == t.fail && Almost(PushLoop(c.p, OuterSlot(m, c)), r.p))
  {
    hide Step, Steps, Reaches, TokenOf, Spelling, Plain, Flat, Holds, Eval, IsInner, WellFormed, IfDepth, LoopDepth, NoDirectLoop, Almost;
    OuterLayout(m, c.i, s);
    OuterParts(s);
    LayoutIf(m, d.i, s.body.first);
    r, n := InnerRuns(m, s.body.first.thn, e, true, fuel);
    if Eval(EnvOf(m), s.body.first.thn, e.i, true, e.log, false, fuel).Normal? {
      var f := OuterFi(m, s, c, e.p.ItefTop(), r);
      Join(m, e, r, f, n, 1);
      r, n := f, n + 1;
    }
  }

  /** The `if` in the outer loop. */
  lemma OuterFirst(m: Machine, s: Stmt, c: Config, d: Config, fuel: nat) returns (r: Config, n: nat)
    requires AtOuter(m, s, c) && d.i + Size(s.body.first) <= |m.code|
    requires d == Config(PushLoop(c.p, OuterSlot(m, c)).(fail := false), c.i + 2, d.log, false)
    ensures var t := Eval(EnvOf(m), s.body.first, d.i, true, d.log, false, fuel);
            && Keeps(m, d, s.body.first, t, fuel, r, n)
            && (t.Normal? ==> Almost(PushLoop(c.p, OuterSlot(m, c)), r.p))
  {
    hide Step, Steps, Reaches, TokenOf, Spelling, Plain, Flat, Holds, Eval, IsInner, WellFormed, IfDepth, LoopDepth, NoDirectLoop;
    var first := s.body.first;
    OuterLayout(m, c.i, s);
    OuterParts(s);
    LayoutIf(m, d.i, first);
    EvalCond(EnvOf(m), first, d.i, true, d.log, false, fuel);
    var e := OpenIf(m, first, d);
    if m.world(e.log) {
      r, n := IfSkipped(m, first, d, e);
      Join(m, d, e, r, 2, n);
      n := 2 + n;
    } else {
      r, n := OuterInside(m, s, c, d, e, fuel);
      Join(m, d, e, r, 2, n);
      n := 2 + n;
    }
  }

  /** The outer loop, and the last `fi`. */
  lemma RepairedInside(m: Machine, s: Stmt, e: Config, depth: nat, fuel: nat) returns (r: Config, n: nat)
    requires RunsScript(m, s, depth) && s.Cond? && IsOuter(s.thn) && s.els.Skip?
    requires IfDepth(s.thn) == 2 && LoopDepth(s.thn) == 2 && depth > 3 && Size(s.thn) + 2 <= |m.code|
    requires e == Config(PushIf(Fresh(depth), ItefSlot(ItefThen, false, false)).(fail := false), 2, e.log, false)
    ensures var t := Eval(EnvOf(m), s.thn, 2, false, e.log, false, fuel);
            && Reaches(m, e, r, n) && !r.halted && r.log == t.log && (t.Normal? || t.Timeout?)
            && (t.Normal? ==> !r.Running(m) && r.p.fail == t.fail)
            && (t.Timeout? ==> r.Running(m) && n >= fuel)
  {
    hide Step, Steps, Reaches, TokenOf, Spelling, Plain, Flat, Holds, Eval, IfDepth, LoopDepth, NoDirectLoop;
    LayoutIf(m, 0, s);
    SizeOf(s);
    OuterLayout(m, 2, s.thn);
    r, n := OuterRuns(m, s.thn, e, fuel);
    if Eval(EnvOf(m), s.thn, 2, false, e.log, false, fuel).Normal? {
      var f := CloseIf(m, Fresh(depth), ItefSlot(ItefThen, false, false), r);
      Join(m, e, r, f, n, 1);
      r, n := f, n + 1;
    }
  }

  /** The whole script follows the tree, however far. */
  lemma RepairedTracks(m: Machine, z: Words, a: Words, b: Words, c: Words, d: Words, depth: nat, fuel: nat)
    requires RunsScript(m, Repaired(z, a, b, c, d), depth)
    ensures Caught(m, Repaired(z, a, b, c, d), depth, fuel)
  {
    hide Step, Steps, Reaches, TokenOf, Spelling, Plain, Flat, Holds, Eval, WellFormed, NoDirectLoop, IfDepth, LoopDepth;
    var s := Repaired(z, a, b, c, d);
    RepairedParts(z, a, b, c, d);
    LayoutIf(m, 0, s);
    EvalCond(EnvOf(m), s, 0, false, [], false, fuel);
    var e := OpenIf(m, s, Init(depth));
    if m.world(e.log) {
      var r, k := IfSkipped(m, s, Init(depth), e);
      Join(m, Init(depth), e, r, 2, k);
      TracksBy(m, s, depth, fuel, r, 2 + k);
    } else {
      var r, k := RepairedInside(m, s, e, depth, fuel);
      Join(m, Init(depth), e, r, 2, k);
      TracksBy(m, s, depth, fuel, r, 2 + k);
    }
  }

  /** An `if` without else part whose condition has failed: to its `fi` and over it. */
  lemma IfSkipped(m: Machine, s: Stmt, c: Config, e: Config) returns (r: Config, n: nat)
    requires s.Cond? && s.els.Skip? && Start(m, c, s) && c.p.Enabled() && c.p.iendx + 1 < |c.p.ie|
    requires e == Config(PushIf(c.p, ItefSlot(ItefThen, false, true)).(fail := false), c.i + 2, e.log, false)
    ensures Reaches(m, e, r, n) && r.p.Valid() && !r.halted && r.log == e.log && !r.p.fail
    ensures r.i == c.i + Size(s) && Restored(c.p, r.p)
  {
    hide Step, Steps, Reaches, TokenOf, Spelling, Plain, Flat, Holds, WellFormed, NoDirectLoop, IfDepth, LoopDepth;
    LayoutIf(m, c.i, s);
    var f, k := SkipThen(m, s, c, e);
    r := CloseIf(m, c.p, ItefSlot(ItefThen, false, true), f);
    n := k + 1;
    Join(m, e, f, r, k, 1);
  }

  lemma TracksBy(m: Machine, s: Stmt, depth: nat, fuel: nat, r: Config, n: nat)
    requires 0 < depth && |m.code| == Size(s) && Reaches(m, Init(depth), r, n) && !r.halted
    requires var t := TreeRun(m, s, fuel);
             && r.log == t.log && (t.Normal? || t.Timeout?)
             && (t.Normal? ==> !r.Running(m) && r.p.fail == t.fail)
             && (t.Timeout? ==> r.Running(m) && n >= fuel)
    ensures Caught(m, s, depth, fuel)
  {
    hide Step, Steps, Eval, Flat;
    assert Tracks(m, s, depth, fuel, n);
  }

  lemma RepairedParts(z: Words, a: Words, b: Words, c: Words, d: Words)
    ensures var s := Repaired(z, a, b, c, d);
            && IsOuter(s.thn) && s.els.Skip? && IfDepth(s) == 3 && LoopDepth(s) == 2
            && IfDepth(s.thn) == 2 && LoopDepth(s.thn) == 2
            && (WellFormed(s) ==> WellFormed(s.thn))
  {
    hide Plain;
    var s := Repaired(z, a, b, c, d);
    OuterParts(s.thn);
    assert IfDepth(s) == 1 + Max(IfDepth(s.thn), IfDepth(s.els));
    assert LoopDepth(s) == Max(LoopDepth(s.thn), LoopDepth(s.els));
  }

  lemma RepairedBreaks(z: Words, a: Words, b: Words, c: Words, d: Words)
    ensures var s := Repaired(z, a, b, c, d); !BreaksPlaced(s, Top) && LoopsSeparated(s, Top)
  {
    var s := Repaired(z, a, b, c, d);
    var first := s.thn.body.first;
    assert !BreaksPlaced(first.thn.body, Body);
    assert !BreaksPlaced(first, Body);
    assert !HasBreak(first) && !BreaksPlaced(s.thn.body, Body);
    assert LoopsSeparated(first.thn, Under);
    assert LoopsSeparated(BreakOut, Body);
    assert LoopsSeparated(s.thn.body, Body);
  }

  /**
   Outside the class of `SoundExactly` a misplaced `break` need not show: this script has one,
   and yet in every world the machine runs it as the tree says.
   */
  lemma RepairedAgrees(m: Machine, z: Words, a: Words, b: Words, c: Words, d: Words, depth: nat)
    requires RunsScript(m, Repaired(z, a, b, c, d), depth)
    ensures !BreaksPlaced(Repaired(z, a, b, c, d), Top) && LoopsSeparated(Repaired(z, a, b, c, d), Top)
    ensures Agrees(m, Repaired(z, a, b, c, d), depth)
  {
    hide Caught, Agrees, BreaksPlaced, LoopsSeparated, RunsScript;
    RepairedBreaks(z, a, b, c, d);
    RunsParts(m, Repaired(z, a, b, c, d), depth);
    forall fuel: nat ensures Caught(m, Repaired(z, a, b, c, d), depth, fuel) {
      RepairedTracks(m, z, a, b, c, d, depth, fuel);
    }
    TrackedAgrees(m, Repaired(z, a, b, c, d), depth);
  }

  lemma RunsParts(m: Machine, s: Stmt, depth: nat)
    requires RunsScript(m, s, depth)
    ensures 0 < depth && |m.code| == Size(s)
  {
  }

  // ----- When failures are ignored -----

  /** The inner loop as a whole script, with failures ignored. */
  lemma IgnoredRuns(m: Machine, s: Stmt, depth: nat, fuel: nat) returns (r: Config, n: nat)
    requires m.Ordered() && WellFormed(s) && Holds(m, 0, Flat(s)) && IsInner(s) && m.ignore
    requires IfDepth(s) < depth && LoopDepth(s) < depth
    ensures var t := Eval(EnvOf(m), s, 0, false, [], false, fuel);
            Keeps(m, Init(depth), s, t, fuel, r, n) && (t.Normal? ==> !t.fail && Restored(Fresh(depth), r.p))
  {
    hide Step, Steps, Flat, Eval, WellFormed, Holds, IfDepth, LoopDepth, Reaches;
    LayoutLoop(m, 0, s);
    r, n := InnerRuns(m, s, Init(depth), false, fuel);
    InnerSucceeds(EnvOf(m), s, 0, false, [], false, fuel);
  }

  /** A loop never leaves a failed status behind. */
  lemma {:induction false} InnerSucceeds(env: Env, s: Stmt, i: nat, inLoop: bool, log: Log, fail: bool, fuel: nat)
    requires IsInner(s) && i + Size(s) <= |env.pos|
    ensures Eval(env, s, i, inLoop, log, fail, fuel).Normal? ==> !Eval(env, s, i, inLoop, log, fail, fuel).fail
    decreases fuel
  {
    hide Eval, Flat;
    EvalLoop(env, s, i, inLoop, log, fail, fuel);
    var log' := log + [Event(env.pos[i], s.cond)];
    if fuel > 0 && env.world(log') == s.until {
      EvalCond(env, s.body, i + 2, true, log', false, fuel);
      var log'' := log' + [Event(env.pos[i + 2], s.body.cond)];
      if env.world(log'') {
        InnerSucceeds(env, s, i, inLoop, log'', false, fuel - 1);
      } else {
        EvalBreak(env, s.body.thn, i + 4, log'', false, fuel);
      }
    }
  }

  /** Where the machine is after enough steps for this fuel, in the terms of the tree. */
  ghost predicate IgnoredTracks(m: Machine, s: Stmt, depth: nat, fuel: nat, n: nat)
    requires 0 < depth && |m.code| == Size(s)
  {
    var c := After(m, depth, n);
    var r := TreeRun(m, s, fuel);
    && c.log == r.log && !c.halted
    && (r.Timeout? || (r.Normal? && !r.fail))
    && (r.Normal? ==> !c.Running(m) && c.p.fail == ByBreak(r.log))
    && (r.Timeout? ==> c.Running(m) && n >= fuel)
  }

  lemma IgnoredFollows(m: Machine, s: Stmt, depth: nat, fuel: nat) returns (n: nat)
    requires RunsScript(m, s, depth) && IsInner(s) && m.ignore
    ensures IgnoredTracks(m, s, depth, fuel, n)
  {
    hide Step, Steps, Flat, Eval, WellFormed, Holds, IfDepth, LoopDepth, IsInner;
    var r;
    r, n := IgnoredRuns(m, s, depth, fuel);
  }

  /**
   With failures ignored, `while a; do if b; then break; fi; done` runs the tree's commands, but
   it ends with a failed status exactly when it ends by its `break`.
   */
  lemma IgnoredExactly(m: Machine, s: Stmt, depth: nat, end: End)
    requires RunsScript(m, s, depth) && IsInner(s) && m.ignore
    ensures MachineEnds(m, depth, end) <==>
              !end.stopped && end.fail == ByBreak(end.log) && TreeEnds(m, s, End(end.log, false, false))
  {
    hide Step, Steps, Flat, Eval, Fresh, WellFormed, Holds, IfDepth, LoopDepth, IsInner;
    if MachineEnds(m, depth, end) {
      var n: nat :| var c := After(m, depth, n); !c.Running(m) && end == End(c.log, c.p.fail, c.halted);
      var k := IgnoredFollows(m, s, depth, n);
      if k <= n {
        if !After(m, depth, k).Running(m) {
          RestIsFinal(m, depth, k, n);
        }
      } else {
        RestIsFinal(m, depth, n, k);
      }
      var r := TreeRun(m, s, n);
      assert r.Normal? && End(end.log, false, false) == End(r.log, r.fail, false);
    }
    if TreeEnds(m, s, End(end.log, false, false)) {
      var fuel: nat :| TreeRun(m, s, fuel).Normal? && TreeRun(m, s, fuel).log == end.log;
      var k := IgnoredFollows(m, s, depth, fuel);
      assert !After(m, depth, k).Running(m);
    }
  }

  /** Followed by a command, the same script agrees with the tree in every world. */
  lemma IgnoredHides(m: Machine, s: Stmt, x: Words, depth: nat)
    requires RunsScript(m, Seq(s, Cmd(x)), depth) && IsInner(s) && m.ignore
    ensures !BreaksPlaced(Seq(s, Cmd(x)), Top) && Agrees(m, Seq(s, Cmd(x)), depth)
  {
    hide Step, Steps, Flat, Eval, Fresh, WellFormed, Holds, IfDepth, LoopDepth, Caught, Agrees;
    assert !BreaksPlaced(s.body, Body);
    forall fuel: nat ensures Caught(m, Seq(s, Cmd(x)), depth, fuel) {
      IgnoredThen(m, s, x, depth, fuel);
    }
    TrackedAgrees(m, Seq(s, Cmd(x)), depth);
  }

  lemma IgnoredThen(m: Machine, s: Stmt, x: Words, depth: nat, fuel: nat)
    requires RunsScript(m, Seq(s, Cmd(x)), depth) && IsInner(s) && m.ignore
    ensures Caught(m, Seq(s, Cmd(x)), depth, fuel)
  {
    hide Step, Steps, Eval, Holds, Reaches, IsInner, Plain, Flat;
    var both := Seq(s, Cmd(x));
    SizeOf(both);
    SizeOf(Cmd(x));
    HoldsPart(m, 0, Flat(both), Flat(s), Flat(Cmd(x))) by { FlatSeq(both); }
    CommandAt(m, Size(s), x);
    EvalSeq(EnvOf(m), both, 0, false, [], false, fuel);
    var r, n := IgnoredRuns(m, s, depth, fuel);
    if Eval(EnvOf(m), s, 0, false, [], false, fuel).Timeout? {
      TracksBy(m, both, depth, fuel, r, n);
    } else {
      assert WellFormed(Cmd(x));
      StepCmd(m, r);
      Next(m, Init(depth), r, n);
      EvalCmd(EnvOf(m), x, r.i, r.log, false, fuel);
      TracksBy(m, both, depth, fuel, Step(m, r), n + 1);
    }
  }

  lemma CommandAt(m: Machine, i: nat, x: Words)
    requires Holds(m, i, Flat(Cmd(x)))
    ensures i < |m.code| && m.code[i].words == x
  {
    HoldsAt(m, i, Flat(Cmd(x)), 0);
  }
}
