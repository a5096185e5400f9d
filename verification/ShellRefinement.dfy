/**
 The flat machine refines the structured meaning of the script it runs.
 */
module ShellRefinement {
  import opened Options
  import opened ShellParser
  import opened ShellTree
  import opened ShellMachine

  /** The machine's code from index `i` on is `words`. */
  ghost predicate Holds(m: Machine, i: nat, words: seq<Words>) {
    && i + |words| <= |m.code|
    && forall k {:trigger words[k]} :: 0 <= k < |words| ==> m.code[i + k].words == words[k]
  }

  lemma HoldsPart(m: Machine, i: nat, words: seq<Words>, a: seq<Words>, b: seq<Words>)
    requires Holds(m, i, words) && words == a + b
    ensures Holds(m, i, a) && Holds(m, i + |a|, b)
  {
    forall k | 0 <= k < |b| ensures m.code[i + |a| + k].words == b[k] {
      assert words[|a| + k] == b[k];
    }
    forall k | 0 <= k < |a| ensures m.code[i + k].words == a[k] {
      assert words[k] == a[k];
    }
  }

  lemma HoldsSize(m: Machine, i: nat, s: Stmt)
    requires Holds(m, i, Flat(s))
    ensures i + Size(s) <= |m.code|
  {
  }

  lemma HoldsAt(m: Machine, i: nat, words: seq<Words>, k: nat)
    requires Holds(m, i, words) && k < |words|
    ensures m.code[i + k].words == words[k]
  {
  }

  /** The stacks of `q` are those of `p`, up to the slots above the indices. */
  ghost predicate Restored(p: Parser, q: Parser) {
    && |q.lp| == |p.lp| && |q.ie| == |p.ie|
    && q.lpndx == p.lpndx < |p.lp| && q.iendx == p.iendx < |p.ie|
    && q.scripted == p.scripted
    && (forall k :: 0 <= k <= p.lpndx ==> q.lp[k] == p.lp[k])
    && (forall k :: 0 <= k <= p.iendx ==> q.ie[k] == p.ie[k])
  }

  /** The same, except that the innermost loop has been switched off. */
  ghost predicate RestoredOff(p: Parser, q: Parser)
    requires p.Valid()
  {
    Restored(p.WithLoopTop(p.LoopTop().(enable := false)), q)
  }

  /** Not in the middle of a condition. */
  ghost predicate Ready(p: Parser) {
    p.Valid() && !p.InLoopCondition() && p.ItefTop().state != ItefIf && p.scripted
  }

  ghost predicate Fits(p: Parser, s: Stmt)
    requires p.Valid()
  {
    p.iendx + IfDepth(s) < |p.ie| && p.lpndx + LoopDepth(s) < |p.lp|
  }

  ghost predicate Start(m: Machine, c: Config, s: Stmt) {
    && Ready(c.p) && !c.halted && m.Ordered()
    && WellFormed(s) && Fits(c.p, s) && Holds(m, c.i, Flat(s))
  }

  /** Nothing has happened but that the index moved on by `n` commands. */
  ghost predicate Passed(c: Config, r: Config, n: nat) {
    r.p.Valid() && r.i == c.i + n && !r.halted && r.log == c.log && r.p.fail == c.p.fail && Restored(c.p, r.p)
  }

  // ----- What one step does, command by command -----

  function PushIf(p: Parser, slot: ItefSlot): (q: Parser)
    requires p.Valid() && p.iendx + 1 < |p.ie|
    ensures q.Valid() && q.ItefTop() == slot
  {
    p.(jump := None, iendx := p.iendx + 1, ie := p.ie[p.iendx + 1 := slot])
  }

  function PushLoop(p: Parser, slot: LoopSlot): (q: Parser)
    requires p.Valid() && p.lpndx + 1 < |p.lp| && slot.iendx < |p.ie| && !slot.state.LoopNormal?
    requires p.lpndx > 0 ==> p.LoopTop().state == LoopDo
    ensures q.Valid() && q.LoopTop() == slot
  {
    p.(jump := None, lpndx := p.lpndx + 1, lp := p.lp[p.lpndx + 1 := slot])
  }

  lemma ScanLoopOther(p: Parser, words: Words, here: int)
    requires p.Valid() && !p.InLoopCondition()
    requires Head(words) !in {While, Until, Do, Done}
    ensures ScanLoop(p, words, here) == Scan(p, words, true)
  {
    hide TokenOf;
  }

  lemma ScanItefOther(p: Parser, words: Words)
    requires p.Valid() && p.ItefTop().state != ItefIf
    requires Head(words) !in {If, Then, Else, Fi}
    ensures ScanItef(p, words) == Scan(p, words, true)
  {
    hide TokenOf;
  }

  /** A command once both keyword scans have accepted it. */
  lemma ParseScanned(p: Parser, words: Words, here: int, world: World, log: Log, a: Scan, b: Scan)
    requires p.Valid() && a.p.Valid() && b.p.Valid() && a.ok && b.ok
    requires ScanLoop(p, words, here) == a && ScanItef(a.p, a.words) == b
    ensures ParseCommand(p, words, here, world, log) ==
            if b.words == [] || !b.p.Enabled() then Outcome(b.p, log, true) else Execute(b.p, b.words, here, world, log)
  {
    hide ScanLoop, ScanItef, Execute, TokenOf;
  }

  lemma ParseSimple(p: Parser, words: Words, here: int, world: World, log: Log)
    requires Ready(p) && words != [] && Head(words) in {Other, Break}
    ensures ParseCommand(p, words, here, world, log) ==
            if p.Enabled() then Execute(p, words, here, world, log) else Outcome(p, log, true)
  {
    hide ScanLoop, ScanItef, Execute, TokenOf, ParseCommand;
    ScanLoopOther(p, words, here);
    ScanItefOther(p, words);
    ParseScanned(p, words, here, world, log, Scan(p, words, true), Scan(p, words, true));
  }

  lemma ParseItef(p: Parser, words: Words, here: int, world: World, log: Log)
    requires p.Valid() && !p.InLoopCondition() && Head(words) in {If, Then, Else, Fi}
    requires ScanItef(p, words).ok
    ensures ParseCommand(p, words, here, world, log) ==
            var b := ScanItef(p, words);
            if b.words == [] || !b.p.Enabled() then Outcome(b.p, log, true) else Execute(b.p, b.words, here, world, log)
  {
    hide ScanLoop, ScanItef, Execute, TokenOf, ParseCommand;
    ScanLoopOther(p, words, here);
    ParseScanned(p, words, here, world, log, Scan(p, words, true), ScanItef(p, words));
  }

  lemma StepSucceeds(m: Machine, c: Config, p: Parser, log: Log)
    requires c.p.Valid() && c.Running(m)
    requires ParseCommand(c.p.(jump := None), m.code[c.i].words, m.code[c.i].at, m.world, c.log) == Outcome(p, log, true)
    requires p.jump == None
    ensures Step(m, c) == Config(p, c.i + 1, log, false)
  {
    hide ParseCommand;
  }

  /** A plain command or `break` where commands are disabled is passed over. */
  lemma StepDisabled(m: Machine, c: Config)
    requires Ready(c.p) && c.Running(m) && !c.p.Enabled()
    requires m.code[c.i].words != [] && Head(m.code[c.i].words) in {Other, Break}
    ensures Step(m, c) == Config(c.p.(jump := None), c.i + 1, c.log, false)
  {
    hide Step, ParseCommand, TokenOf;
    var p := c.p.(jump := None);
    ParseSimple(p, m.code[c.i].words, m.code[c.i].at, m.world, c.log);
    StepSucceeds(m, c, p, c.log);
  }

  lemma StepCmd(m: Machine, c: Config)
    requires Ready(c.p) && c.Running(m) && c.p.Enabled() && Plain(m.code[c.i].words)
    ensures var log := c.log + [Event(m.code[c.i].at, m.code[c.i].words)];
            var failed := m.world(log);
            var p := c.p.(jump := None, fail := failed);
            Step(m, c) == if failed && !m.ignore then Config(p, c.i, log, true) else Config(p, c.i + 1, log, false)
  {
    hide ParseCommand, TokenOf;
    ParseSimple(c.p.(jump := None), m.code[c.i].words, m.code[c.i].at, m.world, c.log);
  }

  lemma StepBreak(m: Machine, c: Config)
    requires Ready(c.p) && c.Running(m) && c.p.Enabled() && m.code[c.i].words == Word(Break)
    requires c.p.LoopTop().state == LoopDo ==> c.p.LoopTop().iendx == c.p.iendx
    ensures Step(m, c) == Config(BreakLoop(c.p).(jump := None, fail := false), c.i + 1,
                                 c.log + [Event(m.code[c.i].at, Word(Break))], false)
  {
    hide ParseCommand, TokenOf, Spelling;
    ParseSimple(c.p.(jump := None), m.code[c.i].words, m.code[c.i].at, m.world, c.log);
  }

  lemma ScanIf(p: Parser, cond: Words)
    requires Ready(p) && Plain(cond) && p.iendx + 1 < |p.ie| && p.jump == None
    ensures ScanItef(p, Word(If) + cond) == Scan(PushIf(p, ItefSlot(ItefIf, !p.Enabled(), false)), cond, true)
    ensures Head(Word(If) + cond) == If
  {
    hide TokenOf, Spelling;
    assert (Word(If) + cond)[1..] == cond;
  }

  lemma ExecuteIfCondition(p: Parser, cond: Words, here: int, world: World, log: Log)
    requires Ready(p) && Plain(cond) && p.iendx + 1 < |p.ie|
    ensures var log' := log + [Event(here, cond)];
            Execute(PushIf(p, ItefSlot(ItefIf, false, false)), cond, here, world, log)
            == Outcome(PushIf(p, ItefSlot(ItefIf, false, world(log'))).(fail := false), log', true)
  {
    hide TokenOf;
  }

  lemma StepIf(m: Machine, c: Config, cond: Words)
    requires Ready(c.p) && c.Running(m) && m.code[c.i].words == Word(If) + cond && Plain(cond)
    requires c.p.iendx + 1 < |c.p.ie|
    ensures var log := c.log + [Event(m.code[c.i].at, cond)];
            Step(m, c) ==
              if c.p.Enabled() then
                Config(PushIf(c.p, ItefSlot(ItefIf, false, m.world(log))).(fail := false), c.i + 1, log, false)
              else
                Config(PushIf(c.p, ItefSlot(ItefIf, true, false)), c.i + 1, c.log, false)
  {
    hide Step, ParseCommand, TokenOf, Spelling, ScanItef, Execute;
    var words, here := m.code[c.i].words, m.code[c.i].at;
    var p := c.p.(jump := None);
    ScanIf(p, cond);
    ParseItef(p, words, here, m.world, c.log);
    if c.p.Enabled() {
      var log := c.log + [Event(here, cond)];
      ExecuteIfCondition(c.p, cond, here, m.world, c.log);
      StepSucceeds(m, c, PushIf(c.p, ItefSlot(ItefIf, false, m.world(log))).(fail := false), log);
    } else {
      StepSucceeds(m, c, PushIf(c.p, ItefSlot(ItefIf, true, false)), c.log);
    }
  }

  lemma StepThen(m: Machine, c: Config)
    requires c.p.Valid() && c.Running(m) && m.code[c.i].words == Word(Then)
    requires c.p.ItefTop().state == ItefIf && !c.p.InLoopCondition()
    ensures Step(m, c) == Config(c.p.WithItefTop(c.p.ItefTop().(state := ItefThen)).(jump := None), c.i + 1, c.log, false)
  {
    hide ParseCommand, TokenOf, Spelling;
    ParseItef(c.p.(jump := None), m.code[c.i].words, m.code[c.i].at, m.world, c.log);
  }

  lemma StepElse(m: Machine, c: Config)
    requires c.p.Valid() && c.Running(m) && m.code[c.i].words == Word(Else)
    requires c.p.ItefTop().state == ItefThen && !c.p.InLoopCondition()
    ensures Step(m, c) == Config(c.p.WithItefTop(c.p.ItefTop().(state := ItefElse)).(jump := None), c.i + 1, c.log, false)
  {
    hide ParseCommand, TokenOf, Spelling;
    ParseItef(c.p.(jump := None), m.code[c.i].words, m.code[c.i].at, m.world, c.log);
  }

  lemma StepFi(m: Machine, c: Config)
    requires c.p.Valid() && c.Running(m) && m.code[c.i].words == Word(Fi) && !c.p.InLoopCondition()
    requires c.p.ItefTop().state == ItefThen || c.p.ItefTop().state == ItefElse
    ensures c.p.iendx > 0
    ensures Step(m, c) == Config(c.p.(iendx := c.p.iendx - 1, jump := None), c.i + 1, c.log, false)
  {
    hide ParseCommand, TokenOf, Spelling;
    ParseItef(c.p.(jump := None), m.code[c.i].words, m.code[c.i].at, m.world, c.log);
  }

  lemma ScanEnter(p: Parser, until: bool, cond: Words, here: int)
    requires Ready(p) && Plain(cond) && p.lpndx + 1 < |p.lp| && p.jump == None
    ensures var state := if until then LoopUntil else LoopWhile;
            ScanLoop(p, Word(LoopToken(until)) + cond, here)
            == Scan(PushLoop(p, LoopSlot(state, p.Enabled(), p.iendx, here)), cond, true)
  {
    hide TokenOf, Spelling;
    assert (Word(LoopToken(until)) + cond)[1..] == cond;
  }

  lemma ExecuteLoopCondition(p: Parser, until: bool, enable: bool, cond: Words, here: int, world: World, log: Log)
    requires Ready(p) && Plain(cond) && p.lpndx + 1 < |p.lp|
    ensures var state := if until then LoopUntil else LoopWhile;
            var log' := log + [Event(here, cond)];
            Execute(PushLoop(p, LoopSlot(state, enable, p.iendx, here)), cond, here, world, log)
            == Outcome(PushLoop(p, LoopSlot(state, world(log') == until, p.iendx, here)).(fail := false), log', true)
  {
    hide TokenOf;
  }

  lemma StepLoop(m: Machine, c: Config, until: bool, cond: Words)
    requires Ready(c.p) && c.Running(m) && Plain(cond)
    requires m.code[c.i].words == Word(LoopToken(until)) + cond
    requires c.p.lpndx + 1 < |c.p.lp|
    ensures var log := c.log + [Event(m.code[c.i].at, cond)];
            var state := if until then LoopUntil else LoopWhile;
            Step(m, c) ==
              if c.p.ItefEnabled() then
                Config(PushLoop(c.p, LoopSlot(state, m.world(log) == until, c.p.iendx, m.code[c.i].at)).(fail := false),
                       c.i + 1, log, false)
              else
                Config(PushLoop(c.p, LoopSlot(state, false, c.p.iendx, m.code[c.i].at)), c.i + 1, c.log, false)
  {
    hide Step, ParseCommand, TokenOf, Spelling, ScanLoop, ScanItef, Execute;
    var here := m.code[c.i].at;
    var state := if until then LoopUntil else LoopWhile;
    ParseLoop(c.p, until, cond, here, m.world, c.log);
    if c.p.ItefEnabled() {
      var log := c.log + [Event(here, cond)];
      StepSucceeds(m, c, PushLoop(c.p, LoopSlot(state, m.world(log) == until, c.p.iendx, here)).(fail := false), log);
    } else {
      StepSucceeds(m, c, PushLoop(c.p, LoopSlot(state, false, c.p.iendx, here)), c.log);
    }
  }

  lemma ParseLoop(p: Parser, until: bool, cond: Words, here: int, world: World, log: Log)
    requires Ready(p) && Plain(cond) && p.lpndx + 1 < |p.lp|
    ensures var log' := log + [Event(here, cond)];
            var state := if until then LoopUntil else LoopWhile;
            ParseCommand(p.(jump := None), Word(LoopToken(until)) + cond, here, world, log) ==
              if p.ItefEnabled() then
                Outcome(PushLoop(p, LoopSlot(state, world(log') == until, p.iendx, here)).(fail := false), log', true)
              else
                Outcome(PushLoop(p, LoopSlot(state, false, p.iendx, here)), log, true)
  {
    hide ParseCommand, TokenOf, Spelling, ScanLoop, ScanItef, Execute;
    var state := if until then LoopUntil else LoopWhile;
    var q := PushLoop(p, LoopSlot(state, p.Enabled(), p.iendx, here));
    ScanEnter(p.(jump := None), until, cond, here);
    ScanItefOther(q, cond);
    ParseScanned(p.(jump := None), Word(LoopToken(until)) + cond, here, world, log, Scan(q, cond, true), Scan(q, cond, true));
    if p.ItefEnabled() {
      ExecuteLoopCondition(p, until, p.Enabled(), cond, here, world, log);
    }
  }

  lemma StepDo(m: Machine, c: Config)
    requires c.p.Valid() && c.Running(m) && m.code[c.i].words == Word(Do) && c.p.InLoopCondition()
    ensures Step(m, c) == Config(c.p.WithLoopTop(c.p.LoopTop().(state := LoopDo)).(jump := None), c.i + 1, c.log, false)
  {
    hide TokenOf, Spelling, ScanItef;
    assert m.code[c.i].words[1..] == [];
    ScanItefEmpty(c.p.WithLoopTop(c.p.LoopTop().(state := LoopDo)).(jump := None));
  }

  lemma StepDone(m: Machine, c: Config)
    requires c.p.Valid() && c.Running(m) && m.code[c.i].words == Word(Done) && c.p.LoopTop().state == LoopDo
    ensures Step(m, c).p == LeaveLoop(c.p.(jump := None)).(jump := None)
    ensures Step(m, c).log == c.log && !Step(m, c).halted
    ensures Step(m, c).i == if c.p.LoopTop().enable then Find(m.code, c.p.LoopTop().top, 0) else c.i + 1
  {
    hide TokenOf, Spelling, ScanItef;
    ScanItefEmpty(LeaveLoop(c.p.(jump := None)));
  }

  // ----- Where the parts of a statement stand -----

  lemma LayoutIf(m: Machine, i: nat, s: Stmt)
    requires s.Cond? && Holds(m, i, Flat(s))
    ensures i + Size(s) <= |m.code| && Size(s) >= 3
    ensures m.code[i].words == Word(If) + s.cond
    ensures m.code[i + 1].words == Word(Then)
    ensures Holds(m, i + 2, Flat(s.thn))
    ensures Size(s) == 3 + Size(s.thn) + |FlatElse(s.els)|
    ensures Holds(m, i + 2 + Size(s.thn), FlatElse(s.els))
    ensures m.code[i + Size(s) - 1].words == Word(Fi)
  {
    hide Word, Holds;
    var head := [Word(If) + s.cond, Word(Then)];
    var tail := FlatElse(s.els) + [Word(Fi)];
    assert Flat(s) == head + (Flat(s.thn) + tail);
    HoldsPart(m, i, Flat(s), head, Flat(s.thn) + tail);
    HoldsPart(m, i + 2, Flat(s.thn) + tail, Flat(s.thn), tail);
    HoldsPart(m, i + 2 + Size(s.thn), tail, FlatElse(s.els), [Word(Fi)]);
    HoldsAt(m, i, head, 0);
    HoldsAt(m, i, head, 1);
    HoldsAt(m, i + Size(s) - 1, [Word(Fi)], 0);
  }

  lemma LayoutElse(m: Machine, i: nat, e: Stmt)
    requires !e.Skip? && Holds(m, i, FlatElse(e))
    ensures i < |m.code| && m.code[i].words == Word(Else)
    ensures Holds(m, i + 1, Flat(e)) && |FlatElse(e)| == 1 + Size(e)
  {
    hide Word, Holds, Flat;
    HoldsPart(m, i, FlatElse(e), [Word(Else)], Flat(e));
    HoldsAt(m, i, [Word(Else)], 0);
  }

  lemma LayoutLoop(m: Machine, i: nat, s: Stmt)
    requires s.Loop? && Holds(m, i, Flat(s))
    ensures i + Size(s) <= |m.code| && Size(s) >= 3
    ensures m.code[i].words == Word(LoopToken(s.until)) + s.cond
    ensures m.code[i + 1].words == Word(Do)
    ensures Holds(m, i + 2, Flat(s.body))
    ensures Size(s) == 3 + Size(s.body)
    ensures m.code[i + Size(s) - 1].words == Word(Done)
  {
    hide TokenOf, Spelling;
    var head := [Word(LoopToken(s.until)) + s.cond, Word(Do)];
    var tail := [Word(Done)];
    assert Flat(s) == head + (Flat(s.body) + tail);
    HoldsPart(m, i, Flat(s), head, Flat(s.body) + tail);
    HoldsPart(m, i + 2, Flat(s.body) + tail, Flat(s.body), tail);
    assert head[0] == Word(LoopToken(s.until)) + s.cond && head[1] == Word(Do);
    assert tail[0] == Word(Done);
  }

  /** `c` becomes `r` in `n` steps. */
  ghost predicate Reaches(m: Machine, c: Config, r: Config, n: nat) {
    c.p.Valid() && c.i <= |m.code| && Steps(m, c, n) == r
  }

  lemma First(m: Machine, c: Config)
    requires c.p.Valid() && c.i <= |m.code|
    ensures Reaches(m, c, Step(m, c), 1)
  {
    hide Step;
    assert Steps(m, c, 1) == Steps(m, Step(m, c), 0);
  }

  lemma Join(m: Machine, c: Config, d: Config, r: Config, a: nat, b: nat)
    requires Reaches(m, c, d, a) && Reaches(m, d, r, b)
    ensures Reaches(m, c, r, a + b)
  {
    hide Step;
    StepsAdd(m, c, a, b);
  }

  lemma Next(m: Machine, c: Config, d: Config, a: nat)
    requires Reaches(m, c, d, a)
    ensures Reaches(m, c, Step(m, d), a + 1)
  {
    hide Step;
    assert Steps(m, d, 1) == Steps(m, Step(m, d), 0);
    StepsAdd(m, c, a, 1);
  }

  // ----- Disabled code is inert -----

  /**
   Run where commands are disabled, a statement executes nothing, keeps the status, never
   jumps, takes exactly its own commands and leaves both stacks as it found them. When
   only the loop is off (and no `if` is), that needs the statement to hold no loop at its
   own level.
   */
  lemma {:induction false} Inert(m: Machine, s: Stmt, c: Config) returns (r: Config)
    requires Start(m, c, s)
    requires !c.p.Enabled()
    requires c.p.ItefEnabled() ==> NoDirectLoop(s)
    ensures Reaches(m, c, r, Size(s)) && Passed(c, r, Size(s))
    decreases s, 1
  {
    hide Step;
    match s
    case Skip =>
      r := c;
    case Seq(a, b) =>
      HoldsPart(m, c.i, Flat(s), Flat(a), Flat(b));
      var d := Inert(m, a, c);
      r := Inert(m, b, d);
      Join(m, c, d, r, Size(a), Size(b));
    case Cond(cond, t, e) =>
      r := InertIf(m, s, c);
    case Loop(until, cond, b) =>
      r := InertLoop(m, s, c);
    case _ =>
      assert m.code[c.i].words == Flat(s)[0];
      StepDisabled(m, c);
      r := Step(m, c);
      First(m, c);
  }

  lemma {:induction false} InertIf(m: Machine, s: Stmt, c: Config) returns (r: Config)
    requires s.Cond? && Start(m, c, s) && !c.p.Enabled()
    ensures Reaches(m, c, r, Size(s)) && Passed(c, r, Size(s))
    decreases s, 0
  {
    hide Step, Steps, Reaches, Flat, FlatElse, Holds, Plain, TokenOf, Spelling;
    LayoutIf(m, c.i, s);
    StepIf(m, c, s.cond);
    First(m, c);
    r := Step(m, c);
    StepThen(m, r);
    Next(m, c, r, 1);
    r := Step(m, r);
    var d := Inert(m, s.thn, r);
    Join(m, c, r, d, 2, Size(s.thn));
    r := InertElse(m, s.els, d);
    Join(m, c, d, r, 2 + Size(s.thn), |FlatElse(s.els)|);
    StepFi(m, r);
    Next(m, c, r, Size(s) - 1);
    r := Step(m, r);
  }

  /** The same for the else part of an `if` when that part is not taken. */
  lemma {:induction false} InertElse(m: Machine, e: Stmt, c: Config) returns (r: Config)
    requires Ready(c.p) && !c.halted && m.Ordered() && WellFormed(e) && Fits(c.p, e)
    requires Holds(m, c.i, FlatElse(e)) && c.i < |m.code|
    requires c.p.ItefTop().state == ItefThen && (c.p.ItefTop().disabled || !c.p.ItefTop().ifcond)
    ensures Reaches(m, c, r, |FlatElse(e)|)
    ensures Passed(c.(p := c.p.WithItefTop(r.p.ItefTop())), r, |FlatElse(e)|)
    ensures r.p.ItefTop().state == ItefThen || r.p.ItefTop().state == ItefElse
    decreases e, 2
  {
    hide Step, Steps, Reaches, Flat, Holds, Plain, TokenOf, Spelling;
    if e.Skip? {
      AtOnce(m, c);
      r := c;
    } else {
      LayoutElse(m, c.i, e);
      StepElse(m, c);
      First(m, c);
      r := Step(m, c);
      var d := Inert(m, e, r);
      Join(m, c, r, d, 1, Size(e));
      r := d;
    }
  }

  lemma {:induction false} InertLoop(m: Machine, s: Stmt, c: Config) returns (r: Config)
    requires s.Loop? && Start(m, c, s) && !c.p.ItefEnabled()
    ensures Reaches(m, c, r, Size(s)) && Passed(c, r, Size(s))
    decreases s, 0
  {
    hide Step, Steps, Reaches, Flat, Plain, TokenOf, Spelling;
    LayoutLoop(m, c.i, s);
    var d := InertWhile(m, s, c);
    var e := Inert(m, s.body, d);
    Join(m, c, d, e, 2, Size(s.body));
    StepDone(m, e);
    Next(m, c, e, 2 + Size(s.body));
    r := Step(m, e);
  }

  /** A loop command whose condition is not run, and its `do`. */
  lemma InertWhile(m: Machine, s: Stmt, c: Config) returns (d: Config)
    requires s.Loop? && Start(m, c, s) && !c.p.ItefEnabled() && c.i < |m.code|
    ensures Reaches(m, c, d, 2)
    ensures d == Config(PushLoop(c.p, LoopSlot(LoopDo, false, c.p.iendx, m.code[c.i].at)), c.i + 2, c.log, false)
  {
    hide Step, Steps, Reaches, Flat, Plain, TokenOf, Spelling, Holds;
    LayoutLoop(m, c.i, s);
    StepLoop(m, c, s.until, s.cond);
    First(m, c);
    d := Step(m, c);
    StepDo(m, d);
    Next(m, c, d, 1);
    d := Step(m, d);
  }

  // ----- Enabled code means what the tree says -----

  ghost function EnvOf(m: Machine): (env: Env)
    ensures |env.pos| == |m.code| && forall k :: 0 <= k < |m.code| ==> env.pos[k] == m.code[k].at
  {
    Env(seq(|m.code|, k requires 0 <= k < |m.code| => m.code[k].at), m.world, m.ignore)
  }

  /** The loop stack agrees with where the statement stands. */
  ghost predicate Stands(p: Parser, place: Place)
    requires p.Valid()
  {
    match place
    case Top => p.LoopTop().state == LoopNormal
    case Body => p.LoopTop().state == LoopDo && p.LoopTop().iendx == p.iendx
    case Under => p.LoopTop().state == LoopDo
  }

  ghost predicate Apt(m: Machine, c: Config, s: Stmt, place: Place) {
    Start(m, c, s) && c.p.Enabled() && Stands(c.p, place)
  }

  ghost predicate Able(m: Machine, c: Config, s: Stmt, place: Place) {
    Apt(m, c, s, place) && BreaksPlaced(s, place)
  }

  ghost predicate Live(m: Machine, c: Config, s: Stmt, place: Place) {
    Able(m, c, s, place) && LoopsSeparated(s, place)
  }

  ghost function Meaning(m: Machine, c: Config, s: Stmt, place: Place, fuel: nat): Result
    requires c.i + Size(s) <= |m.code|
  {
    Eval(EnvOf(m), s, c.i, place != Top, c.log, c.p.fail, fuel)
  }

  /** The machine, started in `c` and now in `r`, has done what the tree run `res` of `s` did. */
  ghost predicate Matches(m: Machine, c: Config, s: Stmt, place: Place, res: Result, fuel: nat, r: Config, n: nat)
    requires c.p.Valid()
  {
    && Reaches(m, c, r, n) && r.p.Valid() && r.log == res.log
    && match res
       case Normal(_, fail) =>
         !r.halted && r.i == c.i + Size(s) && r.p.fail == fail && Restored(c.p, r.p)
       case Broke(_, fail) =>
         place == Body && !r.halted && r.i == c.i + Size(s) && r.p.fail == fail && RestoredOff(c.p, r.p)
       case Stopped(_) =>
         r.halted && r.p.fail
       case Timeout(_) =>
         r.Running(m) && n >= fuel
  }

  lemma {:induction false} BreakEscapes(env: Env, s: Stmt, i: nat, log: Log, fail: bool, fuel: nat)
    requires i + Size(s) <= |env.pos| && HasBreak(s)
    ensures !Eval(env, s, i, true, log, fail, fuel).Normal?
    decreases s
  {
    match s
    case BreakOut =>
    case Seq(a, b) =>
      if HasBreak(a) {
        BreakEscapes(env, a, i, log, fail, fuel);
      } else {
        var r := Eval(env, a, i, true, log, fail, fuel);
        if r.Normal? {
          BreakEscapes(env, b, i + Size(a), r.log, r.fail, fuel);
        }
      }
  }

  lemma {:induction false} SeparatedNoLoop(s: Stmt)
    requires LoopsSeparated(s, Body)
    ensures NoDirectLoop(s)
  {
    match s
    case Seq(a, b) =>
      SeparatedNoLoop(a);
      if !HasBreak(a) {
        SeparatedNoLoop(b);
      }
    case _ =>
  }

  /**
   Run where commands are enabled, the flat form of a statement does step by step what its
   tree does: the same commands at the same places in the same order, the same status, the
   same stop; and when the tree has not finished within its fuel, neither has the machine.
   */
  lemma {:induction false} Simulates(m: Machine, s: Stmt, c: Config, place: Place, fuel: nat)
    returns (r: Config, n: nat)
    requires Live(m, c, s, place)
    ensures Matches(m, c, s, place, Meaning(m, c, s, place, fuel), fuel, r, n)
    decreases fuel, s, 3
  {
    match s
    case Skip =>
      r, n := c, 0;
    case Cmd(argv) =>
      r, n := SimulatesCmd(m, s, c, place, fuel);
    case BreakOut =>
      r, n := SimulatesBreak(m, s, c, place, fuel);
    case Seq(a, b) =>
      r, n := SimulatesSeq(m, s, c, place, fuel);
    case Cond(cond, t, e) =>
      r, n := SimulatesIf(m, s, c, place, fuel);
    case Loop(until, cond, b) =>
      r, n := SimulatesLoop(m, s, c, place, fuel);
  }

  lemma SimulatesCmd(m: Machine, s: Stmt, c: Config, place: Place, fuel: nat)
    returns (r: Config, n: nat)
    requires s.Cmd? && Live(m, c, s, place)
    ensures Matches(m, c, s, place, Meaning(m, c, s, place, fuel), fuel, r, n)
  {
    hide Step, TokenOf, Spelling;
    HoldsAt(m, c.i, Flat(s), 0);
    StepCmd(m, c);
    First(m, c);
    r, n := Step(m, c), 1;
  }

  lemma SimulatesBreak(m: Machine, s: Stmt, c: Config, place: Place, fuel: nat)
    returns (r: Config, n: nat)
    requires s.BreakOut? && Live(m, c, s, place)
    ensures Matches(m, c, s, place, Meaning(m, c, s, place, fuel), fuel, r, n)
  {
    hide Step, TokenOf, Spelling;
    HoldsAt(m, c.i, Flat(s), 0);
    StepBreak(m, c);
    First(m, c);
    r, n := Step(m, c), 1;
  }

  lemma RestoredTrans(p: Parser, q: Parser, r: Parser)
    requires p.Valid() && q.Valid() && r.Valid() && Restored(p, q)
    ensures Restored(q, r) ==> Restored(p, r)
    ensures RestoredOff(q, r) ==> RestoredOff(p, r)
  {
  }

  lemma AptFirst(m: Machine, s: Stmt, c: Config, place: Place)
    requires s.Seq? && Apt(m, c, s, place)
    ensures Apt(m, c, s.first, place)
  {
    hide Plain, TokenOf, Spelling;
    HoldsPart(m, c.i, Flat(s), Flat(s.first), Flat(s.second));
  }

  /** After the first of two statements has run normally, the second may run. */
  lemma AptSecond(m: Machine, s: Stmt, c: Config, place: Place, r: Config)
    requires s.Seq? && Apt(m, c, s, place)
    requires r.p.Valid() && !r.halted && r.i == c.i + Size(s.first) && Restored(c.p, r.p)
    ensures Apt(m, r, s.second, place)
  {
    hide Plain, TokenOf, Spelling;
    HoldsPart(m, c.i, Flat(s), Flat(s.first), Flat(s.second));
  }

  /** After a `break` in the first of two statements, the second is passed over. */
  lemma SkipSecond(m: Machine, s: Stmt, c: Config, d: Config) returns (r: Config)
    requires s.Seq? && Live(m, c, s, Body)
    requires d.p.Valid() && !d.halted && d.i == c.i + Size(s.first) && RestoredOff(c.p, d.p)
    ensures Reaches(m, d, r, Size(s.second)) && Passed(d, r, Size(s.second)) && RestoredOff(c.p, r.p)
  {
    hide Plain, TokenOf, Spelling, Reaches;
    HoldsPart(m, c.i, Flat(s), Flat(s.first), Flat(s.second));
    if !HasBreak(s.first) {
      SeparatedNoLoop(s.second);
    }
    r := Inert(m, s.second, d);
  }

  /** The rest of a run decides the whole: `t` is what is left of `s` once the machine is in `d`. */
  lemma MatchesRest(m: Machine, c: Config, s: Stmt, place: Place, fuel: nat, d: Config, n: nat,
                    t: Stmt, res: Result, restFuel: nat, r: Config, k: nat)
    requires c.p.Valid() && d.p.Valid() && Reaches(m, c, d, n) && Restored(c.p, d.p)
    requires Matches(m, d, t, place, res, restFuel, r, k)
    requires d.i + Size(t) == c.i + Size(s)
    requires fuel <= n + restFuel
    ensures Matches(m, c, s, place, res, fuel, r, n + k)
  {
    hide Reaches, Size, Restored;
    Join(m, c, d, r, n, k);
    RestoredTrans(c.p, d.p, r.p);
  }

  lemma Unmatch(m: Machine, c: Config, s: Stmt, place: Place, res: Result, fuel: nat, r: Config, n: nat)
    requires c.p.Valid() && Matches(m, c, s, place, res, fuel, r, n)
    ensures Reaches(m, c, r, n) && r.p.Valid() && r.log == res.log
    ensures res.Normal? ==> !r.halted && r.i == c.i + Size(s) && r.p.fail == res.fail && Restored(c.p, r.p)
    ensures res.Broke? ==>
              && place == Body && !r.halted && r.i == c.i + Size(s) && r.p.fail == res.fail
              && RestoredOff(c.p, r.p)
  {
  }

  lemma MatchesNormal(m: Machine, c: Config, s: Stmt, place: Place, res: Result, fuel: nat, r: Config, n: nat)
    requires c.p.Valid() && r.p.Valid() && Reaches(m, c, r, n) && Restored(c.p, r.p)
    requires res == Normal(r.log, r.p.fail) && r.i == c.i + Size(s) && !r.halted
    ensures Matches(m, c, s, place, res, fuel, r, n)
  {
  }

  /** A run that stops, or outlasts its fuel, part of the way does so as a whole. */
  lemma MatchesPart(m: Machine, c: Config, s: Stmt, place: Place, fuel: nat, d: Config, n: nat,
                    t: Stmt, inner: Place, res: Result, r: Config, k: nat)
    requires c.p.Valid() && d.p.Valid() && Reaches(m, c, d, n)
    requires Matches(m, d, t, inner, res, fuel, r, k)
    requires res.Stopped? || res.Timeout?
    ensures Matches(m, c, s, place, res, fuel, r, n + k)
  {
    hide Reaches;
    Join(m, c, d, r, n, k);
  }

  lemma MeaningSeq(m: Machine, s: Stmt, c: Config, place: Place, fuel: nat)
    requires s.Seq? && Holds(m, c.i, Flat(s))
    ensures Size(s) == Size(s.first) + Size(s.second) && c.i + Size(s) <= |m.code|
    ensures var r := Meaning(m, c, s.first, place, fuel);
            Meaning(m, c, s, place, fuel) ==
              if r.Normal? then Eval(EnvOf(m), s.second, c.i + Size(s.first), place != Top, r.log, r.fail, fuel) else r
  {
    hide Eval, Flat;
    EvalSeq(EnvOf(m), s, c.i, place != Top, c.log, c.p.fail, fuel);
  }

  lemma {:induction false} SimulatesSeq(m: Machine, s: Stmt, c: Config, place: Place, fuel: nat)
    returns (r: Config, n: nat)
    requires s.Seq? && Live(m, c, s, place)
    ensures Matches(m, c, s, place, Meaning(m, c, s, place, fuel), fuel, r, n)
    decreases fuel, s, 1
  {
    hide Step, Steps, Reaches, Plain, TokenOf, Spelling, Restored, Eval, Flat, Holds, Fits, WellFormed, Stands;
    MeaningSeq(m, s, c, place, fuel);
    var a, b := s.first, s.second;
    AptFirst(m, s, c, place);
    r, n := Simulates(m, a, c, place, fuel);
    var res := Meaning(m, c, a, place, fuel);
    if res.Normal? {
      if place == Body && HasBreak(a) {
        BreakEscapes(EnvOf(m), a, c.i, c.log, c.p.fail, fuel);
        assert false;
      }
      AptSecond(m, s, c, place, r);
      var d, k := Simulates(m, b, r, place, fuel);
      MatchesRest(m, c, s, place, fuel, r, n, b, Meaning(m, r, b, place, fuel), fuel, d, k);
      r, n := d, n + k;
    } else if res.Broke? {
      var d := SkipSecond(m, s, c, r);
      Join(m, c, r, d, n, Size(b));
      r, n := d, n + Size(b);
    }
  }

  /** `if` with its condition, and `then`. */
  lemma OpenIf(m: Machine, s: Stmt, c: Config) returns (d: Config)
    requires s.Cond? && Start(m, c, s) && c.p.Enabled()
    ensures var log := c.log + [Event(m.code[c.i].at, s.cond)];
            d == Config(PushIf(c.p, ItefSlot(ItefThen, false, m.world(log))).(fail := false), c.i + 2, log, false)
    ensures Reaches(m, c, d, 2)
  {
    hide Step, Steps, Reaches, TokenOf, Spelling, Plain;
    LayoutIf(m, c.i, s);
    StepIf(m, c, s.cond);
    First(m, c);
    d := Step(m, c);
    StepThen(m, d);
    Next(m, c, d, 1);
    d := Step(m, d);
  }

  /** `fi` drops the slot of the `if` and uncovers the stacks of before. */
  lemma CloseIf(m: Machine, p: Parser, slot: ItefSlot, c: Config) returns (r: Config)
    requires Ready(p) && p.iendx + 1 < |p.ie| && c.p.Valid() && c.Running(m) && m.code[c.i].words == Word(Fi)
    requires slot.state == ItefThen || slot.state == ItefElse
    requires Restored(PushIf(p, slot), c.p)
    ensures Reaches(m, c, r, 1) && r.p.Valid() && Restored(p, r.p)
    ensures r.i == c.i + 1 && !r.halted && r.log == c.log && r.p.fail == c.p.fail
  {
    hide Step, Steps, Reaches, TokenOf, Spelling;
    StepFi(m, c);
    First(m, c);
    r := Step(m, c);
  }

  lemma AptThen(m: Machine, s: Stmt, c: Config, place: Place, d: Config)
    requires s.Cond? && Apt(m, c, s, place)
    requires d == Config(PushIf(c.p, ItefSlot(ItefThen, false, false)).(fail := false), c.i + 2, d.log, false)
    ensures Apt(m, d, s.thn, InIf(place))
  {
    hide Plain, TokenOf, Spelling, Flat, FlatElse, Holds;
    LayoutIf(m, c.i, s);
  }

  /** After the then part has run, the else part is passed over and `fi` closes the `if`. */
  lemma FinishThen(m: Machine, s: Stmt, c: Config, e: Config) returns (r: Config, k: nat)
    requires s.Cond? && Start(m, c, s)
    requires e.p.Valid() && !e.halted && e.i == c.i + 2 + Size(s.thn)
    requires Restored(PushIf(c.p, ItefSlot(ItefThen, false, false)), e.p)
    ensures Reaches(m, e, r, k) && r.p.Valid() && Restored(c.p, r.p)
    ensures r.i == c.i + Size(s) && !r.halted && r.log == e.log && r.p.fail == e.p.fail
  {
    hide Plain, TokenOf, Spelling, Step, Steps, Reaches, Flat, FlatElse, Holds;
    LayoutIf(m, c.i, s);
    var d := InertElse(m, s.els, e);
    r := CloseIf(m, c.p, d.p.ItefTop(), d);
    k := |FlatElse(s.els)| + 1;
    Join(m, e, d, r, k - 1, 1);
  }

  /** The then part is passed over; `else`, if there is one, switches commands on. */
  lemma SkipThen(m: Machine, s: Stmt, c: Config, d: Config) returns (r: Config, k: nat)
    requires s.Cond? && Start(m, c, s) && c.p.Enabled()
    requires d == Config(PushIf(c.p, ItefSlot(ItefThen, false, true)).(fail := false), c.i + 2, d.log, false)
    ensures Reaches(m, d, r, k) && r.p.Valid() && !r.halted && r.log == d.log && !r.p.fail
    ensures s.els.Skip? ==> r.i == c.i + Size(s) - 1 && Restored(PushIf(c.p, ItefSlot(ItefThen, false, true)), r.p)
    ensures !s.els.Skip? ==> r.i == c.i + 3 + Size(s.thn) && Restored(PushIf(c.p, ItefSlot(ItefElse, false, true)), r.p)
  {
    hide Plain, TokenOf, Spelling, Step, Steps, Reaches, Flat, FlatElse, Holds, BreaksPlaced;
    LayoutIf(m, c.i, s);
    SizeOf(s);
    r := Inert(m, s.thn, d);
    k := Size(s.thn);
    if !s.els.Skip? {
      LayoutElse(m, r.i, s.els);
      StepElse(m, r);
      Next(m, d, r, k);
      r, k := Step(m, r), k + 1;
    }
  }

  lemma AptElse(m: Machine, s: Stmt, c: Config, place: Place, d: Config)
    requires s.Cond? && !s.els.Skip? && Apt(m, c, s, place)
    requires d.p.Valid() && !d.halted && d.i == c.i + 3 + Size(s.thn)
    requires Restored(PushIf(c.p, ItefSlot(ItefElse, false, true)), d.p)
    ensures Apt(m, d, s.els, InIf(place))
  {
    hide Plain, TokenOf, Spelling, Flat, FlatElse, Holds;
    LayoutIf(m, c.i, s);
    LayoutElse(m, c.i + 2 + Size(s.thn), s.els);
  }

  lemma FinishElse(m: Machine, s: Stmt, c: Config, e: Config, slot: ItefSlot) returns (r: Config)
    requires s.Cond? && Start(m, c, s) && (slot.state == ItefElse || slot.state == ItefThen)
    requires e.p.Valid() && !e.halted && e.i == c.i + Size(s) - 1
    requires Restored(PushIf(c.p, slot), e.p)
    ensures Reaches(m, e, r, 1) && r.p.Valid() && Restored(c.p, r.p)
    ensures r.i == c.i + Size(s) && !r.halted && r.log == e.log && r.p.fail == e.p.fail
  {
    hide Plain, TokenOf, Spelling, Step, Steps, Reaches;
    LayoutIf(m, c.i, s);
    r := CloseIf(m, c.p, slot, e);
  }

  lemma {:induction false} SimulatesIf(m: Machine, s: Stmt, c: Config, place: Place, fuel: nat)
    returns (r: Config, n: nat)
    requires s.Cond? && Live(m, c, s, place)
    ensures Matches(m, c, s, place, Meaning(m, c, s, place, fuel), fuel, r, n)
    decreases fuel, s, 1
  {
    hide Step, Steps, Reaches, Plain, TokenOf, Spelling, Restored;
    var d := OpenIf(m, s, c);
    if !d.p.ItefTop().ifcond {
      r, n := SimulatesThen(m, s, c, place, fuel, d);
    } else {
      r, n := SimulatesElse(m, s, c, place, fuel, d);
    }
  }

  lemma MeaningIf(m: Machine, s: Stmt, c: Config, place: Place, fuel: nat)
    requires s.Cond? && Holds(m, c.i, Flat(s))
    ensures Size(s) == 3 + Size(s.thn) + |FlatElse(s.els)| && c.i + Size(s) <= |m.code|
    ensures !s.els.Skip? ==> |FlatElse(s.els)| == 1 + Size(s.els)
    ensures var log := c.log + [Event(m.code[c.i].at, s.cond)];
            Meaning(m, c, s, place, fuel) ==
              if !m.world(log) then
                Eval(EnvOf(m), s.thn, c.i + 2, place != Top, log, false, fuel)
              else if s.els.Skip? then
                Normal(log, false)
              else
                Eval(EnvOf(m), s.els, c.i + 3 + Size(s.thn), place != Top, log, false, fuel)
  {
    hide Eval, Flat, FlatElse;
    EvalCond(EnvOf(m), s, c.i, place != Top, c.log, c.p.fail, fuel);
  }

  lemma {:induction false} SimulatesThen(m: Machine, s: Stmt, c: Config, place: Place, fuel: nat, d: Config)
    returns (r: Config, n: nat)
    requires s.Cond? && Live(m, c, s, place)
    requires d == Config(PushIf(c.p, ItefSlot(ItefThen, false, false)).(fail := false), c.i + 2,
                         c.log + [Event(m.code[c.i].at, s.cond)], false)
    requires Reaches(m, c, d, 2) && !m.world(d.log)
    ensures Matches(m, c, s, place, Meaning(m, c, s, place, fuel), fuel, r, n)
    decreases fuel, s, 0
  {
    hide Step, Steps, Reaches, Plain, TokenOf, Spelling, Eval, Flat, FlatElse, Holds, Fits, WellFormed, Stands;
    MeaningIf(m, s, c, place, fuel);
    AptThen(m, s, c, place, d);
    r, n := Simulates(m, s.thn, d, InIf(place), fuel);
    Join(m, c, d, r, 2, n);
    n := n + 2;
    var res := Meaning(m, d, s.thn, InIf(place), fuel);
    assert res == Meaning(m, c, s, place, fuel);
    if res.Normal? {
      var e, k := FinishThen(m, s, c, r);
      Join(m, c, r, e, n, k);
      r, n := e, n + k;
    }
  }

  lemma {:induction false} SimulatesElse(m: Machine, s: Stmt, c: Config, place: Place, fuel: nat, d: Config)
    returns (r: Config, n: nat)
    requires s.Cond? && Live(m, c, s, place)
    requires d == Config(PushIf(c.p, ItefSlot(ItefThen, false, true)).(fail := false), c.i + 2,
                         c.log + [Event(m.code[c.i].at, s.cond)], false)
    requires Reaches(m, c, d, 2) && m.world(d.log)
    ensures Matches(m, c, s, place, Meaning(m, c, s, place, fuel), fuel, r, n)
    decreases fuel, s, 0
  {
    hide Step, Steps, Reaches, Plain, TokenOf, Spelling, Eval, Flat, FlatElse, Holds, Fits, WellFormed, Stands;
    MeaningIf(m, s, c, place, fuel);
    var e, k := SkipThen(m, s, c, d);
    Join(m, c, d, e, 2, k);
    if s.els.Skip? {
      r := FinishElse(m, s, c, e, ItefSlot(ItefThen, false, true));
      Join(m, c, e, r, 2 + k, 1);
      n := 2 + k + 1;
    } else {
      AptElse(m, s, c, place, e);
      LayoutIf(m, c.i, s);
      var f, l := Simulates(m, s.els, e, InIf(place), fuel);
      r, n := JoinElse(m, s, c, place, fuel, e, 2 + k, f, l);
    }
  }

  lemma JoinElse(m: Machine, s: Stmt, c: Config, place: Place, fuel: nat, e: Config, k: nat, f: Config, l: nat)
    returns (r: Config, n: nat)
    requires s.Cond? && !s.els.Skip? && Live(m, c, s, place)
    requires e.p.Valid() && e.i == c.i + 3 + Size(s.thn) && e.i + Size(s.els) == c.i + Size(s) - 1
    requires e.log == c.log + [Event(m.code[c.i].at, s.cond)] && m.world(e.log) && !e.p.fail
    requires Restored(PushIf(c.p, ItefSlot(ItefElse, false, true)), e.p) && Reaches(m, c, e, k)
    requires Matches(m, e, s.els, InIf(place), Meaning(m, e, s.els, InIf(place), fuel), fuel, f, l)
    ensures Matches(m, c, s, place, Meaning(m, c, s, place, fuel), fuel, r, n)
  {
    hide Step, Steps, Reaches, Plain, TokenOf, Spelling, Restored, Eval, Flat, FlatElse, Holds, WellFormed, Stands, Matches;
    MeaningIf(m, s, c, place, fuel);
    var res := Meaning(m, e, s.els, InIf(place), fuel);
    Unmatch(m, e, s.els, InIf(place), res, fuel, f, l);
    if res.Normal? {
      Join(m, c, e, f, k, l);
      RestoredTrans(PushIf(c.p, ItefSlot(ItefElse, false, true)), e.p, f.p);
      r := FinishElse(m, s, c, f, ItefSlot(ItefElse, false, true));
      n := k + l + 1;
      Join(m, c, f, r, k + l, 1);
      MatchesNormal(m, c, s, place, res, fuel, r, n);
    } else {
      MatchesPart(m, c, s, place, fuel, e, k, s.els, InIf(place), res, f, l);
      r, n := f, k + l;
    }
  }

  /** The condition of a loop, and `do`. */
  lemma OpenLoop(m: Machine, s: Stmt, c: Config) returns (d: Config)
    requires s.Loop? && Start(m, c, s) && c.p.Enabled()
    ensures var log := c.log + [Event(m.code[c.i].at, s.cond)];
            var slot := LoopSlot(LoopDo, m.world(log) == s.until, c.p.iendx, m.code[c.i].at);
            d == Config(PushLoop(c.p, slot).(fail := false), c.i + 2, log, false)
    ensures Reaches(m, c, d, 2)
  {
    hide Step, Steps, Reaches, TokenOf, Spelling, Plain;
    LayoutLoop(m, c.i, s);
    StepLoop(m, c, s.until, s.cond);
    First(m, c);
    d := Step(m, c);
    StepDo(m, d);
    Next(m, c, d, 1);
    d := Step(m, d);
  }

  /** `done` drops the slot of the loop; it goes back to the condition exactly when the loop is on. */
  lemma CloseLoop(m: Machine, s: Stmt, c: Config, e: Config, enable: bool) returns (r: Config)
    requires s.Loop? && Start(m, c, s)
    requires e.p.Valid() && !e.halted && e.i == c.i + Size(s) - 1
    requires Restored(PushLoop(c.p, LoopSlot(LoopDo, enable, c.p.iendx, m.code[c.i].at)), e.p)
    ensures Reaches(m, e, r, 1) && r.p.Valid() && Restored(c.p, r.p)
    ensures !r.halted && r.log == e.log && r.p.fail == e.p.fail
    ensures r.i == if enable then c.i else c.i + Size(s)
  {
    hide Step, Steps, Reaches, TokenOf, Spelling, Plain, Find;
    LayoutLoop(m, c.i, s);
    StepDone(m, e);
    First(m, e);
    r := Step(m, e);
    FindExact(m, c.i, 0);
  }

  lemma AptBody(m: Machine, s: Stmt, c: Config, place: Place, d: Config)
    requires s.Loop? && Apt(m, c, s, place)
    requires d == Config(PushLoop(c.p, LoopSlot(LoopDo, true, c.p.iendx, m.code[c.i].at)).(fail := false),
                         c.i + 2, d.log, false)
    ensures Apt(m, d, s.body, Body)
  {
    hide Plain, TokenOf, Spelling, Flat, FlatElse, Holds;
    LayoutLoop(m, c.i, s);
  }

  /** A loop whose condition said no: the body is passed over and `done` leaves the loop. */
  lemma ExitLoop(m: Machine, s: Stmt, c: Config, place: Place, d: Config) returns (r: Config, k: nat)
    requires s.Loop? && Live(m, c, s, place)
    requires d == Config(PushLoop(c.p, LoopSlot(LoopDo, false, c.p.iendx, m.code[c.i].at)).(fail := false),
                         c.i + 2, d.log, false)
    ensures Reaches(m, d, r, k) && r.p.Valid() && Restored(c.p, r.p)
    ensures !r.halted && r.log == d.log && !r.p.fail && r.i == c.i + Size(s)
  {
    hide Step, Steps, Reaches, TokenOf, Spelling, Plain, Flat, Holds;
    LayoutLoop(m, c.i, s);
    SeparatedNoLoop(s.body);
    var e := Inert(m, s.body, d);
    r := CloseLoop(m, s, c, e, false);
    k := Size(s.body) + 1;
    Join(m, d, e, r, k - 1, 1);
  }

  lemma {:induction false} SimulatesLoop(m: Machine, s: Stmt, c: Config, place: Place, fuel: nat)
    returns (r: Config, n: nat)
    requires s.Loop? && Live(m, c, s, place)
    ensures Matches(m, c, s, place, Meaning(m, c, s, place, fuel), fuel, r, n)
    decreases fuel, s, 2
  {
    hide Step, Steps, Reaches, Plain, TokenOf, Spelling;
    if fuel == 0 {
      LayoutLoop(m, c.i, s);
      AtOnce(m, c);
      r, n := c, 0;
    } else {
      MeaningLoop(m, s, c, place, fuel);
      var d := OpenLoop(m, s, c);
      if d.p.LoopTop().enable {
        r, n := SimulatesBody(m, s, c, place, fuel, d);
      } else {
        var k;
        r, k := ExitLoop(m, s, c, place, d);
        Join(m, c, d, r, 2, k);
        n := 2 + k;
      }
    }
  }

  lemma AtOnce(m: Machine, c: Config)
    requires c.p.Valid() && c.i <= |m.code|
    ensures Reaches(m, c, c, 0)
  {
  }

  lemma MeaningLoop(m: Machine, s: Stmt, c: Config, place: Place, fuel: nat)
    requires s.Loop? && Holds(m, c.i, Flat(s)) && fuel > 0
    ensures Size(s) == 3 + Size(s.body) && c.i + Size(s) <= |m.code|
    ensures var log := c.log + [Event(m.code[c.i].at, s.cond)];
            Meaning(m, c, s, place, fuel) ==
              if m.world(log) != s.until then
                Normal(log, false)
              else
                var r := Eval(EnvOf(m), s.body, c.i + 2, true, log, false, fuel);
                match r
                case Normal(l, f) => Eval(EnvOf(m), s, c.i, place != Top, l, f, fuel - 1)
                case Broke(l, f) => Normal(l, f)
                case _ => r
  {
    hide Eval, Flat;
    EvalLoop(EnvOf(m), s, c.i, place != Top, c.log, c.p.fail, fuel);
  }

  lemma {:induction false} SimulatesBody(m: Machine, s: Stmt, c: Config, place: Place, fuel: nat, d: Config)
    returns (r: Config, n: nat)
    requires s.Loop? && Live(m, c, s, place) && fuel > 0
    requires d == Config(PushLoop(c.p, LoopSlot(LoopDo, true, c.p.iendx, m.code[c.i].at)).(fail := false), c.i + 2,
                         c.log + [Event(m.code[c.i].at, s.cond)], false)
    requires Reaches(m, c, d, 2) && m.world(d.log) == s.until
    ensures Matches(m, c, s, place, Meaning(m, c, s, place, fuel), fuel, r, n)
    decreases fuel, s, 1
  {
    hide Step, Steps, Reaches, Plain, TokenOf, Spelling, Fits, WellFormed, Stands, Eval, Flat, Holds;
    LayoutLoop(m, c.i, s);
    MeaningLoop(m, s, c, place, fuel);
    AptBody(m, s, c, place, d);
    var e, k := Simulates(m, s.body, d, Body, fuel);
    Join(m, c, d, e, 2, k);
    r, n := AfterBody(m, s, c, place, fuel, d, e, k);
  }

  /** The body of an entered loop has been run, from `d` to `e`. */
  ghost predicate BodyRun(m: Machine, s: Stmt, c: Config, place: Place, fuel: nat, d: Config, e: Config, k: nat) {
    && s.Loop? && Live(m, c, s, place) && fuel > 0 && c.p.lpndx + 1 < |c.p.lp| && c.i < |m.code|
    && d == Config(PushLoop(c.p, LoopSlot(LoopDo, true, c.p.iendx, m.code[c.i].at)).(fail := false), c.i + 2,
                   c.log + [Event(m.code[c.i].at, s.cond)], false)
    && m.world(d.log) == s.until && Live(m, d, s.body, Body) && Reaches(m, c, e, 2 + k)
    && Matches(m, d, s.body, Body, Meaning(m, d, s.body, Body, fuel), fuel, e, k)
  }

  /** After an iteration: again, out of the loop, or no further. */
  lemma {:induction false} AfterBody(m: Machine, s: Stmt, c: Config, place: Place, fuel: nat, d: Config, e: Config, k: nat)
    returns (r: Config, n: nat)
    requires BodyRun(m, s, c, place, fuel, d, e, k)
    ensures Matches(m, c, s, place, Meaning(m, c, s, place, fuel), fuel, r, n)
    decreases fuel, s, 0
  {
    hide Step, Steps, Reaches, Plain, TokenOf, Spelling, Fits, WellFormed, Stands, Eval, Flat, Holds, Restored, RestoredOff;
    LayoutLoop(m, c.i, s);
    MeaningLoop(m, s, c, place, fuel);
    var res := Meaning(m, d, s.body, Body, fuel);
    r, n := e, 2 + k;
    if res.Normal? {
      r, n := AfterNormal(m, s, c, place, fuel, d, e, k);
    } else if res.Broke? {
      r, n := AfterBreak(m, s, c, place, fuel, d, e, k);
    }
  }

  lemma {:induction false} AfterNormal(m: Machine, s: Stmt, c: Config, place: Place, fuel: nat, d: Config, e: Config, k: nat)
    returns (r: Config, n: nat)
    requires BodyRun(m, s, c, place, fuel, d, e, k) && Meaning(m, d, s.body, Body, fuel).Normal?
    ensures Matches(m, c, s, place, Meaning(m, c, s, place, fuel), fuel, r, n)
    decreases fuel, s, 0, 1
  {
    hide Step, Steps, Reaches, Plain, TokenOf, Spelling, Fits, WellFormed, Stands, Eval, Flat, Holds;
    LayoutLoop(m, c.i, s);
    MeaningLoop(m, s, c, place, fuel);
    var f, g, l := SimulatesAgain(m, s, c, place, fuel, e);
    Join(m, c, e, f, 2 + k, 1);
    MatchesRest(m, c, s, place, fuel, f, 3 + k, s, Meaning(m, f, s, place, fuel - 1), fuel - 1, g, l);
    r, n := g, 3 + k + l;
  }

  lemma AfterBreak(m: Machine, s: Stmt, c: Config, place: Place, fuel: nat, d: Config, e: Config, k: nat)
    returns (r: Config, n: nat)
    requires BodyRun(m, s, c, place, fuel, d, e, k) && Meaning(m, d, s.body, Body, fuel).Broke?
    ensures Matches(m, c, s, place, Meaning(m, c, s, place, fuel), fuel, r, n)
  {
    hide Step, Steps, Reaches, Plain, TokenOf, Spelling, Fits, WellFormed, Stands, Eval, Flat, Holds;
    LayoutLoop(m, c.i, s);
    MeaningLoop(m, s, c, place, fuel);
    r := CloseLoop(m, s, c, e, false);
    n := 3 + k;
    Join(m, c, e, r, 2 + k, 1);
  }

  /** At the end of an iteration: back to the top, and the loop again with less fuel. */
  lemma {:induction false} SimulatesAgain(m: Machine, s: Stmt, c: Config, place: Place, fuel: nat, d: Config)
    returns (e: Config, r: Config, n: nat)
    requires s.Loop? && Live(m, c, s, place) && fuel > 0
    requires d.p.Valid() && !d.halted && d.i == c.i + Size(s) - 1
    requires Restored(PushLoop(c.p, LoopSlot(LoopDo, true, c.p.iendx, m.code[c.i].at)), d.p)
    ensures Reaches(m, d, e, 1) && e.p.Valid() && e.i == c.i && e.log == d.log && e.p.fail == d.p.fail
    ensures Restored(c.p, e.p) && Matches(m, e, s, place, Meaning(m, e, s, place, fuel - 1), fuel - 1, r, n)
    decreases fuel, s, 0, 0
  {
    hide Step, Steps, Reaches, Plain, TokenOf, Spelling, Eval;
    e := CloseLoop(m, s, c, d, true);
    LiveAgain(m, s, c, place, e);
    r, n := Simulates(m, s, e, place, fuel - 1);
  }

  lemma LiveAgain(m: Machine, s: Stmt, c: Config, place: Place, e: Config)
    requires Live(m, c, s, place) && e.p.Valid() && Restored(c.p, e.p) && e.i == c.i && !e.halted
    ensures Live(m, e, s, place)
  {
    hide Plain, TokenOf, Spelling;
  }
}
