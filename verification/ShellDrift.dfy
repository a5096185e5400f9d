/**
 The machine when nothing happens: in a calm stretch of the script commands succeed and loops
 are not entered. Balanced code then leaves the stacks as they are, and once the if index has
 fallen behind the nesting of the code, it stays behind until the script dies, unless a
 `break` sets it right.
 */
module ShellDrift {
  import opened Options
  import opened ShellParser
  import opened ShellTree
  import opened ShellMachine
  import opened ShellRefinement

  // ----- Calm stretches -----

  /** The answer to this command: loops are left, plain commands succeed. */
  ghost predicate Answers(m: Machine, k: nat, log: Log, argv: Words)
    requires k < |m.code|
  {
    var failed := m.world(log + [Event(m.code[k].at, argv)]);
    match Head(m.code[k].words)
    case While => failed
    case Until => !failed
    case Other => !failed
    case _ => true
  }

  /** From this log on, the `n` commands from index `i` on are answered so. */
  ghost predicate Calm(m: Machine, i: nat, n: nat, log: Log) {
    i + n <= |m.code| && forall k: nat, later: Log, argv: Words ::
      i <= k < i + n && log <= later ==> Answers(m, k, later, argv)
  }

  lemma CalmPart(m: Machine, i: nat, n: nat, log: Log, j: nat, l: nat, later: Log)
    requires Calm(m, i, n, log) && i <= j && j + l <= i + n && log <= later
    ensures Calm(m, j, l, later)
  {
    hide Answers;
  }

  /** A `break` that belongs to the loop around the statement. */
  predicate OwnBreak(s: Stmt) {
    match s
    case BreakOut => true
    case Seq(a, b) => OwnBreak(a) || OwnBreak(b)
    case Cond(_, t, e) => OwnBreak(t) || OwnBreak(e)
    case _ => false
  }

  ghost predicate LoopOn(p: Parser)
    requires p.Valid()
  {
    p.LoopTop().state == LoopDo && p.LoopTop().enable
  }

  /** The statement has been passed, with all that happened in its own range, and the stacks are as before. */
  ghost predicate Glided(m: Machine, c: Config, r: Config, n: nat) {
    && r.p.Valid() && r.i == c.i + n && !r.halted && c.log <= r.log && Restored(c.p, r.p)
    && (Unseen(m, c.log, c.i) ==> Unseen(m, r.log, r.i))
  }

  lemma GlidedJoin(m: Machine, c: Config, d: Config, r: Config, a: nat, b: nat)
    requires c.p.Valid() && Glided(m, c, d, a) && Glided(m, d, r, b)
    ensures Glided(m, c, r, a + b)
  {
    hide Restored, Unseen;
    RestoredTrans(c.p, d.p, r.p);
  }

  /** In a calm stretch a statement is passed over, unless a `break` in it can take effect. */
  lemma {:induction false} Glides(m: Machine, s: Stmt, c: Config) returns (r: Config)
    requires Start(m, c, s) && Calm(m, c.i, Size(s), c.log) && (LoopOn(c.p) ==> !OwnBreak(s))
    ensures Reaches(m, c, r, Size(s)) && Glided(m, c, r, Size(s))
    decreases s, 1
  {
    hide Step, Steps, Reaches, Plain, TokenOf, Spelling, Calm, Unseen;
    SizeOf(s);
    match s
    case Skip =>
      AtOnce(m, c);
      r := c;
    case Seq(a, b) =>
      HoldsPart(m, c.i, Flat(s), Flat(a), Flat(b));
      CalmPart(m, c.i, Size(s), c.log, c.i, Size(a), c.log);
      var d := Glides(m, a, c);
      CalmPart(m, c.i, Size(s), c.log, d.i, Size(b), d.log);
      r := Glides(m, b, d);
      Join(m, c, d, r, Size(a), Size(b));
      GlidedJoin(m, c, d, r, Size(a), Size(b));
    case Cond(_, _, _) =>
      r := GlidesIf(m, s, c);
    case Loop(_, _, _) =>
      r := GlidesLoop(m, s, c);
    case _ =>
      r := GlidesLeaf(m, s, c);
  }

  lemma GlidesLeaf(m: Machine, s: Stmt, c: Config) returns (r: Config)
    requires s.Cmd? || s.BreakOut?
    requires Start(m, c, s) && Calm(m, c.i, Size(s), c.log) && (LoopOn(c.p) ==> !OwnBreak(s))
    ensures Reaches(m, c, r, Size(s)) && Glided(m, c, r, Size(s))
  {
    hide Step, Steps, Reaches, TokenOf, Spelling, Unseen;
    HoldsAt(m, c.i, Flat(s), 0);
    OneStepUnseen(m, c.log, c.i, if s.Cmd? then s.argv else Word(Break), c.i + 1);
    if !c.p.Enabled() {
      StepDisabled(m, c);
    } else if s.Cmd? {
      StepCmd(m, c);
      assert Answers(m, c.i, c.log, s.argv);
    } else {
      StepBreak(m, c);
    }
    First(m, c);
    r := Step(m, c);
  }

  lemma OneStepUnseen(m: Machine, log: Log, i: nat, argv: Words, j: nat)
    requires m.Ordered() && i < |m.code| && i < j
    ensures Unseen(m, log, i) ==> Unseen(m, log, j) && Unseen(m, log + [Event(m.code[i].at, argv)], j)
  {
    hide Unseen;
    if Unseen(m, log, i) {
      UnseenLater(m, log, i, j);
      UnseenNext(m, log, i, argv);
      UnseenLater(m, log + [Event(m.code[i].at, argv)], i + 1, j);
    }
  }

  /** The log is as before, or the condition at `i` has been run. */
  ghost predicate Asked(m: Machine, log: Log, later: Log, i: nat, cond: Words)
    requires i < |m.code|
  {
    later == log || later == log + [Event(m.code[i].at, cond)]
  }

  /** `if` and `then`, with or without the condition being run. */
  lemma IntoIf(m: Machine, s: Stmt, c: Config) returns (d: Config, slot: ItefSlot)
    requires s.Cond? && Start(m, c, s) && c.i < |m.code|
    ensures Reaches(m, c, d, 2) && slot.state == ItefThen
    ensures d.p == PushIf(c.p, slot).(fail := d.p.fail) && d.i == c.i + 2 && !d.halted
    ensures Asked(m, c.log, d.log, c.i, s.cond)
  {
    hide Step, Steps, Reaches, TokenOf, Spelling, Plain, Holds, Flat, LoopDepth;
    LayoutIf(m, c.i, s);
    StepIf(m, c, s.cond);
    First(m, c);
    d := Step(m, c);
    StepThen(m, d);
    Next(m, c, d, 1);
    slot := d.p.ItefTop().(state := ItefThen);
    d := Step(m, d);
  }

  lemma AskedUnseen(m: Machine, log: Log, later: Log, i: nat, cond: Words)
    requires m.Ordered() && i < |m.code| && Asked(m, log, later, i, cond)
    ensures log <= later && (Unseen(m, log, i) ==> Unseen(m, later, i + 2))
  {
    hide Unseen;
    OneStepUnseen(m, log, i, cond, i + 2);
  }

  lemma {:induction false} GlidesIf(m: Machine, s: Stmt, c: Config) returns (r: Config)
    requires s.Cond? && Start(m, c, s) && Calm(m, c.i, Size(s), c.log) && (LoopOn(c.p) ==> !OwnBreak(s))
    ensures Reaches(m, c, r, Size(s)) && Glided(m, c, r, Size(s))
    decreases s, 0
  {
    hide Step, Steps, Reaches, Flat, FlatElse, Holds, Plain, TokenOf, Spelling, Calm, Unseen;
    SizeOf(s);
    LayoutIf(m, c.i, s);
    var d, slot := IntoIf(m, s, c);
    AskedUnseen(m, c.log, d.log, c.i, s.cond);
    CalmPart(m, c.i, Size(s), c.log, d.i, Size(s.thn), d.log);
    var e := Glides(m, s.thn, d);
    Join(m, c, d, e, 2, Size(s.thn));
    CalmPart(m, c.i, Size(s), c.log, e.i, |FlatElse(s.els)|, e.log);
    r := GlidesOut(m, s, c, slot, e);
    Join(m, c, e, r, 2 + Size(s.thn), |FlatElse(s.els)| + 1);
  }

  /** After the then part: the else part, if there is one, and `fi`. */
  lemma {:induction false} GlidesOut(m: Machine, s: Stmt, c: Config, slot: ItefSlot, e: Config) returns (r: Config)
    requires s.Cond? && Start(m, c, s) && c.p.iendx + 1 < |c.p.ie| && slot.state == ItefThen
    requires e.p.Valid() && Restored(PushIf(c.p, slot), e.p) && e.i == c.i + 2 + Size(s.thn) && !e.halted && c.log <= e.log
    requires Unseen(m, c.log, c.i) ==> Unseen(m, e.log, e.i)
    requires Calm(m, e.i, |FlatElse(s.els)|, e.log) && (LoopOn(c.p) ==> !OwnBreak(s))
    ensures Reaches(m, e, r, |FlatElse(s.els)| + 1) && Glided(m, c, r, Size(s))
    decreases s, 0, 0
  {
    hide Step, Steps, Reaches, Flat, FlatElse, Holds, Plain, TokenOf, Spelling, Calm, Unseen;
    SizeOf(s);
    LayoutIf(m, c.i, s);
    var f, last := GlidesElse(m, s.els, e, c.p, slot);
    r := CloseIf(m, c.p, last, f);
    OneStepUnseen(m, f.log, f.i, [], r.i);
    Join(m, e, f, r, |FlatElse(s.els)|, 1);
  }

  /** The else part, if there is one, on top of the stacks of `p`. */
  lemma {:induction false} GlidesElse(m: Machine, e: Stmt, c: Config, p: Parser, slot: ItefSlot)
    returns (r: Config, last: ItefSlot)
    requires Ready(p) && p.iendx + 1 < |p.ie| && p.iendx + 1 + IfDepth(e) < |p.ie| && p.lpndx + LoopDepth(e) < |p.lp|
    requires c.p.Valid() && Restored(PushIf(p, slot), c.p) && slot.state == ItefThen && !c.halted && m.Ordered()
    requires WellFormed(e) && Holds(m, c.i, FlatElse(e)) && c.i < |m.code|
    requires Calm(m, c.i, |FlatElse(e)|, c.log) && (LoopOn(p) ==> !OwnBreak(e))
    ensures Reaches(m, c, r, |FlatElse(e)|) && r.p.Valid() && r.i == c.i + |FlatElse(e)| && !r.halted && c.log <= r.log
    ensures Unseen(m, c.log, c.i) ==> Unseen(m, r.log, r.i)
    ensures (last.state == ItefThen || last.state == ItefElse) && Restored(PushIf(p, last), r.p)
    decreases e, 2
  {
    hide Step, Steps, Reaches, Flat, Holds, Plain, TokenOf, Spelling, Calm, Unseen;
    last := slot;
    if e.Skip? {
      AtOnce(m, c);
      r := c;
    } else {
      LayoutElse(m, c.i, e);
      StepElse(m, c);
      First(m, c);
      var d := Step(m, c);
      OneStepUnseen(m, c.log, c.i, [], d.i);
      last := slot.(state := ItefElse);
      CalmPart(m, c.i, |FlatElse(e)|, c.log, d.i, Size(e), d.log);
      r := Glides(m, e, d);
      Join(m, c, d, r, 1, Size(e));
      RestoredTrans(PushIf(p, last), d.p, r.p);
    }
  }

  /** A loop that is not entered, with or without its condition being run, and `do`. */
  lemma IntoLoop(m: Machine, s: Stmt, c: Config) returns (d: Config)
    requires s.Loop? && Start(m, c, s) && c.i < |m.code| && Calm(m, c.i, 1, c.log)
    ensures Reaches(m, c, d, 2) && d.i == c.i + 2 && !d.halted
    ensures var slot := LoopSlot(LoopDo, false, c.p.iendx, m.code[c.i].at);
            d.p == PushLoop(c.p, slot).(fail := d.p.fail)
    ensures Asked(m, c.log, d.log, c.i, s.cond)
  {
    hide Step, Steps, Reaches, TokenOf, Spelling, Plain, Holds, Flat, IfDepth;
    LayoutLoop(m, c.i, s);
    StepLoop(m, c, s.until, s.cond);
    assert Answers(m, c.i, c.log, s.cond);
    First(m, c);
    d := Step(m, c);
    StepDo(m, d);
    Next(m, c, d, 1);
    d := Step(m, d);
  }

  lemma {:induction false} GlidesLoop(m: Machine, s: Stmt, c: Config) returns (r: Config)
    requires s.Loop? && Start(m, c, s) && Calm(m, c.i, Size(s), c.log)
    ensures Reaches(m, c, r, Size(s)) && Glided(m, c, r, Size(s))
    decreases s, 0
  {
    hide Step, Steps, Reaches, Flat, Holds, Plain, TokenOf, Spelling, Calm, Unseen;
    SizeOf(s);
    LayoutLoop(m, c.i, s);
    CalmPart(m, c.i, Size(s), c.log, c.i, 1, c.log);
    var d := IntoLoop(m, s, c);
    AskedUnseen(m, c.log, d.log, c.i, s.cond);
    CalmPart(m, c.i, Size(s), c.log, d.i, Size(s.body), d.log);
    var e := Glides(m, s.body, d);
    Join(m, c, d, e, 2, Size(s.body));
    r := CloseLoop(m, s, c, e, false);
    OneStepUnseen(m, e.log, e.i, [], r.i);
    Join(m, c, e, r, Size(s) - 1, 1);
  }

  // ----- No slot is left in the middle of a condition -----

  /** Only the top slot can be waiting for its condition. */
  ghost predicate Shut(p: Parser) {
    forall k :: 0 <= k < |p.ie| && k != p.iendx ==> p.ie[k].state != ItefIf
  }

  /** `break` is not the condition of an `if`. */
  ghost predicate PlainIfs(m: Machine) {
    forall k :: 0 <= k < |m.code| ==> PlainIf(m.code[k].words)
  }

  predicate PlainIf(words: Words) {
    && (Head(words) == If ==> Head(words[1..]) != Break)
    && (Head(words) == While || Head(words) == Until || Head(words) == Do ==> Head(words[1..]) != If)
  }

  lemma ScanItefShut(p: Parser, words: Words)
    requires p.Valid() && Shut(p)
    ensures ScanItef(p, words).ok ==> Shut(ScanItef(p, words).p)
  {
    hide TokenOf;
  }

  lemma ScanItefOpens(p: Parser, words: Words)
    requires p.Valid()
    ensures var r := ScanItef(p, words);
            r.ok && r.words != [] && r.p.ItefTop().state == ItefIf ==> Head(words) == If && r.words == words[1..]
  {
    hide TokenOf;
  }

  lemma ScanLoopShut(p: Parser, words: Words, here: int)
    requires p.Valid() && Shut(p)
    ensures var r := ScanLoop(p, words, here);
            && Shut(r.p)
            && (r.ok && r.words != [] && r.p.InLoopCondition() ==> r.p.ItefTop().state != ItefIf)
  {
    hide TokenOf;
  }

  /** What is left of a loop command is not `if break`. */
  lemma ScanLoopPlain(p: Parser, words: Words, here: int)
    requires p.Valid() && PlainIf(words)
    ensures var r := ScanLoop(p, words, here); r.ok && Head(r.words) == If ==> Head(r.words[1..]) != Break
  {
    hide TokenOf;
  }

  lemma SaveShut(p: Parser, failed: bool, log: Log)
    requires p.Valid() && Shut(p)
    ensures Shut(SaveResult(p, failed, log).p)
  {
  }

  lemma ExecuteShut(p: Parser, argv: Words, here: int, world: World, log: Log)
    requires p.Valid() && Shut(p) && argv != [] && (p.ItefTop().state == ItefIf ==> Head(argv) != Break)
    ensures Shut(Execute(p, argv, here, world, log).p)
  {
    hide TokenOf, SaveResult;
    var log' := log + [Event(here, argv)];
    if Head(argv) == Break {
      SaveShut(BreakLoop(p), false, log');
    } else {
      SaveShut(p, world(log'), log');
    }
  }

  /** A rejected if keyword fails the command, or it is the condition of a loop. */
  lemma RejectedShut(p: Parser, words: Words, log: Log)
    requires p.Valid() && Shut(p) && words != [] && !ScanItef(p, words).ok
    requires p.InLoopCondition() ==> p.ItefTop().state != ItefIf
    ensures var r := SaveResult(ScanItef(p, words).p, true, log); r.ok ==> Shut(r.p)
  {
    hide TokenOf;
    assert ScanItef(p, words).p == ItefReset(p);
  }

  lemma ParseShut(p: Parser, words: Words, here: int, world: World, log: Log)
    requires p.Valid() && Shut(p) && PlainIf(words)
    ensures var r := ParseCommand(p, words, here, world, log); r.ok ==> Shut(r.p)
  {
    hide TokenOf, ScanLoop, ScanItef, Execute, SaveResult, Shut;
    var a := ScanLoop(p, words, here);
    ScanLoopShut(p, words, here);
    ScanLoopPlain(p, words, here);
    if !a.ok {
      SaveShut(a.p, true, log);
    } else {
      var b := ScanItef(a.p, a.words);
      ScanItefShut(a.p, a.words);
      ScanItefOpens(a.p, a.words);
      if a.words == [] {
        ScanItefEmpty(a.p);
      } else if !b.ok {
        RejectedShut(a.p, a.words, log);
      } else if b.words != [] {
        ExecuteShut(b.p, b.words, here, world, log);
      }
    }
  }

  lemma StepShut(m: Machine, c: Config)
    requires c.p.Valid() && c.i <= |m.code| && Shut(c.p) && PlainIfs(m) && !m.ignore
    ensures !Step(m, c).halted ==> Shut(Step(m, c).p)
  {
    hide ParseCommand, PlainIf;
    if c.Running(m) {
      ParseShut(c.p.(jump := None), m.code[c.i].words, m.code[c.i].at, m.world, c.log);
    }
  }

  lemma {:induction false} StaysShut(m: Machine, c: Config, r: Config, n: nat)
    requires Reaches(m, c, r, n) && Shut(c.p) && PlainIfs(m) && !m.ignore && !r.halted
    ensures Shut(r.p)
    decreases n
  {
    hide Step, Shut, PlainIfs;
    if n > 0 {
      StepShut(m, c);
      if Step(m, c).halted {
        StepsAtRest(m, Step(m, c), n - 1);
      } else {
        StaysShut(m, Step(m, c), r, n - 1);
      }
    }
  }

  lemma {:induction false} FlatPlainIfs(s: Stmt)
    requires WellFormed(s)
    ensures forall words :: words in Flat(s) ==> PlainIf(words)
  {
    hide TokenOf, Spelling;
    match s
    case Seq(a, b) =>
      FlatPlainIfs(a);
      FlatPlainIfs(b);
    case Cond(cond, t, e) =>
      FlatPlainIfs(t);
      FlatPlainIfs(e);
      assert (Word(If) + cond)[1..] == cond;
    case Loop(until, cond, b) =>
      FlatPlainIfs(b);
      assert (Word(LoopToken(until)) + cond)[1..] == cond;
      assert Word(Do)[1..] == [];
    case _ =>
  }

  // ----- An if index that is behind stays behind -----

  /** The loop stack is as before, but that the innermost loop may have been switched off. */
  ghost predicate LoopsKept(p: Parser, q: Parser)
    requires p.Valid() && q.Valid()
  {
    && |q.lp| == |p.lp| && q.lpndx == p.lpndx
    && (forall k :: 0 <= k < p.lpndx ==> q.lp[k] == p.lp[k])
    && (q.LoopTop() == p.LoopTop() || q.LoopTop() == p.LoopTop().(enable := false))
  }

  /** Dead, or `n` commands further with the if index below the nesting `d` of the code. */
  ghost predicate Drifted(c: Config, r: Config, n: nat, d: nat)
    requires c.p.Valid()
  {
    !r.halted ==>
      && Ready(r.p) && Shut(r.p) && r.i == c.i + n && c.log <= r.log && r.p.iendx < d && LoopsKept(c.p, r.p)
  }

  /** Code at nesting `d` that can be run from here, with the if index behind it. */
  ghost predicate Adrift(m: Machine, c: Config, s: Stmt, d: nat) {
    && Start(m, c, s) && Shut(c.p) && PlainIfs(m) && !m.ignore
    && c.p.iendx < d && d + IfDepth(s) < |c.p.ie|
    && Calm(m, c.i, Size(s), c.log)
    && (LoopOn(c.p) ==> c.p.LoopTop().iendx <= d && (HasBreak(s) ==> c.p.LoopTop().iendx < d))
  }

  lemma StepBreakOn(m: Machine, c: Config)
    requires Ready(c.p) && c.Running(m) && c.p.Enabled() && m.code[c.i].words == Word(Break)
    requires c.p.LoopTop().state == LoopDo && BreakLoop(c.p).ItefTop().state != ItefIf
    ensures Step(m, c) == Config(BreakLoop(c.p).(jump := None, fail := false), c.i + 1,
                                 c.log + [Event(m.code[c.i].at, Word(Break))], false)
  {
    hide ParseCommand, TokenOf, Spelling;
    ParseSimple(c.p.(jump := None), m.code[c.i].words, m.code[c.i].at, m.world, c.log);
  }

  lemma ParseRejected(p: Parser, words: Words, here: int, world: World, log: Log)
    requires p.Valid() && !p.InLoopCondition() && Head(words) in {Else, Fi} && !ScanItef(p, words).ok
    ensures var r := ParseCommand(p, words, here, world, log); !r.ok && r.log == log && r.p.fail
  {
    hide TokenOf, ScanLoop;
    ScanLoopOther(p, words, here);
  }

  /** `else` or `fi` that closes nothing stops the script. */
  lemma StepRejected(m: Machine, c: Config)
    requires c.p.Valid() && c.Running(m) && !c.p.InLoopCondition() && !m.ignore
    requires Head(m.code[c.i].words) in {Else, Fi} && !ScanItef(c.p.(jump := None), m.code[c.i].words).ok
    ensures Step(m, c).halted && Step(m, c).log == c.log && Step(m, c).p.fail
  {
    hide ParseCommand, TokenOf, ScanItef;
    ParseRejected(c.p.(jump := None), m.code[c.i].words, m.code[c.i].at, m.world, c.log);
  }

  lemma StepElseAny(m: Machine, c: Config)
    requires Ready(c.p) && c.Running(m) && !m.ignore && m.code[c.i].words == Word(Else)
    ensures !Step(m, c).halted ==>
              && c.p.ItefTop().state == ItefThen
              && Step(m, c) == Config(c.p.WithItefTop(c.p.ItefTop().(state := ItefElse)).(jump := None), c.i + 1, c.log, false)
  {
    hide Step, TokenOf, Spelling;
    if c.p.ItefTop().state == ItefThen {
      StepElse(m, c);
    } else {
      StepRejected(m, c);
    }
  }

  lemma StepFiAny(m: Machine, c: Config)
    requires Ready(c.p) && c.Running(m) && !m.ignore && m.code[c.i].words == Word(Fi)
    ensures !Step(m, c).halted ==>
              c.p.iendx > 0 && Step(m, c) == Config(c.p.(iendx := c.p.iendx - 1, jump := None), c.i + 1, c.log, false)
  {
    hide Step, TokenOf, Spelling;
    if c.p.ItefTop().state == ItefThen || c.p.ItefTop().state == ItefElse {
      StepFi(m, c);
    } else {
      StepRejected(m, c);
    }
  }

  /** Once behind, the if index stays behind, or the script dies. */
  lemma {:induction false} Drifts(m: Machine, s: Stmt, c: Config, d: nat) returns (r: Config, n: nat)
    requires Adrift(m, c, s, d)
    ensures Reaches(m, c, r, n) && Drifted(c, r, Size(s), d)
    decreases s, 3
  {
    hide Reaches, Drifted, Glided, Calm, Unseen, Shut, PlainIfs, WellFormed, Holds, Flat, Fits;
    if LoopOn(c.p) && OwnBreak(s) {
      match s
      case BreakOut =>
        r := DriftsBreak(m, s, c, d);
        n := 1;
      case Seq(_, _) =>
        r, n := DriftsSeq(m, s, c, d);
      case Cond(_, _, _) =>
        r, n := DriftsIf(m, s, c, d);
    } else {
      r := Glides(m, s, c);
      n := Size(s);
      GlidedDrifts(m, c, r, n, d);
    }
  }

  lemma GlidedDrifts(m: Machine, c: Config, r: Config, n: nat, d: nat)
    requires Ready(c.p) && Shut(c.p) && PlainIfs(m) && !m.ignore && c.p.iendx < d
    requires Reaches(m, c, r, n) && Glided(m, c, r, n)
    ensures Drifted(c, r, n, d)
  {
    hide Reaches, Shut, PlainIfs;
    StaysShut(m, c, r, n);
  }

  lemma DriftsBreak(m: Machine, s: Stmt, c: Config, d: nat) returns (r: Config)
    requires s.BreakOut? && Adrift(m, c, s, d) && LoopOn(c.p)
    ensures Reaches(m, c, r, 1) && Drifted(c, r, Size(s), d)
  {
    hide Step, Steps, Reaches, TokenOf, Spelling, Calm, PlainIfs;
    HoldsAt(m, c.i, Flat(s), 0);
    if c.p.Enabled() {
      StepBreakOn(m, c);
    } else {
      StepDisabled(m, c);
    }
    First(m, c);
    r := Step(m, c);
  }

  lemma {:induction false} DriftsSeq(m: Machine, s: Stmt, c: Config, d: nat) returns (r: Config, n: nat)
    requires s.Seq? && Adrift(m, c, s, d)
    ensures Reaches(m, c, r, n) && Drifted(c, r, Size(s), d)
    decreases s, 2
  {
    hide Step, Steps, Reaches, Plain, TokenOf, Spelling, Calm, Shut, PlainIfs, Flat, Holds;
    SizeOf(s);
    HoldsPart(m, c.i, Flat(s), Flat(s.first), Flat(s.second)) by { FlatSeq(s); }
    CalmPart(m, c.i, Size(s), c.log, c.i, Size(s.first), c.log);
    var e, k := Drifts(m, s.first, c, d);
    if e.halted {
      r, n := e, k;
    } else {
      CalmPart(m, c.i, Size(s), c.log, e.i, Size(s.second), e.log);
      var f, l := Drifts(m, s.second, e, d);
      Join(m, c, e, f, k, l);
      r, n := f, k + l;
    }
  }

  /** The parts of an `if` that come after the then part, with the if index behind. */
  ghost predicate Behind(m: Machine, c: Config, s: Stmt, d: nat, e: Config) {
    && s.Cond? && Start(m, c, s) && PlainIfs(m) && !m.ignore && d + IfDepth(s) < |c.p.ie|
    && (e.i == c.i + 2 + Size(s.thn) ==> Calm(m, e.i, |FlatElse(s.els)|, e.log))
    && Ready(e.p) && Shut(e.p) && !e.halted && c.log <= e.log && e.p.iendx < d + 1 && LoopsKept(c.p, e.p)
    && (LoopOn(e.p) ==> e.p.LoopTop().iendx <= d)
  }

  lemma {:induction false} DriftsIf(m: Machine, s: Stmt, c: Config, d: nat) returns (r: Config, n: nat)
    requires s.Cond? && Adrift(m, c, s, d)
    ensures Reaches(m, c, r, n) && Drifted(c, r, Size(s), d)
    decreases s, 2
  {
    hide Step, Steps, Reaches, Plain, TokenOf, Spelling, Calm, Shut, PlainIfs, Flat, FlatElse, Holds;
    SizeOf(s);
    LayoutIf(m, c.i, s);
    var e, slot := IntoIf(m, s, c);
    StaysShut(m, c, e, 2);
    CalmPart(m, c.i, Size(s), c.log, e.i, Size(s.thn), e.log);
    var f, l := Drifts(m, s.thn, e, d + 1);
    Join(m, c, e, f, 2, l);
    if f.halted {
      r, n := f, 2 + l;
    } else {
      CalmPart(m, c.i, Size(s), c.log, f.i, |FlatElse(s.els)|, f.log);
      r, n := AfterThen(m, c, s, d, f);
      Join(m, c, f, r, 2 + l, n);
      n := 2 + l + n;
    }
  }

  lemma {:induction false} AfterThen(m: Machine, c: Config, s: Stmt, d: nat, e: Config) returns (r: Config, n: nat)
    requires Behind(m, c, s, d, e) && e.i == c.i + 2 + Size(s.thn)
    ensures Reaches(m, e, r, n) && Drifted(c, r, Size(s), d)
    ensures !r.halted ==> e.log <= r.log && (LoopOn(r.p) ==> LoopOn(e.p))
    decreases s, 1
  {
    hide Step, Steps, Reaches, Plain, TokenOf, Spelling, Calm, Shut, PlainIfs, Flat, FlatElse, Holds;
    SizeOf(s);
    LayoutIf(m, c.i, s);
    if s.els.Skip? {
      r := AtFi(m, c, s, d, e);
      n := 1;
    } else {
      var g, l := AcrossElse(m, c, s, d, e);
      if g.halted {
        r, n := g, l;
      } else {
        r := AtFi(m, c, s, d, g);
        Join(m, e, g, r, l, 1);
        n := l + 1;
      }
    }
  }

  /** `else` and the part after it. */
  lemma {:induction false} AcrossElse(m: Machine, c: Config, s: Stmt, d: nat, e: Config) returns (r: Config, n: nat)
    requires Behind(m, c, s, d, e) && e.i == c.i + 2 + Size(s.thn) && !s.els.Skip?
    ensures Reaches(m, e, r, n)
    ensures !r.halted ==> Behind(m, c, s, d, r) && r.i == c.i + Size(s) - 1 && e.log <= r.log && (LoopOn(r.p) ==> LoopOn(e.p))
    decreases s, 1, 0
  {
    hide Step, Steps, Reaches, Plain, TokenOf, Spelling, Calm, Shut, PlainIfs, Flat, FlatElse, Holds;
    SizeOf(s);
    LayoutIf(m, c.i, s);
    LayoutElse(m, e.i, s.els);
    StepElseAny(m, e);
    First(m, e);
    var f := Step(m, e);
    if f.halted {
      r, n := f, 1;
    } else {
      StaysShut(m, e, f, 1);
      CalmPart(m, e.i, |FlatElse(s.els)|, e.log, f.i, Size(s.els), f.log);
      r, n := Drifts(m, s.els, f, d + 1);
      Join(m, e, f, r, 1, n);
      n := 1 + n;
    }
  }

  lemma AtFi(m: Machine, c: Config, s: Stmt, d: nat, e: Config) returns (r: Config)
    requires Behind(m, c, s, d, e) && e.i == c.i + Size(s) - 1
    ensures Reaches(m, e, r, 1) && Drifted(c, r, Size(s), d)
    ensures !r.halted ==> e.log <= r.log && (LoopOn(r.p) ==> LoopOn(e.p))
  {
    hide Step, Steps, Reaches, Plain, TokenOf, Spelling, Calm, PlainIfs, Flat, FlatElse, Holds;
    LayoutIf(m, c.i, s);
    StepFiAny(m, e);
    First(m, e);
    r := Step(m, e);
    if !r.halted {
      StaysShut(m, e, r, 1);
    }
  }
}
