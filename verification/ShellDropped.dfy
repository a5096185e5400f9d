/**
 Why layout matters when failures are ignored: a failing command takes the rest of its line
 with it, so that the same two commands mean one thing on one line and another on two.
 */
module ShellDropped {
  import opened Options
  import opened ShellParser
  import opened ShellText
  import opened ShellMachine
  import opened ShellFile
  import opened ShellTree
  import opened ShellRefinement
  import opened ShellScriptMeaning
  import opened ShellLayout
  import opened ShellLines

  const BOTH: string := "a;b"

  ghost predicate Failing(s: Script) {
    s.file == BOTH && 3 < s.lineLength && s.ignore && forall log :: s.world(log)
  }

  lemma Letter(text: string, c: char)
    requires text == [c] && c !in BLANKS + {'#', '>', '"', '`'}
    ensures WordsOf(text) == [[c]]
  {
    assert NotBlank(text, 0) == 0;
    assert ArgEnd(text, 0, BLANKS, false) == ArgEnd(text, 1, BLANKS, false) == 1;
    assert text[0..1] == [c];
    assert Argument(text, 0) == Arg([c], 1);
    WordsEnd(text);
  }

  lemma Segments()
    ensures SplitFrom(BOTH, 0, 0) == Split([Segment(0, 0, "a"), Segment(2, 2, "b")], true)
  {
    hide SplitFrom, Span;
    SpanIs(BOTH, 0, LINE_STOPS, 1);
    SplitMore(BOTH, 0, 0);
    SpanIs(BOTH, 2, LINE_STOPS, 3);
    SplitLast(BOTH, 2, 2);
    assert BOTH[0..1] == "a" && BOTH[2..] == "b";
  }

  lemma Line(s: Script)
    requires Failing(s)
    ensures s.LineEnd(0) == 3 && s.LineAt(0) == BOTH
  {
    hide Span;
    SpanIs(s.file, 0, {'\n'}, 3);
  }

  lemma Code(s: Script)
    requires Failing(s)
    ensures s.Code(0) == [Located(0, ["a"]), Located(2, ["b"])]
  {
    hide SplitFrom, Span, WordsOf, Script.LineEnd, Script.LineAt;
    Line(s);
    Segments();
    Letter("a", 'a');
    Letter("b", 'b');
    var segs := [Segment(0, 0, "a"), Segment(2, 2, "b")];
    assert segs[1..] == [segs[1]];
    assert CodeOf(segs[1..], 0) == [Located(2, ["b"])] + CodeOf([], 0);
  }

  /** A command that is not a keyword, at the top of a script, when everything fails. */
  lemma Fails(p: Parser, word: string, here: int, world: World, log: Log)
    requires Ready(p) && p.Enabled() && p.lpndx == 0 && p.iendx == 0 && Plain([word]) && forall l :: world(l)
    ensures ParseCommand(p, [word], here, world, log) == Outcome(p.(fail := true), log + [Event(here, [word])], false)
  {
    hide ParseCommand, TokenOf;
    ParseSimple(p, [word], here, world, log);
  }

  lemma Letters()
    ensures Plain(["a"]) && Plain(["b"])
  {
  }

  /** The line stops at its first command. */
  lemma LineStops(s: Script, depth: nat)
    requires Failing(s) && 0 < depth
    ensures ReadLine(s, Opened(depth)) == Reading(Fresh(depth).(fail := true), 3, [Event(0, ["a"])], false, false)
  {
    hide SplitFrom, Span, WordsOf, ParseCommand, Script.LineEnd, Script.LineAt, Plain;
    Line(s);
    Segments();
    Letters();
    Letter("a", 'a');
    Fails(Fresh(depth), "a", 0, s.world, []);
    var r := Opened(depth);
    assert r.p.(jump := None) == r.p;
    assert RunLine(r.p, BOTH, 0, s.world, []) == Outcome(Fresh(depth).(fail := true), [Event(0, ["a"])], false);
  }

  /** The machine runs both commands. */
  lemma MachineGoesOn(s: Script, depth: nat)
    requires Failing(s) && 0 < depth
    ensures var c := After(MachineOf(s), depth, 2);
            !c.Running(MachineOf(s)) && !c.halted && c.p.fail && c.log == [Event(0, ["a"]), Event(2, ["b"])]
  {
    hide Step, Plain, Script.Code;
    Code(s);
    Letters();
    var m, c := MachineOf(s), Init(depth);
    StepCmd(m, c);
    var d := Step(m, c);
    StepCmd(m, d);
    assert Steps(m, c, 2) == Steps(m, d, 1) == Steps(m, Step(m, d), 0);
  }

  /** On one line, with failures ignored, the second command is lost; the flat machine runs it. */
  lemma LayoutMatters(s: Script, depth: nat)
    requires Failing(s) && 0 < depth
    ensures TextEnds(s, depth, End([Event(0, ["a"])], true, false))
    ensures MachineEnds(MachineOf(s), depth, End([Event(0, ["a"]), Event(2, ["b"])], true, false))
  {
    hide ReadLine, Step, Steps, MachineOf;
    LineStops(s, depth);
    assert ReadLines(s, Opened(depth), 1) == ReadLines(s, ReadLine(s, Opened(depth)), 0);
    assert AtRest(s, ReadLines(s, Opened(depth), 1));
    MachineGoesOn(s, depth);
  }

  // ----- Where a lost command does not show -----

  /** The two lines `if c; then` and `x; fi`, as a whole file. */
  ghost predicate TwoLines(s: Script, c: Words, x: Words, at: seq<int>) {
    && s.Valid() && s.ignore && Plain(c) && Plain(x) && |at| == 4
    && 0 < |s.file| && s.LineEnd(0) < |s.file| && s.LineEnd(s.LineEnd(0)) == |s.file|
    && SplitFrom(s.LineAt(0), 0, 0).closed && SplitFrom(s.LineAt(s.LineEnd(0)), 0, 0).closed
    && CodeOf(SplitFrom(s.LineAt(0), 0, 0).segs, 0) == [Located(at[0], Word(If) + c), Located(at[1], Word(Then))]
    && CodeOf(SplitFrom(s.LineAt(s.LineEnd(0)), 0, 0).segs, s.LineEnd(0)) == [Located(at[2], x), Located(at[3], Word(Fi))]
  }

  /** A line is run as its commands are. */
  lemma LineRuns(s: Script, p: Parser, pos: nat, log: Log)
    requires s.Valid() && pos < |s.file| && p.Valid() && p.jump == None && SplitFrom(s.LineAt(pos), 0, 0).closed
    ensures RunLine(p, s.LineAt(pos), pos, s.world, log)
         == Together(p, CodeOf(SplitFrom(s.LineAt(pos), 0, 0).segs, pos), s.world, log)
  {
    hide SplitFrom, RunSegs, Together, CodeOf, Span, Parser.Valid;
    var split := SplitFrom(s.LineAt(pos), 0, 0);
    assert p.(jump := None) == p;
    assert split == Split(split.segs, true);
    LineIsTogether(p, split.segs, pos, s.world, log);
  }

  lemma FirstLine(p: Parser, c: Words, a: int, b: int, world: World, log: Log)
    requires Ready(p) && p.Enabled() && p.jump == None && p.iendx + 1 < |p.ie| && Plain(c)
    ensures var log' := log + [Event(a, c)];
            Together(p, [Located(a, Word(If) + c), Located(b, Word(Then))], world, log)
            == Outcome(PushIf(p, ItefSlot(ItefThen, false, world(log'))).(fail := false), log', true)
  {
    hide ParseCommand, TokenOf, Spelling, Plain, Together, Parser.Enabled, Ready;
    ReadyIs(p);
    var log' := log + [Event(a, c)];
    IfParsed(p, c, a, world, log);
    var q := PushIf(p, ItefSlot(ItefIf, false, world(log'))).(fail := false);
    ThenParsed(p, world(log'), b, world, log');
    Unfold(p, Located(a, Word(If) + c), [Located(b, Word(Then))], Outcome(q, log', true), world, log);
    var r := PushIf(p, ItefSlot(ItefThen, false, world(log'))).(fail := false);
    Unfold(q, Located(b, Word(Then)), [], Outcome(r, log', true), world, log');
    assert [Located(b, Word(Then))] == [Located(b, Word(Then))] + [];
    assert [Located(a, Word(If) + c), Located(b, Word(Then))] == [Located(a, Word(If) + c)] + [Located(b, Word(Then))];
    NoMore(r, world, log');
  }

  lemma ReadyIs(p: Parser)
    requires Ready(p)
    ensures p.Valid()
  {
  }

  lemma ThenParsed(p: Parser, failed: bool, here: int, world: World, log: Log)
    requires Ready(p) && p.iendx + 1 < |p.ie|
    ensures ParseCommand(PushIf(p, ItefSlot(ItefIf, false, failed)).(fail := false), Word(Then), here, world, log)
         == Outcome(PushIf(p, ItefSlot(ItefThen, false, failed)).(fail := false), log, true)
  {
    hide ParseCommand, TokenOf, Spelling, ScanLoop, Execute;
    ParseItef(PushIf(p, ItefSlot(ItefIf, false, failed)).(fail := false), Word(Then), here, world, log);
  }

  lemma SecondLine(p: Parser, slot: ItefSlot, x: Words, a: int, b: int, world: World, log: Log)
    requires Ready(p) && p.Enabled() && p.jump == None && p.iendx + 1 < |p.ie| && Plain(x)
    requires slot == ItefSlot(ItefThen, false, slot.ifcond) && !p.fail
    ensures var log' := log + [Event(a, x)];
            var r := Together(PushIf(p, slot), [Located(a, x), Located(b, Word(Fi))], world, log);
            && r.p.jump == None && r.p.fail == (!slot.ifcond && world(log'))
            && r.log == (if slot.ifcond then log else log') && r.ok == !r.p.fail
  {
    hide ParseCommand, TokenOf, Spelling, ScanLoop, Together, ScanItef;
    var q, fi := PushIf(p, slot), Located(b, Word(Fi));
    ParseSimple(q, x, a, world, log);
    var out := ParseCommand(q, x, a, world, log);
    Unfold(q, Located(a, x), [fi], out, world, log);
    assert [Located(a, x), fi] == [Located(a, x)] + [fi];
    if out.ok {
      FiParsed(out.p, b, world, out.log);
      var r := out.p.(iendx := out.p.iendx - 1);
      Unfold(out.p, fi, [], Outcome(r, out.log, true), world, out.log);
      assert [fi] == [fi] + [];
      NoMore(r, world, out.log);
    }
  }

  lemma FiParsed(p: Parser, here: int, world: World, log: Log)
    requires p.Valid() && !p.InLoopCondition() && p.ItefTop().state == ItefThen
    ensures p.iendx > 0
    ensures ParseCommand(p, Word(Fi), here, world, log) == Outcome(p.(iendx := p.iendx - 1), log, true)
  {
    hide ParseCommand, TokenOf, Spelling, ScanLoop, Execute;
    ParseItef(p, Word(Fi), here, world, log);
  }

  /** What the two lines do. */
  lemma TwoLinesRun(s: Script, c: Words, x: Words, at: seq<int>, depth: nat)
    requires TwoLines(s, c, x, at) && 1 < depth
    ensures var one := [Event(at[0], c)];
            var two := one + [Event(at[2], x)];
            var r := ReadLine(s, ReadLine(s, Opened(depth)));
            && !ReadLine(s, Opened(depth)).stopped && ReadLine(s, Opened(depth)).pos < |s.file|
            && r.pos == |s.file| && !r.stopped
            && r.log == (if s.world(one) then one else two) && r.p.fail == (!s.world(one) && s.world(two))
  {
    hide SplitFrom, CodeOf, Together, RunLine, Span, Plain, Script.LineEnd, Script.LineAt;
    var one := [Event(at[0], c)];
    var p := Fresh(depth);
    assert [] + one == one;
    LineRuns(s, p, 0, []);
    FirstLine(p, c, at[0], at[1], s.world, []);
    var slot := ItefSlot(ItefThen, false, s.world(one));
    var q := PushIf(p, slot).(fail := false);
    assert q == PushIf(p, slot);
    LineRuns(s, q, s.LineEnd(0), one);
    SecondLine(p, slot, x, at[2], at[3], s.world, one);
    var first := ReadLine(s, Opened(depth));
    assert first.p == q && first.pos == s.LineEnd(0) && first.log == one;
  }

  lemma TwoLinesCode(s: Script, c: Words, x: Words, at: seq<int>)
    requires TwoLines(s, c, x, at)
    ensures s.Code(0) == [Located(at[0], Word(If) + c), Located(at[1], Word(Then)), Located(at[2], x), Located(at[3], Word(Fi))]
    ensures Spells(s, Cond(c, Cmd(x), Skip)) && !Spread(s, 0)
  {
    hide SplitFrom, CodeOf, Span, TokenOf, Spelling, Script.LineEnd, Script.LineAt;
    var e := s.LineEnd(0);
    assert s.Code(|s.file|) == [];
    assert s.Code(e) == [Located(at[2], x), Located(at[3], Word(Fi))] + [];
    var t := Cond(c, Cmd(x), Skip);
    assert Flat(t) == [Word(If) + c, Word(Then)] + [x] + [] + [Word(Fi)];
    var line := CodeOf(SplitFrom(s.LineAt(e), 0, 0).segs, e);
    assert Head(line[0].words) == Other;
    assert !Apart(line);
  }

  /** How the tree runs, whatever the fuel. */
  lemma TwoLinesTree(s: Script, c: Words, x: Words, at: seq<int>, fuel: nat)
    requires TwoLines(s, c, x, at)
    ensures |MachineOf(s).code| == Size(Cond(c, Cmd(x), Skip))
    ensures var one := [Event(at[0], c)];
            var two := one + [Event(at[2], x)];
            TreeRun(MachineOf(s), Cond(c, Cmd(x), Skip), fuel)
            == if s.world(one) then Normal(one, false) else Normal(two, s.world(two))
  {
    hide SplitFrom, CodeOf, Span, TokenOf, Spelling, Script.LineEnd, Script.LineAt, Script.Code, Flat, Eval;
    TwoLinesCode(s, c, x, at);
    var t, env := Cond(c, Cmd(x), Skip), EnvOf(MachineOf(s));
    SizeOf(t);
    SizeOf(Cmd(x));
    EvalCond(env, t, 0, false, [], false, fuel);
    var one := [Event(at[0], c)];
    assert [] + one == one;
    EvalCmd(env, x, 2, one, false, fuel);
  }

  lemma ReadTwo(s: Script, r: Reading, k: nat)
    requires s.Valid() && r.p.Valid() && r.pos <= |s.file|
    ensures ReadLines(s, r, 0) == r && ReadLines(s, r, 1) == ReadLine(s, r)
    ensures ReadLine(s, ReadLine(s, r)).pos == |s.file| ==> ReadLines(s, r, k + 2) == ReadLine(s, ReadLine(s, r))
  {
    hide ReadLine;
    assert ReadLines(s, r, 1) == ReadLines(s, ReadLine(s, r), 0);
    var q := ReadLine(s, ReadLine(s, r));
    assert ReadLines(s, r, k + 2) == ReadLines(s, ReadLine(s, r), k + 1) == ReadLines(s, q, k);
    if q.pos == |s.file| {
      RestLines(s, q, k);
    }
  }

  lemma {:induction false} RestLines(s: Script, r: Reading, k: nat)
    requires s.Valid() && r.p.Valid() && r.pos <= |s.file| && AtRest(s, r)
    ensures ReadLines(s, r, k) == r
    decreases k
  {
    hide ReadLine;
    if k > 0 {
      RestStays(s, r);
      RestLines(s, r, k - 1);
    }
  }

  /** The one end that the two lines come to. */
  ghost function TheEnd(s: Script, depth: nat): End
    requires s.Valid() && 0 < depth
  {
    var last := ReadLine(s, ReadLine(s, Opened(depth)));
    End(last.log, last.p.fail, false)
  }

  lemma TextEnd(s: Script, c: Words, x: Words, at: seq<int>, depth: nat, end: End)
    requires TwoLines(s, c, x, at) && 1 < depth
    ensures TextEnds(s, depth, end) <==> end == TheEnd(s, depth)
  {
    hide ReadLine, ReadLines, TwoLines;
    TwoLinesParts(s, c, x, at);
    TwoLinesRun(s, c, x, at, depth);
    var r0 := Opened(depth);
    if TextEnds(s, depth, end) {
      var k: nat :| var r := ReadLines(s, r0, k); AtRest(s, r) && end == End(r.log, r.p.fail, r.stopped);
      ReadTwo(s, r0, if k < 2 then 0 else k - 2);
    }
    ReadTwo(s, r0, 0);
    assert AtRest(s, ReadLines(s, r0, 2));
  }

  lemma TreeEnd(s: Script, c: Words, x: Words, at: seq<int>, depth: nat, end: End)
    requires TwoLines(s, c, x, at) && 1 < depth
    ensures |MachineOf(s).code| == Size(Cond(c, Cmd(x), Skip))
    ensures TreeEnds(MachineOf(s), Cond(c, Cmd(x), Skip), end) <==> end == TheEnd(s, depth)
  {
    hide ReadLine, Eval, Flat, TwoLines, MachineOf;
    var t := Cond(c, Cmd(x), Skip);
    TwoLinesParts(s, c, x, at);
    TwoLinesRun(s, c, x, at, depth);
    TwoLinesTree(s, c, x, at, 0);
    if TreeEnds(MachineOf(s), t, end) {
      var fuel: nat :| var r := TreeRun(MachineOf(s), t, fuel);
        (r.Normal? && end == End(r.log, r.fail, false)) || (r.Stopped? && end == End(r.log, true, true));
      TwoLinesTree(s, c, x, at, fuel);
    }
    assert TreeRun(MachineOf(s), t, 0).Normal?;
  }

  /**
   For whole scripts the condition is not needed: a file whose last line is `x; fi` loses the `fi`
   when `x` fails, and yet in every world it ends as its tree does.
   */
  lemma LossUnseen(s: Script, c: Words, x: Words, at: seq<int>, depth: nat)
    requires TwoLines(s, c, x, at) && 1 < depth
    ensures Spells(s, Cond(c, Cmd(x), Skip)) && !Spread(s, 0)
    ensures forall end :: TextEnds(s, depth, end) <==> TreeEnds(MachineOf(s), Cond(c, Cmd(x), Skip), end)
  {
    hide ReadLine, ReadLines, Eval, Flat, TwoLines, Spread, Spells, MachineOf, TextEnds, TreeEnds;
    TwoLinesParts(s, c, x, at);
    TwoLinesCode(s, c, x, at);
    TwoLinesTree(s, c, x, at, 0);
    forall end ensures TextEnds(s, depth, end) <==> TreeEnds(MachineOf(s), Cond(c, Cmd(x), Skip), end) {
      TextEnd(s, c, x, at, depth, end);
      TreeEnd(s, c, x, at, depth, end);
    }
  }

  lemma TwoLinesParts(s: Script, c: Words, x: Words, at: seq<int>)
    requires TwoLines(s, c, x, at)
    ensures s.Valid() && |at| == 4 && 0 < |s.file|
  {
  }
}
