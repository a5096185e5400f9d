/**
 The shape of the stacks: how deep they are and what state each slot is in. Without `break` it
 hangs on the commands alone and not on what they are answered, so well-nested code is accepted
 in every world, and so is any beginning of it.
 */
module ShellShape {
  import opened Options
  import opened ShellParser
  import opened ShellTree
  import opened ShellMachine
  import opened ShellText
  import opened ShellFile
  import opened ShellRefinement
  import opened ShellLines

  predicate NoBreak(s: Stmt) {
    match s
    case BreakOut => false
    case Seq(a, b) => NoBreak(a) && NoBreak(b)
    case Cond(_, t, e) => NoBreak(t) && NoBreak(e)
    case Loop(_, _, b) => NoBreak(b)
    case _ => true
  }

  ghost predicate Shaped(p: Parser, q: Parser) {
    && p.Valid() && q.Valid() && |q.lp| == |p.lp| && q.scripted == p.scripted && q.jump == None
    && q.lpndx == p.lpndx && q.iendx == p.iendx
    && (forall k :: 0 <= k <= p.lpndx ==> q.lp[k].state == p.lp[k].state)
    && (forall k :: 0 <= k <= p.iendx ==> q.ie[k].state == p.ie[k].state)
  }

  /** The command is accepted and gives the stacks this shape, or it jumps. */
  ghost predicate Gives(p: Parser, cmd: Located, world: World, log: Log, q: Parser)
    requires p.Valid()
  {
    && Accepted(p, cmd.words, cmd.at)
    && (var r := ParseCommand(p, cmd.words, cmd.at, world, log).p; r.jump.Some? || Shaped(q, r))
  }

  lemma SaveShaped(p: Parser, failed: bool, log: Log)
    requires p.Valid() && p.jump == None
    ensures Shaped(p, SaveResult(p, failed, log).p)
  {
  }

  lemma GivesCmd(p: Parser, cmd: Located, world: World, log: Log)
    requires Ready(p) && p.jump == None && Plain(cmd.words)
    ensures Gives(p, cmd, world, log, p)
  {
    hide ParseCommand, TokenOf, Spelling, SaveResult, ScanLoop, ScanItef;
    ScanLoopOther(p, cmd.words, cmd.at);
    ScanItefOther(p, cmd.words);
    ParseSimple(p, cmd.words, cmd.at, world, log);
    var log' := log + [Event(cmd.at, cmd.words)];
    SaveShaped(p, world(log'), log');
  }

  lemma GivesIf(p: Parser, cond: Words, at: int, world: World, log: Log)
    requires Ready(p) && p.jump == None && Plain(cond) && p.iendx + 1 < |p.ie|
    ensures Gives(p, Located(at, Word(If) + cond), world, log, PushIf(p, ItefSlot(ItefIf, false, false)))
  {
    hide ParseCommand, TokenOf, Spelling, SaveResult, ScanLoop, ScanItef;
    var q := PushIf(p, ItefSlot(ItefIf, !p.Enabled(), false));
    ScanIf(p, cond);
    ScanLoopOther(p, Word(If) + cond, at);
    ParseItef(p, Word(If) + cond, at, world, log);
    var log' := log + [Event(at, cond)];
    SaveShaped(q, world(log'), log');
  }

  lemma GivesThen(p: Parser, at: int, world: World, log: Log)
    requires p.Valid() && p.jump == None && !p.InLoopCondition() && p.ItefTop().state == ItefIf
    ensures Gives(p, Located(at, Word(Then)), world, log, p.WithItefTop(p.ItefTop().(state := ItefThen)))
  {
    hide ParseCommand, TokenOf, Spelling, ScanLoop;
    ScanLoopOther(p, Word(Then), at);
    ParseItef(p, Word(Then), at, world, log);
  }

  lemma GivesElse(p: Parser, at: int, world: World, log: Log)
    requires p.Valid() && p.jump == None && !p.InLoopCondition() && p.ItefTop().state == ItefThen
    ensures Gives(p, Located(at, Word(Else)), world, log, p.WithItefTop(p.ItefTop().(state := ItefElse)))
  {
    hide ParseCommand, TokenOf, Spelling, ScanLoop;
    ScanLoopOther(p, Word(Else), at);
    ParseItef(p, Word(Else), at, world, log);
  }

  lemma GivesFi(p: Parser, at: int, world: World, log: Log)
    requires p.Valid() && p.jump == None && !p.InLoopCondition()
    requires p.ItefTop().state == ItefThen || p.ItefTop().state == ItefElse
    ensures p.iendx > 0 && Gives(p, Located(at, Word(Fi)), world, log, p.(iendx := p.iendx - 1))
  {
    hide ParseCommand, TokenOf, Spelling, ScanLoop;
    ScanLoopOther(p, Word(Fi), at);
    ParseItef(p, Word(Fi), at, world, log);
  }

  lemma GivesLoop(p: Parser, until: bool, cond: Words, at: int, world: World, log: Log)
    requires Ready(p) && p.jump == None && Plain(cond) && p.lpndx + 1 < |p.lp|
    ensures Gives(p, Located(at, Word(LoopToken(until)) + cond), world, log,
                  PushLoop(p, LoopSlot(if until then LoopUntil else LoopWhile, false, p.iendx, at)))
  {
    hide ParseCommand, TokenOf, Spelling, ScanLoop, ScanItef;
    assert p.(jump := None) == p;
    ParseLoop(p, until, cond, at, world, log);
    ScanEnter(p, until, cond, at);
    ScanItefOther(PushLoop(p, LoopSlot(if until then LoopUntil else LoopWhile, p.Enabled(), p.iendx, at)), cond);
  }

  lemma GivesDo(p: Parser, at: int, world: World, log: Log)
    requires p.Valid() && p.jump == None && p.InLoopCondition()
    ensures Gives(p, Located(at, Word(Do)), world, log, p.WithLoopTop(p.LoopTop().(state := LoopDo)))
  {
    hide ParseCommand, TokenOf, Spelling, ScanItef;
    var q := p.WithLoopTop(p.LoopTop().(state := LoopDo));
    ScanItefEmpty(q);
    ParseScanned(p, Word(Do), at, world, log, Scan(q, [], true), Scan(q, [], true));
  }

  lemma GivesDone(p: Parser, at: int, world: World, log: Log)
    requires p.Valid() && p.jump == None && p.LoopTop().state == LoopDo
    ensures p.lpndx > 0 && p.(lpndx := p.lpndx - 1).Valid()
    ensures Gives(p, Located(at, Word(Done)), world, log, p.(lpndx := p.lpndx - 1))
  {
    hide ParseCommand, TokenOf, Spelling, ScanItef;
    var q := LeaveLoop(p);
    ScanItefEmpty(q);
    ParseScanned(p, Word(Done), at, world, log, Scan(q, [], true), Scan(q, [], true));
  }

  // ----- Lists of commands -----

  /** The commands are accepted one by one and give the stacks this shape, or one of them jumps. */
  ghost predicate Goes(p: Parser, code: seq<Located>, world: World, log: Log, q: Parser)
    requires p.Valid()
  {
    Unrejected(p, code, world, log) && (var r := OneByOne(p, code, world, log).p; r.jump.Some? || Shaped(q, r))
  }

  lemma GoesOne(p: Parser, cmd: Located, world: World, log: Log, q: Parser)
    requires p.Valid() && Gives(p, cmd, world, log, q)
    ensures Goes(p, [cmd], world, log, q)
  {
    hide ParseCommand, Accepted, Shaped, Parser.Valid;
    var out := ParseCommand(p, cmd.words, cmd.at, world, log);
    assert [cmd][1..] == [];
    assert OneByOne(out.p, [], world, out.log).p == out.p && Unrejected(out.p, [], world, out.log);
  }

  /** Two lists in a row. */
  lemma {:induction false} Chain(p: Parser, a: seq<Located>, b: seq<Located>, world: World, log: Log)
    requires p.Valid() && p.jump == None && Unrejected(p, a, world, log)
    requires var r := OneByOne(p, a, world, log); r.p.jump.None? ==> Unrejected(r.p, b, world, r.log)
    ensures Unrejected(p, a + b, world, log)
    ensures var r := OneByOne(p, a, world, log);
            var all := OneByOne(p, a + b, world, log);
            if r.p.jump.Some? then all.p == r.p else all == OneByOne(r.p, b, world, r.log)
    decreases |a|
  {
    hide ParseCommand, Accepted, Parser.Valid;
    if a == [] {
      assert a + b == b;
    } else {
      var out := ParseCommand(p, a[0].words, a[0].at, world, log);
      assert (a + b)[0] == a[0] && (a + b)[1..] == a[1..] + b;
      if out.p.jump == None {
        Chain(out.p, a[1..], b, world, out.log);
      }
    }
  }

  lemma GoesJoin(p: Parser, a: seq<Located>, b: seq<Located>, world: World, log: Log, q: Parser, z: Parser)
    requires p.Valid() && p.jump == None && Goes(p, a, world, log, q)
    requires var r := OneByOne(p, a, world, log); r.p.jump.None? ==> Goes(r.p, b, world, r.log, z)
    ensures Goes(p, a + b, world, log, z)
  {
    hide Unrejected, OneByOne, Shaped, Parser.Valid;
    Chain(p, a, b, world, log);
  }

  lemma ShapedIs(p: Parser, q: Parser)
    requires Shaped(p, q)
    ensures p.Valid() && q.Valid() && q.jump == None
  {
  }

  lemma ShapedTrans(p: Parser, q: Parser, r: Parser)
    requires Shaped(p, q) && Shaped(q, r)
    ensures Shaped(p, r)
  {
  }

  lemma GoesTo(p: Parser, code: seq<Located>, world: World, log: Log, q: Parser, z: Parser)
    requires p.Valid() && Goes(p, code, world, log, q) && Shaped(z, q)
    ensures Goes(p, code, world, log, z)
  {
    hide Unrejected, OneByOne, Shaped, Parser.Valid;
    var r := OneByOne(p, code, world, log).p;
    if Shaped(q, r) {
      ShapedTrans(z, q, r);
    }
  }

  ghost predicate Spelt(code: seq<Located>, words: seq<Words>) {
    |code| == |words| && forall k :: 0 <= k < |code| ==> code[k].words == words[k]
  }

  lemma SpeltPart(code: seq<Located>, a: seq<Words>, b: seq<Words>)
    requires Spelt(code, a + b)
    ensures Spelt(code[..|a|], a) && Spelt(code[|a|..], b) && code == code[..|a|] + code[|a|..]
  {
    assert forall k :: 0 <= k < |b| ==> (a + b)[|a| + k] == b[k];
  }

  /** A state of this shape can run this. */
  ghost predicate Takes(p: Parser, s: Stmt) {
    Ready(p) && p.jump == None && WellFormed(s) && NoBreak(s) && Fits(p, s)
  }

  lemma TakesShaped(p: Parser, q: Parser, s: Stmt)
    requires Takes(p, s) && Shaped(p, q)
    ensures Takes(q, s)
  {
    hide WellFormed, NoBreak, IfDepth, LoopDepth;
  }

  /** Well-nested code without `break` is accepted in every world, and leaves the shape as it was. */
  lemma {:induction false} Passes(p: Parser, s: Stmt, code: seq<Located>, world: World, log: Log)
    requires Takes(p, s) && Spelt(code, Flat(s))
    ensures Goes(p, code, world, log, p)
    decreases s, 1
  {
    hide Goes, Gives, Parser.Valid, TokenOf, Spelling, ParseCommand, Shaped;
    match s
    case Skip =>
      GoesNone(p, world, log);
    case Cmd(argv) =>
      GivesCmd(p, code[0], world, log);
      GoesOne(p, code[0], world, log, p);
      assert code == [code[0]];
    case Seq(a, b) =>
      SpeltPart(code, Flat(a), Flat(b));
      Passes(p, a, code[..Size(a)], world, log);
      var r := OneByOne(p, code[..Size(a)], world, log);
      if r.p.jump.None? {
        GoesShaped(p, code[..Size(a)], world, log, p);
        TakesShaped(p, r.p, b);
        Passes(r.p, b, code[Size(a)..], world, r.log);
        GoesTo(r.p, code[Size(a)..], world, r.log, r.p, p);
      }
      GoesJoin(p, code[..Size(a)], code[Size(a)..], world, log, p, p);
    case Cond(_, _, _) =>
      PassesIf(p, s, code, world, log);
    case Loop(_, _, _) =>
      PassesLoop(p, s, code, world, log);
  }

  lemma GoesNone(p: Parser, world: World, log: Log)
    requires p.Valid() && p.jump == None
    ensures Goes(p, [], world, log, p)
  {
  }

  lemma GoesShaped(p: Parser, code: seq<Located>, world: World, log: Log, q: Parser)
    requires p.Valid() && Goes(p, code, world, log, q) && OneByOne(p, code, world, log).p.jump.None?
    ensures Shaped(q, OneByOne(p, code, world, log).p)
  {
  }

  lemma {:induction false} PassesIf(p: Parser, s: Stmt, code: seq<Located>, world: World, log: Log)
    requires s.Cond? && Takes(p, s) && Spelt(code, Flat(s))
    ensures Goes(p, code, world, log, p)
    decreases s, 0
  {
    hide Goes, Gives, Parser.Valid, TokenOf, Spelling, ParseCommand, Shaped;
    var head := [Word(If) + s.cond, Word(Then)];
    var tail := FlatElse(s.els) + [Word(Fi)];
    assert Flat(s) == head + (Flat(s.thn) + tail);
    SpeltPart(code, head, Flat(s.thn) + tail);
    var body := code[2..];
    SpeltPart(body, Flat(s.thn), tail);
    var slot := ItefSlot(ItefThen, false, false);
    PassesHead(p, s.cond, code[..2], world, log);
    var r := OneByOne(p, code[..2], world, log);
    if r.p.jump.None? {
      GoesShaped(p, code[..2], world, log, PushIf(p, slot));
      TakesThen(p, s, r.p);
      Passes(r.p, s.thn, body[..Size(s.thn)], world, r.log);
      var q := OneByOne(r.p, body[..Size(s.thn)], world, r.log);
      if q.p.jump.None? {
        GoesShaped(r.p, body[..Size(s.thn)], world, r.log, r.p);
        ShapedTrans(PushIf(p, slot), r.p, q.p);
        PassesRest(p, s, q.p, body[Size(s.thn)..], world, q.log);
      }
      GoesJoin(r.p, body[..Size(s.thn)], body[Size(s.thn)..], world, r.log, r.p, p);
    }
    GoesJoin(p, code[..2], body, world, log, PushIf(p, slot), p);
  }

  lemma TakesThen(p: Parser, s: Stmt, q: Parser)
    requires s.Cond? && Takes(p, s) && p.iendx + 1 < |p.ie|
    requires Shaped(PushIf(p, ItefSlot(ItefThen, false, false)), q)
    ensures Takes(q, s.thn)
  {
    hide Plain;
  }

  /** `if` and `then`. */
  lemma PassesHead(p: Parser, cond: Words, code: seq<Located>, world: World, log: Log)
    requires Ready(p) && p.jump == None && Plain(cond) && p.iendx + 1 < |p.ie|
    requires Spelt(code, [Word(If) + cond, Word(Then)])
    ensures Goes(p, code, world, log, PushIf(p, ItefSlot(ItefThen, false, false)))
  {
    hide Goes, Gives, TokenOf, Spelling, ParseCommand, Plain, Unrejected, OneByOne;
    var q := PushIf(p, ItefSlot(ItefThen, false, false));
    assert code == [code[0]] + [code[1]];
    GivesIf(p, cond, code[0].at, world, log);
    GoesOne(p, code[0], world, log, PushIf(p, ItefSlot(ItefIf, false, false)));
    var r := OneByOne(p, [code[0]], world, log);
    if r.p.jump.None? {
      GoesShaped(p, [code[0]], world, log, PushIf(p, ItefSlot(ItefIf, false, false)));
      GivesThen(r.p, code[1].at, world, r.log);
      var z := r.p.WithItefTop(r.p.ItefTop().(state := ItefThen));
      GoesOne(r.p, code[1], world, r.log, z);
      GoesTo(r.p, [code[1]], world, r.log, z, q);
    }
    GoesJoin(p, [code[0]], [code[1]], world, log, PushIf(p, ItefSlot(ItefIf, false, false)), q);
  }

  /** The else part, if there is one, and `fi`. */
  lemma {:induction false} PassesRest(p: Parser, s: Stmt, q: Parser, code: seq<Located>, world: World, log: Log)
    requires s.Cond? && Takes(p, s) && p.iendx + 1 < |p.ie| && Shaped(PushIf(p, ItefSlot(ItefThen, false, false)), q)
    requires Spelt(code, FlatElse(s.els) + [Word(Fi)])
    ensures Goes(q, code, world, log, p)
    decreases s, 0, 0
  {
    hide Goes, Gives, TokenOf, Spelling, ParseCommand, Unrejected, OneByOne, Flat, Plain, Shaped, WellFormed, NoBreak, IfDepth,
         LoopDepth;
    ShapedIs(PushIf(p, ItefSlot(ItefThen, false, false)), q);
    var n := |FlatElse(s.els)|;
    SpeltPart(code, FlatElse(s.els), [Word(Fi)]);
    var last := code[n..];
    assert last == [last[0]];
    var z := PassesElse(p, s, q, code[..n], world, log);
    var r := OneByOne(q, code[..n], world, log);
    if r.p.jump.None? {
      GoesShaped(q, code[..n], world, log, z);
      PassesFi(p, z, r.p, last[0], world, r.log);
    }
    GoesJoin(q, code[..n], last, world, log, z, p);
  }

  lemma PassesFi(p: Parser, z: Parser, r: Parser, cmd: Located, world: World, log: Log)
    requires Ready(p) && p.jump == None && p.iendx + 1 < |p.ie| && Shaped(z, r) && cmd.words == Word(Fi)
    requires z.ItefTop().state in {ItefThen, ItefElse} && z == PushIf(p, ItefSlot(z.ItefTop().state, false, false))
    ensures Goes(r, [cmd], world, log, p)
  {
    hide Goes, Gives, TokenOf, Spelling, ParseCommand;
    GivesFi(r, cmd.at, world, log);
    GoesOne(r, cmd, world, log, r.(iendx := r.iendx - 1));
    GoesTo(r, [cmd], world, log, r.(iendx := r.iendx - 1), p);
  }

  lemma {:induction false} PassesElse(p: Parser, s: Stmt, q: Parser, code: seq<Located>, world: World, log: Log)
    returns (z: Parser)
    requires s.Cond? && Takes(p, s) && p.iendx + 1 < |p.ie| && Shaped(PushIf(p, ItefSlot(ItefThen, false, false)), q)
    requires Spelt(code, FlatElse(s.els))
    ensures z.Valid() && z.ItefTop().state in {ItefThen, ItefElse}
    ensures z == PushIf(p, ItefSlot(z.ItefTop().state, false, false)) && Goes(q, code, world, log, z)
    decreases s, 0, 0, 0
  {
    hide Goes, Gives, TokenOf, Spelling, ParseCommand, Unrejected, OneByOne, Flat, Plain;
    z := PushIf(p, ItefSlot(ItefThen, false, false));
    if s.els.Skip? {
      assert code == [];
      GoesNone(q, world, log);
      GoesTo(q, code, world, log, q, z);
    } else {
      SpeltPart(code, [Word(Else)], Flat(s.els));
      z := PushIf(p, ItefSlot(ItefElse, false, false));
      var first, rest := code[..1], code[1..];
      assert first == [first[0]];
      GivesElse(q, first[0].at, world, log);
      var y := q.WithItefTop(q.ItefTop().(state := ItefElse));
      GoesOne(q, first[0], world, log, y);
      var r := OneByOne(q, first, world, log);
      if r.p.jump.None? {
        GoesShaped(q, first, world, log, y);
        TakesElse(p, s, r.p);
        Passes(r.p, s.els, rest, world, r.log);
        GoesTo(r.p, rest, world, r.log, r.p, z);
      }
      GoesJoin(q, first, rest, world, log, y, z);
    }
  }

  lemma TakesElse(p: Parser, s: Stmt, q: Parser)
    requires s.Cond? && Takes(p, s) && p.iendx + 1 < |p.ie|
    requires Shaped(PushIf(p, ItefSlot(ItefElse, false, false)), q)
    ensures Takes(q, s.els)
  {
    hide Plain;
  }

  lemma {:induction false} PassesLoop(p: Parser, s: Stmt, code: seq<Located>, world: World, log: Log)
    requires s.Loop? && Takes(p, s) && Spelt(code, Flat(s))
    ensures Goes(p, code, world, log, p)
    decreases s, 0
  {
    hide Goes, Gives, TokenOf, Spelling, ParseCommand, Unrejected, OneByOne, Plain;
    var head := [Word(LoopToken(s.until)) + s.cond, Word(Do)];
    assert Flat(s) == head + (Flat(s.body) + [Word(Done)]);
    SpeltPart(code, head, Flat(s.body) + [Word(Done)]);
    var rest := code[2..];
    SpeltPart(rest, Flat(s.body), [Word(Done)]);
    var z := PushLoop(p, LoopSlot(LoopDo, false, p.iendx, code[0].at));
    PassesDo(p, s.until, s.cond, code[..2], world, log);
    var r := OneByOne(p, code[..2], world, log);
    if r.p.jump.None? {
      GoesShaped(p, code[..2], world, log, z);
      TakesBody(p, s, code[0].at, r.p);
      Passes(r.p, s.body, rest[..Size(s.body)], world, r.log);
      PassesDone(p, code[0].at, r.p, rest[..Size(s.body)], rest[Size(s.body)..], world, r.log);
    }
    GoesJoin(p, code[..2], rest, world, log, z, p);
  }

  lemma TakesBody(p: Parser, s: Stmt, at: int, q: Parser)
    requires s.Loop? && Takes(p, s) && p.lpndx + 1 < |p.lp|
    requires Shaped(PushLoop(p, LoopSlot(LoopDo, false, p.iendx, at)), q)
    ensures Takes(q, s.body)
  {
    hide Plain;
  }

  /** `while` or `until`, and `do`. */
  lemma PassesDo(p: Parser, until: bool, cond: Words, code: seq<Located>, world: World, log: Log)
    requires Ready(p) && p.jump == None && Plain(cond) && p.lpndx + 1 < |p.lp|
    requires Spelt(code, [Word(LoopToken(until)) + cond, Word(Do)])
    ensures Goes(p, code, world, log, PushLoop(p, LoopSlot(LoopDo, false, p.iendx, code[0].at)))
  {
    hide Goes, Gives, TokenOf, Spelling, ParseCommand, Plain, Unrejected, OneByOne;
    var q := PushLoop(p, LoopSlot(LoopDo, false, p.iendx, code[0].at));
    var y := PushLoop(p, LoopSlot(if until then LoopUntil else LoopWhile, false, p.iendx, code[0].at));
    assert code == [code[0]] + [code[1]];
    GivesLoop(p, until, cond, code[0].at, world, log);
    GoesOne(p, code[0], world, log, y);
    var r := OneByOne(p, [code[0]], world, log);
    if r.p.jump.None? {
      GoesShaped(p, [code[0]], world, log, y);
      GivesDo(r.p, code[1].at, world, r.log);
      var z := r.p.WithLoopTop(r.p.LoopTop().(state := LoopDo));
      GoesOne(r.p, code[1], world, r.log, z);
      GoesTo(r.p, [code[1]], world, r.log, z, q);
    }
    GoesJoin(p, [code[0]], [code[1]], world, log, y, q);
  }

  /** A body that has been passed, and `done`. */
  lemma PassesDone(p: Parser, at: int, q: Parser, body: seq<Located>, last: seq<Located>, world: World, log: Log)
    requires Ready(p) && p.jump == None && p.lpndx + 1 < |p.lp|
    requires Shaped(PushLoop(p, LoopSlot(LoopDo, false, p.iendx, at)), q) && Goes(q, body, world, log, q)
    requires Spelt(last, [Word(Done)])
    ensures Goes(q, body + last, world, log, p)
  {
    hide Goes, Gives, TokenOf, Spelling, ParseCommand, Unrejected, OneByOne;
    assert last == [last[0]];
    var r := OneByOne(q, body, world, log);
    if r.p.jump.None? {
      GoesShaped(q, body, world, log, q);
      GivesDone(r.p, last[0].at, world, r.log);
      GoesOne(r.p, last[0], world, r.log, r.p.(lpndx := r.p.lpndx - 1));
      GoesTo(r.p, last, world, r.log, r.p.(lpndx := r.p.lpndx - 1), p);
    }
    GoesJoin(q, body, last, world, log, q, p);
  }

  // ----- Lines that begin well-nested code -----

  lemma {:induction false} UnrejectedPrefix(p: Parser, a: seq<Located>, b: seq<Located>, world: World, log: Log)
    requires p.Valid() && Unrejected(p, a + b, world, log)
    ensures Unrejected(p, a, world, log)
    decreases |a|
  {
    hide ParseCommand, Accepted, Parser.Valid;
    if a != [] {
      var out := ParseCommand(p, a[0].words, a[0].at, world, log);
      assert (a + b)[0] == a[0] && (a + b)[1..] == a[1..] + b;
      if out.p.jump == None {
        UnrejectedPrefix(out.p, a[1..], b, world, out.log);
      }
    }
  }

  lemma {:induction false} FlatRegular(s: Stmt)
    requires WellFormed(s)
    ensures forall words :: words in Flat(s) ==> Regular(words)
  {
    hide TokenOf, Spelling;
    match s
    case Seq(a, b) =>
      FlatRegular(a);
      FlatRegular(b);
    case Cond(cond, t, e) =>
      FlatRegular(t);
      FlatRegular(e);
      assert (Word(If) + cond)[1..] == cond;
    case Loop(until, cond, b) =>
      FlatRegular(b);
      assert (Word(LoopToken(until)) + cond)[1..] == cond;
    case _ =>
  }

  /** The code of a line, and what is missing of the statement that it begins. */
  lemma Begun(p: Parser, s: Stmt, code: seq<Located>, world: World, log: Log)
    requires Takes(p, s) && |code| <= Size(s) && Spelt(code, Flat(s)[..|code|])
    ensures Unrejected(p, code, world, log) && Regulars(code)
  {
    hide Unrejected, OneByOne, Flat, Regular, WellFormed, NoBreak, IfDepth, LoopDepth;
    var rest := seq(Size(s) - |code|, k requires 0 <= k < Size(s) - |code| => Located(0, Flat(s)[|code| + k]));
    assert Spelt(code + rest, Flat(s)) by {
      assert forall k :: 0 <= k < |code| ==> Flat(s)[..|code|][k] == Flat(s)[k];
    }
    Passes(p, s, code + rest, world, log);
    UnrejectedPrefix(p, code, rest, world, log);
    FlatRegular(s);
    assert forall k :: 0 <= k < |code| ==> code[k].words in Flat(s);
  }

  /**
   The exact condition on lines of a script: where everything around is on, and the line begins
   well-nested code without `break`, with a plain command before any `else` or `done`, its commands
   do on one line what they do one by one, in every world, if and only if no plain command is
   followed by another command.
   */
  lemma BegunExactly(p: Parser, s: Stmt, segs: seq<Segment>, foffs: nat, log: Log)
    requires AllOn(p) && Takes(p, s) && Opening(CodeOf(segs, foffs))
    requires var code := CodeOf(segs, foffs);
             && |code| <= Size(s) && Spelt(code, Flat(s)[..|code|])
             && forall j, k :: 0 <= j < k < |code| ==> code[j].at < code[k].at
    ensures (forall world ::
               Same(RunSegs(p, Split(segs, true), foffs, world, log), OneByOne(p, CodeOf(segs, foffs), world, log)))
            <==> Apart(CodeOf(segs, foffs))
  {
    hide AllOn, Takes, Opening, CodeOf, Flat, RunSegs, OneByOne, Same, Apart, Unrejected, Regulars;
    var code := CodeOf(segs, foffs);
    TakesIs(p, s);
    forall world ensures Unrejected(p, code, world, log) {
      Begun(p, s, code, world, log);
    }
    Begun(p, s, code, log => false, log);
    LineExactly(p, segs, foffs, log);
  }

  lemma TakesIs(p: Parser, s: Stmt)
    requires Takes(p, s)
    ensures p.Valid()
  {
  }
}
