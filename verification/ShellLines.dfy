/**
 Several commands on one line. A failing command drops the rest of its line, also when failures
 are ignored, so commands on one line and the same commands on lines of their own may part. They
 never do exactly when no plain command on the line is followed by another command.
 */
module ShellLines {
  import opened Options
  import opened ShellParser
  import opened ShellText
  import opened ShellTree
  import opened ShellMachine
  import opened ShellFile
  import opened ShellRefinement

  /** The commands of a line, up to a failure or a jump. */
  function Together(p: Parser, code: seq<Located>, world: World, log: Log): (r: Outcome)
    requires p.Valid()
    ensures r.p.Valid()
    decreases |code|
  {
    if code == [] then Outcome(p, log, true) else
      var out := ParseCommand(p, code[0].words, code[0].at, world, log);
      if !out.ok || out.p.jump.Some? then out else Together(out.p, code[1..], world, out.log)
  }

  /** The same commands, each on a line of its own, with failures ignored, up to a jump. */
  function OneByOne(p: Parser, code: seq<Located>, world: World, log: Log): (r: Outcome)
    requires p.Valid()
    ensures r.p.Valid()
    decreases |code|
  {
    if code == [] then Outcome(p, log, true) else
      var out := ParseCommand(p, code[0].words, code[0].at, world, log);
      if out.p.jump.Some? then out else OneByOne(out.p, code[1..], world, out.log)
  }

  ghost predicate Same(a: Outcome, b: Outcome) {
    a.p == b.p && a.log == b.log
  }

  /** What the shell does with a line is what it does with its commands. */
  lemma {:induction false} LineIsTogether(p: Parser, segs: seq<Segment>, foffs: nat, world: World, log: Log)
    requires p.Valid() && p.jump == None
    ensures RunSegs(p, Split(segs, true), foffs, world, log) == Together(p, CodeOf(segs, foffs), world, log)
    decreases |segs|
  {
    hide ParseCommand, WordsOf, Parser.Valid;
    if segs != [] {
      var words := WordsOf(segs[0].text);
      var out := ParseCommand(p, words, foffs + segs[0].loffs, world, log);
      if words == [] {
        BlankCommand(p, foffs + segs[0].loffs, world, log);
        LineIsTogether(p, segs[1..], foffs, world, log);
        assert CodeOf(segs, foffs) == CodeOf(segs[1..], foffs);
      } else {
        assert CodeOf(segs, foffs)[1..] == CodeOf(segs[1..], foffs);
        if out.p.jump == None {
          LineIsTogether(out.p, segs[1..], foffs, world, out.log);
        }
      }
    }
  }

  /** A command as the flat form of a script has them. */
  predicate Regular(words: Words) {
    match Head(words)
    case If => Plain(words[1..])
    case While => Plain(words[1..])
    case Until => Plain(words[1..])
    case Other => words != []
    case t => words == Word(t)
  }

  ghost predicate Regulars(code: seq<Located>) {
    forall k :: 0 <= k < |code| ==> Regular(code[k].words)
  }

  /** Both keyword scans accept the command. */
  predicate Accepted(p: Parser, words: Words, here: int)
    requires p.Valid()
  {
    ScanLoop(p, words, here).ok && ScanItef(ScanLoop(p, words, here).p, ScanLoop(p, words, here).words).ok
  }

  /** No command of the line is rejected. */
  ghost predicate Unrejected(p: Parser, code: seq<Located>, world: World, log: Log)
    requires p.Valid()
    decreases |code|
  {
    code != [] ==>
      var out := ParseCommand(p, code[0].words, code[0].at, world, log);
      && Accepted(p, code[0].words, code[0].at)
      && (out.p.jump.None? ==> Unrejected(out.p, code[1..], world, out.log))
  }

  /** What is accepted is one of these. */
  lemma AcceptedIs(p: Parser, words: Words, here: int)
    requires p.Valid() && Regular(words) && Accepted(p, words, here)
    ensures Head(words) !in {Do, Done, While, Until} ==> !p.InLoopCondition() && ScanLoop(p, words, here) == Scan(p, words, true)
    ensures Head(words) !in {Do, Done, If, Then, Else, Fi} ==> p.ItefTop().state != ItefIf
    ensures Head(words) == Do ==> p.InLoopCondition() && ScanLoop(p, words, here).words == []
    ensures Head(words) == Done ==> p.LoopTop().state == LoopDo && ScanLoop(p, words, here) == Scan(LeaveLoop(p), [], true)
  {
    hide TokenOf, Spelling;
  }

  /** A condition never fails the script, and neither does `break`. */
  lemma NeverFails(p: Parser, argv: Words, here: int, world: World, log: Log)
    requires p.Valid() && argv != [] && (p.InLoopCondition() || p.ItefTop().state == ItefIf || Head(argv) == Break)
    ensures Execute(p, argv, here, world, log).ok
  {
    hide TokenOf;
  }

  /** Only plain commands fail. */
  lemma FailsPlain(p: Parser, words: Words, here: int, world: World, log: Log)
    requires p.Valid() && Regular(words) && Accepted(p, words, here)
    ensures ParseCommand(p, words, here, world, log).ok || Head(words) == Other
  {
    hide ParseCommand, TokenOf, Spelling, ScanLoop, ScanItef, Execute, Regular;
    if Head(words) in {If, Then, Else, Fi} {
      AcceptedIs(p, words, here);
      ParseItef(p, words, here, world, log);
      IfPushed(p, words);
      if Head(words) == If {
        NeverFails(ScanItef(p, words).p, words[1..], here, world, log);
      }
    } else {
      var a := ScanLoop(p, words, here);
      LoopScanned(p, words, here);
      ParseScanned(p, words, here, world, log, a, a);
      if a.words != [] && Head(words) != Other {
        NeverFails(a.p, a.words, here, world, log);
      }
    }
  }

  /** Where no plain command is followed by another command, nothing is lost. */
  lemma {:induction false} ApartIsSame(p: Parser, code: seq<Located>, world: World, log: Log)
    requires p.Valid() && Regulars(code) && Unrejected(p, code, world, log) && Apart(code)
    ensures Same(Together(p, code, world, log), OneByOne(p, code, world, log))
    decreases |code|
  {
    hide ParseCommand, Parser.Valid, Accepted, Regular;
    if code != [] {
      var out := ParseCommand(p, code[0].words, code[0].at, world, log);
      FailsPlain(p, code[0].words, code[0].at, world, log);
      if !out.ok {
        assert |code| == 1;
        assert code[1..] == [];
      } else if out.p.jump.None? {
        ApartTail(code, 1);
        ApartIsSame(out.p, code[1..], world, out.log);
      }
    }
  }

  // ----- Getting to the first plain command -----

  /** Before its first plain command the line has no `else`, `done` or `break`. */
  predicate Opening(code: seq<Located>) {
    || code == [] || Head(code[0].words) == Other
    || (Head(code[0].words) !in {Else, Done, Break} && Opening(code[1..]))
  }

  /** Everything around is on. */
  ghost predicate AllOn(p: Parser) {
    && p.Valid() && p.scripted && p.jump == None
    && (forall k :: 0 <= k <= p.iendx ==>
          && !p.ie[k].disabled && (p.ie[k].state == ItefElse ==> p.ie[k].ifcond)
          && (p.ie[k].state == ItefThen || p.ie[k].state == ItefIf ==> !p.ie[k].ifcond))
    && (forall k :: 0 <= k < p.iendx ==> p.ie[k].state != ItefIf)
    && (forall k :: 0 < k <= p.lpndx ==> p.lp[k].enable)
    && (p.InLoopCondition() ==> p.ItefTop().state != ItefIf)
  }

  /** The world in which conditions let the code in, and plain commands fail. */
  ghost predicate Steers(world: World, code: seq<Located>) {
    forall k, log: Log, argv :: 0 <= k < |code| ==>
      world(log + [Event(code[k].at, argv)]) == (Head(code[k].words) == Until || Head(code[k].words) == Other)
  }


  lemma Spelled(words: Words)
    requires Head(words) in {If, While, Until} && words != []
    ensures words == Word(Head(words)) + words[1..]
  {
  }

  lemma IfParsed(p: Parser, c: Words, here: int, world: World, log: Log)
    requires Ready(p) && p.Enabled() && p.jump == None && p.iendx + 1 < |p.ie| && Plain(c)
    ensures var log' := log + [Event(here, c)];
            ParseCommand(p, Word(If) + c, here, world, log)
            == Outcome(PushIf(p, ItefSlot(ItefIf, false, world(log'))).(fail := false), log', true)
  {
    hide ParseCommand, TokenOf, Spelling, ScanLoop, Execute, ScanItef;
    ScanIf(p, c);
    ParseItef(p, Word(If) + c, here, world, log);
    ExecuteIfCondition(p, c, here, world, log);
  }

  lemma OnIf(p: Parser)
    requires AllOn(p) && Ready(p) && p.iendx + 1 < |p.ie|
    ensures AllOn(PushIf(p, ItefSlot(ItefIf, false, false)).(fail := false))
  {
  }

  /** A condition that has been asked for, on top of what is on. */
  lemma OnAfterIf(p: Parser, words: Words, here: int, world: World, log: Log)
    requires AllOn(p) && Regular(words) && Accepted(p, words, here) && Head(words) == If
    requires !world(log + [Event(here, words[1..])])
    ensures AllOn(ParseCommand(p, words, here, world, log).p) && ParseCommand(p, words, here, world, log).ok
  {
    hide ParseCommand, TokenOf, Spelling, ScanLoop, Execute, Plain, ScanItef;
    AcceptedIs(p, words, here);
    Spelled(words);
    IfAccepted(p, words);
    IfParsed(p, words[1..], here, world, log);
    OnIf(p);
  }

  lemma IfAccepted(p: Parser, words: Words)
    requires p.Valid() && Head(words) == If && ScanItef(p, words).ok
    ensures p.ItefTop().state != ItefIf && p.iendx + 1 < |p.ie|
  {
    hide TokenOf;
  }

  lemma OnAfterLoop(p: Parser, words: Words, here: int, world: World, log: Log)
    requires AllOn(p) && Regular(words) && Accepted(p, words, here) && Head(words) in {While, Until}
    requires world(log + [Event(here, words[1..])]) == (Head(words) == Until)
    ensures AllOn(ParseCommand(p, words, here, world, log).p) && ParseCommand(p, words, here, world, log).ok
  {
    hide ParseCommand, TokenOf, Spelling, ScanItef, Execute, Plain, ScanLoop;
    Spelled(words);
    LoopAccepted(p, words, here);
    assert p.(jump := None) == p;
    ParseLoop(p, Head(words) == Until, words[1..], here, world, log);
  }

  lemma LoopAccepted(p: Parser, words: Words, here: int)
    requires p.Valid() && Head(words) in {While, Until} && ScanLoop(p, words, here).ok
    ensures !p.InLoopCondition() && p.ItefTop().state != ItefIf && p.lpndx + 1 < |p.lp| && p.scripted
  {
    hide TokenOf;
  }

  lemma OnAfterDo(p: Parser, words: Words, here: int, world: World, log: Log)
    requires AllOn(p) && Regular(words) && Accepted(p, words, here) && Head(words) == Do
    ensures AllOn(ParseCommand(p, words, here, world, log).p) && ParseCommand(p, words, here, world, log).ok
  {
    hide ParseCommand, TokenOf, Spelling, ScanItef, Execute;
    var q := p.WithLoopTop(p.LoopTop().(state := LoopDo));
    ScanItefEmpty(q);
    AcceptedIs(p, words, here);
    ParseScanned(p, words, here, world, log, Scan(q, [], true), Scan(q, [], true));
  }

  lemma OnAfterItef(p: Parser, words: Words, here: int, world: World, log: Log)
    requires AllOn(p) && Regular(words) && Accepted(p, words, here) && Head(words) in {Then, Fi}
    ensures AllOn(ParseCommand(p, words, here, world, log).p) && ParseCommand(p, words, here, world, log).ok
  {
    hide ParseCommand, TokenOf, Spelling, ScanLoop, Execute;
    AcceptedIs(p, words, here);
    ParseItef(p, words, here, world, log);
  }

  /** Up to the first plain command everything stays on. */
  lemma OnAfterStep(p: Parser, words: Words, here: int, world: World, log: Log)
    requires AllOn(p) && Regular(words) && Accepted(p, words, here) && Head(words) !in {Else, Done, Break, Other}
    requires world(log + [Event(here, words[1..])]) == (Head(words) == Until)
    ensures AllOn(ParseCommand(p, words, here, world, log).p) && ParseCommand(p, words, here, world, log).ok
  {
    hide ParseCommand, TokenOf, AllOn, Regular, Accepted, Parser.Valid;
    match Head(words)
    case If => OnAfterIf(p, words, here, world, log);
    case While => OnAfterLoop(p, words, here, world, log);
    case Until => OnAfterLoop(p, words, here, world, log);
    case Do => OnAfterDo(p, words, here, world, log);
    case _ => OnAfterItef(p, words, here, world, log);
  }

  // ----- Going on after a failure -----

  /** The `if` in slot `j`, on in `p`, is in its other branch or in code that is off. */
  ghost predicate PartedAt(p: Parser, q: Parser, j: int)
    requires p.Valid() && q.Valid()
  {
    0 <= j <= p.iendx && j <= q.iendx && (q.ie[j].disabled || (q.ie[j].state == ItefElse && p.ie[j].state == ItefThen))
  }

  /** In `q` an `if` that was on in `p` is closed, in its other branch, or in code that is off. */
  ghost predicate Parted(p: Parser, q: Parser) {
    p.Valid() && q.Valid() && (q.iendx < p.iendx || exists j :: PartedAt(p, q, j))
  }

  lemma NotParted(p: Parser)
    requires AllOn(p)
    ensures !Parted(p, p)
  {
  }

  lemma PartedIf(p: Parser, q: Parser, words: Words)
    requires AllOn(p) && Parted(p, q) && Regular(words) && Head(words) in {If, Then, Else, Fi} && ScanItef(q, words).ok
    ensures (Head(words) == If ==> !q.Enabled()) ==> Parted(p, ScanItef(q, words).p)
  {
    hide TokenOf, Spelling;
    var r := ScanItef(q, words).p;
    if Head(words) == If && !q.Enabled() && q.iendx < p.iendx {
      assert PartedAt(p, r, q.iendx + 1);
    } else if q.iendx >= p.iendx {
      var j :| PartedAt(p, q, j);
      assert r.iendx < p.iendx || PartedAt(p, r, j);
    }
  }

  /** A command that is run is logged. */
  lemma RunIsLogged(p: Parser, argv: Words, here: int, world: World, log: Log)
    requires p.Valid() && argv != []
    ensures Execute(p, argv, here, world, log).log == log + [Event(here, argv)]
  {
    hide TokenOf, BreakLoop;
  }

  lemma IfPushed(p: Parser, words: Words)
    requires p.Valid() && Regular(words) && Head(words) in {If, Then, Else, Fi} && ScanItef(p, words).ok
    ensures var b := ScanItef(p, words);
            if Head(words) == If then
              b.words == words[1..] != [] && b.p.ItefTop().state == ItefIf && (p.Enabled() ==> b.p.Enabled())
            else b.words == []
  {
    hide TokenOf, Spelling;
  }

  lemma LoopScanned(p: Parser, words: Words, here: int)
    requires p.Valid() && Regular(words) && Head(words) !in {If, Then, Else, Fi} && Accepted(p, words, here)
    ensures var a := ScanLoop(p, words, here);
            && a.p.ie == p.ie && a.p.iendx == p.iendx && ScanItef(a.p, a.words) == a
            && (Head(words) in {Do, Done} <==> a.words == [])
            && (Head(words) in {While, Until} ==> a.p.InLoopCondition()) && (Head(words) == Break ==> a.words == words)
  {
    hide TokenOf, Spelling;
  }

  lemma PartedSame(p: Parser, q: Parser, r: Parser)
    requires Parted(p, q) && r.Valid() && r.ie == q.ie && r.iendx == q.iendx
    ensures Parted(p, r)
  {
    if q.iendx >= p.iendx {
      var j :| PartedAt(p, q, j);
      assert PartedAt(p, r, j);
    }
  }

  /** Once parted, a run that logs nothing stays parted. */
  lemma PartedStays(p: Parser, q: Parser, words: Words, here: int, world: World, log: Log)
    requires AllOn(p) && Parted(p, q) && Regular(words) && Accepted(q, words, here)
    ensures var out := ParseCommand(q, words, here, world, log); |out.log| > |log| || Parted(p, out.p)
  {
    hide ParseCommand, TokenOf, Spelling, ScanLoop, ScanItef, Execute, Regular, AllOn;
    if Head(words) in {If, Then, Else, Fi} {
      AcceptedIs(q, words, here);
      ParseItef(q, words, here, world, log);
      PartedIf(p, q, words);
      IfPushed(q, words);
      if Head(words) == If {
        RunIsLogged(ScanItef(q, words).p, words[1..], here, world, log);
      }
    } else {
      var a := ScanLoop(q, words, here);
      LoopScanned(q, words, here);
      ParseScanned(q, words, here, world, log, a, a);
      PartedSame(p, q, a.p);
      if a.words != [] {
        RunIsLogged(a.p, a.words, here, world, log);
      }
    }
  }

  /** After a plain command that has been run, any further command shows. */
  lemma FirstParts(p: Parser, words: Words, here: int, world: World, log: Log)
    requires AllOn(p) && Ready(p) && Regular(words) && Accepted(p, words, here)
    ensures var out := ParseCommand(p, words, here, world, log);
            |out.log| > |log| || Parted(p, out.p) || out.p.jump.Some?
  {
    hide ParseCommand, TokenOf, Spelling, Execute, Regular;
    AcceptedIs(p, words, here);
    if Head(words) in {If, Then, Else, Fi} {
      ParseItef(p, words, here, world, log);
      IfPushed(p, words);
      if Head(words) == Else {
        assert PartedAt(p, ScanItef(p, words).p, p.iendx);
      } else if Head(words) == If {
        RunIsLogged(ScanItef(p, words).p, words[1..], here, world, log);
      }
    } else {
      var a := ScanLoop(p, words, here);
      LoopScanned(p, words, here);
      ParseScanned(p, words, here, world, log, a, a);
      if a.words != [] {
        RunIsLogged(a.p, a.words, here, world, log);
      }
    }
  }

  lemma ParseLogs(p: Parser, words: Words, here: int, world: World, log: Log)
    requires p.Valid()
    ensures |ParseCommand(p, words, here, world, log).log| >= |log|
  {
    hide TokenOf, ScanLoop, ScanItef, BreakLoop;
  }

  /** What has parted stays so to the end of the line. */
  lemma {:induction false} Persists(p: Parser, n: nat, q: Parser, code: seq<Located>, world: World, log: Log)
    requires AllOn(p) && q.Valid() && q.jump == None && Regulars(code) && Unrejected(q, code, world, log)
    requires n <= |log| && (n < |log| || Parted(p, q))
    ensures var r := OneByOne(q, code, world, log); |r.log| > n || Parted(p, r.p) || r.p.jump.Some?
    decreases |code|
  {
    hide ParseCommand, AllOn, Regular, Accepted, Parted, Parser.Valid;
    if code != [] {
      var out := ParseCommand(q, code[0].words, code[0].at, world, log);
      ParseLogs(q, code[0].words, code[0].at, world, log);
      if n == |log| {
        PartedStays(p, q, code[0].words, code[0].at, world, log);
      }
      if out.p.jump == None {
        Persists(p, n, out.p, code[1..], world, out.log);
      }
    }
  }

  /** A plain command that is accepted where all is on, and fails. */
  lemma PlainFails(p: Parser, words: Words, here: int, world: World, log: Log)
    requires AllOn(p) && Regular(words) && Head(words) == Other && Accepted(p, words, here)
    requires world(log + [Event(here, words)])
    ensures Ready(p) && AllOn(p.(fail := true)) && Ready(p.(fail := true))
    ensures ParseCommand(p, words, here, world, log) == Outcome(p.(fail := true), log + [Event(here, words)], false)
  {
    hide ParseCommand, TokenOf, Spelling, ScanLoop, ScanItef;
    AcceptedIs(p, words, here);
    ParseSimple(p, words, here, world, log);
  }

  /** A plain command with another one behind it: in the steered world the line loses what follows. */
  lemma LosesHere(p: Parser, code: seq<Located>, world: World, log: Log)
    requires AllOn(p) && Regulars(code) && Steers(world, code) && Unrejected(p, code, world, log)
    requires |code| > 1 && Head(code[0].words) == Other
    ensures !Same(Together(p, code, world, log), OneByOne(p, code, world, log))
  {
    hide ParseCommand, AllOn, Regular, Accepted, Parted, TokenOf, Parser.Valid;
    var first, next := code[0], code[1..];
    PlainFails(p, first.words, first.at, world, log);
    var q, log' := p.(fail := true), log + [Event(first.at, first.words)];
    OnIs(q);
    assert Unrejected(q, next, world, log');
    var out := ParseCommand(q, next[0].words, next[0].at, world, log');
    FirstParts(q, next[0].words, next[0].at, world, log');
    ParseLogs(q, next[0].words, next[0].at, world, log');
    NotParted(q);
    if out.p.jump == None {
      Persists(q, |log'|, out.p, next[1..], world, out.log);
    }
  }

  lemma OnIs(p: Parser)
    requires AllOn(p)
    ensures p.Valid() && p.jump == None
  {
  }

  lemma {:induction false} Loses(p: Parser, code: seq<Located>, world: World, log: Log)
    requires AllOn(p) && Regulars(code) && Steers(world, code) && Unrejected(p, code, world, log)
    requires Opening(code) && !Apart(code)
    ensures !Same(Together(p, code, world, log), OneByOne(p, code, world, log))
    decreases |code|
  {
    hide ParseCommand, AllOn, Regular, Accepted, TokenOf, Parser.Valid;
    if Head(code[0].words) == Other {
      LosesHere(p, code, world, log);
    } else {
      OnIs(p);
      OnAfterStep(p, code[0].words, code[0].at, world, log);
      var out := ParseCommand(p, code[0].words, code[0].at, world, log);
      OnIs(out.p);
      assert !Apart(code[1..]) by {
        var k :| 0 <= k < |code| - 1 && Head(code[k].words) == Other;
        assert Head(code[1..][k - 1].words) == Other;
      }
      assert forall k :: 0 <= k < |code| - 1 ==> code[1..][k] == code[k + 1];
      Loses(out.p, code[1..], world, out.log);
    }
  }

  ghost function Steering(code: seq<Located>): World {
    (log: Log) => log != [] && exists k :: 0 <= k < |code| && code[k].at == log[|log| - 1].at
                                          && (Head(code[k].words) == Until || Head(code[k].words) == Other)
  }

  lemma SteeringSteers(code: seq<Located>)
    requires forall j, k :: 0 <= j < k < |code| ==> code[j].at < code[k].at
    ensures Steers(Steering(code), code)
  {
    hide TokenOf;
  }

  /**
   The exact condition on a line: from a state in which everything around is on, where no keyword
   of the line is rejected, and up to its first plain command the line leaves nothing that stood
   before it, the commands do on one line what they do one by one, in every world, if and only if
   no plain command is followed by another command.
   */
  lemma LineExactly(p: Parser, segs: seq<Segment>, foffs: nat, log: Log)
    requires AllOn(p) && Regulars(CodeOf(segs, foffs)) && Opening(CodeOf(segs, foffs))
    requires var code := CodeOf(segs, foffs); forall j, k :: 0 <= j < k < |code| ==> code[j].at < code[k].at
    requires forall world :: Unrejected(p, CodeOf(segs, foffs), world, log)
    ensures (forall world ::
               Same(RunSegs(p, Split(segs, true), foffs, world, log), OneByOne(p, CodeOf(segs, foffs), world, log)))
            <==> Apart(CodeOf(segs, foffs))
  {
    hide AllOn, Regulars, Opening, Unrejected, Together, OneByOne, RunSegs, CodeOf, Same, Apart, Parser.Valid;
    var code := CodeOf(segs, foffs);
    OnIs(p);
    forall world ensures RunSegs(p, Split(segs, true), foffs, world, log) == Together(p, code, world, log) {
      LineIsTogether(p, segs, foffs, world, log);
    }
    if Apart(code) {
      forall world ensures Same(RunSegs(p, Split(segs, true), foffs, world, log), OneByOne(p, code, world, log)) {
        ApartIsSame(p, code, world, log);
      }
    } else {
      SteeringSteers(code);
      Loses(p, code, Steering(code), log);
    }
  }

  /**
   The condition on the beginning of the line is needed: after `else`, at the end of a branch that
   was taken, two plain commands do the same on one line and one by one, in every world.
   */
  lemma ElseHides(p: Parser, a: int, b: int, c: int, x: Words, y: Words, world: World, log: Log)
    requires AllOn(p) && Ready(p) && p.ItefTop().state == ItefThen && Plain(x) && Plain(y)
    ensures var code := [Located(a, Word(Else)), Located(b, x), Located(c, y)];
            !Apart(code) && Same(Together(p, code, world, log), OneByOne(p, code, world, log))
  {
    hide ParseCommand, TokenOf, Spelling, ScanLoop, Execute, Together, OneByOne;
    var last := [Located(c, y)];
    var rest := [Located(b, x)] + last;
    var code := [Located(a, Word(Else)), Located(b, x), Located(c, y)];
    assert code == [Located(a, Word(Else))] + rest;
    assert Head(code[1].words) == Other;
    ParseItef(p, Word(Else), a, world, log);
    var q := p.WithItefTop(p.ItefTop().(state := ItefElse));
    ParseSimple(q, x, b, world, log);
    ParseSimple(q, y, c, world, log);
    Unfold(p, Located(a, Word(Else)), rest, Outcome(q, log, true), world, log);
    Unfold(q, Located(b, x), last, Outcome(q, log, true), world, log);
    Unfold(q, Located(c, y), [], Outcome(q, log, true), world, log);
    assert last == last + [];
    NoMore(q, world, log);
  }

  lemma Unfold(p: Parser, cmd: Located, rest: seq<Located>, out: Outcome, world: World, log: Log)
    requires p.Valid() && out.p.Valid() && out.p.jump == None
    requires ParseCommand(p, cmd.words, cmd.at, world, log) == out
    ensures Together(p, [cmd] + rest, world, log) == if out.ok then Together(out.p, rest, world, out.log) else out
    ensures OneByOne(p, [cmd] + rest, world, log) == OneByOne(out.p, rest, world, out.log)
  {
    hide ParseCommand;
    assert ([cmd] + rest)[1..] == rest;
  }

  lemma NoMore(p: Parser, world: World, log: Log)
    requires p.Valid()
    ensures Together(p, [], world, log) == OneByOne(p, [], world, log) == Outcome(p, log, true)
  {
  }
}
