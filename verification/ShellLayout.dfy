/**
 Lines do not matter: reading a script file line by line, with seeks, is the flat machine on
 the commands of the file; and so the text of a script means what its tree says.
 */
module ShellLayout {
  import opened Options
  import opened ShellParser
  import opened ShellText
  import opened ShellMachine
  import opened ShellFile
  import opened ShellTree
  import opened ShellRefinement
  import opened ShellScriptMeaning
  import opened ShellPlain

  ghost function MachineOf(s: Script): Machine
    requires s.Valid()
  {
    Machine(s.Code(0), s.world, s.ignore)
  }

  // ----- Recorded loop tops are positions of loop commands -----

  ghost predicate IsHead(code: seq<Located>, at: int) {
    exists j :: 0 <= j < |code| && code[j].at == at && LoopHead(code[j].words)
  }

  ghost predicate TopsIn(p: Parser, code: seq<Located>)
    requires p.Valid()
  {
    forall k :: 0 < k <= p.lpndx ==> IsHead(code, p.lp[k].top)
  }

  ghost predicate SameTops(p: Parser, q: Parser)
    requires p.Valid() && q.Valid()
  {
    && q.lpndx == p.lpndx && |q.lp| == |p.lp| && q.jump == p.jump
    && forall k :: 0 <= k <= p.lpndx ==> q.lp[k].top == p.lp[k].top
  }

  lemma ItefSameTops(p: Parser, words: Words)
    requires p.Valid()
    ensures SameTops(p, ScanItef(p, words).p)
  {
    hide TokenOf;
  }

  lemma ResultSameTops(p: Parser, failed: bool, log: Log)
    requires p.Valid()
    ensures SameTops(p, SaveResult(p, failed, log).p)
  {
  }

  lemma ExecuteSameTops(p: Parser, argv: Words, here: int, world: World, log: Log)
    requires p.Valid() && argv != []
    ensures SameTops(p, Execute(p, argv, here, world, log).p)
  {
    hide TokenOf, SaveResult;
    var log' := log + [Event(here, argv)];
    ResultSameTops(BreakLoop(p), false, log');
    ResultSameTops(p, world(log'), log');
  }

  lemma LoopTops(p: Parser, words: Words, here: int, code: seq<Located>)
    requires p.Valid() && TopsIn(p, code) && p.jump == None && (LoopHead(words) ==> IsHead(code, here))
    ensures var q := ScanLoop(p, words, here).p;
            TopsIn(q, code) && (q.jump.Some? ==> IsHead(code, q.jump.value))
  {
    hide TokenOf, IsHead;
  }

  lemma ParseTops(p: Parser, words: Words, here: int, world: World, log: Log, code: seq<Located>)
    requires p.Valid() && TopsIn(p, code) && p.jump == None && (LoopHead(words) ==> IsHead(code, here))
    ensures var q := ParseCommand(p, words, here, world, log).p;
            TopsIn(q, code) && (q.jump.Some? ==> IsHead(code, q.jump.value))
  {
    hide TokenOf, ScanLoop, ScanItef, SaveResult, Execute, IsHead, LoopHead;
    LoopTops(p, words, here, code);
    var a := ScanLoop(p, words, here);
    ResultSameTops(a.p, true, log);
    ItefSameTops(a.p, a.words);
    var b := ScanItef(a.p, a.words);
    ResultSameTops(b.p, true, log);
    if b.words != [] {
      ExecuteSameTops(b.p, b.words, here, world, log);
    }
  }

  // ----- Later commands have larger positions -----

  ghost predicate Sorted(segs: seq<Segment>) {
    forall j, k :: 0 <= j < k < |segs| ==> segs[j].loffs < segs[k].loffs
  }

  ghost predicate Below(segs: seq<Segment>, to: nat) {
    forall k :: 0 <= k < |segs| ==> segs[k].loffs < to
  }

  lemma {:induction false} OffsetsRise(line: string, start: nat, working: nat)
    requires start <= working <= |line|
    ensures Sorted(SplitFrom(line, start, working).segs)
    decreases |line| - working
  {
    hide SplitFrom, Span;
    var ptr := Span(line, working, LINE_STOPS);
    if ptr == |line| || line[ptr] == '\n' || line[ptr] == '#' {
      SplitLast(line, start, working);
    } else if line[ptr] == ';' {
      SplitMore(line, start, working);
      OffsetsRise(line, ptr + 1, ptr + 1);
    } else {
      SplitQuote(line, start, working);
      var close := Span(line, ptr + 1, {'"'});
      if close < |line| {
        OffsetsRise(line, start, close + 1);
      }
    }
  }

  /** On a line that ends in a newline, every command is recorded before the newline. */
  lemma {:induction false} OffsetsInside(line: string, start: nat, working: nat)
    requires start <= working < |line| && line[|line| - 1] == '\n'
    ensures Below(SplitFrom(line, start, working).segs, |line|)
    decreases |line| - working
  {
    hide SplitFrom, Span;
    var ptr := Span(line, working, LINE_STOPS);
    if ptr == |line| || line[ptr] == '\n' || line[ptr] == '#' {
      SplitLast(line, start, working);
    } else if line[ptr] == ';' {
      SplitMore(line, start, working);
      OffsetsInside(line, ptr + 1, ptr + 1);
    } else {
      SplitQuote(line, start, working);
      var close := Span(line, ptr + 1, {'"'});
      if close < |line| {
        OffsetsInside(line, start, close + 1);
      }
    }
  }

  ghost predicate Rising(code: seq<Located>, from: int) {
    && (forall k :: 0 <= k < |code| ==> from <= code[k].at)
    && (forall j, k :: 0 <= j < k < |code| ==> code[j].at < code[k].at)
  }

  lemma {:induction false} LineRises(segs: seq<Segment>, foffs: nat, from: nat)
    requires forall k :: 0 <= k < |segs| ==> from <= segs[k].loffs
    requires Sorted(segs)
    ensures Rising(CodeOf(segs, foffs), foffs + from)
  {
    hide WordsOf;
    if segs != [] {
      LineRises(segs[1..], foffs, segs[0].loffs + 1);
    }
  }

  lemma {:induction false} LineBelow(segs: seq<Segment>, foffs: nat, to: nat)
    requires Below(segs, to)
    ensures forall k :: 0 <= k < |CodeOf(segs, foffs)| ==> CodeOf(segs, foffs)[k].at < foffs + to
  {
    hide WordsOf;
    if segs != [] {
      LineBelow(segs[1..], foffs, to);
    }
  }

  lemma {:induction false} CodeRises(s: Script, pos: nat)
    requires s.Valid() && pos <= |s.file| && Tidy(s, pos)
    ensures Rising(s.Code(pos), pos)
    decreases |s.file| - pos
  {
    hide SplitFrom, Span, CodeOf;
    if pos < |s.file| {
      var line, end := s.LineAt(pos), s.LineEnd(pos);
      OffsetsRise(line, 0, 0);
      LineRises(SplitFrom(line, 0, 0).segs, pos, 0);
      CodeRises(s, end);
      if end < |s.file| {
        OffsetsInside(line, 0, 0);
        LineBelow(SplitFrom(line, 0, 0).segs, pos, |line|);
      }
    }
  }

  // ----- A line is some steps of the machine -----

  lemma StepIsParse(m: Machine, c: Config)
    requires c.p.Valid() && c.Running(m) && c.p.jump == None
    ensures var out := ParseCommand(c.p, m.code[c.i].words, m.code[c.i].at, m.world, c.log);
            var d := Step(m, c);
            && d.p == out.p.(jump := None) && d.log == out.log && d.halted == (!out.ok && !m.ignore)
            && (!d.halted && out.p.jump.None? ==> d.i == c.i + 1)
            && (!d.halted && out.p.jump.Some? ==> d.i == Find(m.code, out.p.jump.value, 0))
  {
    hide ParseCommand;
  }

  /** A seek to a recorded loop top puts both the file and the machine at that loop. */
  lemma JumpLands(s: Script, target: int)
    requires s.Valid() && Tidy(s, 0) && IsHead(s.Code(0), target)
    ensures 0 <= target <= |s.file| && Tidy(s, target)
    ensures s.Code(0)[Find(s.Code(0), target, 0)..] == s.Code(target)
  {
    hide LoopHead;
    var code := s.Code(0);
    var j :| 0 <= j < |code| && code[j].at == target && LoopHead(code[j].words);
    SeekLandsOnHead(s, 0, j);
    CodeRises(s, 0);
    FindExact(MachineOf(s), j, 0);
  }

  lemma JumpLaid(s: Script, target: int)
    requires s.Valid() && Tidy(s, 0) && IsHead(s.Code(0), target) && Laid(s, 0)
    ensures 0 <= target <= |s.file| && Laid(s, target)
  {
    hide LoopHead, Tidy, Spread, Script.Code;
    var code := s.Code(0);
    var j :| 0 <= j < |code| && code[j].at == target && LoopHead(code[j].words);
    SeekLandsOnHead(s, 0, j);
    if s.ignore {
      SpreadSeek(s, 0, j);
    }
  }

  /** When failures are ignored, no line loses a command by the failure of a plain one. */
  ghost predicate Laid(s: Script, pos: nat)
    requires s.Valid() && pos <= |s.file|
  {
    s.ignore ==> Spread(s, pos)
  }

  /** The machine stands where reading the file at `pos` would go on. */
  ghost predicate At(s: Script, c: Config, pos: nat)
    requires s.Valid() && pos <= |s.file|
  {
    c.i <= |s.Code(0)| && s.Code(0)[c.i..] == s.Code(pos) && Tidy(s, pos) && Laid(s, pos)
  }

  ghost predicate Ok(s: Script, c: Config)
    requires s.Valid()
  {
    && c.p.Valid() && c.p.jump == None && TopsIn(c.p, s.Code(0)) && c.i <= |s.Code(0)|
    && (s.ignore ==> AllClean(MachineOf(s), c))
  }

  /** Where the file is read on after a line has ended with `out`. */
  ghost function NextPos(s: Script, out: Outcome, end: nat): nat {
    if out.p.jump.Some? then Seek(s, out.p.jump.value) else end
  }

  /** One located command is one step. */
  lemma LocatedIsStep(m: Machine, cmd: Located, rest: seq<Located>, c: Config)
    requires c.p.Valid() && c.p.jump == None && TopsIn(c.p, m.code) && !c.halted
    requires c.i <= |m.code| && m.code[c.i..] == [cmd] + rest
    ensures var out := ParseCommand(c.p, cmd.words, cmd.at, m.world, c.log);
            var d := Step(m, c);
            && TopsIn(d.p, m.code) && d.p == out.p.(jump := None) && d.log == out.log
            && d.halted == (!out.ok && !m.ignore)
            && (!d.halted && out.p.jump.Some? ==>
                  IsHead(m.code, out.p.jump.value) && d.i == Find(m.code, out.p.jump.value, 0))
            && (!d.halted && out.p.jump.None? ==> m.code[d.i..] == rest)
  {
    hide ParseCommand, Step, Find, LoopHead;
    assert m.code[c.i] == m.code[c.i..][0] == cmd;
    assert m.code[c.i + 1..] == m.code[c.i..][1..] == rest;
    assert LoopHead(cmd.words) ==> IsHead(m.code, cmd.at);
    StepIsParse(m, c);
    ParseTops(c.p, cmd.words, cmd.at, m.world, c.log, m.code);
  }

  /** The machine stands before these commands of a line. */
  ghost predicate Before(s: Script, pos: nat, segs: seq<Segment>, c: Config) {
    && s.Valid() && pos < |s.file| && Tidy(s, 0) && Tidy(s, s.LineEnd(pos)) && Ok(s, c) && !c.halted
    && s.Code(0)[c.i..] == CodeOf(segs, pos) + s.Code(s.LineEnd(pos))
    && Laid(s, 0) && Laid(s, s.LineEnd(pos)) && (s.ignore ==> Apart(CodeOf(segs, pos)))
  }

  /** After `n` steps the machine is where running these commands of the line leaves the file. */
  ghost predicate Ran(s: Script, pos: nat, segs: seq<Segment>, c: Config, n: nat)
    requires Before(s, pos, segs, c)
  {
    var out := RunSegs(c.p, Split(segs, true), pos, s.world, c.log);
    var d := Steps(MachineOf(s), c, n);
    && Ok(s, d) && d.p == out.p.(jump := None) && d.log == out.log && d.halted == (!out.ok && !s.ignore)
    && (!d.halted ==> At(s, d, NextPos(s, out, s.LineEnd(pos))))
    && (n == 0 ==> out.p.jump.None?)
    && (n == 0 <==> CodeOf(segs, pos) == [])
  }

  /** The commands of a line from some command on are some steps; at least one if any is not blank. */
  lemma {:induction false} SegsAreSteps(s: Script, pos: nat, segs: seq<Segment>, c: Config) returns (n: nat)
    requires Before(s, pos, segs, c)
    ensures Ran(s, pos, segs, c, n)
    decreases |segs|, 1
  {
    hide ParseCommand, Step, Steps, WordsOf, LoopHead, IsHead, Tidy, Find, TopsIn, Seek, Parser.Valid, Script.Code, Laid,
         AllClean, Apart;
    if segs == [] {
      n := 0;
      StepsZero(MachineOf(s), c);
    } else if WordsOf(segs[0].text) == [] {
      BlankCommand(c.p, pos + segs[0].loffs, s.world, c.log);
      assert CodeOf(segs, pos) == CodeOf(segs[1..], pos);
      n := SegsAreSteps(s, pos, segs[1..], c);
    } else {
      n := SegsNotBlank(s, pos, segs, c);
    }
  }

  /** A command that fails when failures are ignored is the last of its line. */
  lemma CleanFirst(s: Script, pos: nat, segs: seq<Segment>, c: Config)
    requires Before(s, pos, segs, c) && segs != [] && WordsOf(segs[0].text) != [] && s.ignore
    ensures Apart(CodeOf(segs[1..], pos)) && AllClean(MachineOf(s), Step(MachineOf(s), c))
    ensures !ParseCommand(c.p, WordsOf(segs[0].text), pos + segs[0].loffs, s.world, c.log).ok ==> CodeOf(segs[1..], pos) == []
  {
    hide ParseCommand, Step, Steps, WordsOf, Tidy, TopsIn, CodeOf, Parser.Valid, Script.Code, Spread;
    CodeOfFirst(segs, pos);
    var code := CodeOf(segs, pos);
    CleanNext(MachineOf(s), c);
    assert code[1..] == CodeOf(segs[1..], pos);
    ApartTail(code, 1);
    assert s.Code(0)[c.i] == s.Code(0)[c.i..][0] == code[0];
    assert c.p.(jump := None) == c.p;
  }

  lemma FirstCommand(s: Script, pos: nat, segs: seq<Segment>, c: Config)
    requires Before(s, pos, segs, c) && segs != [] && WordsOf(segs[0].text) != []
    ensures var out := ParseCommand(c.p, WordsOf(segs[0].text), pos + segs[0].loffs, s.world, c.log);
            var d := Step(MachineOf(s), c);
            && Ok(s, d) && d.p == out.p.(jump := None) && d.log == out.log && d.halted == (!out.ok && !s.ignore)
            && (out.ok && out.p.jump.None? ==> Before(s, pos, segs[1..], d))
            && (!out.ok && !d.halted && out.p.jump.None? ==> At(s, d, s.LineEnd(pos)))
            && (!d.halted && out.p.jump.Some? ==> At(s, d, Seek(s, out.p.jump.value)))
  {
    hide ParseCommand, Step, Steps, WordsOf, LoopHead, IsHead, Tidy, Find, TopsIn, Seek, CodeOf, Parser.Valid, Script.Code;
    var m, cmd := MachineOf(s), Located(pos + segs[0].loffs, WordsOf(segs[0].text));
    var rest := CodeOf(segs[1..], pos) + s.Code(s.LineEnd(pos));
    assert s.Code(0)[c.i..] == [cmd] + rest by { CodeOfFirst(segs, pos); }
    LocatedIsStep(m, cmd, rest, c);
    if s.ignore {
      CleanFirst(s, pos, segs, c);
    }
    var out := ParseCommand(c.p, cmd.words, cmd.at, s.world, c.log);
    if (out.ok || s.ignore) && out.p.jump.Some? {
      JumpAt(s, out.p.jump.value);
    }
  }

  lemma {:induction false} SegsNotBlank(s: Script, pos: nat, segs: seq<Segment>, c: Config) returns (n: nat)
    requires Before(s, pos, segs, c) && segs != [] && WordsOf(segs[0].text) != []
    ensures Ran(s, pos, segs, c, n)
    decreases |segs|, 0
  {
    hide ParseCommand, Step, Steps, WordsOf, LoopHead, IsHead, Tidy, Find, TopsIn, Seek, RunSegs, CodeOf, At;
    var m := MachineOf(s);
    FirstCommand(s, pos, segs, c);
    CodeOfFirst(segs, pos);
    StepsOne(m, c);
    RunSegsCons(c.p, segs, pos, s.world, c.log);
    var out := ParseCommand(c.p, WordsOf(segs[0].text), pos + segs[0].loffs, s.world, c.log);
    n := 1;
    if out.ok && out.p.jump.None? {
      var k := SegsAreSteps(s, pos, segs[1..], Step(m, c));
      StepsAdd(m, c, 1, k);
      n := 1 + k;
    }
  }

  lemma CodeOfFirst(segs: seq<Segment>, foffs: nat)
    requires segs != [] && WordsOf(segs[0].text) != []
    ensures CodeOf(segs, foffs)
         == [Located(foffs + segs[0].loffs, WordsOf(segs[0].text))] + CodeOf(segs[1..], foffs)
  {
  }

  lemma RunSegsCons(p: Parser, segs: seq<Segment>, foffs: nat, world: World, log: Log)
    requires p.Valid() && segs != []
    ensures var out := ParseCommand(p, WordsOf(segs[0].text), foffs + segs[0].loffs, world, log);
            RunSegs(p, Split(segs, true), foffs, world, log) ==
              if !out.ok || out.p.jump.Some? then out
              else RunSegs(out.p, Split(segs[1..], true), foffs, world, out.log)
  {
    hide ParseCommand, WordsOf;
  }

  lemma StepsZero(m: Machine, c: Config)
    requires c.p.Valid() && c.i <= |m.code|
    ensures Steps(m, c, 0) == c
  {
  }

  lemma StepsOne(m: Machine, c: Config)
    requires c.p.Valid() && c.i <= |m.code|
    ensures Steps(m, c, 1) == Step(m, c)
  {
    hide Step;
  }

  lemma JumpAt(s: Script, target: int)
    requires s.Valid() && Tidy(s, 0) && IsHead(s.Code(0), target) && Laid(s, 0)
    ensures Tidy(s, Seek(s, target)) && Laid(s, Seek(s, target))
    ensures s.Code(0)[Find(s.Code(0), target, 0)..] == s.Code(Seek(s, target))
  {
    hide IsHead, Find, Tidy, Laid;
    JumpLands(s, target);
    JumpLaid(s, target);
  }

  /** The reader between two lines and the machine agree. */
  ghost predicate Linked(s: Script, r: Reading, c: Config) {
    && s.Valid() && Tidy(s, 0) && Laid(s, 0) && r.pos <= |s.file| && Ok(s, c)
    && r.p == c.p && r.log == c.log && r.stopped == c.halted
    && (!r.stopped ==> At(s, c, r.pos))
  }

  ghost predicate AtRest(s: Script, r: Reading) {
    r.stopped || r.pos == |s.file|
  }

  /** One line is some steps; a line without steps is blank and reading goes on after it. */
  lemma LineIsSteps(s: Script, r: Reading, c: Config) returns (n: nat)
    requires Linked(s, r, c) && !AtRest(s, r)
    ensures Linked(s, ReadLine(s, r), Steps(MachineOf(s), c, n))
    ensures n == 0 ==> ReadLine(s, r).pos == s.LineEnd(r.pos)
    ensures c.i == |s.Code(0)| ==> n == 0
  {
    hide ParseCommand, Step, Steps, WordsOf, LoopHead, IsHead, Find, TopsIn, RunSegs, CodeOf, SplitFrom;
    var line := s.LineAt(r.pos);
    assert SplitFrom(line, 0, 0) == Split(SplitFrom(line, 0, 0).segs, true);
    n := SegsAreSteps(s, r.pos, SplitFrom(line, 0, 0).segs, c);
  }

  lemma {:induction false} LinesAreSteps(s: Script, r: Reading, c: Config, k: nat) returns (n: nat)
    requires Linked(s, r, c)
    ensures Linked(s, ReadLines(s, r, k), Steps(MachineOf(s), c, n))
    decreases k
  {
    hide Step, Steps, ReadLine, At, Tidy, TopsIn, Parser.Valid, Script.Code, Script.LineEnd;
    var m := MachineOf(s);
    if k == 0 {
      n := 0;
      StepsZero(m, c);
    } else if AtRest(s, r) {
      RestStays(s, r);
      n := LinesAreSteps(s, r, c, k - 1);
    } else {
      var a := LineIsSteps(s, r, c);
      var b := LinesAreSteps(s, ReadLine(s, r), Steps(m, c, a), k - 1);
      StepsAdd(m, c, a, b);
      n := a + b;
    }
  }

  lemma RestStays(s: Script, r: Reading)
    requires s.Valid() && r.p.Valid() && r.pos <= |s.file| && AtRest(s, r)
    ensures ReadLine(s, r) == r
  {
  }

  /** Linked, reader and machine come to rest together. */
  lemma RestTogether(s: Script, r: Reading, c: Config)
    requires Linked(s, r, c) && AtRest(s, r)
    ensures !c.Running(MachineOf(s))
  {
    hide SplitFrom, CodeOf;
  }

  /** When the machine comes to rest, so does the reader. */
  lemma {:induction false} ReaderRests(s: Script, r: Reading, c: Config, n: nat) returns (k: nat)
    requires Linked(s, r, c) && !Steps(MachineOf(s), c, n).Running(MachineOf(s))
    ensures AtRest(s, ReadLines(s, r, k))
    decreases n, |s.file| - r.pos
  {
    hide Step, Steps, ReadLine, At, Tidy, TopsIn, Parser.Valid, Script.Code, Script.LineEnd;
    var m := MachineOf(s);
    if AtRest(s, r) {
      k := 0;
    } else {
      var a := LineIsSteps(s, r, c);
      var d, q := Steps(m, c, a), ReadLine(s, r);
      if a <= n {
        StepsAdd(m, c, a, n - a);
        k := ReaderRests(s, q, d, n - a);
      } else {
        StepsZero(m, c);
        StepsZero(m, d);
        StepsAdd(m, c, n, a - n);
        StepsAtRest(m, Steps(m, c, n), a - n);
        k := ReaderRests(s, q, d, 0);
      }
      k := k + 1;
    }
  }

  /** Enough lines for `n` steps, or for the reader to rest. */
  lemma {:induction false} LinesReach(s: Script, r: Reading, c: Config, n: nat) returns (k: nat, j: nat)
    requires Linked(s, r, c)
    ensures Linked(s, ReadLines(s, r, k), Steps(MachineOf(s), c, j))
    ensures n <= j || AtRest(s, ReadLines(s, r, k))
    decreases n, |s.file| - r.pos
  {
    hide Step, Steps, ReadLine, At, Tidy, TopsIn, Parser.Valid, Script.Code, Script.LineEnd;
    var m := MachineOf(s);
    if n == 0 || AtRest(s, r) {
      k, j := 0, 0;
      StepsZero(m, c);
    } else {
      var a := LineIsSteps(s, r, c);
      var d, q := Steps(m, c, a), ReadLine(s, r);
      if a >= n {
        k, j := 1, a;
        assert ReadLines(s, r, 1) == ReadLines(s, q, 0);
      } else {
        StepsZero(m, c);
        k, j := LinesReach(s, q, d, n - a);
        StepsAdd(m, c, a, j);
        k, j := k + 1, a + j;
      }
    }
  }

  // ----- The text means what the tree says -----

  function Opened(depth: nat): Reading
    requires 0 < depth
  {
    Reading(Fresh(depth), 0, [], false, false)
  }

  /** How running the script file ends, some number of lines after it was opened. */
  ghost predicate TextEnds(s: Script, depth: nat, end: End)
    requires s.Valid() && 0 < depth
  {
    exists k: nat ::
      var r := ReadLines(s, Opened(depth), k);
      AtRest(s, r) && end == End(r.log, r.p.fail, r.stopped)
  }

  /** What the script has run after some number of lines. */
  ghost predicate TextRuns(s: Script, depth: nat, log: Log)
    requires s.Valid() && 0 < depth
  {
    exists k: nat :: log <= ReadLines(s, Opened(depth), k).log
  }

  /**
   A file whose text can be followed: seeks land, and when failures are ignored, only plain
   commands fail and none of them is followed by another command on its line.
   */
  ghost predicate Followed(s: Script, depth: nat) {
    && s.Valid() && Tidy(s, 0) && 0 < depth
    && (s.ignore ==> Spread(s, 0) && AllClean(MachineOf(s), Init(depth)))
  }

  lemma LinkedAtStart(s: Script, depth: nat)
    requires Followed(s, depth)
    ensures Linked(s, Opened(depth), Init(depth))
  {
    hide SplitFrom, CodeOf, AllClean, Spread;
    assert s.Code(0)[0..] == s.Code(0);
  }

  /** Reading the file line by line ends exactly as the flat machine on its commands. */
  lemma LayoutIrrelevant(s: Script, depth: nat, end: End)
    requires Followed(s, depth)
    ensures TextEnds(s, depth, end) <==> MachineEnds(MachineOf(s), depth, end)
  {
    hide Step, Steps, ReadLine, ReadLines, Tidy, Ok, At, Fresh, Spread, AllClean;
    LinkedAtStart(s, depth);
    var m, r0, c0 := MachineOf(s), Opened(depth), Init(depth);
    if TextEnds(s, depth, end) {
      var k: nat :| var r := ReadLines(s, r0, k); AtRest(s, r) && end == End(r.log, r.p.fail, r.stopped);
      var n := LinesAreSteps(s, r0, c0, k);
      RestTogether(s, ReadLines(s, r0, k), Steps(m, c0, n));
      assert !After(m, depth, n).Running(m);
    }
    if MachineEnds(m, depth, end) {
      var n: nat :| var c := After(m, depth, n); !c.Running(m) && end == End(c.log, c.p.fail, c.halted);
      var k := ReaderRests(s, r0, c0, n);
      var j := LinesAreSteps(s, r0, c0, k);
      RestTogether(s, ReadLines(s, r0, k), Steps(m, c0, j));
      if j <= n {
        RestIsFinal(m, depth, j, n);
      } else {
        RestIsFinal(m, depth, n, j);
      }
      assert AtRest(s, ReadLines(s, r0, k));
    }
  }

  /** Reading the file line by line runs what the flat machine runs, also when it never ends. */
  lemma LayoutLogs(s: Script, depth: nat, log: Log)
    requires Followed(s, depth)
    ensures TextRuns(s, depth, log) <==> MachineRuns(MachineOf(s), depth, log)
  {
    hide Step, Steps, ReadLine, ReadLines, Tidy, Ok, At, Fresh, Spread, AllClean;
    LinkedAtStart(s, depth);
    var m, r0, c0 := MachineOf(s), Opened(depth), Init(depth);
    if TextRuns(s, depth, log) {
      var k: nat :| log <= ReadLines(s, r0, k).log;
      var n := LinesAreSteps(s, r0, c0, k);
      assert log <= After(m, depth, n).log;
    }
    if MachineRuns(m, depth, log) {
      var n: nat :| log <= After(m, depth, n).log;
      var k, j := LinesReach(s, r0, c0, n);
      if j < n {
        RestTogether(s, ReadLines(s, r0, k), Steps(m, c0, j));
        RestIsFinal(m, depth, j, n);
      } else {
        LogOverTime(m, depth, n, j);
      }
      assert log <= ReadLines(s, r0, k).log;
    }
  }

  /** The commands of the file, in any layout, are the flat form of the tree. */
  ghost predicate Spells(s: Script, t: Stmt)
    requires s.Valid()
  {
    |s.Code(0)| == Size(t) && forall k :: 0 <= k < Size(t) ==> s.Code(0)[k].words == Flat(t)[k]
  }

  /** A file that spells a tree for which the machine and the tree agree. */
  ghost predicate Sound(s: Script, t: Stmt, depth: nat) {
    && s.Valid() && Tidy(s, 0) && Laid(s, 0) && Spells(s, t) && WellFormed(t)
    && IfDepth(t) < depth && LoopDepth(t) < depth
    && BreaksPlaced(t, Top) && LoopsSeparated(t, Top)
  }

  /**
   From the characters of a script file to its structured meaning: whatever its layout in
   lines, semicolons, blank lines and comments, the shell ends in a way if and only if the
   tree that the file spells does, and it runs the same commands in the same order, also when
   it never ends.
   */
  lemma TextMeansTree(s: Script, t: Stmt, depth: nat)
    requires Sound(s, t, depth)
    ensures forall end :: TextEnds(s, depth, end) <==> TreeEnds(MachineOf(s), t, end)
    ensures forall log :: TextRuns(s, depth, log) <==> TreeRuns(MachineOf(s), t, log)
  {
    hide Step, Steps, ReadLine, ReadLines, Tidy, Fresh, Flat, WellFormed, BreaksPlaced, LoopsSeparated, TextEnds, TreeEnds,
         MachineEnds, TextRuns, TreeRuns, MachineRuns, AllClean, Spread;
    CodeRises(s, 0);
    Refinement(MachineOf(s), t, depth);
    OnlyPlainFail(MachineOf(s), t, depth);
    forall end ensures TextEnds(s, depth, end) <==> TreeEnds(MachineOf(s), t, end) {
      LayoutIrrelevant(s, depth, end);
    }
    forall log ensures TextRuns(s, depth, log) <==> TreeRuns(MachineOf(s), t, log) {
      LayoutLogs(s, depth, log);
    }
  }
}
