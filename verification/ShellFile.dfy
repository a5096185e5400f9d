/**
 Running a script file: lines are read at a file position and cut into commands, and `done`
 seeks back. For scripts whose loop commands hold no quoted string this is the flat machine
 on the commands of the file, however they are laid out on lines.
 */
module ShellFile {
  import opened Options
  import opened ShellParser
  import opened ShellText
  import opened ShellMachine

  /** A script file, the buffer its lines are read into, who answers its commands, and the -e flag. */
  datatype Script = Script(file: string, lineLength: nat, world: World, ignore: bool) {
    predicate Valid() {
      2 <= lineLength
    }

    /** fgets: the end of the line read at a position, newline included, or of the buffer. */
    function LineEnd(pos: nat): (end: nat)
      requires Valid() && pos < |file|
      ensures pos < end <= |file|
    {
      var newline := Span(file, pos, {'\n'});
      var end := if newline < |file| then newline + 1 else newline;
      if end < pos + lineLength then end else pos + lineLength - 1
    }

    function LineAt(pos: nat): (line: string)
      requires Valid() && pos < |file|
    {
      file[pos..LineEnd(pos)]
    }

    /** All commands from a position on, with the positions that the parser records for them. */
    function Code(pos: nat): (code: seq<Located>)
      requires Valid() && pos <= |file|
      decreases |file| - pos
    {
      if pos == |file| then [] else
        CodeOf(SplitFrom(LineAt(pos), 0, 0).segs, pos) + Code(LineEnd(pos))
    }
  }

  // ----- Lines -----

  /** What is read at a position: as far as a newline, the end of the file, or the end of the buffer. */
  ghost predicate IsLine(s: Script, pos: nat, end: nat) {
    && pos < end <= |s.file|
    && end - pos < s.lineLength
    && '\n' !in s.file[pos..end - 1]
    && (s.file[end - 1] == '\n' || end == |s.file| || end - pos == s.lineLength - 1)
  }

  /**
   A line and its terminator fit the buffer; it has no newline before its last character; and it
   ends in a newline, at the end of the file, or when the buffer is full. Only one line does.
   */
  lemma LineIsRead(s: Script, pos: nat, end: nat)
    requires s.Valid() && pos < |s.file|
    ensures IsLine(s, pos, end) <==> end == s.LineEnd(pos)
  {
    hide Span;
    var newline := Span(s.file, pos, {'\n'});
    assert forall k :: pos <= k < newline ==> s.file[k] != '\n';
    if IsLine(s, pos, end) {
      assert forall k :: pos <= k < end - 1 ==> s.file[k] == s.file[pos..end - 1][k - pos] != '\n';
      assert end - 1 <= newline;
    }
  }

  function Lines(s: Script, pos: nat): (lines: seq<string>)
    requires s.Valid() && pos <= |s.file|
    decreases |s.file| - pos
  {
    if pos == |s.file| then [] else [s.LineAt(pos)] + Lines(s, s.LineEnd(pos))
  }

  function Concat(lines: seq<string>): (text: string) {
    if lines == [] then "" else lines[0] + Concat(lines[1..])
  }

  /** The lines from any position on make up the rest of the file, and each fits the buffer. */
  lemma {:induction false} LinesMakeFile(s: Script, pos: nat)
    requires s.Valid() && pos <= |s.file|
    ensures Concat(Lines(s, pos)) == s.file[pos..]
    ensures forall k :: 0 <= k < |Lines(s, pos)| ==> 0 < |Lines(s, pos)[k]| < s.lineLength
    decreases |s.file| - pos
  {
    hide Span;
    if pos < |s.file| {
      var end := s.LineEnd(pos);
      LinesMakeFile(s, end);
      LineIsRead(s, pos, end);
      assert Lines(s, pos)[1..] == Lines(s, end);
      assert s.file[pos..] == s.file[pos..end] + s.file[end..];
    }
  }

  /** The commands of a line that starts at `foffs`, without the blank ones. */
  function CodeOf(segs: seq<Segment>, foffs: nat): (code: seq<Located>) {
    if segs == [] then [] else
      var words := WordsOf(segs[0].text);
      (if words == [] then [] else [Located(foffs + segs[0].loffs, words)]) + CodeOf(segs[1..], foffs)
  }

  /** Runs the commands of a line until one fails, jumps, or a quote turns out to be open. */
  function RunSegs(p: Parser, split: Split, foffs: nat, world: World, log: Log): (r: Outcome)
    requires p.Valid()
    ensures r.p.Valid()
    decreases |split.segs|
  {
    if split.segs == [] then Outcome(p, log, split.closed) else
      var seg := split.segs[0];
      var out := ParseCommand(p, WordsOf(seg.text), foffs + seg.loffs, world, log);
      if !out.ok || out.p.jump.Some? then out
      else RunSegs(out.p, Split(split.segs[1..], split.closed), foffs, world, out.log)
  }

  /** Runs the rest of a line, cut from `start` with the scan at `working`. */
  function RunFrom(p: Parser, line: string, start: nat, working: nat, foffs: nat, world: World, log: Log): (r: Outcome)
    requires p.Valid() && start <= working <= |line|
    ensures r.p.Valid()
  {
    RunSegs(p, SplitFrom(line, start, working), foffs, world, log)
  }

  lemma RunFromLast(p: Parser, line: string, start: nat, working: nat, foffs: nat, world: World, log: Log)
    requires p.Valid() && start <= working <= |line|
    requires var ptr := Span(line, working, LINE_STOPS); ptr == |line| || line[ptr] == '\n' || line[ptr] == '#'
    ensures RunFrom(p, line, start, working, foffs, world, log)
         == ParseCommand(p, WordsOf(line[start..]), foffs + working, world, log)
  {
    hide SplitFrom, Span, ParseCommand, WordsOf;
    SplitLast(line, start, working);
    assert SplitFrom(line, start, working).segs[1..] == [];
    var out := ParseCommand(p, WordsOf(line[start..]), foffs + working, world, log);
    assert RunSegs(out.p, Split([], true), foffs, world, out.log) == Outcome(out.p, out.log, true);
  }

  lemma RunFromMore(p: Parser, line: string, start: nat, working: nat, foffs: nat, world: World, log: Log)
    requires p.Valid() && start <= working <= |line|
    requires var ptr := Span(line, working, LINE_STOPS); ptr < |line| && line[ptr] == ';'
    ensures var ptr := Span(line, working, LINE_STOPS);
            var out := ParseCommand(p, WordsOf(line[start..ptr]), foffs + working, world, log);
            RunFrom(p, line, start, working, foffs, world, log)
            == if !out.ok || out.p.jump.Some? then out else RunFrom(out.p, line, ptr + 1, ptr + 1, foffs, world, out.log)
  {
    hide SplitFrom, Span, ParseCommand, WordsOf;
    SplitMore(line, start, working);
    var ptr := Span(line, working, LINE_STOPS);
    var r := SplitFrom(line, start, working);
    assert r.segs[1..] == SplitFrom(line, ptr + 1, ptr + 1).segs;
  }

  lemma RunFromQuote(p: Parser, line: string, start: nat, working: nat, foffs: nat, world: World, log: Log)
    requires p.Valid() && start <= working <= |line|
    requires var ptr := Span(line, working, LINE_STOPS); ptr < |line| && line[ptr] == '"'
    ensures var close := Span(line, Span(line, working, LINE_STOPS) + 1, {'"'});
            RunFrom(p, line, start, working, foffs, world, log)
            == if close == |line| then Outcome(p, log, false) else RunFrom(p, line, start, close + 1, foffs, world, log)
  {
    hide SplitFrom, Span, ParseCommand;
    SplitQuote(line, start, working);
  }

  function RunLine(p: Parser, line: string, foffs: nat, world: World, log: Log): (r: Outcome)
    requires p.Valid()
    ensures r.p.Valid()
  {
    RunFrom(p.(jump := None), line, 0, 0, foffs, world, log)
  }

  /** The state between two lines; `ok` is how the last line ended. */
  datatype Reading = Reading(p: Parser, pos: nat, log: Log, ok: bool, stopped: bool)

  function Seek(s: Script, target: int): nat {
    if 0 <= target <= |s.file| then target else |s.file|
  }

  /** One line of a script. A failure drops the rest of its line, and stops the script unless ignored. */
  function ReadLine(s: Script, r: Reading): (q: Reading)
    requires s.Valid() && r.p.Valid() && r.pos <= |s.file|
    ensures q.p.Valid() && q.pos <= |s.file|
  {
    if r.stopped || r.pos == |s.file| then r else
      var out := RunLine(r.p, s.LineAt(r.pos), r.pos, s.world, r.log);
      var next := if out.p.jump.Some? then Seek(s, out.p.jump.value) else s.LineEnd(r.pos);
      Reading(out.p.(jump := None), next, out.log, out.ok, !out.ok && !s.ignore)
  }

  function ReadLines(s: Script, r: Reading, k: nat): (q: Reading)
    requires s.Valid() && r.p.Valid() && r.pos <= |s.file|
    ensures q.p.Valid() && q.pos <= |s.file|
    decreases k
  {
    if k == 0 then r else ReadLines(s, ReadLine(s, r), k - 1)
  }

  // ----- The recorded offset -----

  /** A quoted string comes before anything else that ends the command. */
  predicate QuotedFrom(line: string, start: nat)
    requires start <= |line|
  {
    var q := Span(line, start, LINE_STOPS);
    q < |line| && line[q] == '"'
  }

  /** The offset recorded for a command is where it starts, if and only if it holds no quoted string. */
  lemma OffsetExact(line: string, start: nat)
    requires start <= |line|
    requires SplitFrom(line, start, start).segs != []
    ensures SplitFrom(line, start, start).segs[0].loffs == start <==> !QuotedFrom(line, start)
  {
    hide SplitFrom, Span;
    var ptr := Span(line, start, LINE_STOPS);
    if ptr == |line| || line[ptr] == '\n' || line[ptr] == '#' {
      SplitLast(line, start, start);
    } else if line[ptr] == ';' {
      SplitMore(line, start, start);
    } else {
      SplitQuote(line, start, start);
    }
  }

  // ----- Reading from the middle of a line -----

  function Shift(segs: seq<Segment>, d: nat): (r: seq<Segment>)
    requires forall k :: 0 <= k < |segs| ==> d <= segs[k].start && d <= segs[k].loffs
    ensures |r| == |segs|
  {
    if segs == [] then [] else
      [Segment(segs[0].start - d, segs[0].loffs - d, segs[0].text)] + Shift(segs[1..], d)
  }

  lemma ShiftCons(seg: Segment, segs: seq<Segment>, d: nat)
    requires d <= seg.start && d <= seg.loffs
    requires forall k :: 0 <= k < |segs| ==> d <= segs[k].start && d <= segs[k].loffs
    ensures Shift([seg] + segs, d) == [Segment(seg.start - d, seg.loffs - d, seg.text)] + Shift(segs, d)
    ensures Shift([], d) == []
  {
    assert ([seg] + segs)[1..] == segs;
  }

  lemma SpanShift(line: string, d: nat, from: nat, stops: set<char>)
    requires d <= from <= |line|
    ensures Span(line[d..], from - d, stops) == Span(line, from, stops) - d
  {
    SpanIs(line[d..], from - d, stops, Span(line, from, stops) - d);
  }

  function ShiftSplit(r: Split, d: nat): Split
    requires forall k :: 0 <= k < |r.segs| ==> d <= r.segs[k].start && d <= r.segs[k].loffs
  {
    Split(Shift(r.segs, d), r.closed)
  }

  lemma ShiftLast(line: string, d: nat, start: nat, working: nat)
    requires d <= start <= working <= |line|
    requires var ptr := Span(line, working, LINE_STOPS); ptr == |line| || line[ptr] == '\n' || line[ptr] == '#'
    ensures SplitFrom(line[d..], start - d, working - d) == ShiftSplit(SplitFrom(line, start, working), d)
  {
    hide SplitFrom, Span, Shift;
    SpanShift(line, d, working, LINE_STOPS);
    SplitLast(line, start, working);
    SplitLast(line[d..], start - d, working - d);
    assert line[d..][start - d..] == line[start..];
    var seg := Segment(start, working, line[start..]);
    ShiftCons(seg, [], d);
    assert [seg] + [] == [seg];
  }

  lemma SliceOfTail(line: string, d: nat, i: nat, j: nat)
    requires d <= i <= j <= |line|
    ensures line[d..][i - d..j - d] == line[i..j]
  {
  }

  lemma ShiftMore(line: string, d: nat, start: nat, working: nat, ptr: nat)
    requires d <= start <= working <= |line|
    requires ptr == Span(line, working, LINE_STOPS) < |line| && line[ptr] == ';'
    requires SplitFrom(line[d..], ptr + 1 - d, ptr + 1 - d) == ShiftSplit(SplitFrom(line, ptr + 1, ptr + 1), d)
    ensures SplitFrom(line[d..], start - d, working - d) == ShiftSplit(SplitFrom(line, start, working), d)
  {
    hide SplitFrom, Span, Shift;
    SplitMore(line, start, working);
    TailMore(line, d, start, working, ptr);
    ShiftCons(Segment(start, working, line[start..ptr]), SplitFrom(line, ptr + 1, ptr + 1).segs, d);
  }

  lemma TailMore(line: string, d: nat, start: nat, working: nat, ptr: nat)
    requires d <= start <= working <= |line|
    requires ptr == Span(line, working, LINE_STOPS) < |line| && line[ptr] == ';'
    ensures var rest := SplitFrom(line[d..], ptr + 1 - d, ptr + 1 - d);
            SplitFrom(line[d..], start - d, working - d)
            == Split([Segment(start - d, working - d, line[start..ptr])] + rest.segs, rest.closed)
  {
    hide SplitFrom, Span, Shift;
    SpanShift(line, d, working, LINE_STOPS);
    SplitMore(line[d..], start - d, working - d);
    SliceOfTail(line, d, start, ptr);
  }

  lemma ShiftQuote(line: string, d: nat, start: nat, working: nat)
    requires d <= start <= working <= |line|
    requires var ptr := Span(line, working, LINE_STOPS); ptr < |line| && line[ptr] == '"'
    ensures var close := Span(line, Span(line, working, LINE_STOPS) + 1, {'"'});
            if close == |line| then
              SplitFrom(line, start, working) == SplitFrom(line[d..], start - d, working - d) == Split([], false)
            else
              && SplitFrom(line, start, working) == SplitFrom(line, start, close + 1)
              && SplitFrom(line[d..], start - d, working - d) == SplitFrom(line[d..], start - d, close + 1 - d)
  {
    hide SplitFrom, Span;
    SpanShift(line, d, working, LINE_STOPS);
    SpanShift(line, d, Span(line, working, LINE_STOPS) + 1, {'"'});
    SplitQuote(line, start, working);
    SplitQuote(line[d..], start - d, working - d);
  }

  /** Cutting a line from its middle gives the same commands, with shifted offsets. */
  lemma {:induction false} SplitShift(line: string, d: nat, start: nat, working: nat)
    requires d <= start <= working <= |line|
    ensures SplitFrom(line[d..], start - d, working - d) == ShiftSplit(SplitFrom(line, start, working), d)
    decreases |line| - working
  {
    hide SplitFrom, Span;
    var ptr := Span(line, working, LINE_STOPS);
    if ptr == |line| || line[ptr] == '\n' || line[ptr] == '#' {
      ShiftLast(line, d, start, working);
    } else if line[ptr] == ';' {
      SplitShift(line, d, ptr + 1, ptr + 1);
      ShiftMore(line, d, start, working, ptr);
    } else {
      var close := Span(line, ptr + 1, {'"'});
      ShiftQuote(line, d, start, working);
      if close < |line| {
        SplitShift(line, d, start, close + 1);
      }
    }
  }

  lemma ShiftNone(d: nat)
    ensures Shift([], d) == []
  {
  }

  lemma CodeOfNone(foffs: nat)
    ensures CodeOf([], foffs) == []
  {
  }

  lemma CodeOfCons(seg: Segment, segs: seq<Segment>, foffs: nat)
    ensures CodeOf([seg] + segs, foffs) ==
              (if WordsOf(seg.text) == [] then [] else [Located(foffs + seg.loffs, WordsOf(seg.text))]) + CodeOf(segs, foffs)
  {
    hide WordsOf;
    assert ([seg] + segs)[1..] == segs;
  }

  lemma {:induction false} CodeShift(segs: seq<Segment>, d: nat, foffs: nat)
    requires forall k :: 0 <= k < |segs| ==> d <= segs[k].start && d <= segs[k].loffs
    ensures CodeOf(Shift(segs, d), foffs + d) == CodeOf(segs, foffs)
  {
    hide WordsOf, Shift, CodeOf;
    if segs == [] {
      ShiftNone(d);
      CodeOfNone(foffs);
      CodeOfNone(foffs + d);
    } else {
      var first := Segment(segs[0].start - d, segs[0].loffs - d, segs[0].text);
      CodeShift(segs[1..], d, foffs);
      assert segs == [segs[0]] + segs[1..];
      ShiftCons(segs[0], segs[1..], d);
      CodeOfCons(segs[0], segs[1..], foffs);
      CodeOfCons(first, Shift(segs[1..], d), foffs + d);
    }
  }

  // ----- Scripts that can be sought in -----

  ghost predicate LoopHead(words: Words) {
    Head(words) == While || Head(words) == Until
  }

  /** In these commands of a line, the loop commands hold no quoted string. */
  ghost predicate HeadsBare(segs: seq<Segment>) {
    forall k :: 0 <= k < |segs| && LoopHead(WordsOf(segs[k].text)) ==> segs[k].loffs == segs[k].start
  }

  /** The line fits the buffer. */
  predicate Whole(s: Script, pos: nat)
    requires s.Valid()
  {
    pos < |s.file| && (s.LineEnd(pos) == |s.file| || s.file[s.LineEnd(pos) - 1] == '\n')
  }

  /** Lines fit the buffer, quotes are closed, and loop commands hold no quoted string. */
  ghost predicate Tidy(s: Script, pos: nat)
    requires s.Valid() && pos <= |s.file|
    decreases |s.file| - pos
  {
    pos < |s.file| ==>
      && Whole(s, pos)
      && SplitFrom(s.LineAt(pos), 0, 0).closed
      && HeadsBare(SplitFrom(s.LineAt(pos), 0, 0).segs)
      && Tidy(s, s.LineEnd(pos))
  }

  lemma TidyHere(s: Script, pos: nat)
    requires s.Valid() && pos < |s.file| && Tidy(s, pos)
    ensures Whole(s, pos) && HeadsBare(SplitFrom(s.LineAt(pos), 0, 0).segs)
  {
    hide SplitFrom, Span, HeadsBare;
  }

  lemma SpanUnique(t: string, from: nat, stops: set<char>)
    requires from <= |t|
    ensures forall j :: from <= j <= Span(t, from, stops) ==> Span(t, j, stops) == Span(t, from, stops)
  {
    forall j | from <= j <= Span(t, from, stops) ensures Span(t, j, stops) == Span(t, from, stops) {
      SpanIs(t, j, stops, Span(t, from, stops));
    }
  }

  /** Reading from the middle of a line ends where the line ends. */
  lemma LineTail(s: Script, pos: nat, d: nat)
    requires s.Valid() && Whole(s, pos) && pos + d < s.LineEnd(pos)
    ensures s.LineEnd(pos + d) == s.LineEnd(pos)
    ensures s.LineAt(pos + d) == s.LineAt(pos)[d..]
  {
    hide Span, SplitFrom;
    SpanUnique(s.file, pos, {'\n'});
  }

  /** The code read from the start of a command inside a line: that command and all later ones. */
  lemma CodeFromMiddle(s: Script, pos: nat, d: nat)
    requires s.Valid() && Whole(s, pos) && pos + d < s.LineEnd(pos)
    ensures s.Code(pos + d) == CodeOf(SplitFrom(s.LineAt(pos), d, d).segs, pos) + s.Code(s.LineEnd(pos))
  {
    hide Span, SplitFrom, CodeOf;
    LineTail(s, pos, d);
    var line := s.LineAt(pos);
    SplitShift(line, d, d, d);
    CodeShift(SplitFrom(line, d, d).segs, d, pos);
    assert s.LineAt(pos + d) == line[d..];
  }

  /** The code of a line from its `k`-th command on. */
  lemma {:induction false} SegsTail(line: string, start: nat, working: nat, k: nat)
    requires start <= working <= |line| && k < |SplitFrom(line, start, working).segs|
    ensures var segs := SplitFrom(line, start, working).segs;
            segs[k].loffs == segs[k].start ==>
              SplitFrom(line, segs[k].start, segs[k].start) == Split(segs[k..], SplitFrom(line, start, working).closed)
    decreases |line| - working
  {
    hide SplitFrom, Span;
    var ptr := Span(line, working, LINE_STOPS);
    if ptr == |line| || line[ptr] == '\n' || line[ptr] == '#' {
      SplitLast(line, start, working);
    } else if line[ptr] == ';' {
      SplitMore(line, start, working);
      if k > 0 {
        SegsTail(line, ptr + 1, ptr + 1, k - 1);
      }
    } else {
      SplitQuote(line, start, working);
      SegsTail(line, start, Span(line, ptr + 1, {'"'}) + 1, k);
    }
  }

  /** Each entry of the code of a line comes from one of its commands. */
  lemma {:induction false} CodeOfEntry(segs: seq<Segment>, foffs: nat, j: nat) returns (k: nat)
    requires j < |CodeOf(segs, foffs)|
    ensures k < |segs| && WordsOf(segs[k].text) != []
    ensures CodeOf(segs, foffs)[j] == Located(foffs + segs[k].loffs, WordsOf(segs[k].text))
    ensures CodeOf(segs[k..], foffs) == CodeOf(segs, foffs)[j..]
  {
    hide WordsOf;
    var blank := WordsOf(segs[0].text) == [];
    if !blank && j == 0 {
      k := 0;
      assert segs[0..] == segs;
    } else {
      var i := CodeOfEntry(segs[1..], foffs, if blank then j else j - 1);
      k := i + 1;
      assert segs[k..] == segs[1..][i..];
    }
  }

  /** The code from here on: the commands of this line, and those of the lines after it. */
  lemma CodeHere(s: Script, pos: nat, j: nat)
    requires s.Valid() && pos < |s.file| && j <= |s.Code(pos)|
    ensures var here, rest := CodeOf(SplitFrom(s.LineAt(pos), 0, 0).segs, pos), s.Code(s.LineEnd(pos));
            && s.Code(pos) == here + rest
            && (if j <= |here| then s.Code(pos)[j..] == here[j..] + rest else s.Code(pos)[j..] == rest[j - |here|..])
  {
    hide SplitFrom, CodeOf, Script.LineEnd, Script.LineAt;
  }

  /**
   The offset recorded for a loop command leads back to it: reading from there on gives
   that command and all that follow it, whatever stood before it on its line.
   */
  lemma {:induction false} SeekLandsOnHead(s: Script, pos: nat, j: nat)
    requires s.Valid() && pos <= |s.file| && Tidy(s, pos)
    requires j < |s.Code(pos)| && LoopHead(s.Code(pos)[j].words)
    ensures pos <= s.Code(pos)[j].at < |s.file|
    ensures s.Code(s.Code(pos)[j].at) == s.Code(pos)[j..] && Tidy(s, s.Code(pos)[j].at)
    decreases |s.file| - pos
  {
    hide Span, SplitFrom, CodeOf, WordsOf, LoopHead, Tidy, Script.Code, Script.LineAt;
    CodeInside(s, pos, j);
    CodeHere(s, pos, j);
    var here, rest := CodeOf(SplitFrom(s.LineAt(pos), 0, 0).segs, pos), s.Code(s.LineEnd(pos));
    if j < |here| {
      SeekInLine(s, pos, j);
    } else {
      TidyNext(s, pos);
      SeekLandsOnHead(s, s.LineEnd(pos), j - |here|);
      assert rest[0..] == rest;
    }
  }

  lemma CodeInside(s: Script, pos: nat, j: nat)
    requires s.Valid() && pos <= |s.file| && j < |s.Code(pos)|
    ensures pos < |s.file|
  {
  }

  lemma TidyNext(s: Script, pos: nat)
    requires s.Valid() && pos < |s.file| && Tidy(s, pos)
    ensures Tidy(s, s.LineEnd(pos))
  {
    hide SplitFrom, CodeOf, Span, HeadsBare;
  }

  lemma SeekInLine(s: Script, pos: nat, j: nat)
    requires s.Valid() && pos < |s.file| && Tidy(s, pos)
    requires var here := CodeOf(SplitFrom(s.LineAt(pos), 0, 0).segs, pos);
             j < |here| && LoopHead(here[j].words)
    ensures var here := CodeOf(SplitFrom(s.LineAt(pos), 0, 0).segs, pos);
            && pos <= here[j].at < |s.file|
            && s.Code(here[j].at) == here[j..] + s.Code(s.LineEnd(pos)) && Tidy(s, here[j].at)
  {
    hide Span, SplitFrom, CodeOf, WordsOf, LoopHead, HeadsBare, Tidy, Script.Code;
    TidyHere(s, pos);
    var k := HeadInLine(s.LineAt(pos), pos, j);
    var segs := SplitFrom(s.LineAt(pos), 0, 0).segs;
    CodeFromMiddle(s, pos, segs[k].start);
    TidyMiddle(s, pos, k);
  }

  lemma HeadInLine(line: string, pos: nat, j: nat) returns (k: nat)
    requires var segs := SplitFrom(line, 0, 0).segs;
             HeadsBare(segs) && j < |CodeOf(segs, pos)| && LoopHead(CodeOf(segs, pos)[j].words)
    ensures var segs := SplitFrom(line, 0, 0).segs;
            && k < |segs| && segs[k].loffs == segs[k].start < |line|
            && CodeOf(segs, pos)[j].at == pos + segs[k].start
            && CodeOf(SplitFrom(line, segs[k].start, segs[k].start).segs, pos) == CodeOf(segs, pos)[j..]
  {
    hide Span, SplitFrom, CodeOf, WordsOf, LoopHead;
    k := CodeOfEntry(SplitFrom(line, 0, 0).segs, pos, j);
    SegsTail(line, 0, 0, k);
    NoWords(SplitFrom(line, 0, 0).segs[k].text);
  }

  lemma {:induction false} ShiftText(segs: seq<Segment>, d: nat)
    requires forall k :: 0 <= k < |segs| ==> d <= segs[k].start && d <= segs[k].loffs
    ensures forall k :: 0 <= k < |segs| ==>
              Shift(segs, d)[k] == Segment(segs[k].start - d, segs[k].loffs - d, segs[k].text)
  {
    if segs != [] {
      ShiftText(segs[1..], d);
    }
  }

  lemma TidyMiddle(s: Script, pos: nat, k: nat)
    requires s.Valid() && pos < |s.file| && Tidy(s, pos)
    requires var segs := SplitFrom(s.LineAt(pos), 0, 0).segs;
             k < |segs| && segs[k].loffs == segs[k].start < |s.LineAt(pos)|
    ensures var segs := SplitFrom(s.LineAt(pos), 0, 0).segs; Tidy(s, pos + segs[k].start)
  {
    hide Span, SplitFrom, WordsOf, LoopHead, Shift;
    var line := s.LineAt(pos);
    var segs := SplitFrom(line, 0, 0).segs;
    var d := segs[k].start;
    LineTail(s, pos, d);
    SegsTail(line, 0, 0, k);
    SplitShift(line, d, d, d);
    ShiftText(segs[k..], d);
  }

  lemma NoWords(text: string)
    requires WordsOf(text) != []
    ensures text != ""
  {
  }

  // ----- Lines on which nothing can be lost -----

  /** No plain command is followed by another command. */
  predicate Apart(code: seq<Located>) {
    forall k :: 0 <= k < |code| - 1 ==> Head(code[k].words) != Other
  }

  /** On no line from here on is a plain command followed by another command. */
  ghost predicate Spread(s: Script, pos: nat)
    requires s.Valid() && pos <= |s.file|
    decreases |s.file| - pos
  {
    pos < |s.file| ==>
      Apart(CodeOf(SplitFrom(s.LineAt(pos), 0, 0).segs, pos)) && Spread(s, s.LineEnd(pos))
  }

  /** The same holds where a seek to a loop command leads. */
  lemma {:induction false} SpreadSeek(s: Script, pos: nat, j: nat)
    requires s.Valid() && pos <= |s.file| && Tidy(s, pos) && Spread(s, pos)
    requires j < |s.Code(pos)| && LoopHead(s.Code(pos)[j].words)
    ensures pos <= s.Code(pos)[j].at < |s.file| && Spread(s, s.Code(pos)[j].at)
    decreases |s.file| - pos
  {
    hide Span, SplitFrom, CodeOf, WordsOf, LoopHead, Tidy, Script.Code, Script.LineAt, Apart;
    CodeInside(s, pos, j);
    CodeHere(s, pos, j);
    var here, rest := CodeOf(SplitFrom(s.LineAt(pos), 0, 0).segs, pos), s.Code(s.LineEnd(pos));
    if j < |here| {
      SpreadInLine(s, pos, j);
    } else {
      TidyNext(s, pos);
      SpreadSeek(s, s.LineEnd(pos), j - |here|);
    }
  }

  lemma SpreadInLine(s: Script, pos: nat, j: nat)
    requires s.Valid() && pos < |s.file| && Tidy(s, pos) && Spread(s, pos)
    requires var here := CodeOf(SplitFrom(s.LineAt(pos), 0, 0).segs, pos);
             j < |here| && LoopHead(here[j].words)
    ensures var here := CodeOf(SplitFrom(s.LineAt(pos), 0, 0).segs, pos);
            pos <= here[j].at < |s.file| && Spread(s, here[j].at)
  {
    hide Span, SplitFrom, CodeOf, WordsOf, LoopHead, HeadsBare, Tidy, Script.Code, Shift;
    TidyHere(s, pos);
    var line := s.LineAt(pos);
    var k := HeadInLine(line, pos, j);
    var d := SplitFrom(line, 0, 0).segs[k].start;
    LineTail(s, pos, d);
    SplitShift(line, d, d, d);
    CodeShift(SplitFrom(line, d, d).segs, d, pos);
    ApartTail(CodeOf(SplitFrom(line, 0, 0).segs, pos), j);
  }

  lemma ApartTail(code: seq<Located>, j: nat)
    requires j <= |code| && Apart(code)
    ensures Apart(code[j..])
  {
  }
}
