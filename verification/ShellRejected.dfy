/**
 Commands that the parser rejects: which they are, in the shell's own words, and what a rejection
 leaves behind.
 */
module ShellRejected {
  import opened Options
  import opened ShellParser
  import opened ShellMachine
  import opened ShellText
  import opened ShellFile
  import opened ShellNotation

  /** A loop keyword out of place, or something else where `do` is due. */
  predicate LoopMisplaced(p: Parser, words: Words)
    requires p.Valid() && words != []
  {
    if words[0] == "while" || words[0] == "until" then
      || |words| == 1 || p.ItefTop().state == ItefIf || p.InLoopCondition() || !p.scripted || p.lpndx == |p.lp| - 1
    else if words[0] == "do" then !p.InLoopCondition()
    else if words[0] == "done" then |words| > 1 || p.lpndx == 0 || p.InLoopCondition()
    else p.InLoopCondition()
  }

  /** An if keyword out of place, or something else where `then` is due. */
  predicate ItefMisplaced(p: Parser, words: Words)
    requires p.Valid() && words != []
  {
    if words[0] == "if" then |words| == 1 || p.ItefTop().state == ItefIf || p.iendx == |p.ie| - 1
    else if words[0] == "then" then p.ItefTop().state != ItefIf
    else if words[0] == "else" then p.ItefTop().state != ItefThen
    else if words[0] == "fi" then |words| > 1 || (p.ItefTop().state != ItefThen && p.ItefTop().state != ItefElse)
    else p.ItefTop().state == ItefIf
  }

  /**
   Exactly these commands are rejected by the scan for loop keywords, and then no loop is open any
   more, the if stack is untouched, and no seek is due.
   */
  lemma LoopRejectedExactly(p: Parser, words: Words, here: int)
    requires p.Valid() && words != []
    ensures var r := ScanLoop(p, words, here);
            && (!r.ok <==> LoopMisplaced(p, words))
            && (!r.ok ==>
                  && r.p.lpndx == 0 && r.p.lp == p.lp[0 := p.lp[0].(state := LoopNormal, enable := true, top := 0)]
                  && r.p.ie == p.ie && r.p.iendx == p.iendx && r.p.jump == None && r.p.fail == p.fail)
  {
    hide Head, TokenOf;
    HeadsAre(words);
  }

  /** Exactly these are rejected by the scan for if keywords, and then no `if` is open any more. */
  lemma ItefRejectedExactly(p: Parser, words: Words)
    requires p.Valid() && words != []
    ensures var r := ScanItef(p, words);
            && (!r.ok <==> ItefMisplaced(p, words))
            && (!r.ok ==>
                  && r.p.iendx == 0 && r.p.ie == p.ie[0 := ItefSlot(ItefNormal, false, false)]
                  && r.p.lp == p.lp && r.p.lpndx == p.lpndx && r.p.jump == p.jump && r.p.fail == p.fail)
  {
    hide Head, TokenOf;
    HeadsAre(words);
  }

  /**
   A rejected command is not run. It fails the script, unless it stands where a condition is due:
   then the condition takes the failure.
   */
  lemma RejectedFails(p: Parser, words: Words, here: int, world: World, log: Log)
    requires p.Valid() && words != []
    requires LoopMisplaced(p, words)
          || (ScanLoop(p, words, here).words != [] && ItefMisplaced(ScanLoop(p, words, here).p, ScanLoop(p, words, here).words))
    ensures var r := ParseCommand(p, words, here, world, log);
            && r.log == log
            && (if LoopMisplaced(p, words) then r.ok <==> p.ItefTop().state == ItefIf
                else r.ok <==> ScanLoop(p, words, here).p.InLoopCondition())
            && r.p.fail == !r.ok
  {
    hide ScanLoop, ScanItef;
    LoopRejectedExactly(p, words, here);
    var a := ScanLoop(p, words, here);
    if a.ok {
      ItefRejectedExactly(a.p, a.words);
    }
  }

  // ----- Lines with a quote left open -----

  /** Read character by character, with comments outside quotes left out, the text ends inside quotes. */
  predicate QuoteOpen(text: string, inside: bool)
    decreases |text|
  {
    if text == "" then inside
    else if text[0] == '"' then QuoteOpen(text[1..], !inside)
    else if !inside && (text[0] == '#' || text[0] == '\n') then false
    else QuoteOpen(text[1..], inside)
  }

  /** Other characters do not matter. */
  lemma {:induction false} QuoteOpenSkip(line: string, i: nat, j: nat, inside: bool)
    requires i <= j <= |line|
    requires forall k :: i <= k < j ==> line[k] != '"' && (inside || (line[k] != '#' && line[k] != '\n'))
    ensures QuoteOpen(line[i..], inside) == QuoteOpen(line[j..], inside)
    decreases j - i
  {
    if i < j {
      assert line[i..][1..] == line[i + 1..];
      QuoteOpenSkip(line, i + 1, j, inside);
    }
  }

  lemma QuoteOpenStep(line: string, i: nat, inside: bool)
    requires i < |line| && (line[i] == '"' || line[i] == ';' || !inside)
    ensures QuoteOpen(line[i..], inside) ==
              if line[i] == '"' then QuoteOpen(line[i + 1..], !inside)
              else if line[i] == '#' || line[i] == '\n' then inside && QuoteOpen(line[i + 1..], inside)
              else QuoteOpen(line[i + 1..], inside)
  {
    assert line[i..][1..] == line[i + 1..];
  }

  /** The scan of a line comes to its end exactly when no quote is left open. */
  lemma {:induction false} OpenExactly(line: string, start: nat, working: nat)
    requires start <= working <= |line|
    ensures SplitFrom(line, start, working).closed <==> !QuoteOpen(line[working..], false)
    decreases |line| - working
  {
    hide SplitFrom, QuoteOpen, Span;
    var ptr := Span(line, working, LINE_STOPS);
    QuoteOpenSkip(line, working, ptr, false);
    if ptr == |line| {
      SplitLast(line, start, working);
      NoneOpen(line);
    } else if line[ptr] == ';' {
      SplitMore(line, start, working);
      QuoteOpenStep(line, ptr, false);
      OpenExactly(line, ptr + 1, ptr + 1);
    } else if line[ptr] == '"' {
      SplitQuote(line, start, working);
      QuoteOpenStep(line, ptr, false);
      var close := Span(line, ptr + 1, {'"'});
      QuoteOpenSkip(line, ptr + 1, close, true);
      if close == |line| {
        NoneOpen(line);
      } else {
        QuoteOpenStep(line, close, true);
        OpenExactly(line, start, close + 1);
      }
    } else {
      SplitLast(line, start, working);
      QuoteOpenStep(line, ptr, false);
    }
  }

  lemma NoneOpen(line: string)
    ensures !QuoteOpen(line[|line|..], false) && QuoteOpen(line[|line|..], true)
  {
  }

  /** A line that leaves a quote open is an error, unless a command before the quote leaves the line. */
  lemma OpenReported(p: Parser, line: string, foffs: nat, world: World, log: Log)
    requires p.Valid() && QuoteOpen(line, false)
    ensures var r := RunLine(p, line, foffs, world, log); !r.ok || r.p.jump.Some?
  {
    hide SplitFrom, QuoteOpen, RunSegs;
    assert line[0..] == line;
    OpenExactly(line, 0, 0);
    NotClosed(p.(jump := None), SplitFrom(line, 0, 0), foffs, world, log);
  }

  lemma {:induction false} NotClosed(p: Parser, split: Split, foffs: nat, world: World, log: Log)
    requires p.Valid() && !split.closed
    ensures var r := RunSegs(p, split, foffs, world, log); !r.ok || r.p.jump.Some?
    decreases |split.segs|
  {
    hide ParseCommand, WordsOf;
    if split.segs != [] {
      var out := ParseCommand(p, WordsOf(split.segs[0].text), foffs + split.segs[0].loffs, world, log);
      if out.ok && out.p.jump.None? {
        NotClosed(out.p, Split(split.segs[1..], false), foffs, world, out.log);
      }
    }
  }
}
