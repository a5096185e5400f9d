/**
 The parser as the shell holds it: two arrays of slots with their indices, updated in place
 by each command, and the line and script loops around it.
 */
module ShellState {
  import opened Options
  import opened ShellParser
  import opened ShellText
  import opened ShellFile

  /** Finds the next argument of a command, scanning from `from`. */
  method NextArgument(s: string, from: nat) returns (r: Arg)
    requires from <= |s|
    ensures r == Argument(s, from)
  {
    var begin := from;
    while begin < |s| && s[begin] in BLANKS
      invariant from <= begin <= |s|
      invariant NotBlank(s, begin) == NotBlank(s, from)
    {
      begin := begin + 1;
    }
    if begin == |s| || s[begin] == '#' {
      return NoArg;
    }
    if s[begin] == '>' {
      if begin + 1 < |s| && s[begin + 1] == '>' {
        return Arg(">>", begin + 2);
      }
      return Arg(">", begin + 1);
    }
    var term := BLANKS;
    if s[begin] == '"' {
      begin := begin + 1;
      term := {'"'};
    }
    var end, backquote := begin, false;
    while end < |s| && !(s[end] != '`' && !backquote && s[end] in term)
      invariant begin <= end <= |s|
      invariant ArgEnd(s, end, term, backquote) == ArgEnd(s, begin, term, false)
    {
      if s[end] == '`' {
        backquote := !backquote;
      }
      end := end + 1;
    }
    r := Arg(s[begin..end], if end < |s| then end + 1 else end);
  }

  class Shell {
    const lp: array<LoopSlot>
    var lpndx: nat
    const ie: array<ItefSlot>
    var iendx: nat
    var fail: bool
    var jump: bool
    var scripted: bool
    /** Where the script file will be read next. */
    var position: int
    /** The commands run so far. */
    var log: Log
    const world: World

    ghost function State(): (p: Parser)
      reads this, lp, ie
    {
      Parser(lp[..], lpndx, ie[..], iendx, fail, if jump then Some(position) else None, scripted)
    }

    ghost predicate Valid()
      reads this, lp, ie
    {
      State().Valid()
    }

    constructor (depth: nat, world: World)
      requires 0 < depth
      ensures Valid() && State() == Fresh(depth) && log == [] && position == 0 && this.world == world
      ensures fresh(lp) && fresh(ie)
    {
      lp := new LoopSlot[depth](_ => LoopSlot(LoopNormal, false, 0, 0));
      ie := new ItefSlot[depth](_ => ItefSlot(ItefNormal, false, false));
      lpndx, iendx, fail, jump, scripted, position, log := 0, 0, false, false, true, 0, [];
      this.world := world;
    }

    method IsEnabled() returns (enabled: bool)
      requires Valid()
      ensures enabled == State().Enabled()
    {
      enabled := lp[lpndx].state != LoopDo || lp[lpndx].enable;
      if enabled {
        enabled := !ie[iendx].disabled;
        if enabled {
          if ie[iendx].state == ItefThen {
            enabled := !ie[iendx].ifcond;
          } else if ie[iendx].state == ItefElse {
            enabled := ie[iendx].ifcond;
          }
        }
      }
    }

    method SetLoopTop(slot: LoopSlot)
      requires Valid()
      modifies lp
      ensures State() == old(State()).WithLoopTop(slot)
    {
      lp[lpndx] := slot;
    }

    method SetItefTop(slot: ItefSlot)
      requires Valid()
      modifies ie
      ensures State() == old(State()).WithItefTop(slot)
    {
      ie[iendx] := slot;
    }

    method StoreResult(failed: bool) returns (ok: bool)
      requires Valid()
      modifies this`fail, lp, ie
      ensures Valid()
      ensures Outcome(State(), log, ok) == SaveResult(old(State()), failed, log)
    {
      if lp[lpndx].state == LoopWhile {
        SetLoopTop(lp[lpndx].(enable := !failed));
        fail := false;
        ok := true;
      } else if lp[lpndx].state == LoopUntil {
        SetLoopTop(lp[lpndx].(enable := failed));
        fail := false;
        ok := true;
      } else if ie[iendx].state == ItefIf {
        SetItefTop(ie[iendx].(ifcond := failed));
        fail := false;
        ok := true;
      } else {
        fail := failed;
        ok := !failed;
      }
    }

    method ResetLoops()
      requires Valid()
      modifies this`jump, this`lpndx, lp
      ensures Valid() && State() == LoopReset(old(State()))
    {
      jump := false;
      lpndx := 0;
      lp[0] := lp[0].(state := LoopNormal, enable := true, top := 0);
    }

    method ResetItef()
      requires Valid()
      modifies this`iendx, ie
      ensures Valid() && State() == ItefReset(old(State()))
    {
      iendx := 0;
      ie[0] := ItefSlot(ItefNormal, false, false);
    }

    method PushSlot(slot: LoopSlot)
      requires lpndx + 1 < lp.Length
      modifies this`jump, this`lpndx, lp
      ensures State() == old(State()).(jump := None, lpndx := old(lpndx) + 1, lp := old(lp[..])[old(lpndx) + 1 := slot])
    {
      jump := false;
      lpndx := lpndx + 1;
      lp[lpndx] := slot;
    }

    /** `while` and `until`. */
    method PushLoop(words: Words, here: int) returns (ok: bool, rest: Words)
      requires Valid() && words != []
      modifies this`jump, this`lpndx, lp
      ensures Valid() && Scan(State(), rest, ok) == EnterLoop(old(State()), words, here)
    {
      hide TokenOf, LoopReset;
      rest := words;
      if |words| == 1 || ie[iendx].state == ItefIf || lp[lpndx].state == LoopWhile
         || lp[lpndx].state == LoopUntil || !scripted || lpndx >= lp.Length - 1 {
        ResetLoops();
        ok := false;
      } else {
        var enable := IsEnabled();
        PushSlot(LoopSlot(if Head(words) == While then LoopWhile else LoopUntil, enable, iendx, here));
        ok, rest := true, words[1..];
      }
    }

    /** `done`. The stack cannot be empty here. */
    method PopLoop()
      requires Valid() && State().LoopTop().state == LoopDo
      modifies this`jump, this`lpndx, this`position, lp
      ensures Valid() && State() == LeaveLoop(old(State()))
      ensures !jump ==> position == old(position)
    {
      assert lpndx >= 1;
      if lp[lpndx].enable {
        position := lp[lpndx].top;
        jump := true;
      } else {
        lp[lpndx] := lp[lpndx].(enable := true);
      }
      lp[lpndx] := lp[lpndx].(state := LoopNormal);
      lpndx := lpndx - 1;
    }

    method HandleLoop(words: Words, here: int) returns (ok: bool, rest: Words)
      requires Valid()
      modifies this`jump, this`lpndx, this`position, lp
      ensures Valid() && Scan(State(), rest, ok) == ScanLoop(old(State()), words, here)
      ensures !jump ==> position == old(position)
    {
      hide TokenOf, EnterLoop, LeaveLoop, LoopReset;
      ok, rest := true, words;
      if words != [] {
        var head := Head(words);
        if head == While || head == Until {
          ok, rest := PushLoop(words, here);
        } else if head == Do && (lp[lpndx].state == LoopWhile || lp[lpndx].state == LoopUntil) {
          lp[lpndx] := lp[lpndx].(state := LoopDo);
          rest := words[1..];
        } else if head == Done && |words| == 1 && lp[lpndx].state == LoopDo {
          PopLoop();
          rest := [];
        } else if head == Do || head == Done || lp[lpndx].state == LoopWhile || lp[lpndx].state == LoopUntil {
          ResetLoops();
          ok := false;
        }
      }
    }

    /** `if`. */
    method PushItef(words: Words) returns (ok: bool, rest: Words)
      requires Valid() && Head(words) == If
      modifies this`iendx, ie
      ensures Valid() && Scan(State(), rest, ok) == ScanItef(old(State()), words)
    {
      hide TokenOf;
      rest := words;
      if |words| == 1 || ie[iendx].state == ItefIf || iendx >= ie.Length - 1 {
        ResetItef();
        ok := false;
      } else {
        var enabled := IsEnabled();
        iendx := iendx + 1;
        ie[iendx] := ItefSlot(ItefIf, !enabled, false);
        ok, rest := true, words[1..];
      }
    }

    /** `then`, `else` and `fi`, or a word in the place of one. */
    method MoveItef(words: Words) returns (ok: bool, rest: Words)
      requires Valid() && words != [] && Head(words) != If
      modifies this`iendx, ie
      ensures Valid() && Scan(State(), rest, ok) == ScanItef(old(State()), words)
    {
      hide TokenOf;
      ok, rest := true, words;
      var head, state := Head(words), ie[iendx].state;
      if head == Then && state == ItefIf {
        ie[iendx] := ie[iendx].(state := ItefThen);
        rest := words[1..];
      } else if head == Else && state == ItefThen {
        ie[iendx] := ie[iendx].(state := ItefElse);
        rest := words[1..];
      } else if head == Fi && |words| == 1 && (state == ItefThen || state == ItefElse) {
        assert iendx >= 1;
        iendx := iendx - 1;
        rest := [];
      } else if head == Then || head == Else || head == Fi || state == ItefIf {
        ResetItef();
        ok := false;
      }
    }

    /** The `break` command. */
    method BreakCommand()
      requires Valid()
      modifies this`iendx, lp
      ensures Valid() && State() == BreakLoop(old(State()))
    {
      if lp[lpndx].state == LoopDo {
        iendx := lp[lpndx].iendx;
        lp[lpndx] := lp[lpndx].(enable := false);
      }
    }

    method RunCommand(argv: Words, here: int) returns (ok: bool)
      requires Valid() && argv != []
      modifies this`iendx, this`fail, this`log, lp, ie
      ensures Valid() && Outcome(State(), log, ok) == Execute(old(State()), argv, here, world, old(log))
    {
      hide TokenOf, SaveResult, BreakLoop;
      log := log + [Event(here, argv)];
      if Head(argv) == Break {
        BreakCommand();
        ok := StoreResult(false);
      } else {
        ok := StoreResult(world(log));
      }
    }

    /** nsh_parse_command. */
    method HandleCommand(words: Words, here: int) returns (ok: bool)
      requires Valid()
      modifies this, lp, ie
      ensures Valid() && Outcome(State(), log, ok) == ParseCommand(old(State()), words, here, world, old(log))
      ensures !jump ==> position == old(position)
    {
      hide TokenOf, ScanLoop, ScanItef, SaveResult, Execute;
      var cmd;
      ok, cmd := HandleLoop(words, here);
      if ok && cmd != [] {
        if Head(cmd) == If {
          ok, cmd := PushItef(cmd);
        } else {
          ok, cmd := MoveItef(cmd);
        }
      } else if ok {
        ScanItefEmpty(State());
      }
      if !ok {
        ok := StoreResult(true);
      } else if cmd != [] {
        var enabled := IsEnabled();
        if enabled {
          ok := RunCommand(cmd, here);
        }
      }
    }

    /** The words of one command. */
    method ReadWords(text: string) returns (words: Words)
      ensures words == WordsOf(text)
    {
      words := [];
      var next := 0;
      while true
        invariant next <= |text|
        invariant words + WordsFrom(text, next) == WordsOf(text)
        decreases |text| - next
      {
        var a := NextArgument(text, next);
        if a.NoArg? {
          break;
        }
        words := words + [a.word];
        next := a.next;
      }
    }

    /** strcspn from an index on. */
    method FindStop(s: string, from: nat, stops: set<char>) returns (k: nat)
      requires from <= |s|
      ensures k == Span(s, from, stops)
    {
      k := from;
      while k < |s| && s[k] !in stops
        invariant from <= k <= |s|
        invariant Span(s, k, stops) == Span(s, from, stops)
      {
        k := k + 1;
      }
    }

    method HandleText(text: string, here: int) returns (ok: bool)
      requires Valid()
      modifies this, lp, ie
      ensures Valid() && Outcome(State(), log, ok) == ParseCommand(old(State()), WordsOf(text), here, world, old(log))
      ensures !jump ==> position == old(position)
    {
      hide ParseCommand, WordsOf;
      var words := ReadWords(text);
      ok := HandleCommand(words, here);
    }

    method ClearJump()
      requires Valid()
      modifies this`jump
      ensures Valid() && !jump && State() == old(State()).(jump := None)
    {
      jump := false;
    }

    /** nsh_parse: the commands of one line that was read at `foffs`. */
    method HandleLine(line: string, foffs: nat) returns (ok: bool)
      requires Valid()
      modifies this, lp, ie
      ensures Valid() && Outcome(State(), log, ok) == RunLine(old(State()), line, foffs, world, old(log))
      ensures !jump ==> position == old(position)
    {
      hide ParseCommand, Span, TokenOf, WordsOf, RunFrom, Parser.Valid;
      var start, working := 0, 0;
      ClearJump();
      ghost var all := RunLine(old(State()), line, foffs, world, log);
      while !jump
        invariant start <= working <= |line| && Valid()
        invariant !jump ==> RunFrom(State(), line, start, working, foffs, world, log) == all
        invariant jump ==> all == Outcome(State(), log, true)
        invariant !jump ==> position == old(position)
        decreases !jump, |line| - working
      {
        var loffs := working;
        var ptr := FindStop(line, working, LINE_STOPS);
        if ptr == |line| || line[ptr] == '\n' || line[ptr] == '#' {
          RunFromLast(State(), line, start, working, foffs, world, log);
          ok := HandleText(line[start..], foffs + loffs);
          return;
        } else if line[ptr] == ';' {
          RunFromMore(State(), line, start, working, foffs, world, log);
          ok := HandleText(line[start..ptr], foffs + loffs);
          if !ok {
            return;
          }
          start, working := ptr + 1, ptr + 1;
        } else {
          RunFromQuote(State(), line, start, working, foffs, world, log);
          var close := FindStop(line, ptr + 1, {'"'});
          if close == |line| {
            return false;
          }
          working := close + 1;
        }
      }
      ok := true;
    }

    ghost function Between(ok: bool, stopped: bool): (r: Reading)
      requires 0 <= position
      reads this, lp, ie
    {
      Reading(State().(jump := None), position, log, ok, stopped)
    }

    /** Reads and runs the line at the current position. */
    method RunNextLine(s: Script, ghost before: bool) returns (ok: bool)
      requires Valid() && s.Valid() && s.world == world && 0 <= position < |s.file|
      modifies this, lp, ie
      ensures Valid() && 0 <= position <= |s.file|
      ensures Between(ok, !ok && !s.ignore) == ReadLine(s, old(Between(before, false)))
    {
      hide RunLine, Span;
      var foffs: nat := position;
      position := s.LineEnd(foffs);
      SameLine(old(State()), State(), s.LineAt(foffs), foffs, world, log);
      ok := HandleLine(s.LineAt(foffs), foffs);
      if !(0 <= position <= |s.file|) {
        position := |s.file|;
      }
    }

    /**
     nsh_script, for at most `lines` lines: read a line where the file stands, run it, and go
     on until the end of the file or a failure that is not ignored. The result is that of the
     last line; without a line it is an error.
     */
    method RunScript(s: Script, lines: nat) returns (ok: bool, stopped: bool)
      requires Valid() && s.Valid() && s.world == world && 0 <= position <= |s.file|
      modifies this, lp, ie
      ensures Valid() && 0 <= position <= |s.file|
      ensures Between(ok, stopped) == ReadLines(s, old(Between(false, false)), lines)
      ensures !s.ignore ==> (ok <==> lines > 0 && old(position) < |s.file| && !stopped)
    {
      hide ReadLine, Parser.Valid, Span;
      WithoutJump(State());
      ok, stopped := false, false;
      var k := 0;
      while k < lines && position < |s.file| && !stopped
        invariant 0 <= k <= lines && 0 <= position <= |s.file| && Valid()
        invariant Between(ok, stopped).p.Valid()
        invariant ReadLines(s, Between(ok, stopped), lines - k) == ReadLines(s, old(Between(false, false)), lines)
        invariant k == 0 ==> !ok && !stopped && position == old(position)
        invariant k > 0 ==> stopped == (!ok && !s.ignore) && old(position) < |s.file|
      {
        ok := RunNextLine(s, ok);
        stopped := !ok && !s.ignore;
        WithoutJump(State());
        k := k + 1;
      }
      LinesAtRest(s, Between(ok, stopped), lines - k);
    }
  }

  lemma SameLine(p: Parser, q: Parser, line: string, foffs: nat, world: World, log: Log)
    requires p.Valid() && q.Valid() && p.(jump := None) == q.(jump := None)
    ensures RunLine(p.(jump := None), line, foffs, world, log) == RunLine(q, line, foffs, world, log)
  {
    hide RunFrom;
  }

  lemma {:induction false} LinesAtRest(s: Script, r: Reading, k: nat)
    requires s.Valid() && r.p.Valid() && r.pos <= |s.file| && (k == 0 || r.stopped || r.pos == |s.file|)
    ensures ReadLines(s, r, k) == r
  {
    hide RunLine, Parser.Valid;
    if k > 0 {
      LinesAtRest(s, r, k - 1);
    }
  }
}
