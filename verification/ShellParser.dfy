/**
 The control part of the NuttShell command parser: the two fixed-depth stacks behind
 while/until/do/done and if/then/else/fi, and what one command does to them.

 Every function here takes and returns whole parser states. `Parser.Valid` is the
 invariant of every reachable state, and each function promises to keep it.
 */
module ShellParser {
  import opened Options

  datatype LoopState = LoopNormal | LoopWhile | LoopUntil | LoopDo

  datatype ItefState = ItefNormal | ItefIf | ItefThen | ItefElse

  datatype LoopSlot = LoopSlot(state: LoopState, enable: bool, iendx: nat, top: int)

  datatype ItefSlot = ItefSlot(state: ItefState, disabled: bool, ifcond: bool)

  type Words = seq<string>

  /** The words the parser knows. All are keywords but the command `break`. */
  datatype Token = While | Until | Do | Done | If | Then | Else | Fi | Break | Other

  function Spelling(t: Token): (w: string)
    requires t != Other
    ensures TokenOf(w) == t
  {
    match t
    case While => "while"
    case Until => "until"
    case Do => "do"
    case Done => "done"
    case If => "if"
    case Then => "then"
    case Else => "else"
    case Fi => "fi"
    case Break => "break"
  }

  function TokenOf(word: string): (t: Token)
  {
    if word == "while" then While
    else if word == "until" then Until
    else if word == "do" then Do
    else if word == "done" then Done
    else if word == "if" then If
    else if word == "then" then Then
    else if word == "else" then Else
    else if word == "fi" then Fi
    else if word == "break" then Break
    else Other
  }

  /** The token that a command starts with. */
  function Head(words: Words): Token {
    if words == [] then Other else TokenOf(words[0])
  }

  /** A command that was run: the file position of its text, and its arguments. */
  datatype Event = Event(at: int, argv: Words)

  type Log = seq<Event>

  /** The outside world: given everything run so far, did the last command fail? */
  type World = Log -> bool

  /**
   The parser state. `lp` and `ie` are the two stacks with all their slots, also the
   ones above the current index. `jump` is the target of the seek done by the last
   command, if any. `scripted` says that input comes from a seekable script file.
   */
  datatype Parser = Parser(
    lp: seq<LoopSlot>, lpndx: nat,
    ie: seq<ItefSlot>, iendx: nat,
    fail: bool, jump: Option<int>, scripted: bool)
  {
    predicate Valid() {
      && 0 < |lp| == |ie|
      && lpndx < |lp|
      && iendx < |ie|
      && lp[0].state == LoopNormal
      && ie[0].state == ItefNormal
      && (forall k :: 0 < k < lpndx ==> lp[k].state == LoopDo)
      && (0 < lpndx ==> lp[lpndx].state != LoopNormal)
      && (forall k :: 0 <= k < |lp| ==> lp[k].iendx < |ie|)
    }

    function LoopTop(): LoopSlot
      requires Valid()
    {
      lp[lpndx]
    }

    function ItefTop(): ItefSlot
      requires Valid()
    {
      ie[iendx]
    }

    predicate InLoopCondition()
      requires Valid()
    {
      LoopTop().state == LoopWhile || LoopTop().state == LoopUntil
    }

    predicate LoopEnabled()
      requires Valid()
    {
      LoopTop().state == LoopDo ==> LoopTop().enable
    }

    predicate ItefEnabled()
      requires Valid()
    {
      && !ItefTop().disabled
      && (ItefTop().state == ItefThen ==> !ItefTop().ifcond)
      && (ItefTop().state == ItefElse ==> ItefTop().ifcond)
    }

    /** May a command run here? */
    predicate Enabled()
      requires Valid()
    {
      LoopEnabled() && ItefEnabled()
    }

    function WithLoopTop(slot: LoopSlot): Parser
      requires Valid()
    {
      this.(lp := lp[lpndx := slot])
    }

    function WithItefTop(slot: ItefSlot): Parser
      requires Valid()
    {
      this.(ie := ie[iendx := slot])
    }
  }

  /** A keyword scan either strips keywords from the words or rejects the command. */
  datatype Scan = Scan(p: Parser, words: Words, ok: bool)

  datatype Outcome = Outcome(p: Parser, log: Log, ok: bool)

  /** A freshly allocated parser, reading a script. */
  function Fresh(depth: nat): (p: Parser)
    requires 0 < depth
    ensures p.Valid() && p.Enabled()
  {
    Parser(seq(depth, _ => LoopSlot(LoopNormal, false, 0, 0)), 0,
           seq(depth, _ => ItefSlot(ItefNormal, false, false)), 0,
           false, None, true)
  }

  function LoopReset(p: Parser): (r: Parser)
    requires p.Valid()
    ensures r.Valid()
  {
    p.(jump := None, lpndx := 0,
       lp := p.lp[0 := p.lp[0].(state := LoopNormal, enable := true, top := 0)])
  }

  function ItefReset(p: Parser): (r: Parser)
    requires p.Valid()
    ensures r.Valid()
  {
    p.(iendx := 0, ie := p.ie[0 := ItefSlot(ItefNormal, false, false)])
  }

  function EnterLoop(p: Parser, words: Words, here: int): (r: Scan)
    requires p.Valid() && words != []
    ensures r.p.Valid()
  {
    if |words| == 1 || p.ItefTop().state == ItefIf || p.InLoopCondition() || !p.scripted
       || p.lpndx >= |p.lp| - 1 then
      Scan(LoopReset(p), words, false)
    else
      var state := if Head(words) == While then LoopWhile else LoopUntil;
      var slot := LoopSlot(state, p.Enabled(), p.iendx, here);
      Scan(p.(jump := None, lpndx := p.lpndx + 1, lp := p.lp[p.lpndx + 1 := slot]), words[1..], true)
  }

  /** `done`: go back to the top of an enabled loop, leave a disabled one; pop either way. */
  function LeaveLoop(p: Parser): (r: Parser)
    requires p.Valid() && p.LoopTop().state == LoopDo
    ensures r.Valid()
  {
    var slot := p.LoopTop();
    p.WithLoopTop(slot.(state := LoopNormal, enable := true))
     .(lpndx := p.lpndx - 1, jump := if slot.enable then Some(slot.top) else p.jump)
  }

  /** Handles while, until, do and done at the head of a command. */
  function ScanLoop(p: Parser, words: Words, here: int): (r: Scan)
    requires p.Valid()
    ensures r.p.Valid()
  {
    if words == [] then
      Scan(p, words, true)
    else if Head(words) == While || Head(words) == Until then
      EnterLoop(p, words, here)
    else if Head(words) == Do then
      if p.InLoopCondition() then
        Scan(p.WithLoopTop(p.LoopTop().(state := LoopDo)), words[1..], true)
      else
        Scan(LoopReset(p), words, false)
    else if Head(words) == Done then
      if |words| > 1 || p.LoopTop().state != LoopDo then
        Scan(LoopReset(p), words, false)
      else
        Scan(LeaveLoop(p), [], true)
    else if p.InLoopCondition() then
      Scan(LoopReset(p), words, false)
    else
      Scan(p, words, true)
  }

  /** Handles if, then, else and fi at the head of a command. */
  function ScanItef(p: Parser, words: Words): (r: Scan)
    requires p.Valid()
    ensures r.p.Valid()
  {
    if words == [] then
      Scan(p, words, true)
    else if Head(words) == If then
      if |words| == 1 || p.ItefTop().state == ItefIf || p.iendx >= |p.ie| - 1 then
        Scan(ItefReset(p), words, false)
      else
        var slot := ItefSlot(ItefIf, !p.Enabled(), false);
        Scan(p.(iendx := p.iendx + 1, ie := p.ie[p.iendx + 1 := slot]), words[1..], true)
    else if Head(words) == Then then
      if p.ItefTop().state == ItefIf then
        Scan(p.WithItefTop(p.ItefTop().(state := ItefThen)), words[1..], true)
      else
        Scan(ItefReset(p), words, false)
    else if Head(words) == Else then
      if p.ItefTop().state == ItefThen then
        Scan(p.WithItefTop(p.ItefTop().(state := ItefElse)), words[1..], true)
      else
        Scan(ItefReset(p), words, false)
    else if Head(words) == Fi then
      if |words| > 1 || !(p.ItefTop().state == ItefThen || p.ItefTop().state == ItefElse) then
        Scan(ItefReset(p), words, false)
      else
        Scan(p.(iendx := p.iendx - 1), [], true)
    else if p.ItefTop().state == ItefIf then
      Scan(ItefReset(p), words, false)
    else
      Scan(p, words, true)
  }

  lemma ScanItefEmpty(p: Parser)
    requires p.Valid()
    ensures ScanItef(p, []) == Scan(p, [], true)
  {
  }

  /**
   Records the result of a command: the condition of a loop or an `if` takes it, and it
   then counts as success; otherwise it becomes the status of the script.
   */
  function SaveResult(p: Parser, failed: bool, log: Log): (r: Outcome)
    requires p.Valid()
    ensures r.p.Valid() && r.log == log
  {
    if p.LoopTop().state == LoopWhile then
      Outcome(p.WithLoopTop(p.LoopTop().(enable := !failed)).(fail := false), log, true)
    else if p.LoopTop().state == LoopUntil then
      Outcome(p.WithLoopTop(p.LoopTop().(enable := failed)).(fail := false), log, true)
    else if p.ItefTop().state == ItefIf then
      Outcome(p.WithItefTop(p.ItefTop().(ifcond := failed)).(fail := false), log, true)
    else
      Outcome(p.(fail := failed), log, !failed)
  }

  /** The `break` command; outside a loop body it does nothing. */
  function BreakLoop(p: Parser): (r: Parser)
    requires p.Valid()
    ensures r.Valid()
  {
    if p.LoopTop().state == LoopDo then
      p.WithLoopTop(p.LoopTop().(enable := false)).(iendx := p.LoopTop().iendx)
    else
      p
  }

  function Execute(p: Parser, argv: Words, here: int, world: World, log: Log): (r: Outcome)
    requires p.Valid() && argv != []
    ensures r.p.Valid()
  {
    var log' := log + [Event(here, argv)];
    if Head(argv) == Break then
      SaveResult(BreakLoop(p), false, log')
    else
      SaveResult(p, world(log'), log')
  }

  /** Scans and, where commands are enabled, runs one command. */
  function ParseCommand(p: Parser, words: Words, here: int, world: World, log: Log): (r: Outcome)
    requires p.Valid()
    ensures r.p.Valid()
  {
    var loop := ScanLoop(p, words, here);
    if !loop.ok then
      SaveResult(loop.p, true, log)
    else
      var itef := ScanItef(loop.p, loop.words);
      if !itef.ok then
        SaveResult(itef.p, true, log)
      else if itef.words == [] || !itef.p.Enabled() then
        Outcome(itef.p, log, true)
      else
        Execute(itef.p, itef.words, here, world, log)
  }

  lemma WithoutJump(p: Parser)
    requires p.Valid()
    ensures p.(jump := None).Valid()
  {
  }

  /** A blank command does nothing. */
  lemma BlankCommand(p: Parser, here: int, world: World, log: Log)
    requires p.Valid()
    ensures ParseCommand(p, [], here, world, log) == Outcome(p, log, true)
  {
  }
}
