/**
 The structured meaning of a script: which commands if, while and until run, as section 2.9.4 of
 the POSIX.1-2017 Shell Command Language gives it, over a syntax tree, with two rules of the
 shell: a script stops at the first failing command (unless told to ignore failures), and a loop
 that its condition ends counts as success. `ShellStatus` has the status of the standard.
 */
module ShellTree {
  import opened ShellParser

  datatype Stmt =
    | Skip
    | Cmd(argv: Words)
    | BreakOut
    | Seq(first: Stmt, second: Stmt)
    | Cond(cond: Words, thn: Stmt, els: Stmt)
    | Loop(until: bool, cond: Words, body: Stmt)

  /** A command that is not taken for a keyword or for `break` by the parser. */
  predicate Plain(argv: Words) {
    argv != [] && Head(argv) == Other
  }

  predicate WellFormed(s: Stmt) {
    match s
    case Skip => true
    case Cmd(argv) => Plain(argv)
    case BreakOut => true
    case Seq(a, b) => WellFormed(a) && WellFormed(b)
    case Cond(cond, t, e) => Plain(cond) && WellFormed(t) && WellFormed(e)
    case Loop(_, cond, b) => Plain(cond) && WellFormed(b)
  }

  function Max(a: nat, b: nat): nat {
    if a < b then b else a
  }

  function IfDepth(s: Stmt): nat {
    match s
    case Seq(a, b) => Max(IfDepth(a), IfDepth(b))
    case Cond(_, t, e) => 1 + Max(IfDepth(t), IfDepth(e))
    case Loop(_, _, b) => IfDepth(b)
    case _ => 0
  }

  function LoopDepth(s: Stmt): nat {
    match s
    case Seq(a, b) => Max(LoopDepth(a), LoopDepth(b))
    case Cond(_, t, e) => Max(LoopDepth(t), LoopDepth(e))
    case Loop(_, _, b) => 1 + LoopDepth(b)
    case _ => 0
  }

  /** A command that is just a token. */
  function Word(t: Token): (words: Words)
    requires t != Other
    ensures Head(words) == t
  {
    [Spelling(t)]
  }

  function LoopToken(until: bool): Token {
    if until then Until else While
  }

  /** The script as the flat list of commands that the parser sees. */
  function Flat(s: Stmt): (code: seq<Words>)
    decreases s, 0
  {
    match s
    case Skip => []
    case Cmd(argv) => [argv]
    case BreakOut => [Word(Break)]
    case Seq(a, b) => Flat(a) + Flat(b)
    case Cond(cond, t, e) =>
      [Word(If) + cond, Word(Then)] + Flat(t) + FlatElse(e) + [Word(Fi)]
    case Loop(until, cond, b) =>
      [Word(LoopToken(until)) + cond, Word(Do)] + Flat(b) + [Word(Done)]
  }

  function FlatElse(e: Stmt): (code: seq<Words>)
    decreases e, 1
  {
    if e.Skip? then [] else [Word(Else)] + Flat(e)
  }

  function Size(s: Stmt): nat {
    |Flat(s)|
  }

  /** How running a statement ends. `Timeout`: more loop iterations than the fuel allows. */
  datatype Result =
    | Normal(log: Log, fail: bool)
    | Broke(log: Log, fail: bool)
    | Stopped(log: Log)
    | Timeout(log: Log)

  /** What a tree is run in: where each flat command stands, who answers, and the -e flag. */
  datatype Env = Env(pos: seq<int>, world: World, ignore: bool)

  /**
   Runs statement `s`, whose flat form starts at index `i`. `log` and `fail` are the
   commands run so far and the current status.
   */
  function Eval(env: Env, s: Stmt, i: nat, inLoop: bool, log: Log, fail: bool, fuel: nat): (r: Result)
    requires i + Size(s) <= |env.pos|
    decreases fuel, s
  {
    match s
    case Skip =>
      Normal(log, fail)
    case Cmd(argv) =>
      var log' := log + [Event(env.pos[i], argv)];
      var failed := env.world(log');
      if failed && !env.ignore then Stopped(log') else Normal(log', failed)
    case BreakOut =>
      var log' := log + [Event(env.pos[i], Word(Break))];
      if inLoop then Broke(log', false) else Normal(log', false)
    case Seq(a, b) =>
      var r := Eval(env, a, i, inLoop, log, fail, fuel);
      if r.Normal? then Eval(env, b, i + Size(a), inLoop, r.log, r.fail, fuel) else r
    case Cond(cond, t, e) =>
      var log' := log + [Event(env.pos[i], cond)];
      if !env.world(log') then
        Eval(env, t, i + 2, inLoop, log', false, fuel)
      else if e.Skip? then
        Normal(log', false)
      else
        assert |FlatElse(e)| == 1 + Size(e);
        Eval(env, e, i + 3 + Size(t), inLoop, log', false, fuel)
    case Loop(until, cond, b) =>
      if fuel == 0 then
        Timeout(log)
      else
        var log' := log + [Event(env.pos[i], cond)];
        if env.world(log') != until then
          Normal(log', false)
        else
          var r := Eval(env, b, i + 2, true, log', false, fuel);
          match r
          case Normal(log'', fail') => Eval(env, s, i, inLoop, log'', fail', fuel - 1)
          case Broke(log'', fail') => Normal(log'', fail')
          case _ => r
  }

  lemma SizeOf(s: Stmt)
    ensures s.Skip? ==> Size(s) == 0
    ensures s.Cmd? || s.BreakOut? ==> Size(s) == 1
    ensures s.Seq? ==> Size(s) == Size(s.first) + Size(s.second)
    ensures s.Cond? ==> Size(s) == 3 + Size(s.thn) + |FlatElse(s.els)|
    ensures s.Cond? ==> |FlatElse(s.els)| == if s.els.Skip? then 0 else 1 + Size(s.els)
    ensures s.Loop? ==> Size(s) == 3 + Size(s.body)
  {
  }

  /** On the commands of `s` at `i`, the failures are exactly `part`. */
  ghost predicate Only(fails: set<nat>, s: Stmt, i: nat, part: set<nat>) {
    forall k :: i <= k < i + Size(s) ==> (k in fails <==> k in part)
  }

  lemma FlatSeq(s: Stmt)
    requires s.Seq?
    ensures Flat(s) == Flat(s.first) + Flat(s.second)
  {
  }

  lemma EvalSeq(env: Env, s: Stmt, i: nat, inLoop: bool, log: Log, fail: bool, fuel: nat)
    requires s.Seq? && i + Size(s) <= |env.pos|
    ensures Size(s) == Size(s.first) + Size(s.second)
    ensures var r := Eval(env, s.first, i, inLoop, log, fail, fuel);
            Eval(env, s, i, inLoop, log, fail, fuel) ==
              if r.Normal? then Eval(env, s.second, i + Size(s.first), inLoop, r.log, r.fail, fuel) else r
  {
  }

  lemma EvalCmd(env: Env, x: Words, i: nat, log: Log, fail: bool, fuel: nat)
    requires i < |env.pos| && env.ignore && Size(Cmd(x)) == 1
    ensures var log' := log + [Event(env.pos[i], x)];
            Eval(env, Cmd(x), i, false, log, fail, fuel) == Normal(log', env.world(log'))
  {
  }

  lemma EvalCond(env: Env, s: Stmt, i: nat, inLoop: bool, log: Log, fail: bool, fuel: nat)
    requires s.Cond? && i + Size(s) <= |env.pos|
    ensures Size(s) == 3 + Size(s.thn) + |FlatElse(s.els)|
    ensures !s.els.Skip? ==> |FlatElse(s.els)| == 1 + Size(s.els)
    ensures var log' := log + [Event(env.pos[i], s.cond)];
            Eval(env, s, i, inLoop, log, fail, fuel) ==
              if !env.world(log') then Eval(env, s.thn, i + 2, inLoop, log', false, fuel)
              else if s.els.Skip? then Normal(log', false)
              else Eval(env, s.els, i + 3 + Size(s.thn), inLoop, log', false, fuel)
  {
  }

  lemma EvalLoop(env: Env, s: Stmt, i: nat, inLoop: bool, log: Log, fail: bool, fuel: nat)
    requires s.Loop? && i + Size(s) <= |env.pos|
    ensures Size(s) == 3 + Size(s.body)
    ensures var log' := log + [Event(env.pos[i], s.cond)];
            Eval(env, s, i, inLoop, log, fail, fuel) ==
              if fuel == 0 then Timeout(log)
              else if env.world(log') != s.until then Normal(log', false)
              else
                var r := Eval(env, s.body, i + 2, true, log', false, fuel);
                match r
                case Normal(l, f) => Eval(env, s, i, inLoop, l, f, fuel - 1)
                case Broke(l, f) => Normal(l, f)
                case _ => r
  {
  }

  /** Where a statement stands: outside all loops, straight in a loop body, or in an `if` below one. */
  datatype Place = Top | Body | Under

  function InIf(place: Place): Place {
    if place == Body then Under else place
  }

  /** A `break` of this very level, so that what follows it in the body cannot be reached. */
  predicate HasBreak(s: Stmt) {
    match s
    case BreakOut => true
    case Seq(a, b) => HasBreak(a) || HasBreak(b)
    case _ => false
  }

  predicate NoDirectLoop(s: Stmt) {
    match s
    case Seq(a, b) => NoDirectLoop(a) && NoDirectLoop(b)
    case Loop(_, _, _) => false
    case _ => true
  }

  /** No reachable `break` stands in an `if` inside its loop. */
  predicate BreaksPlaced(s: Stmt, place: Place) {
    match s
    case BreakOut => place != Under
    case Seq(a, b) => BreaksPlaced(a, place) && ((place == Body && HasBreak(a)) || BreaksPlaced(b, place))
    case Cond(_, t, e) => BreaksPlaced(t, InIf(place)) && BreaksPlaced(e, InIf(place))
    case Loop(_, _, b) => BreaksPlaced(b, Body)
    case _ => true
  }

  /** No loop stands straight in the body of another; only an `if` in unreachable code may hide one. */
  predicate LoopsSeparated(s: Stmt, place: Place) {
    match s
    case Seq(a, b) =>
      && LoopsSeparated(a, place)
      && (if place == Body && HasBreak(a) then NoDirectLoop(b) else LoopsSeparated(b, place))
    case Cond(_, t, e) => LoopsSeparated(t, InIf(place)) && LoopsSeparated(e, InIf(place))
    case Loop(_, _, b) => place != Body && LoopsSeparated(b, Body)
    case _ => true
  }
}
