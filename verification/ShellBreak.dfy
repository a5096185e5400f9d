/**
 `break` inside an `if`: it drops the slots of the `if`s around it, and the if index is then
 behind the nesting of the code until the script dies at an `else` or `fi` that closes
 nothing. Only a later `break` at the level of an outer loop inside an `if` could set the
 index right again. Where there is none, the conditions on `break` and on nested loops are
 exact.
 */
module ShellBreak {
  import opened ShellParser
  import opened ShellTree
  import opened ShellMachine
  import opened ShellRefinement
  import opened ShellScriptMeaning
  import opened ShellDrift
  import opened ShellPlain
  import ShellExactness

  /** The loops in here have their `break`s in place. */
  predicate LoopsPlaced(s: Stmt) {
    match s
    case Seq(a, b) => LoopsPlaced(a) && LoopsPlaced(b)
    case Cond(_, t, e) => LoopsPlaced(t) && LoopsPlaced(e)
    case Loop(_, _, b) => BreaksPlaced(b, Body)
    case _ => true
  }

  /**
   No loop around the first misplaced `break`, if there is one, that stands inside an `if`
   (`deep`), has a `break` of its own after the loop with the misplaced one. Whatever comes
   elsewhere in the script does not matter.
   */
  predicate Unrepaired(s: Stmt, place: Place, deep: bool) {
    match s
    case Seq(a, b) =>
      if BreaksPlaced(a, place) then Unrepaired(b, place, deep)
      else Unrepaired(a, place, deep) && (place == Body && deep && HasBreak(b) ==> LoopsPlaced(a))
    case Cond(_, t, e) =>
      if BreaksPlaced(t, InIf(place)) then Unrepaired(e, InIf(place), true) else Unrepaired(t, InIf(place), true)
    case Loop(_, _, b) => Unrepaired(b, Body, deep)
    case _ => true
  }

  // ----- A world that leads to the first misplaced `break` -----

  /** The `while` commands of a statement. */
  function Whiles(s: Stmt, i: nat): (fails: set<nat>)
    ensures forall k :: k in fails ==> i <= k < i + Size(s)
  {
    match s
    case Seq(a, b) => Whiles(a, i) + Whiles(b, i + Size(a))
    case Cond(_, t, e) =>
      if e.Skip? then Whiles(t, i + 2)
      else
        assert |FlatElse(e)| == 1 + Size(e);
        Whiles(t, i + 2) + Whiles(e, i + 3 + Size(t))
    case Loop(until, _, b) => (if until then {} else {i}) + Whiles(b, i + 2)
    case _ => {}
  }

  /**
   The commands that have to fail: loops are left, but those on the way to the first misplaced
   `break` are entered, and the `if`s on the way take the branch that leads there.
   */
  function PlanFor(s: Stmt, i: nat, place: Place): (fails: set<nat>)
    requires !BreaksPlaced(s, place)
    ensures forall k :: k in fails ==> i <= k < i + Size(s)
  {
    match s
    case BreakOut => {}
    case Seq(a, b) =>
      if BreaksPlaced(a, place) then Whiles(a, i) + PlanFor(b, i + Size(a), place)
      else PlanFor(a, i, place) + Whiles(b, i + Size(a))
    case Cond(_, t, e) =>
      if !BreaksPlaced(t, InIf(place)) then
        PlanFor(t, i + 2, InIf(place)) +
        if e.Skip? then {} else assert |FlatElse(e)| == 1 + Size(e); Whiles(e, i + 3 + Size(t))
      else
        assert BreaksPlaced(Skip, InIf(place)) && |FlatElse(e)| == 1 + Size(e);
        {i} + Whiles(t, i + 2) + PlanFor(e, i + 3 + Size(t), InIf(place))
    case Loop(until, _, b) => (if until then {i} else {}) + PlanFor(b, i + 2, Body)
  }

  predicate IsLoop(words: Words) {
    Head(words) == While || Head(words) == Until
  }

  /** These commands fail; but a loop that has been asked before is left. */
  ghost predicate FailsNow(code: seq<Located>, fails: set<nat>, before: Log, k: nat)
    requires k < |code|
  {
    if IsLoop(code[k].words) && !Absent(before, code[k].at) then Head(code[k].words) == While else k in fails
  }

  ghost predicate FailsAfter(code: seq<Located>, fails: set<nat>, before: Log, at: int) {
    exists k: nat :: k < |code| && code[k].at == at && FailsNow(code, fails, before, k)
  }

  ghost function Once(code: seq<Located>, fails: set<nat>): World {
    (log: Log) => log != [] && FailsAfter(code, fails, log[..|log| - 1], log[|log| - 1].at)
  }

  lemma OnceAt(m: Machine, fails: set<nat>, log: Log, k: nat, argv: Words)
    requires m.Ordered() && k < |m.code| && m.world == Once(m.code, fails)
    ensures m.world(log + [Event(m.code[k].at, argv)]) <==> FailsNow(m.code, fails, log, k)
  {
    hide FailsNow;
    var log' := log + [Event(m.code[k].at, argv)];
    assert log'[..|log'| - 1] == log;
    if FailsAfter(m.code, fails, log, m.code[k].at) {
      var j: nat :| j < |m.code| && m.code[j].at == m.code[k].at && FailsNow(m.code, fails, log, j);
      assert j == k;
    }
  }

  /** This command will be answered calmly from now on. */
  ghost predicate Marked(m: Machine, fails: set<nat>, k: nat, log: Log)
    requires k < |m.code|
  {
    match Head(m.code[k].words)
    case While => k in fails || !Absent(log, m.code[k].at)
    case Until => k !in fails || !Absent(log, m.code[k].at)
    case Other => k !in fails
    case _ => true
  }

  ghost predicate Settled(m: Machine, fails: set<nat>, i: nat, n: nat, log: Log) {
    i + n <= |m.code| && forall k :: i <= k < i + n ==> Marked(m, fails, k, log)
  }

  lemma MarkedLater(m: Machine, fails: set<nat>, k: nat, log: Log, later: Log)
    requires k < |m.code| && Marked(m, fails, k, log) && log <= later
    ensures Marked(m, fails, k, later)
  {
    hide TokenOf;
    if !Absent(log, m.code[k].at) {
      var e :| e in log && e.at == m.code[k].at;
      assert e in later;
    }
  }

  lemma SettledLater(m: Machine, fails: set<nat>, i: nat, n: nat, log: Log, later: Log)
    requires Settled(m, fails, i, n, log) && log <= later
    ensures Settled(m, fails, i, n, later)
  {
    hide Marked;
    forall k | i <= k < i + n ensures Marked(m, fails, k, later) {
      MarkedLater(m, fails, k, log, later);
    }
  }

  lemma SettledJoin(m: Machine, fails: set<nat>, i: nat, a: nat, b: nat, log: Log)
    requires Settled(m, fails, i, a, log) && Settled(m, fails, i + a, b, log)
    ensures Settled(m, fails, i, a + b, log)
  {
    hide Marked;
  }

  lemma SettledCalm(m: Machine, fails: set<nat>, i: nat, n: nat, log: Log)
    requires m.Ordered() && m.world == Once(m.code, fails) && Settled(m, fails, i, n, log)
    ensures Calm(m, i, n, log)
  {
    hide Marked, Answers, Once;
    forall k: nat, later: Log, argv: Words | i <= k < i + n && log <= later ensures Answers(m, k, later, argv) {
      MarkedAnswers(m, fails, k, log, later, argv);
    }
  }

  lemma MarkedAnswers(m: Machine, fails: set<nat>, k: nat, log: Log, later: Log, argv: Words)
    requires m.Ordered() && m.world == Once(m.code, fails) && k < |m.code| && Marked(m, fails, k, log) && log <= later
    ensures Answers(m, k, later, argv)
  {
    hide TokenOf, Once;
    MarkedLater(m, fails, k, log, later);
    OnceAt(m, fails, later, k, argv);
  }

  /** A keyword is nothing that is answered. */
  lemma KeywordSettled(m: Machine, fails: set<nat>, i: nat, log: Log)
    requires i < |m.code| && Head(m.code[i].words) !in {While, Until, Other}
    ensures Settled(m, fails, i, 1, log)
  {
    hide TokenOf;
  }

  /** Where only the `while` commands fail, all is calm. */
  lemma {:induction false} WhilesSettled(m: Machine, fails: set<nat>, s: Stmt, i: nat, log: Log)
    requires Holds(m, i, Flat(s)) && WellFormed(s) && Only(fails, s, i, Whiles(s, i))
    ensures Settled(m, fails, i, Size(s), log)
    decreases s
  {
    hide TokenOf, Spelling, Flat, FlatElse, Holds, Settled;
    SizeOf(s);
    match s
    case Skip => NothingSettled(m, fails, i, log) by { HoldsSize(m, i, s); }
    case Seq(a, b) =>
      HoldsPart(m, i, Flat(s), Flat(a), Flat(b)) by { FlatSeq(s); }
      WhilesSettled(m, fails, a, i, log);
      WhilesSettled(m, fails, b, i + Size(a), log);
      SettledJoin(m, fails, i, Size(a), Size(b), log);
    case Cond(_, t, e) =>
      LayoutIf(m, i, s);
      WhilesSettled(m, fails, t, i + 2, log);
      if !e.Skip? {
        LayoutElse(m, i + 2 + Size(t), e);
        WhilesSettled(m, fails, e, i + 3 + Size(t), log);
      }
      IfParts(m, fails, s, i, log);
    case Loop(until, _, b) =>
      LayoutLoop(m, i, s);
      WhilesSettled(m, fails, b, i + 2, log);
      LoopParts(m, fails, s, i, log);
    case _ =>
      LeafSettled(m, fails, s, i, log);
  }

  lemma IfParts(m: Machine, fails: set<nat>, s: Stmt, i: nat, log: Log)
    requires s.Cond? && Holds(m, i, Flat(s)) && Settled(m, fails, i + 2, Size(s.thn), log)
    requires !s.els.Skip? ==> Settled(m, fails, i + 3 + Size(s.thn), Size(s.els), log)
    ensures Settled(m, fails, i, Size(s), log)
  {
    hide TokenOf, Spelling, Flat, FlatElse, Holds, Settled;
    SizeOf(s);
    LayoutIf(m, i, s);
    HeadOf(If, s.cond);
    var k := 2 + Size(s.thn);
    KeywordSettled(m, fails, i, log);
    KeywordSettled(m, fails, i + 1, log);
    SettledJoin(m, fails, i, 1, 1, log);
    SettledJoin(m, fails, i, 2, Size(s.thn), log);
    if !s.els.Skip? {
      LayoutElse(m, i + k, s.els);
      KeywordSettled(m, fails, i + k, log);
      SettledJoin(m, fails, i, k, 1, log);
      SettledJoin(m, fails, i, k + 1, Size(s.els), log);
    }
    KeywordSettled(m, fails, i + Size(s) - 1, log);
    SettledJoin(m, fails, i, Size(s) - 1, 1, log);
  }

  lemma LoopParts(m: Machine, fails: set<nat>, s: Stmt, i: nat, log: Log)
    requires s.Loop? && Holds(m, i, Flat(s)) && i < |m.code| && Settled(m, fails, i + 2, Size(s.body), log)
    requires (i in fails <==> !s.until) || !Absent(log, m.code[i].at)
    ensures Settled(m, fails, i, Size(s), log)
  {
    hide TokenOf, Spelling, Flat, Holds, Settled, Absent;
    SizeOf(s);
    LayoutLoop(m, i, s);
    HeadOf(LoopToken(s.until), s.cond);
    LoopSettled(m, fails, i, log, s.until);
    KeywordSettled(m, fails, i + 1, log);
    SettledJoin(m, fails, i, 1, 1, log);
    SettledJoin(m, fails, i, 2, Size(s.body), log);
    KeywordSettled(m, fails, i + Size(s) - 1, log);
    SettledJoin(m, fails, i, Size(s) - 1, 1, log);
  }

  lemma NothingSettled(m: Machine, fails: set<nat>, i: nat, log: Log)
    requires i <= |m.code|
    ensures Settled(m, fails, i, 0, log)
  {
  }

  lemma HeadOf(t: Token, cond: Words)
    requires t != Other
    ensures Head(Word(t) + cond) == t
  {
    assert (Word(t) + cond)[0] == Word(t)[0];
  }

  lemma LoopSettled(m: Machine, fails: set<nat>, i: nat, log: Log, until: bool)
    requires i < |m.code| && Head(m.code[i].words) == LoopToken(until)
    requires (i in fails <==> !until) || !Absent(log, m.code[i].at)
    ensures Settled(m, fails, i, 1, log)
  {
    hide TokenOf;
  }

  lemma LeafSettled(m: Machine, fails: set<nat>, s: Stmt, i: nat, log: Log)
    requires (s.Cmd? || s.BreakOut?) && Holds(m, i, Flat(s)) && WellFormed(s) && Only(fails, s, i, {})
    ensures Settled(m, fails, i, Size(s), log)
  {
    hide TokenOf, Spelling;
    HoldsAt(m, i, Flat(s), 0);
  }

  // ----- The machine goes under -----

  lemma {:induction false} NoOwnBreak(s: Stmt, place: Place)
    requires BreaksPlaced(s, place) && place != Top && (place == Body ==> !HasBreak(s))
    ensures !OwnBreak(s)
  {
    match s
    case Seq(a, b) =>
      NoOwnBreak(a, place);
      NoOwnBreak(b, place);
    case Cond(_, t, e) =>
      NoOwnBreak(t, Under);
      NoOwnBreak(e, Under);
    case _ =>
  }

  /** The machine is about to run `s`, at nesting `d`, in the planned world. */
  ghost predicate Leads(m: Machine, fails: set<nat>, s: Stmt, c: Config, place: Place, d: nat) {
    && c.p.Valid() && Apt(m, c, s, place) && Shut(c.p) && PlainIfs(m) && !m.ignore && m.world == Once(m.code, fails)
    && c.p.iendx == d && (place == Under ==> c.p.LoopTop().iendx < d)
    && !BreaksPlaced(s, place) && Unrepaired(s, place, d > 0)
    && Only(fails, s, c.i, PlanFor(s, c.i, place)) && Unseen(m, c.log, c.i)
  }

  /** The script has died in `s`, or it has come to its end with the if index behind. */
  ghost predicate Sunk(m: Machine, fails: set<nat>, s: Stmt, c: Config, place: Place, d: nat, r: Config)
    requires c.p.Valid()
  {
    && Drifted(c, r, Size(s), d)
    && (!r.halted ==>
          && Settled(m, fails, c.i, Size(s), r.log)
          && (place != Top && LoopsPlaced(s) ==> !LoopOn(r.p)))
  }

  lemma {:induction false} Sinks(m: Machine, fails: set<nat>, s: Stmt, c: Config, place: Place, d: nat)
    returns (r: Config, n: nat)
    requires Leads(m, fails, s, c, place, d)
    ensures Reaches(m, c, r, n) && Sunk(m, fails, s, c, place, d, r)
    decreases s, 1
  {
    hide Reaches, Sunk, Apt, Shut, PlainIfs, Once, PlanFor, Unseen, Only;
    match s
    case BreakOut =>
      r := SinksBreak(m, fails, s, c, d);
      n := 1;
    case Seq(_, _) =>
      r, n := SinksSeq(m, fails, s, c, place, d);
    case Cond(_, _, _) =>
      if !BreaksPlaced(s.thn, InIf(place)) {
        r, n := SinksThen(m, fails, s, c, place, d);
      } else {
        r, n := SinksElse(m, fails, s, c, place, d);
      }
    case Loop(_, _, _) =>
      r, n := SinksLoop(m, fails, s, c, place, d);
  }

  lemma SinksBreak(m: Machine, fails: set<nat>, s: Stmt, c: Config, d: nat) returns (r: Config)
    requires s.BreakOut? && Leads(m, fails, s, c, Under, d)
    ensures Reaches(m, c, r, 1) && Sunk(m, fails, s, c, Under, d, r)
  {
    hide Step, Steps, Reaches, TokenOf, Spelling, PlainIfs, Once, Settled;
    HoldsAt(m, c.i, Flat(s), 0);
    StepBreakOn(m, c);
    First(m, c);
    r := Step(m, c);
    LeafSettled(m, fails, s, c.i, r.log);
  }

  lemma {:induction false} SinksSeq(m: Machine, fails: set<nat>, s: Stmt, c: Config, place: Place, d: nat)
    returns (r: Config, n: nat)
    requires s.Seq? && Leads(m, fails, s, c, place, d)
    ensures Reaches(m, c, r, n) && Sunk(m, fails, s, c, place, d, r)
    decreases s, 0
  {
    hide Step, Steps, Reaches, Apt, Shut, PlainIfs, Once, Settled, Unseen, Sunk, PlanFor, Only, Unrepaired, BreaksPlaced;
    if BreaksPlaced(s.first, place) {
      var e := Passes(m, fails, s, c, place, d);
      r, n := Sinks(m, fails, s.second, e, place, d);
      Join(m, c, e, r, Size(s.first), n);
      n := Size(s.first) + n;
      SunkLater(m, fails, s, c, place, d, e, r);
    } else {
      LeadsFirst(m, fails, s, c, place, d);
      var e, k := Sinks(m, fails, s.first, c, place, d);
      if e.halted {
        r, n := e, k;
        DeadIsSunk(m, fails, s, c, place, d, e);
      } else {
        r, n := SinksOn(m, fails, s, c, place, d, e);
        Join(m, c, e, r, k, n);
        n := k + n;
      }
    }
  }

  lemma DeadIsSunk(m: Machine, fails: set<nat>, s: Stmt, c: Config, place: Place, d: nat, r: Config)
    requires c.p.Valid() && r.halted
    ensures Sunk(m, fails, s, c, place, d, r)
  {
  }

  /** What sinks in the second of two statements, the first being passed, sinks in both. */
  lemma SunkLater(m: Machine, fails: set<nat>, s: Stmt, c: Config, place: Place, d: nat, e: Config, r: Config)
    requires s.Seq? && c.p.Valid() && e.p.Valid() && e.i == c.i + Size(s.first) && c.log <= e.log && LoopsKept(c.p, e.p)
    requires Settled(m, fails, c.i, Size(s.first), e.log) && Sunk(m, fails, s.second, e, place, d, r)
    ensures Sunk(m, fails, s, c, place, d, r)
  {
    hide Settled, Flat, Shut;
    SizeOf(s);
    if !r.halted {
      SettledLater(m, fails, c.i, Size(s.first), e.log, r.log);
      SettledJoin(m, fails, c.i, Size(s.first), Size(s.second), r.log);
    }
  }

  lemma LeadsFirst(m: Machine, fails: set<nat>, s: Stmt, c: Config, place: Place, d: nat)
    requires s.Seq? && Leads(m, fails, s, c, place, d) && !BreaksPlaced(s.first, place)
    ensures Leads(m, fails, s.first, c, place, d)
  {
    hide Step, Steps, Plain, TokenOf, Spelling, Shut, PlainIfs, Flat, Holds, Once, Unseen, Fits, Stands;
    SizeOf(s);
    AptFirst(m, s, c, place);
  }

  /** The first of two statements has no misplaced `break`: it is passed. */
  lemma Passes(m: Machine, fails: set<nat>, s: Stmt, c: Config, place: Place, d: nat) returns (e: Config)
    requires s.Seq? && Leads(m, fails, s, c, place, d) && BreaksPlaced(s.first, place)
    ensures Reaches(m, c, e, Size(s.first)) && Leads(m, fails, s.second, e, place, d)
    ensures e.i == c.i + Size(s.first) && c.log <= e.log && LoopsKept(c.p, e.p)
    ensures Settled(m, fails, c.i, Size(s.first), e.log)
  {
    hide Step, Steps, Reaches, Plain, TokenOf, Spelling, Calm, Shut, PlainIfs, Flat, Holds, Once, Settled, Unseen;
    SizeOf(s);
    AptFirst(m, s, c, place);
    WhilesSettled(m, fails, s.first, c.i, c.log);
    SettledCalm(m, fails, c.i, Size(s.first), c.log);
    if place != Top {
      NoOwnBreak(s.first, place);
    }
    e := Glides(m, s.first, c);
    StaysShut(m, c, e, Size(s.first));
    AptSecond(m, s, c, place, e);
    SettledLater(m, fails, c.i, Size(s.first), c.log, e.log);
  }

  /** After a misplaced `break` in the first of two statements. */
  lemma SinksOn(m: Machine, fails: set<nat>, s: Stmt, c: Config, place: Place, d: nat, e: Config)
    returns (r: Config, n: nat)
    requires s.Seq? && Leads(m, fails, s, c, place, d) && !BreaksPlaced(s.first, place)
    requires Sunk(m, fails, s.first, c, place, d, e) && !e.halted
    ensures Reaches(m, e, r, n) && Sunk(m, fails, s, c, place, d, r)
  {
    hide Step, Steps, Reaches, Plain, TokenOf, Spelling, Calm, Shut, PlainIfs, Flat, Holds, Once, Settled, Unseen;
    SizeOf(s);
    HoldsPart(m, c.i, Flat(s), Flat(s.first), Flat(s.second)) by { FlatSeq(s); }
    WhilesSettled(m, fails, s.second, e.i, e.log);
    SettledCalm(m, fails, e.i, Size(s.second), e.log);
    r, n := Drifts(m, s.second, e, d);
    if !r.halted {
      SettledLater(m, fails, c.i, Size(s.first), e.log, r.log);
      SettledLater(m, fails, e.i, Size(s.second), e.log, r.log);
      SettledJoin(m, fails, c.i, Size(s.first), Size(s.second), r.log);
    }
  }

  /** What the plan for an `if` says about the branch that leads to the `break`. */
  lemma BranchPlan(fails: set<nat>, s: Stmt, i: nat, place: Place, deep: bool)
    requires s.Cond? && !BreaksPlaced(s, place) && Unrepaired(s, place, deep) && Only(fails, s, i, PlanFor(s, i, place))
    ensures !BreaksPlaced(s.thn, InIf(place)) ==>
              && i !in fails && Unrepaired(s.thn, InIf(place), true)
              && Only(fails, s.thn, i + 2, PlanFor(s.thn, i + 2, InIf(place)))
    ensures BreaksPlaced(s.thn, InIf(place)) ==>
              && i in fails && !s.els.Skip? && !BreaksPlaced(s.els, InIf(place)) && Unrepaired(s.els, InIf(place), true)
              && Only(fails, s.els, i + 3 + Size(s.thn), PlanFor(s.els, i + 3 + Size(s.thn), InIf(place)))
  {
    hide Flat, FlatElse;
    SizeOf(s);
    assert BreaksPlaced(Skip, InIf(place));
  }

  /** The condition of the `if` is answered as planned. */
  lemma IfAnswered(m: Machine, fails: set<nat>, s: Stmt, c: Config)
    requires s.Cond? && Start(m, c, s) && m.world == Once(m.code, fails)
    ensures c.i < |m.code| && (m.world(c.log + [Event(m.code[c.i].at, s.cond)]) <==> c.i in fails)
  {
    hide TokenOf, Spelling, Flat, FlatElse, Holds, Once, WellFormed, Fits, Ready;
    LayoutIf(m, c.i, s);
    HeadOf(If, s.cond);
    OnceAt(m, fails, c.log, c.i, s.cond);
  }

  /** Into the branch of an `if` that leads to the `break`. */
  lemma LeadsThen(m: Machine, fails: set<nat>, s: Stmt, c: Config, place: Place, d: nat) returns (e: Config)
    requires s.Cond? && Leads(m, fails, s, c, place, d) && !BreaksPlaced(s.thn, InIf(place))
    ensures Reaches(m, c, e, 2) && e.i == c.i + 2 && c.log <= e.log && LoopsKept(c.p, e.p)
    ensures Leads(m, fails, s.thn, e, InIf(place), d + 1)
  {
    hide Step, Steps, Reaches, Plain, TokenOf, Spelling, Shut, PlainIfs, Flat, FlatElse, Holds, Once, Unseen,
         Only, PlanFor, Unrepaired, BreaksPlaced, WellFormed, Fits;
    IfAnswered(m, fails, s, c);
    BranchPlan(fails, s, c.i, place, d > 0);
    e := OpenIf(m, s, c);
    AptThen(m, s, c, place, e);
    StaysShut(m, c, e, 2);
    OneStepUnseen(m, c.log, c.i, s.cond, c.i + 2);
  }

  lemma LeadsElse(m: Machine, fails: set<nat>, s: Stmt, c: Config, place: Place, d: nat) returns (e: Config, k: nat)
    requires s.Cond? && Leads(m, fails, s, c, place, d) && BreaksPlaced(s.thn, InIf(place))
    ensures Reaches(m, c, e, k) && e.i == c.i + 3 + Size(s.thn) && c.log <= e.log && LoopsKept(c.p, e.p)
    ensures !BreaksPlaced(s.els, InIf(place)) && Leads(m, fails, s.els, e, InIf(place), d + 1)
  {
    hide Step, Steps, Reaches, Plain, TokenOf, Spelling, Shut, PlainIfs, Flat, FlatElse, Holds, Once, Unseen,
         Only, PlanFor, Unrepaired, BreaksPlaced, WellFormed, Fits;
    IfAnswered(m, fails, s, c);
    BranchPlan(fails, s, c.i, place, d > 0);
    var f := OpenIf(m, s, c);
    e, k := SkipThen(m, s, c, f);
    Join(m, c, f, e, 2, k);
    k := 2 + k;
    AptElse(m, s, c, place, e);
    StaysShut(m, c, e, k);
    OneStepUnseen(m, c.log, c.i, s.cond, e.i);
  }

  /** The parts of an `if` other than the branch with the `break` are calm. */
  lemma IfSettled(m: Machine, fails: set<nat>, s: Stmt, i: nat, place: Place, log: Log)
    requires s.Cond? && Holds(m, i, Flat(s)) && WellFormed(s) && !BreaksPlaced(s, place)
    requires Only(fails, s, i, PlanFor(s, i, place))
    ensures i + Size(s) <= |m.code| && Size(s) == 3 + Size(s.thn) + |FlatElse(s.els)|
    ensures Settled(m, fails, i, 2, log) && Settled(m, fails, i + Size(s) - 1, 1, log)
    ensures !BreaksPlaced(s.thn, InIf(place)) ==> Settled(m, fails, i + 2 + Size(s.thn), |FlatElse(s.els)|, log)
    ensures BreaksPlaced(s.thn, InIf(place)) ==>
              && Settled(m, fails, i + 2, Size(s.thn), log) && Settled(m, fails, i + 2 + Size(s.thn), 1, log)
              && |FlatElse(s.els)| == 1 + Size(s.els)
  {
    hide TokenOf, Spelling, Flat, FlatElse, Holds, Settled;
    SizeOf(s);
    LayoutIf(m, i, s);
    HeadOf(If, s.cond);
    KeywordSettled(m, fails, i, log);
    KeywordSettled(m, fails, i + 1, log);
    SettledJoin(m, fails, i, 1, 1, log);
    KeywordSettled(m, fails, i + Size(s) - 1, log);
    var j := i + 2 + Size(s.thn);
    assert BreaksPlaced(Skip, InIf(place));
    if BreaksPlaced(s.thn, InIf(place)) {
      WhilesSettled(m, fails, s.thn, i + 2, log);
    }
    if s.els.Skip? {
      NothingSettled(m, fails, j, log);
    } else {
      LayoutElse(m, j, s.els);
      KeywordSettled(m, fails, j, log);
      if !BreaksPlaced(s.thn, InIf(place)) {
        WhilesSettled(m, fails, s.els, j + 1, log);
        SettledJoin(m, fails, j, 1, Size(s.els), log);
      }
    }
  }

  lemma {:induction false} SinksThen(m: Machine, fails: set<nat>, s: Stmt, c: Config, place: Place, d: nat)
    returns (r: Config, n: nat)
    requires s.Cond? && Leads(m, fails, s, c, place, d) && !BreaksPlaced(s.thn, InIf(place))
    ensures Reaches(m, c, r, n) && Sunk(m, fails, s, c, place, d, r)
    decreases s, 0
  {
    hide Step, Steps, Reaches, Plain, TokenOf, Spelling, Calm, Shut, PlainIfs, Flat, FlatElse, Holds, Once, Settled, Unseen, PlanFor;
    SizeOf(s);
    var e := LeadsThen(m, fails, s, c, place, d);
    var f, l := Sinks(m, fails, s.thn, e, InIf(place), d + 1);
    Join(m, c, e, f, 2, l);
    if f.halted {
      r, n := f, 2 + l;
    } else {
      IfSettled(m, fails, s, c.i, place, f.log);
      SettledCalm(m, fails, f.i, |FlatElse(s.els)|, f.log);
      r, n := AfterThen(m, c, s, d, f);
      Join(m, c, f, r, 2 + l, n);
      n := 2 + l + n;
      if !r.halted {
        IfSettled(m, fails, s, c.i, place, r.log);
        SettledLater(m, fails, c.i + 2, Size(s.thn), f.log, r.log);
        SettledJoin(m, fails, c.i, 2, Size(s.thn), r.log);
        SettledJoin(m, fails, c.i, 2 + Size(s.thn), |FlatElse(s.els)|, r.log);
        SettledJoin(m, fails, c.i, Size(s) - 1, 1, r.log);
      }
    }
  }

  lemma {:induction false} SinksElse(m: Machine, fails: set<nat>, s: Stmt, c: Config, place: Place, d: nat)
    returns (r: Config, n: nat)
    requires s.Cond? && Leads(m, fails, s, c, place, d) && BreaksPlaced(s.thn, InIf(place))
    ensures Reaches(m, c, r, n) && Sunk(m, fails, s, c, place, d, r)
    decreases s, 0
  {
    hide Step, Steps, Reaches, Plain, TokenOf, Spelling, Calm, Shut, PlainIfs, Flat, FlatElse, Holds, Once, Settled, Unseen, PlanFor;
    SizeOf(s);
    var e, k := LeadsElse(m, fails, s, c, place, d);
    var f, l := Sinks(m, fails, s.els, e, InIf(place), d + 1);
    Join(m, c, e, f, k, l);
    IfSettled(m, fails, s, c.i, place, f.log);
    if f.halted {
      r, n := f, k + l;
    } else {
      r := AtFi(m, c, s, d, f);
      n := k + l + 1;
      Join(m, c, f, r, k + l, 1);
      if !r.halted {
        IfSettled(m, fails, s, c.i, place, r.log);
        SettledLater(m, fails, e.i, Size(s.els), f.log, r.log);
        SettledJoin(m, fails, c.i, 2, Size(s.thn), r.log);
        SettledJoin(m, fails, c.i, 2 + Size(s.thn), 1, r.log);
        SettledJoin(m, fails, c.i, 3 + Size(s.thn), Size(s.els), r.log);
        SettledJoin(m, fails, c.i, Size(s) - 1, 1, r.log);
      }
    }
  }

  lemma LoopPlan(fails: set<nat>, s: Stmt, i: nat, place: Place, deep: bool)
    requires s.Loop? && !BreaksPlaced(s, place) && Unrepaired(s, place, deep) && Only(fails, s, i, PlanFor(s, i, place))
    ensures (i in fails <==> s.until) && !BreaksPlaced(s.body, Body) && Unrepaired(s.body, Body, deep)
    ensures Only(fails, s.body, i + 2, PlanFor(s.body, i + 2, Body))
  {
    hide Flat, FlatElse;
    SizeOf(s);
  }

  /** The loop is entered, as it has not been asked before. */
  lemma LeadsBody(m: Machine, fails: set<nat>, s: Stmt, c: Config, place: Place, d: nat) returns (e: Config)
    requires s.Loop? && Leads(m, fails, s, c, place, d)
    ensures Reaches(m, c, e, 2) && e.i == c.i + 2 && !Absent(e.log, m.code[c.i].at) && c.log <= e.log
    ensures e.p == PushLoop(c.p, LoopSlot(LoopDo, true, d, m.code[c.i].at)).(fail := false)
    ensures Leads(m, fails, s.body, e, Body, d)
  {
    hide Step, Steps, Reaches, Plain, TokenOf, Spelling, Shut, PlainIfs, Flat, FlatElse, Holds, Once,
         Only, PlanFor, Unrepaired, BreaksPlaced, WellFormed, Fits;
    LayoutLoop(m, c.i, s);
    LoopAnswered(m, fails, s, c);
    LoopPlan(fails, s, c.i, place, d > 0);
    e := OpenLoop(m, s, c);
    AptBody(m, s, c, place, e);
    StaysShut(m, c, e, 2);
    OneStepUnseen(m, c.log, c.i, s.cond, c.i + 2);
    assert Event(m.code[c.i].at, s.cond) in e.log;
  }

  lemma LoopAnswered(m: Machine, fails: set<nat>, s: Stmt, c: Config)
    requires s.Loop? && Start(m, c, s) && m.world == Once(m.code, fails) && Unseen(m, c.log, c.i)
    ensures c.i < |m.code| && (m.world(c.log + [Event(m.code[c.i].at, s.cond)]) <==> c.i in fails)
  {
    hide TokenOf, Spelling, Flat, FlatElse, Holds, Once, WellFormed, Fits, Ready;
    LayoutLoop(m, c.i, s);
    OnceAt(m, fails, c.log, c.i, s.cond);
  }

  /** `done` with the if index behind: the loop is left, or run into again. */
  lemma AtDone(m: Machine, s: Stmt, c: Config, d: nat, e: Config, b: Config) returns (f: Config)
    requires s.Loop? && Start(m, c, s) && PlainIfs(m) && !m.ignore
    requires d < |c.p.ie| && c.i < |m.code|
    requires e.p == PushLoop(c.p, LoopSlot(LoopDo, true, d, m.code[c.i].at)).(fail := false)
    requires Drifted(e, b, Size(s.body), d) && !b.halted && e.i == c.i + 2 && c.log <= e.log
    ensures Reaches(m, b, f, 1) && !f.halted && Ready(f.p) && Shut(f.p) && f.log == b.log
    ensures f.p.iendx < d && LoopsKept(c.p, f.p) && f.p.LoopTop() == c.p.LoopTop()
    ensures f.i == if LoopOn(b.p) then c.i else c.i + Size(s)
  {
    hide Step, Steps, Reaches, Plain, TokenOf, Spelling, PlainIfs, Flat, Holds, Find, Shut;
    SizeOf(s);
    LayoutLoop(m, c.i, s);
    StepDone(m, b);
    First(m, b);
    f := Step(m, b);
    FindExact(m, c.i, 0);
    StaysShut(m, b, f, 1);
  }

  lemma {:induction false} SinksLoop(m: Machine, fails: set<nat>, s: Stmt, c: Config, place: Place, d: nat)
    returns (r: Config, n: nat)
    requires s.Loop? && Leads(m, fails, s, c, place, d)
    ensures Reaches(m, c, r, n) && Sunk(m, fails, s, c, place, d, r)
    decreases s, 0
  {
    hide Step, Steps, Reaches, Plain, TokenOf, Spelling, Calm, Shut, PlainIfs, Flat, Holds, Once, Settled, Unseen, PlanFor, Absent;
    SizeOf(s);
    LayoutLoop(m, c.i, s);
    var e := LeadsBody(m, fails, s, c, place, d);
    var b, l := Sinks(m, fails, s.body, e, Body, d);
    Join(m, c, e, b, 2, l);
    if b.halted {
      r, n := b, 2 + l;
    } else {
      var f := AtDone(m, s, c, d, e, b);
      Join(m, c, b, f, 2 + l, 1);
      n := 3 + l;
      HeadSeen(e.log, f.log, m.code[c.i].at);
      LoopParts(m, fails, s, c.i, f.log);
      var k;
      r, k := SinksRound(m, fails, s, c, place, d, f, LoopOn(b.p));
      Join(m, c, f, r, n, k);
      n := n + k;
    }
  }

  /** After `done`: behind the loop, or at its top, with nothing left to happen in it. */
  lemma SinksRound(m: Machine, fails: set<nat>, s: Stmt, c: Config, place: Place, d: nat, f: Config, again: bool)
    returns (r: Config, n: nat)
    requires s.Loop? && Leads(m, fails, s, c, place, d) && Settled(m, fails, c.i, Size(s), f.log)
    requires !f.halted && Ready(f.p) && Shut(f.p) && c.log <= f.log
    requires f.p.iendx < d && LoopsKept(c.p, f.p) && f.p.LoopTop() == c.p.LoopTop()
    requires f.i == if again then c.i else c.i + Size(s)
    requires again || !(place != Top && LoopsPlaced(s) && LoopOn(f.p))
    ensures Reaches(m, f, r, n) && Sunk(m, fails, s, c, place, d, r)
  {
    hide Step, Steps, Reaches, Plain, TokenOf, Spelling, Calm, Shut, PlainIfs, Flat, Holds, Once, Settled, Unseen, PlanFor, Absent;
    SizeOf(s);
    if again {
      SettledCalm(m, fails, c.i, Size(s), f.log);
      r, n := Drifts(m, s, f, d);
      if !r.halted {
        SettledLater(m, fails, c.i, Size(s), f.log, r.log);
      }
    } else {
      LayoutLoop(m, c.i, s);
      AtOnce(m, f);
      r, n := f, 0;
    }
  }

  lemma HeadSeen(log: Log, later: Log, at: int)
    requires !Absent(log, at) && log <= later
    ensures !Absent(later, at)
  {
    var e :| e in log && e.at == at;
    assert e in later;
  }

  // ----- The tree is never stopped -----

  /** Only loops and `if`s are planned to fail. */
  ghost predicate NoCommand(m: Machine, fails: set<nat>) {
    forall k :: k in fails ==> k < |m.code| && Head(m.code[k].words) != Other
  }

  lemma {:induction false} WhilesAreHeads(m: Machine, s: Stmt, i: nat)
    requires Holds(m, i, Flat(s))
    ensures NoCommand(m, Whiles(s, i))
  {
    hide TokenOf, Spelling, Flat, FlatElse, Holds;
    SizeOf(s);
    match s
    case Seq(a, b) =>
      HoldsPart(m, i, Flat(s), Flat(a), Flat(b)) by { FlatSeq(s); }
      WhilesAreHeads(m, a, i);
      WhilesAreHeads(m, b, i + Size(a));
    case Cond(cond, t, e) =>
      LayoutIf(m, i, s);
      WhilesAreHeads(m, t, i + 2);
      if !e.Skip? {
        LayoutElse(m, i + 2 + Size(t), e);
        WhilesAreHeads(m, e, i + 3 + Size(t));
      }
    case Loop(until, cond, b) =>
      LayoutLoop(m, i, s);
      HeadOf(LoopToken(until), cond);
      WhilesAreHeads(m, b, i + 2);
    case _ =>
  }

  lemma {:induction false} PlanIsHeads(m: Machine, s: Stmt, i: nat, place: Place)
    requires Holds(m, i, Flat(s)) && !BreaksPlaced(s, place)
    ensures NoCommand(m, PlanFor(s, i, place))
    decreases s, 1
  {
    hide TokenOf, Spelling, Flat, FlatElse, Holds;
    SizeOf(s);
    match s
    case BreakOut =>
    case Seq(a, b) =>
      HoldsPart(m, i, Flat(s), Flat(a), Flat(b)) by { FlatSeq(s); }
      if BreaksPlaced(a, place) {
        WhilesAreHeads(m, a, i);
        PlanIsHeads(m, b, i + Size(a), place);
      } else {
        PlanIsHeads(m, a, i, place);
        WhilesAreHeads(m, b, i + Size(a));
      }
    case Cond(_, _, _) =>
      PlanIsHeadsIf(m, s, i, place);
    case Loop(until, cond, b) =>
      LayoutLoop(m, i, s);
      HeadOf(LoopToken(until), cond);
      PlanIsHeads(m, b, i + 2, Body);
  }

  lemma {:induction false} PlanIsHeadsIf(m: Machine, s: Stmt, i: nat, place: Place)
    requires s.Cond? && Holds(m, i, Flat(s)) && !BreaksPlaced(s, place)
    ensures NoCommand(m, PlanFor(s, i, place))
    decreases s, 0
  {
    hide TokenOf, Spelling, Flat, FlatElse, Holds;
    var t, e := s.thn, s.els;
    SizeOf(s);
    LayoutIf(m, i, s);
    HeadOf(If, s.cond);
    assert BreaksPlaced(Skip, InIf(place));
    if !e.Skip? {
      LayoutElse(m, i + 2 + Size(t), e);
    }
    if !BreaksPlaced(t, InIf(place)) {
      PlanIsHeads(m, t, i + 2, InIf(place));
      if !e.Skip? {
        WhilesAreHeads(m, e, i + 3 + Size(t));
      }
    } else {
      WhilesAreHeads(m, t, i + 2);
      PlanIsHeads(m, e, i + 3 + Size(t), InIf(place));
    }
  }

  /** In a planned world no plain command fails. */
  lemma PlanObliges(m: Machine, fails: set<nat>)
    requires m.Ordered() && m.world == Once(m.code, fails) && NoCommand(m, fails)
    ensures Obliging(m)
  {
    hide Spelling, TokenOf, Once;
    forall k, log | 0 <= k < |m.code| && Head(m.code[k].words) == Other
      ensures !m.world(log + [Event(m.code[k].at, m.code[k].words)])
    {
      OnceAt(m, fails, log, k, m.code[k].words);
    }
  }

  // ----- The exact condition -----

  /** The machine dies of the first misplaced `break`, the tree does not. */
  lemma Disagrees(code: seq<Located>, s: Stmt, depth: nat) returns (m: Machine)
    requires RunsScript(Machine(code, log => false, false), s, depth)
    requires !BreaksPlaced(s, Top) && Unrepaired(s, Top, false)
    ensures m.code == code && !m.ignore && |code| == Size(s) && !Agrees(m, s, depth)
  {
    hide Step, Steps, Flat, Eval, BreaksPlaced, Unrepaired, LoopDepth, Once, PlanFor, MachineRuns, TreeRuns,
         PlainIfs, NoCommand, Sunk, Unseen;
    var fails := PlanFor(s, 0, Top);
    m := Machine(code, Once(code, fails), false);
    assert Holds(m, 0, Flat(s));
    StartsOut(m, fails, s, depth);
    var r, n := Sinks(m, fails, s, Init(depth), Top, 0);
    SunkIsDead(m, fails, s, Init(depth), r);
    assert After(m, depth, n) == r;
    var end := End(r.log, r.p.fail, true);
    assert MachineEnds(m, depth, end);
    if TreeEnds(m, s, end) {
      var fuel: nat :| var res := TreeRun(m, s, fuel);
        (res.Normal? && end == End(res.log, res.fail, false)) || (res.Stopped? && end == End(res.log, true, true));
      PlanIsHeads(m, s, 0, Top);
      PlanObliges(m, fails);
      NeverStops(m, s, 0, false, [], false, fuel);
      assert false;
    }
  }

  lemma SunkIsDead(m: Machine, fails: set<nat>, s: Stmt, c: Config, r: Config)
    requires c.p.Valid() && Sunk(m, fails, s, c, Top, 0, r)
    ensures r.halted
  {
  }

  lemma StartsOut(m: Machine, fails: set<nat>, s: Stmt, depth: nat)
    requires RunsScript(m, s, depth) && 0 < depth && !BreaksPlaced(s, Top) && Unrepaired(s, Top, false)
    requires !m.ignore && m.world == Once(m.code, fails) && fails == PlanFor(s, 0, Top)
    ensures Leads(m, fails, s, Init(depth), Top, 0)
  {
    hide Flat, BreaksPlaced, Unrepaired, Once, PlanFor, TokenOf, Spelling;
    FlatPlainIfs(s);
    forall k | 0 <= k < |m.code| ensures PlainIf(m.code[k].words) {
      HoldsAt(m, 0, Flat(s), k);
    }
  }

  /**
   The exact condition: for a well-nested script within the depth limit, run until its first
   failure, in which no `break` of an outer loop inside an `if` follows the loop with the first
   misplaced `break`, the flat machine agrees with the structured meaning in every world if and only if
   no reachable `break` stands in an `if` inside its loop and loops are separated by an `if`.
   */
  lemma SoundExactly(code: seq<Located>, s: Stmt, depth: nat)
    requires RunsScript(Machine(code, log => false, false), s, depth) && Unrepaired(s, Top, false)
    ensures |code| == Size(s)
    ensures (forall world :: Agrees(Machine(code, world, false), s, depth))
            <==> BreaksPlaced(s, Top) && LoopsSeparated(s, Top)
  {
    hide Step, Steps, Flat, Eval, WellFormed, BreaksPlaced, LoopsSeparated, Unrepaired, IfDepth, LoopDepth, Agrees;
    if BreaksPlaced(s, Top) {
      ShellExactness.AgreesExactly(code, false, s, depth);
    } else {
      var m := Disagrees(code, s, depth);
      assert !Agrees(Machine(code, m.world, false), s, depth);
    }
  }
}
