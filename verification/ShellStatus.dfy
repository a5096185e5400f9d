/**
 The exit status. Section 2.9.4 of the POSIX.1-2017 Shell Command Language gives a loop the status
 of the last round of its body, or success if there was none. The shell gives it success whenever
 the condition ends it. Here are both, and exactly when they are the same.
 */
module ShellStatus {
  import opened ShellParser
  import opened ShellTree
  import opened ShellMachine
  import opened ShellRefinement
  import opened ShellScriptMeaning

  /**
   As `Eval`, and with `posix` a loop that its condition ends has the status of the last round of
   its body.
   */
  function Run(env: Env, s: Stmt, i: nat, inLoop: bool, log: Log, fail: bool, fuel: nat, posix: bool): (r: Result)
    requires i + Size(s) <= |env.pos|
    decreases fuel, s, 1
  {
    match s
    case Skip =>
      Normal(log, fail)
    case Cmd(argv) =>
      var log' := log + [Event(env.pos[i], argv)];
      var failed := env.world(log');
      if failed && !env.ignore then Stopped(log') else Normal(log', failed)
    case BreakOut =>
      var log' := log + [Event(env.pos[i], Word(Break))];
      if inLoop then Broke(log', false) else Normal(log', false)
    case Seq(a, b) =>
      var r := Run(env, a, i, inLoop, log, fail, fuel, posix);
      if r.Normal? then Run(env, b, i + Size(a), inLoop, r.log, r.fail, fuel, posix) else r
    case Cond(cond, t, e) =>
      var log' := log + [Event(env.pos[i], cond)];
      if !env.world(log') then
        Run(env, t, i + 2, inLoop, log', false, fuel, posix)
      else if e.Skip? then
        Normal(log', false)
      else
        assert |FlatElse(e)| == 1 + Size(e);
        Run(env, e, i + 3 + Size(t), inLoop, log', false, fuel, posix)
    case Loop(_, _, _) =>
      Rounds(env, s, i, log, false, fuel, posix)
  }

  /** A loop whose last round, if there was one, ended with status `last`. */
  function Rounds(env: Env, s: Stmt, i: nat, log: Log, last: bool, fuel: nat, posix: bool): (r: Result)
    requires s.Loop? && i + Size(s) <= |env.pos|
    decreases fuel, s, 0
  {
    if fuel == 0 then
      Timeout(log)
    else
      var log' := log + [Event(env.pos[i], s.cond)];
      if env.world(log') != s.until then
        Normal(log', posix && last)
      else
        var r := Run(env, s.body, i + 2, true, log', false, fuel, posix);
        match r
        case Normal(log'', fail') => Rounds(env, s, i, log'', fail', fuel - 1, posix)
        case Broke(log'', fail') => Normal(log'', fail')
        case _ => r
  }

  // ----- What the status does not decide -----

  /** The same commands and the same kind of end, but perhaps another status. */
  ghost predicate SameCourse(a: Result, b: Result) {
    && a.log == b.log && (a.Normal? <==> b.Normal?) && (a.Broke? <==> b.Broke?)
    && (a.Stopped? <==> b.Stopped?) && (a.Timeout? <==> b.Timeout?)
  }

  /** The status never decides what is run. */
  lemma {:induction false} CourseSame(env: Env, s: Stmt, i: nat, inLoop: bool, log: Log, f: bool, g: bool, fuel: nat,
                                      p: bool, q: bool)
    requires i + Size(s) <= |env.pos|
    ensures SameCourse(Run(env, s, i, inLoop, log, f, fuel, p), Run(env, s, i, inLoop, log, g, fuel, q))
    decreases fuel, s, 1
  {
    hide Flat, FlatElse;
    SizeOf(s);
    match s
    case Seq(a, b) =>
      CourseSame(env, a, i, inLoop, log, f, g, fuel, p, q);
      var x, y := Run(env, a, i, inLoop, log, f, fuel, p), Run(env, a, i, inLoop, log, g, fuel, q);
      if x.Normal? {
        CourseSame(env, b, i + Size(a), inLoop, x.log, x.fail, y.fail, fuel, p, q);
      }
    case Cond(cond, t, e) =>
      var log' := log + [Event(env.pos[i], cond)];
      CourseSame(env, t, i + 2, inLoop, log', false, false, fuel, p, q);
      if !e.Skip? {
        CourseSame(env, e, i + 3 + Size(t), inLoop, log', false, false, fuel, p, q);
      }
    case Loop(_, _, _) =>
      RoundsSame(env, s, i, log, false, false, fuel, p, q);
    case _ =>
  }

  lemma {:induction false} RoundsSame(env: Env, s: Stmt, i: nat, log: Log, f: bool, g: bool, fuel: nat, p: bool, q: bool)
    requires s.Loop? && i + Size(s) <= |env.pos|
    ensures SameCourse(Rounds(env, s, i, log, f, fuel, p), Rounds(env, s, i, log, g, fuel, q))
    decreases fuel, s, 0
  {
    hide Flat, FlatElse;
    SizeOf(s);
    var log' := log + [Event(env.pos[i], s.cond)];
    if fuel > 0 && env.world(log') == s.until {
      CourseSame(env, s.body, i + 2, true, log', false, false, fuel, p, q);
      var x, y := Run(env, s.body, i + 2, true, log', false, fuel, p), Run(env, s.body, i + 2, true, log', false, fuel, q);
      if x.Normal? {
        RoundsSame(env, s, i, x.log, x.fail, y.fail, fuel - 1, p, q);
      }
    }
  }

  /** `break` counts as success. */
  lemma {:induction false} BrokeFine(env: Env, s: Stmt, i: nat, inLoop: bool, log: Log, fail: bool, fuel: nat, p: bool)
    requires i + Size(s) <= |env.pos|
    ensures var r := Run(env, s, i, inLoop, log, fail, fuel, p); r.Broke? ==> !r.fail
    decreases s
  {
    hide Flat, FlatElse;
    SizeOf(s);
    match s
    case Seq(a, b) =>
      BrokeFine(env, a, i, inLoop, log, fail, fuel, p);
      var x := Run(env, a, i, inLoop, log, fail, fuel, p);
      if x.Normal? {
        BrokeFine(env, b, i + Size(a), inLoop, x.log, x.fail, fuel, p);
      }
    case Cond(cond, t, e) =>
      var log' := log + [Event(env.pos[i], cond)];
      BrokeFine(env, t, i + 2, inLoop, log', false, fuel, p);
      if !e.Skip? {
        BrokeFine(env, e, i + 3 + Size(t), inLoop, log', false, fuel, p);
      }
    case Loop(_, _, _) =>
      NeverBroke(env, s, i, log, false, fuel, p);
    case _ =>
  }

  lemma {:induction false} NeverBroke(env: Env, s: Stmt, i: nat, log: Log, last: bool, fuel: nat, p: bool)
    requires s.Loop? && i + Size(s) <= |env.pos|
    ensures !Rounds(env, s, i, log, last, fuel, p).Broke?
    decreases fuel
  {
    hide Flat, FlatElse, Run;
    SizeOf(s);
    var log' := log + [Event(env.pos[i], s.cond)];
    if fuel > 0 && env.world(log') == s.until {
      var x := Run(env, s.body, i + 2, true, log', false, fuel, p);
      if x.Normal? {
        NeverBroke(env, s, i, x.log, x.fail, fuel - 1, p);
      }
    }
  }

  // ----- Statements and their status -----

  /** Nothing in it sets a status. */
  predicate Silent(s: Stmt) {
    s.Skip? || (s.Seq? && Silent(s.first) && Silent(s.second))
  }

  /** In some world it is run to its end. */
  predicate Completes(s: Stmt, inLoop: bool) {
    match s
    case BreakOut => !inLoop
    case Seq(a, b) => Completes(a, inLoop) && Completes(b, inLoop)
    case Cond(_, t, e) => Completes(t, inLoop) || Completes(e, inLoop)
    case _ => true
  }

  /** In some world it ends with a failed status. */
  predicate MayFail(s: Stmt, inLoop: bool) {
    match s
    case Cmd(_) => true
    case Seq(a, b) => if Silent(b) then MayFail(a, inLoop) else Completes(a, inLoop) && MayFail(b, inLoop)
    case Cond(_, t, e) => MayFail(t, inLoop) || MayFail(e, inLoop)
    case Loop(_, _, b) => MayFail(b, true)
    case _ => false
  }

  /** The last thing to set its status may be a loop whose body may end with a failed one. */
  predicate EndsInLoop(s: Stmt, inLoop: bool) {
    match s
    case Seq(a, b) => if Silent(b) then EndsInLoop(a, inLoop) else Completes(a, inLoop) && EndsInLoop(b, inLoop)
    case Cond(_, t, e) => EndsInLoop(t, inLoop) || EndsInLoop(e, inLoop)
    case Loop(_, _, b) => MayFail(b, true)
    case _ => false
  }

  lemma {:induction false} SilentIs(env: Env, s: Stmt, i: nat, inLoop: bool, log: Log, fail: bool, fuel: nat, p: bool)
    requires i + Size(s) <= |env.pos| && Silent(s)
    ensures Run(env, s, i, inLoop, log, fail, fuel, p) == Normal(log, fail)
    decreases s
  {
    hide Flat, FlatElse;
    SizeOf(s);
    if s.Seq? {
      SilentIs(env, s.first, i, inLoop, log, fail, fuel, p);
      SilentIs(env, s.second, i + Size(s.first), inLoop, log, fail, fuel, p);
    }
  }

  /** What is not silent sets the status, whatever it was before. */
  lemma {:induction false} Sets(env: Env, s: Stmt, i: nat, inLoop: bool, log: Log, f: bool, g: bool, fuel: nat, p: bool)
    requires i + Size(s) <= |env.pos| && !Silent(s)
    ensures Run(env, s, i, inLoop, log, f, fuel, p) == Run(env, s, i, inLoop, log, g, fuel, p)
    decreases s
  {
    hide Flat, FlatElse;
    SizeOf(s);
    if s.Seq? {
      var a, b := s.first, s.second;
      if !Silent(a) {
        Sets(env, a, i, inLoop, log, f, g, fuel, p);
      } else {
        SilentIs(env, a, i, inLoop, log, f, fuel, p);
        SilentIs(env, a, i, inLoop, log, g, fuel, p);
        Sets(env, b, i + Size(a), inLoop, log, f, g, fuel, p);
      }
    }
  }

  lemma {:induction false} NeverCompletes(env: Env, s: Stmt, i: nat, inLoop: bool, log: Log, fail: bool, fuel: nat, p: bool)
    requires i + Size(s) <= |env.pos| && !Completes(s, inLoop)
    ensures !Run(env, s, i, inLoop, log, fail, fuel, p).Normal?
    decreases s
  {
    hide Flat, FlatElse;
    SizeOf(s);
    match s
    case Seq(a, b) =>
      if !Completes(a, inLoop) {
        NeverCompletes(env, a, i, inLoop, log, fail, fuel, p);
      } else {
        var x := Run(env, a, i, inLoop, log, fail, fuel, p);
        if x.Normal? {
          NeverCompletes(env, b, i + Size(a), inLoop, x.log, x.fail, fuel, p);
        }
      }
    case Cond(cond, t, e) =>
      var log' := log + [Event(env.pos[i], cond)];
      NeverCompletes(env, t, i + 2, inLoop, log', false, fuel, p);
      assert Completes(Skip, inLoop);
      if !e.Skip? {
        NeverCompletes(env, e, i + 3 + Size(t), inLoop, log', false, fuel, p);
      }
    case _ =>
  }

  /** By the standard, what cannot fail does not. */
  lemma {:induction false} NeverFails(env: Env, s: Stmt, i: nat, inLoop: bool, log: Log, fuel: nat)
    requires i + Size(s) <= |env.pos| && !MayFail(s, inLoop)
    ensures var r := Run(env, s, i, inLoop, log, false, fuel, true); r.Normal? ==> !r.fail
    decreases fuel, s, 1
  {
    hide Flat, FlatElse;
    SizeOf(s);
    match s
    case Seq(a, b) =>
      var x := Run(env, a, i, inLoop, log, false, fuel, true);
      if x.Normal? {
        if Silent(b) {
          NeverFails(env, a, i, inLoop, log, fuel);
          SilentIs(env, b, i + Size(a), inLoop, x.log, x.fail, fuel, true);
        } else if !Completes(a, inLoop) {
          NeverCompletes(env, a, i, inLoop, log, false, fuel, true);
        } else {
          NeverFails(env, b, i + Size(a), inLoop, x.log, fuel);
          Sets(env, b, i + Size(a), inLoop, x.log, x.fail, false, fuel, true);
        }
      }
    case Cond(cond, t, e) =>
      var log' := log + [Event(env.pos[i], cond)];
      NeverFails(env, t, i + 2, inLoop, log', fuel);
      if !e.Skip? {
        NeverFails(env, e, i + 3 + Size(t), inLoop, log', fuel);
      }
    case Loop(_, _, _) =>
      NoRoundFails(env, s, i, log, fuel);
    case _ =>
  }

  /** A loop whose body cannot fail has the same status by both. */
  lemma {:induction false} NoRoundFails(env: Env, s: Stmt, i: nat, log: Log, fuel: nat)
    requires s.Loop? && i + Size(s) <= |env.pos| && !MayFail(s.body, true)
    ensures Rounds(env, s, i, log, false, fuel, true) == Rounds(env, s, i, log, false, fuel, false)
    ensures Rounds(env, s, i, log, false, fuel, true).Normal? ==> !Rounds(env, s, i, log, false, fuel, true).fail
    decreases fuel, s, 0
  {
    hide Flat, FlatElse, Run;
    SizeOf(s);
    var log' := log + [Event(env.pos[i], s.cond)];
    if fuel > 0 && env.world(log') == s.until {
      CourseSame(env, s.body, i + 2, true, log', false, false, fuel, true, false);
      BrokeFine(env, s.body, i + 2, true, log', false, fuel, true);
      BrokeFine(env, s.body, i + 2, true, log', false, fuel, false);
      NeverFails(env, s.body, i + 2, true, log', fuel);
      var x, y := Run(env, s.body, i + 2, true, log', false, fuel, true), Run(env, s.body, i + 2, true, log', false, fuel, false);
      if x.Normal? {
        NoRoundFails(env, s, i, x.log, fuel - 1);
        LastUnused(env, s, i, x.log, false, y.fail, fuel - 1);
      }
    }
  }

  /** Without the standard, the last round does not matter. */
  lemma LastUnused(env: Env, s: Stmt, i: nat, log: Log, f: bool, g: bool, fuel: nat)
    requires s.Loop? && i + Size(s) <= |env.pos|
    ensures Rounds(env, s, i, log, f, fuel, false) == Rounds(env, s, i, log, g, fuel, false)
  {
    hide Flat, FlatElse, Run;
  }

  /** Where no such loop comes last, both have the same status in every world. */
  lemma {:induction false} StatusSame(env: Env, s: Stmt, i: nat, inLoop: bool, log: Log, fail: bool, fuel: nat)
    requires i + Size(s) <= |env.pos| && !EndsInLoop(s, inLoop)
    ensures Run(env, s, i, inLoop, log, fail, fuel, true) == Run(env, s, i, inLoop, log, fail, fuel, false)
    decreases s
  {
    hide Flat, FlatElse;
    SizeOf(s);
    match s
    case Seq(a, b) =>
      CourseSame(env, a, i, inLoop, log, fail, fail, fuel, true, false);
      BrokeFine(env, a, i, inLoop, log, fail, fuel, true);
      BrokeFine(env, a, i, inLoop, log, fail, fuel, false);
      var x, y := Run(env, a, i, inLoop, log, fail, fuel, true), Run(env, a, i, inLoop, log, fail, fuel, false);
      if x.Normal? {
        if Silent(b) {
          StatusSame(env, a, i, inLoop, log, fail, fuel);
          SilentIs(env, b, i + Size(a), inLoop, x.log, x.fail, fuel, true);
          SilentIs(env, b, i + Size(a), inLoop, x.log, x.fail, fuel, false);
        } else if !Completes(a, inLoop) {
          NeverCompletes(env, a, i, inLoop, log, fail, fuel, true);
        } else {
          StatusSame(env, b, i + Size(a), inLoop, x.log, x.fail, fuel);
          Sets(env, b, i + Size(a), inLoop, x.log, x.fail, y.fail, fuel, false);
        }
      }
    case Cond(cond, t, e) =>
      var log' := log + [Event(env.pos[i], cond)];
      StatusSame(env, t, i + 2, inLoop, log', false, fuel);
      if !e.Skip? {
        StatusSame(env, e, i + 3 + Size(t), inLoop, log', false, fuel);
      }
    case Loop(_, _, _) =>
      NoRoundFails(env, s, i, log, fuel);
    case _ =>
  }

  // ----- Worlds in which they part -----

  lemma {:induction false} Grows(env: Env, s: Stmt, i: nat, inLoop: bool, log: Log, fail: bool, fuel: nat, p: bool)
    requires i + Size(s) <= |env.pos|
    ensures |log| <= |Run(env, s, i, inLoop, log, fail, fuel, p).log|
    decreases fuel, s, 1
  {
    hide Flat, FlatElse;
    SizeOf(s);
    match s
    case Seq(a, b) =>
      Grows(env, a, i, inLoop, log, fail, fuel, p);
      var x := Run(env, a, i, inLoop, log, fail, fuel, p);
      if x.Normal? {
        Grows(env, b, i + Size(a), inLoop, x.log, x.fail, fuel, p);
      }
    case Cond(cond, t, e) =>
      var log' := log + [Event(env.pos[i], cond)];
      Grows(env, t, i + 2, inLoop, log', false, fuel, p);
      if !e.Skip? {
        Grows(env, e, i + 3 + Size(t), inLoop, log', false, fuel, p);
      }
    case Loop(_, _, _) =>
      RoundsGrow(env, s, i, log, false, fuel, p);
    case _ =>
  }

  lemma {:induction false} RoundsGrow(env: Env, s: Stmt, i: nat, log: Log, last: bool, fuel: nat, p: bool)
    requires s.Loop? && i + Size(s) <= |env.pos|
    ensures |log| <= |Rounds(env, s, i, log, last, fuel, p).log|
    decreases fuel, s, 0
  {
    hide Flat, FlatElse, Run;
    SizeOf(s);
    var log' := log + [Event(env.pos[i], s.cond)];
    if fuel > 0 && env.world(log') == s.until {
      Grows(env, s.body, i + 2, true, log', false, fuel, p);
      var x := Run(env, s.body, i + 2, true, log', false, fuel, p);
      if x.Normal? {
        RoundsGrow(env, s, i, x.log, x.fail, fuel - 1, p);
      }
    }
  }

  /** The two worlds answer alike while the log has more than `from` and up to `to` commands. */
  ghost predicate SameAnswers(v: World, w: World, from: nat, to: nat) {
    forall log: Log :: from < |log| <= to ==> v(log) == w(log)
  }

  /** A run asks only about what it runs. */
  lemma {:induction false} Local(env: Env, w: World, s: Stmt, i: nat, inLoop: bool, log: Log, fail: bool, fuel: nat, p: bool)
    requires i + Size(s) <= |env.pos|
    requires SameAnswers(env.world, w, |log|, |Run(env, s, i, inLoop, log, fail, fuel, p).log|)
    ensures Run(env.(world := w), s, i, inLoop, log, fail, fuel, p) == Run(env, s, i, inLoop, log, fail, fuel, p)
    decreases fuel, s, 1
  {
    hide Flat, FlatElse, SameAnswers;
    SizeOf(s);
    match s
    case Seq(_, _) =>
      LocalSeq(env, w, s, i, inLoop, log, fail, fuel, p);
    case Cond(_, _, _) =>
      LocalCond(env, w, s, i, inLoop, log, fail, fuel, p);
    case Loop(_, _, _) =>
      RoundsLocal(env, w, s, i, log, false, fuel, p);
    case Cmd(argv) =>
      SameAt(env.world, w, log, Event(env.pos[i], argv), |log| + 1);
    case _ =>
  }

  lemma SameAt(v: World, w: World, log: Log, e: Event, to: nat)
    requires SameAnswers(v, w, |log|, to) && |log| < to
    ensures v(log + [e]) == w(log + [e])
  {
  }

  lemma SamePart(v: World, w: World, from: nat, to: nat, a: nat, b: nat)
    requires SameAnswers(v, w, from, to) && from <= a && b <= to
    ensures SameAnswers(v, w, a, b)
  {
  }

  lemma {:induction false} LocalSeq(env: Env, w: World, s: Stmt, i: nat, inLoop: bool, log: Log, fail: bool, fuel: nat, p: bool)
    requires s.Seq? && i + Size(s) <= |env.pos|
    requires SameAnswers(env.world, w, |log|, |Run(env, s, i, inLoop, log, fail, fuel, p).log|)
    ensures Run(env.(world := w), s, i, inLoop, log, fail, fuel, p) == Run(env, s, i, inLoop, log, fail, fuel, p)
    decreases fuel, s, 0
  {
    hide Flat, FlatElse, Run, SameAnswers;
    var to := |Run(env, s, i, inLoop, log, fail, fuel, p).log|;
    RunSeq(env, s, i, inLoop, log, fail, fuel, p);
    RunSeq(env.(world := w), s, i, inLoop, log, fail, fuel, p);
    Grows(env, s.first, i, inLoop, log, fail, fuel, p);
    var x := Run(env, s.first, i, inLoop, log, fail, fuel, p);
    if x.Normal? {
      var j := i + Size(s.first);
      Grows(env, s.second, j, inLoop, x.log, x.fail, fuel, p);
      SamePart(env.world, w, |log|, to, |x.log|, to);
      Local(env, w, s.second, j, inLoop, x.log, x.fail, fuel, p);
    }
    SamePart(env.world, w, |log|, to, |log|, |x.log|);
    Local(env, w, s.first, i, inLoop, log, fail, fuel, p);
  }

  lemma {:induction false} LocalCond(env: Env, w: World, s: Stmt, i: nat, inLoop: bool, log: Log, fail: bool, fuel: nat, p: bool)
    requires s.Cond? && i + Size(s) <= |env.pos|
    requires SameAnswers(env.world, w, |log|, |Run(env, s, i, inLoop, log, fail, fuel, p).log|)
    ensures Run(env.(world := w), s, i, inLoop, log, fail, fuel, p) == Run(env, s, i, inLoop, log, fail, fuel, p)
    decreases fuel, s, 0
  {
    hide Flat, FlatElse, Run, SameAnswers;
    var to := |Run(env, s, i, inLoop, log, fail, fuel, p).log|;
    RunCond(env, s, i, inLoop, log, fail, fuel, p);
    RunCond(env.(world := w), s, i, inLoop, log, fail, fuel, p);
    var e := Event(env.pos[i], s.cond);
    var log' := log + [e];
    if !env.world(log') {
      Grows(env, s.thn, i + 2, inLoop, log', false, fuel, p);
      SamePart(env.world, w, |log|, to, |log'|, to);
      Local(env, w, s.thn, i + 2, inLoop, log', false, fuel, p);
    } else if !s.els.Skip? {
      Grows(env, s.els, i + 3 + Size(s.thn), inLoop, log', false, fuel, p);
      SamePart(env.world, w, |log|, to, |log'|, to);
      Local(env, w, s.els, i + 3 + Size(s.thn), inLoop, log', false, fuel, p);
    }
    SameAt(env.world, w, log, e, to);
  }

  lemma {:induction false} RoundsLocal(env: Env, w: World, s: Stmt, i: nat, log: Log, last: bool, fuel: nat, p: bool)
    requires s.Loop? && i + Size(s) <= |env.pos|
    requires SameAnswers(env.world, w, |log|, |Rounds(env, s, i, log, last, fuel, p).log|)
    ensures Rounds(env.(world := w), s, i, log, last, fuel, p) == Rounds(env, s, i, log, last, fuel, p)
    decreases fuel, s, 0
  {
    hide Flat, FlatElse, Run;
    SizeOf(s);
    var log' := log + [Event(env.pos[i], s.cond)];
    if fuel > 0 && env.world(log') == s.until {
      Grows(env, s.body, i + 2, true, log', false, fuel, p);
      var x := Run(env, s.body, i + 2, true, log', false, fuel, p);
      if x.Normal? {
        RoundsGrow(env, s, i, x.log, x.fail, fuel - 1, p);
        RoundsLocal(env, w, s, i, x.log, x.fail, fuel - 1, p);
      }
      Local(env, w, s.body, i + 2, true, log', false, fuel, p);
    } else if fuel > 0 {
      assert w(log') == env.world(log');
    }
  }

  /** One world up to `n` commands, and then another. */
  function Glue(v: World, w: World, n: nat): World {
    (log: Log) => if |log| <= n then v(log) else w(log)
  }

  function Says(answer: bool): World {
    (log: Log) => answer
  }

  /** The results of a statement by the shell and by the standard, with failures ignored. */
  ghost function ResultOf(pos: seq<int>, w: World, s: Stmt, i: nat, inLoop: bool, log: Log, posix: bool): Result
    requires i + Size(s) <= |pos|
  {
    Run(Env(pos, w, true), s, i, inLoop, log, false, 2, posix)
  }

  /** After a glued world's first part, it is the second. */
  lemma GlueLate(pos: seq<int>, v: World, w: World, n: nat, s: Stmt, i: nat, inLoop: bool, log: Log, p: bool)
    requires i + Size(s) <= |pos| && n <= |log|
    ensures ResultOf(pos, Glue(v, w, n), s, i, inLoop, log, p) == ResultOf(pos, w, s, i, inLoop, log, p)
  {
    hide Run, Flat;
    Local(Env(pos, w, true), Glue(v, w, n), s, i, inLoop, log, false, 2, p);
  }

  /** Up to the end of its first part, it is the first. */
  lemma GlueEarly(pos: seq<int>, v: World, w: World, n: nat, s: Stmt, i: nat, inLoop: bool, log: Log, p: bool)
    requires i + Size(s) <= |pos| && |ResultOf(pos, v, s, i, inLoop, log, p).log| <= n
    ensures ResultOf(pos, Glue(v, w, n), s, i, inLoop, log, p) == ResultOf(pos, v, s, i, inLoop, log, p)
  {
    hide Run, Flat;
    Local(Env(pos, v, true), Glue(v, w, n), s, i, inLoop, log, false, 2, p);
  }

  /** Two statements in a row, each in a world of its own. */
  lemma GlueSeq(pos: seq<int>, v: World, w: World, s: Stmt, i: nat, inLoop: bool, log: Log, p: bool)
    requires s.Seq? && i + Size(s) <= |pos| && Size(s) == Size(s.first) + Size(s.second)
    requires ResultOf(pos, v, s.first, i, inLoop, log, p).Normal?
    ensures var x := ResultOf(pos, v, s.first, i, inLoop, log, p);
            && (!Silent(s.second) ==>
                  ResultOf(pos, Glue(v, w, |x.log|), s, i, inLoop, log, p) == ResultOf(pos, w, s.second, i + Size(s.first), inLoop, x.log, p))
            && (Silent(s.second) ==> ResultOf(pos, v, s, i, inLoop, log, p) == x)
  {
    hide Run, Flat;
    var x := ResultOf(pos, v, s.first, i, inLoop, log, p);
    var u, j := Glue(v, w, |x.log|), i + Size(s.first);
    GlueEarly(pos, v, w, |x.log|, s.first, i, inLoop, log, p);
    RunSeq(Env(pos, u, true), s, i, inLoop, log, false, 2, p);
    RunSeq(Env(pos, v, true), s, i, inLoop, log, false, 2, p);
    if Silent(s.second) {
      SilentIs(Env(pos, v, true), s.second, j, inLoop, x.log, x.fail, 2, p);
    } else {
      Sets(Env(pos, u, true), s.second, j, inLoop, x.log, x.fail, false, 2, p);
      GlueLate(pos, v, w, |x.log|, s.second, j, inLoop, x.log, p);
    }
  }

  lemma RunLoop(env: Env, s: Stmt, i: nat, inLoop: bool, log: Log, fail: bool, fuel: nat, p: bool)
    requires s.Loop? && i + Size(s) <= |env.pos|
    ensures Run(env, s, i, inLoop, log, fail, fuel, p) == Rounds(env, s, i, log, false, fuel, p)
  {
    hide Flat;
  }

  lemma RunRounds(env: Env, s: Stmt, i: nat, log: Log, last: bool, fuel: nat, p: bool)
    requires s.Loop? && i + Size(s) <= |env.pos| && fuel > 0
    ensures Size(s) == 3 + Size(s.body)
    ensures var log' := log + [Event(env.pos[i], s.cond)];
            Rounds(env, s, i, log, last, fuel, p) ==
              if env.world(log') != s.until then Normal(log', p && last)
              else
                var r := Run(env, s.body, i + 2, true, log', false, fuel, p);
                match r
                case Normal(l, f) => Rounds(env, s, i, l, f, fuel - 1, p)
                case Broke(l, f) => Normal(l, f)
                case _ => r
  {
    hide Flat, Run;
    SizeOf(s);
  }

  lemma RunSeq(env: Env, s: Stmt, i: nat, inLoop: bool, log: Log, fail: bool, fuel: nat, p: bool)
    requires s.Seq? && i + Size(s) <= |env.pos|
    ensures Size(s) == Size(s.first) + Size(s.second)
    ensures var x := Run(env, s.first, i, inLoop, log, fail, fuel, p);
            Run(env, s, i, inLoop, log, fail, fuel, p) ==
              if x.Normal? then Run(env, s.second, i + Size(s.first), inLoop, x.log, x.fail, fuel, p) else x
  {
    hide Flat;
    SizeOf(s);
  }

  lemma RunCond(env: Env, s: Stmt, i: nat, inLoop: bool, log: Log, fail: bool, fuel: nat, p: bool)
    requires s.Cond? && i + Size(s) <= |env.pos|
    ensures Size(s) >= 3 + Size(s.thn) && (!s.els.Skip? ==> Size(s) == 4 + Size(s.thn) + Size(s.els))
    ensures var log' := log + [Event(env.pos[i], s.cond)];
            Run(env, s, i, inLoop, log, fail, fuel, p) ==
              if !env.world(log') then Run(env, s.thn, i + 2, inLoop, log', false, fuel, p)
              else if s.els.Skip? then Normal(log', false)
              else Run(env, s.els, i + 3 + Size(s.thn), inLoop, log', false, fuel, p)
  {
    hide Flat, FlatElse;
    SizeOf(s);
  }

  /** A branch, in a world of its own. */
  lemma GlueCond(pos: seq<int>, w: World, s: Stmt, i: nat, inLoop: bool, log: Log, p: bool)
    requires s.Cond? && i + Size(s) <= |pos| && Size(s) >= 3 + Size(s.thn)
    requires !s.els.Skip? ==> Size(s) == 4 + Size(s.thn) + Size(s.els)
    ensures var log' := log + [Event(pos[i], s.cond)];
            && ResultOf(pos, Glue(Says(false), w, |log'|), s, i, inLoop, log, p) == ResultOf(pos, w, s.thn, i + 2, inLoop, log', p)
            && (!s.els.Skip? ==>
                  ResultOf(pos, Glue(Says(true), w, |log'|), s, i, inLoop, log, p)
                  == ResultOf(pos, w, s.els, i + 3 + Size(s.thn), inLoop, log', p))
            && (s.els.Skip? ==> ResultOf(pos, Says(true), s, i, inLoop, log, p) == Normal(log', false))
  {
    hide Run, Flat;
    var log' := log + [Event(pos[i], s.cond)];
    RunCond(Env(pos, Glue(Says(false), w, |log'|), true), s, i, inLoop, log, false, 2, p);
    RunCond(Env(pos, Glue(Says(true), w, |log'|), true), s, i, inLoop, log, false, 2, p);
    RunCond(Env(pos, Says(true), true), s, i, inLoop, log, false, 2, p);
    GlueLate(pos, Says(false), w, |log'|, s.thn, i + 2, inLoop, log', p);
    if !s.els.Skip? {
      GlueLate(pos, Says(true), w, |log'|, s.els, i + 3 + Size(s.thn), inLoop, log', p);
    }
  }

  /** One round of a loop, and out of it, each in a world of its own. */
  lemma GlueLoop(pos: seq<int>, w: World, s: Stmt, i: nat, inLoop: bool, log: Log, p: bool) returns (u: World)
    requires s.Loop? && i + Size(s) <= |pos| && Size(s) == 3 + Size(s.body)
    requires ResultOf(pos, w, s.body, i + 2, true, log + [Event(pos[i], s.cond)], p).Normal?
    ensures var x := ResultOf(pos, w, s.body, i + 2, true, log + [Event(pos[i], s.cond)], p);
            ResultOf(pos, u, s, i, inLoop, log, p) == Normal(x.log + [Event(pos[i], s.cond)], p && x.fail)
    ensures var x := ResultOf(pos, w, s.body, i + 2, true, log + [Event(pos[i], s.cond)], p);
            u == Glue(Glue(Says(s.until), w, |log| + 1), Says(!s.until), |x.log|)
  {
    hide Flat, Run, Rounds;
    var log' := log + [Event(pos[i], s.cond)];
    var x := ResultOf(pos, w, s.body, i + 2, true, log', p);
    var v := Glue(Says(s.until), w, |log'|);
    u := Glue(v, Says(!s.until), |x.log|);
    Grows(Env(pos, w, true), s.body, i + 2, true, log', false, 2, p);
    GlueLate(pos, Says(s.until), w, |log'|, s.body, i + 2, true, log', p);
    GlueEarly(pos, v, Says(!s.until), |x.log|, s.body, i + 2, true, log', p);
    var env := Env(pos, u, true);
    RunLoop(env, s, i, inLoop, log, false, 2, p);
    RunRounds(env, s, i, log, false, 2, p);
    RunRounds(env, s, i, x.log, x.fail, 1, p);
  }

  /** A loop that is not entered. */
  lemma NotEntered(pos: seq<int>, s: Stmt, i: nat, inLoop: bool, log: Log, p: bool)
    requires s.Loop? && i + Size(s) <= |pos|
    ensures ResultOf(pos, Says(!s.until), s, i, inLoop, log, p) == Normal(log + [Event(pos[i], s.cond)], false)
  {
    hide Flat, Run, Rounds;
    RunLoop(Env(pos, Says(!s.until), true), s, i, inLoop, log, false, 2, p);
    RunRounds(Env(pos, Says(!s.until), true), s, i, log, false, 2, p);
  }

  /** A world in which a statement is run to its end. */
  lemma {:induction false} ToItsEnd(pos: seq<int>, s: Stmt, i: nat, inLoop: bool, log: Log, p: bool) returns (w: World)
    requires i + Size(s) <= |pos| && Completes(s, inLoop)
    ensures ResultOf(pos, w, s, i, inLoop, log, p).Normal?
    decreases s
  {
    hide Flat, FlatElse;
    SizeOf(s);
    w := Says(false);
    match s
    case Seq(a, b) =>
      var v := ToItsEnd(pos, a, i, inLoop, log, p);
      var x := ResultOf(pos, v, a, i, inLoop, log, p);
      var u := ToItsEnd(pos, b, i + Size(a), inLoop, x.log, p);
      GlueSeq(pos, v, u, s, i, inLoop, log, p);
      w := if Silent(b) then v else Glue(v, u, |x.log|);
    case Cond(cond, t, e) =>
      var log' := log + [Event(pos[i], cond)];
      if Completes(t, inLoop) {
        var u := ToItsEnd(pos, t, i + 2, inLoop, log', p);
        GlueCond(pos, u, s, i, inLoop, log, p);
        w := Glue(Says(false), u, |log'|);
      } else if e.Skip? {
        GlueCond(pos, w, s, i, inLoop, log, p);
        w := Says(true);
      } else {
        var u := ToItsEnd(pos, e, i + 3 + Size(t), inLoop, log', p);
        GlueCond(pos, u, s, i, inLoop, log, p);
        w := Glue(Says(true), u, |log'|);
      }
    case Loop(until, _, _) =>
      w := Says(!until);
      NotEntered(pos, s, i, inLoop, log, p);
    case _ =>
  }

  /** A world in which a statement ends with a failed status, by the standard. */
  lemma {:induction false} ToFailure(pos: seq<int>, s: Stmt, i: nat, inLoop: bool, log: Log) returns (w: World)
    requires i + Size(s) <= |pos| && MayFail(s, inLoop)
    ensures var r := ResultOf(pos, w, s, i, inLoop, log, true); r.Normal? && r.fail
    decreases s
  {
    hide Flat, FlatElse;
    SizeOf(s);
    w := Says(true);
    match s
    case Seq(a, b) =>
      if Silent(b) {
        w := ToFailure(pos, a, i, inLoop, log);
        GlueSeq(pos, w, w, s, i, inLoop, log, true);
      } else {
        var v := ToItsEnd(pos, a, i, inLoop, log, true);
        var x := ResultOf(pos, v, a, i, inLoop, log, true);
        var u := ToFailure(pos, b, i + Size(a), inLoop, x.log);
        GlueSeq(pos, v, u, s, i, inLoop, log, true);
        w := Glue(v, u, |x.log|);
      }
    case Cond(cond, t, e) =>
      var log' := log + [Event(pos[i], cond)];
      if MayFail(t, inLoop) {
        var u := ToFailure(pos, t, i + 2, inLoop, log');
        GlueCond(pos, u, s, i, inLoop, log, true);
        w := Glue(Says(false), u, |log'|);
      } else {
        var u := ToFailure(pos, e, i + 3 + Size(t), inLoop, log');
        GlueCond(pos, u, s, i, inLoop, log, true);
        w := Glue(Says(true), u, |log'|);
      }
    case Loop(_, cond, b) =>
      var u := ToFailure(pos, b, i + 2, true, log + [Event(pos[i], cond)]);
      w := GlueLoop(pos, u, s, i, inLoop, log, true);
    case _ =>
  }

  /** The shell and the standard come to different statuses. */
  ghost predicate Parts(pos: seq<int>, w: World, s: Stmt, i: nat, inLoop: bool, log: Log)
    requires i + Size(s) <= |pos|
  {
    var a, b := ResultOf(pos, w, s, i, inLoop, log, true), ResultOf(pos, w, s, i, inLoop, log, false);
    a.Normal? && b.Normal? && a.log == b.log && a.fail && !b.fail
  }

  lemma {:induction false} ToDifference(pos: seq<int>, s: Stmt, i: nat, inLoop: bool, log: Log) returns (w: World)
    requires i + Size(s) <= |pos| && EndsInLoop(s, inLoop)
    ensures Parts(pos, w, s, i, inLoop, log)
    decreases s
  {
    hide Flat, FlatElse, Run;
    SizeOf(s);
    match s
    case Seq(a, b) =>
      if Silent(b) {
        w := ToDifference(pos, a, i, inLoop, log);
        GlueSeq(pos, w, w, s, i, inLoop, log, true);
        GlueSeq(pos, w, w, s, i, inLoop, log, false);
      } else {
        var v := ToItsEnd(pos, a, i, inLoop, log, true);
        var x := ResultOf(pos, v, a, i, inLoop, log, true);
        CourseSame(Env(pos, v, true), a, i, inLoop, log, false, false, 2, true, false);
        var u := ToDifference(pos, b, i + Size(a), inLoop, x.log);
        GlueSeq(pos, v, u, s, i, inLoop, log, true);
        GlueSeq(pos, v, u, s, i, inLoop, log, false);
        w := Glue(v, u, |x.log|);
      }
    case Cond(cond, t, e) =>
      var log' := log + [Event(pos[i], cond)];
      if EndsInLoop(t, inLoop) {
        var u := ToDifference(pos, t, i + 2, inLoop, log');
        GlueCond(pos, u, s, i, inLoop, log, true);
        GlueCond(pos, u, s, i, inLoop, log, false);
        w := Glue(Says(false), u, |log'|);
      } else {
        var u := ToDifference(pos, e, i + 3 + Size(t), inLoop, log');
        GlueCond(pos, u, s, i, inLoop, log, true);
        GlueCond(pos, u, s, i, inLoop, log, false);
        w := Glue(Says(true), u, |log'|);
      }
    case Loop(_, cond, b) =>
      var log' := log + [Event(pos[i], cond)];
      var u := ToFailure(pos, b, i + 2, true, log');
      CourseSame(Env(pos, u, true), b, i + 2, true, log', false, false, 2, true, false);
      w := GlueLoop(pos, u, s, i, inLoop, log, true);
      var w' := GlueLoop(pos, u, s, i, inLoop, log, false);
  }

  // ----- Whole scripts -----

  /** Without the standard's status it is the structured meaning of the shell's scripts. */
  lemma {:induction false} RunIsEval(env: Env, s: Stmt, i: nat, inLoop: bool, log: Log, fail: bool, fuel: nat)
    requires i + Size(s) <= |env.pos|
    ensures Run(env, s, i, inLoop, log, fail, fuel, false) == Eval(env, s, i, inLoop, log, fail, fuel)
    decreases fuel, s
  {
    hide Flat, FlatElse;
    SizeOf(s);
    match s
    case Seq(a, b) =>
      RunIsEval(env, a, i, inLoop, log, fail, fuel);
      var x := Eval(env, a, i, inLoop, log, fail, fuel);
      if x.Normal? {
        RunIsEval(env, b, i + Size(a), inLoop, x.log, x.fail, fuel);
      }
    case Cond(cond, t, e) =>
      var log' := log + [Event(env.pos[i], cond)];
      RunIsEval(env, t, i + 2, inLoop, log', false, fuel);
      if !e.Skip? {
        RunIsEval(env, e, i + 3 + Size(t), inLoop, log', false, fuel);
      }
    case Loop(_, cond, b) =>
      if fuel > 0 {
        var log' := log + [Event(env.pos[i], cond)];
        RunIsEval(env, b, i + 2, true, log', false, fuel);
        var x := Eval(env, b, i + 2, true, log', false, fuel);
        if x.Normal? {
          RunIsEval(env, s, i, inLoop, x.log, x.fail, fuel - 1);
          LastUnused(env, s, i, x.log, false, x.fail, fuel - 1);
        }
      }
    case _ =>
  }

  /** Until a script stops, its status is success. */
  lemma {:induction false} NoFailure(env: Env, s: Stmt, i: nat, inLoop: bool, log: Log, fuel: nat, p: bool)
    requires i + Size(s) <= |env.pos| && !env.ignore
    ensures var r := Run(env, s, i, inLoop, log, false, fuel, p); r.Normal? ==> !r.fail
    decreases fuel, s, 1
  {
    hide Flat, FlatElse;
    SizeOf(s);
    match s
    case Seq(a, b) =>
      NoFailure(env, a, i, inLoop, log, fuel, p);
      var x := Run(env, a, i, inLoop, log, false, fuel, p);
      if x.Normal? {
        NoFailure(env, b, i + Size(a), inLoop, x.log, fuel, p);
      }
    case Cond(cond, t, e) =>
      var log' := log + [Event(env.pos[i], cond)];
      NoFailure(env, t, i + 2, inLoop, log', fuel, p);
      if !e.Skip? {
        NoFailure(env, e, i + 3 + Size(t), inLoop, log', fuel, p);
      }
    case Loop(_, _, _) =>
      NoRoundFailure(env, s, i, log, fuel, p);
    case _ =>
  }

  lemma {:induction false} NoRoundFailure(env: Env, s: Stmt, i: nat, log: Log, fuel: nat, p: bool)
    requires s.Loop? && i + Size(s) <= |env.pos| && !env.ignore
    ensures var r := Rounds(env, s, i, log, false, fuel, p); r.Normal? ==> !r.fail
    decreases fuel, s, 0
  {
    hide Flat, FlatElse, Run;
    SizeOf(s);
    var log' := log + [Event(env.pos[i], s.cond)];
    if fuel > 0 && env.world(log') == s.until {
      NoFailure(env, s.body, i + 2, true, log', fuel, p);
      BrokeFine(env, s.body, i + 2, true, log', false, fuel, p);
      var x := Run(env, s.body, i + 2, true, log', false, fuel, p);
      if x.Normal? {
        NoRoundFailure(env, s, i, x.log, fuel - 1, p);
      }
    }
  }

  ghost function PosixRun(m: Machine, s: Stmt, fuel: nat): Result
    requires |m.code| == Size(s)
  {
    Run(EnvOf(m), s, 0, false, [], false, fuel, true)
  }

  /** How a script ends, by the standard. */
  ghost predicate PosixEnds(m: Machine, s: Stmt, end: End)
    requires |m.code| == Size(s)
  {
    exists fuel: nat ::
      var r := PosixRun(m, s, fuel);
      (r.Normal? && end == End(r.log, r.fail, false)) || (r.Stopped? && end == End(r.log, true, true))
  }

  lemma SameEnds(m: Machine, s: Stmt, end: End)
    requires |m.code| == Size(s) && forall fuel: nat :: PosixRun(m, s, fuel) == TreeRun(m, s, fuel)
    ensures TreeEnds(m, s, end) <==> PosixEnds(m, s, end)
  {
    hide Run, Eval, Flat;
    if TreeEnds(m, s, end) {
      var fuel: nat :| var r := TreeRun(m, s, fuel);
        (r.Normal? && end == End(r.log, r.fail, false)) || (r.Stopped? && end == End(r.log, true, true));
      assert PosixRun(m, s, fuel) == TreeRun(m, s, fuel);
    }
    if PosixEnds(m, s, end) {
      var fuel: nat :| var r := PosixRun(m, s, fuel);
        (r.Normal? && end == End(r.log, r.fail, false)) || (r.Stopped? && end == End(r.log, true, true));
      assert PosixRun(m, s, fuel) == TreeRun(m, s, fuel);
    }
  }

  /** For scripts that stop at their first failure the status is that of the standard, for every script and world. */
  lemma StoppingIsPosix(m: Machine, s: Stmt, end: End)
    requires |m.code| == Size(s) && !m.ignore
    ensures TreeEnds(m, s, end) <==> PosixEnds(m, s, end)
  {
    hide Run, Eval, Flat, TreeEnds, PosixEnds;
    forall fuel: nat ensures PosixRun(m, s, fuel) == TreeRun(m, s, fuel) {
      var env := EnvOf(m);
      RunIsEval(env, s, 0, false, [], false, fuel);
      CourseSame(env, s, 0, false, [], false, false, fuel, true, false);
      NoFailure(env, s, 0, false, [], fuel, true);
      NoFailure(env, s, 0, false, [], fuel, false);
      BrokeFine(env, s, 0, false, [], false, fuel, true);
      BrokeFine(env, s, 0, false, [], false, fuel, false);
    }
    SameEnds(m, s, end);
  }

  /** The machine ends as the standard says. */
  ghost predicate PosixAgrees(m: Machine, s: Stmt, depth: nat)
    requires 0 < depth && |m.code| == Size(s)
  {
    forall end :: MachineEnds(m, depth, end) <==> PosixEnds(m, s, end)
  }

  /** So the machine that stops at the first failure meets the standard, status included. */
  lemma MachineIsPosix(m: Machine, s: Stmt, depth: nat)
    requires RunsScript(m, s, depth) && BreaksPlaced(s, Top) && LoopsSeparated(s, Top) && !m.ignore
    ensures PosixAgrees(m, s, depth)
  {
    hide TreeEnds, PosixEnds, MachineEnds, BreaksPlaced, LoopsSeparated, Flat, WellFormed;
    Refinement(m, s, depth);
    forall end ensures MachineEnds(m, depth, end) <==> PosixEnds(m, s, end) {
      StoppingIsPosix(m, s, end);
    }
  }

  /** A machine ends in one way only. */
  lemma OneEnd(m: Machine, depth: nat, a: End, b: End)
    requires 0 < depth && MachineEnds(m, depth, a) && MachineEnds(m, depth, b)
    ensures a == b
  {
    hide Step, Steps, Fresh;
    var j: nat :| var c := After(m, depth, j); !c.Running(m) && a == End(c.log, c.p.fail, c.halted);
    var k: nat :| var c := After(m, depth, k); !c.Running(m) && b == End(c.log, c.p.fail, c.halted);
    if j <= k {
      RestIsFinal(m, depth, j, k);
    } else {
      RestIsFinal(m, depth, k, j);
    }
  }

  /**
   The exact condition with failures ignored: the machine ends with the status of the standard in
   every world if and only if no loop whose body may end with a failed status can be the last to
   set the status of the script.
   */
  lemma StatusExactly(code: seq<Located>, s: Stmt, depth: nat)
    requires RunsScript(Machine(code, log => false, true), s, depth) && BreaksPlaced(s, Top) && LoopsSeparated(s, Top)
    ensures |code| == Size(s)
    ensures (forall world :: PosixAgrees(Machine(code, world, true), s, depth)) <==> !EndsInLoop(s, false)
  {
    hide Run, Eval, Flat, TreeEnds, PosixEnds, MachineEnds, BreaksPlaced, LoopsSeparated, WellFormed, EndsInLoop;
    if !EndsInLoop(s, false) {
      forall world ensures PosixAgrees(Machine(code, world, true), s, depth) {
        IgnoredIsPosix(Machine(code, world, true), s, depth);
      }
    } else {
      var m := IgnoredIsNot(code, s, depth);
      assert m == Machine(code, m.world, true);
    }
  }

  lemma IgnoredIsPosix(m: Machine, s: Stmt, depth: nat)
    requires RunsScript(m, s, depth) && BreaksPlaced(s, Top) && LoopsSeparated(s, Top) && !EndsInLoop(s, false)
    ensures PosixAgrees(m, s, depth)
  {
    hide Run, Eval, Flat, TreeEnds, PosixEnds, MachineEnds, BreaksPlaced, LoopsSeparated, WellFormed, EndsInLoop;
    Refinement(m, s, depth);
    forall fuel: nat ensures PosixRun(m, s, fuel) == TreeRun(m, s, fuel) {
      StatusSame(EnvOf(m), s, 0, false, [], false, fuel);
      RunIsEval(EnvOf(m), s, 0, false, [], false, fuel);
    }
    forall end ensures MachineEnds(m, depth, end) <==> PosixEnds(m, s, end) {
      SameEnds(m, s, end);
    }
  }

  lemma IgnoredIsNot(code: seq<Located>, s: Stmt, depth: nat) returns (m: Machine)
    requires RunsScript(Machine(code, log => false, true), s, depth) && BreaksPlaced(s, Top) && LoopsSeparated(s, Top)
    requires EndsInLoop(s, false)
    ensures m.code == code && m.ignore && |code| == Size(s) && 0 < depth && !PosixAgrees(m, s, depth)
  {
    hide Run, Eval, Flat, BreaksPlaced, LoopsSeparated, WellFormed, EndsInLoop, MachineEnds;
    var pos := EnvOf(Machine(code, log => false, true)).pos;
    var w := ToDifference(pos, s, 0, false, []);
    m := Machine(code, w, true);
    assert EnvOf(m).pos == pos;
    assert EnvOf(m) == Env(pos, w, true);
    RunIsEval(EnvOf(m), s, 0, false, [], false, 2);
    var a, b := PosixRun(m, s, 2), TreeRun(m, s, 2);
    assert PosixEnds(m, s, End(a.log, true, false));
    assert TreeEnds(m, s, End(a.log, false, false));
    assert Holds(m, 0, Flat(s));
    Refinement(m, s, depth);
    if PosixAgrees(m, s, depth) {
      OneEnd(m, depth, End(a.log, true, false), End(a.log, false, false));
    }
  }

  /**
   With failures ignored, `while a; do b; done` whose only round fails ends with success in the
   shell, and with failure by the standard.
   */
  lemma LoopForgets(m: Machine, a: Words, b: Words, depth: nat)
    requires RunsScript(m, Loop(false, a, Cmd(b)), depth) && m.ignore && |m.code| == 4
    requires var once := [Event(m.code[0].at, a)];
             var round := once + [Event(m.code[2].at, b)];
             !m.world(once) && m.world(round) && m.world(round + once)
    ensures var log := [Event(m.code[0].at, a), Event(m.code[2].at, b), Event(m.code[0].at, a)];
            && |m.code| == Size(Loop(false, a, Cmd(b)))
            && MachineEnds(m, depth, End(log, false, false)) && PosixEnds(m, Loop(false, a, Cmd(b)), End(log, true, false))
  {
    hide Run, Rounds, Flat, Eval, MachineEnds;
    var s, env := Loop(false, a, Cmd(b)), EnvOf(m);
    var once := [Event(m.code[0].at, a)];
    var round := once + [Event(m.code[2].at, b)];
    assert [Event(m.code[0].at, a), Event(m.code[2].at, b), Event(m.code[0].at, a)] == round + once;
    assert [] + once == once;
    SizeOf(s);
    SizeOf(s.body);
    RunOnce(env, s, true);
    RunOnce(env, s, false);
    RunIsEval(env, s, 0, false, [], false, 2);
    assert PosixRun(m, s, 2) == Normal(round + once, true);
    assert TreeRun(m, s, 2) == Normal(round + once, false);
    assert TreeEnds(m, s, End(round + once, false, false));
    Refinement(m, s, depth);
  }

  lemma RunOnce(env: Env, s: Stmt, p: bool)
    requires s.Loop? && !s.until && s.body.Cmd? && env.ignore && |env.pos| == 4 == Size(s) && Size(s.body) == 1
    requires var once := [Event(env.pos[0], s.cond)];
             var round := once + [Event(env.pos[2], s.body.argv)];
             !env.world(once) && env.world(round) && env.world(round + once)
    ensures var once := [Event(env.pos[0], s.cond)];
            Run(env, s, 0, false, [], false, 2, p) == Normal(once + [Event(env.pos[2], s.body.argv)] + once, p)
  {
    hide Rounds, Flat;
    var once := [Event(env.pos[0], s.cond)];
    assert [] + once == once;
    RunLoop(env, s, 0, false, [], false, 2, p);
    RunRounds(env, s, 0, [], false, 2, p);
    RunRounds(env, s, 0, once + [Event(env.pos[2], s.body.argv)], true, 1, p);
  }
}
