/**
 Output redirection on the console: a descriptor and a stream that is opened on first use,
 saved and restored around a redirected command. Whether they are restored hangs on a flag
 of the parser that the command itself may change by having further lines parsed.
 */
module ConsoleRedirect {
  import opened Options

  /** The output stream: not open yet, standard output, or opened on a descriptor. */
  datatype Stream = NoStream | Standard | OpenOn(fd: int)

  const STANDARD_FD: int := 1

  datatype Saved = Saved(fd: int, stream: Stream)

  /** Where the output of a line goes: where it went before, to a file, or to none as `open` fails. */
  datatype Target = Same | File(fd: int) | Missing

  /** What a command may do on its console. `opens` says that opening a stream would work. */
  datatype Action =
    | Write(opens: bool, text: string)
      // has a line parsed, whose arguments may hold backquoted commands
    | Line(args: seq<Action>, target: Target, body: seq<Action>)
      // the `time` command around some lines
    | Timed(lines: seq<Action>)
      // a backquoted command, with its output in a temporary file
    | Parm(args: seq<Action>, fd: int, body: seq<Action>)
      // backquotes without a command in them
    | EmptyParm(args: seq<Action>)

  /** What was written, and to which descriptor. */
  datatype Output = Output(fd: int, text: string)

  /**
   The console and the flag. `closed` lists the descriptors closed so far and `written` the
   outputs; `lost` says that the output was set from a save area that nothing had been saved in.
   */
  datatype State = State(fd: int, stream: Stream, closed: seq<int>, written: seq<Output>, redirect: bool, lost: bool) {
    /** The stream, once there is one, is that of the descriptor. */
    predicate Valid() {
      stream != NoStream ==> fd == DescriptorOf(stream)
    }
  }

  // ----- What the code does -----

  function Opened(st: State, opens: bool): (r: State)
    ensures st.Valid() ==> r.Valid()
  {
    if st.stream == NoStream && opens then st.(stream := OpenOn(st.fd)) else st
  }

  /** The descriptor under a stream. */
  function DescriptorOf(stream: Stream): int
    requires stream != NoStream
  {
    if stream == Standard then STANDARD_FD else stream.fd
  }

  /** A write: the stream is opened if need be, and without one nothing is written. */
  function Sent(st: State, opens: bool, text: string): (r: State)
    ensures st.Valid() ==> r.Valid()
  {
    var st' := Opened(st, opens);
    if st'.stream == NoStream then st'
    else st'.(written := st'.written + [Output(DescriptorOf(st'.stream), text)])
  }

  function Closed(st: State): (r: State)
    ensures r.Valid()
  {
    if st.stream == Standard then st.(fd := STANDARD_FD)
    else
      var now :=
        if st.stream.OpenOn? then [st.stream.fd] else if st.fd >= 0 && st.fd != STANDARD_FD then [st.fd] else [];
      st.(fd := -1, stream := NoStream, closed := st.closed + now)
  }

  function Undirected(st: State, save: Option<Saved>): (r: State) {
    match save
    case Some(s) => Closed(st).(fd := s.fd, stream := s.stream)
    case None => Closed(st).(fd := -1, stream := NoStream, lost := true)
  }

  /** nsh_execute in the foreground: the flag is looked at before the command and again after it. */
  function Execute(st: State, fd: int, body: seq<Action>): (r: State)
    decreases body, 1
  {
    var save := if st.redirect then Some(Saved(st.fd, st.stream)) else None;
    var st' := AllAfter(body, if st.redirect then st.(fd := fd, stream := NoStream) else st);
    if st'.redirect then Undirected(st', save) else st'
  }

  function After(a: Action, st: State): (r: State)
    decreases a, 2
  {
    match a
    case Write(opens, text) => Sent(st, opens, text)
    case Line(args, target, body) =>
      var st1 := AllAfter(args, st.(redirect := false));
      var st2 := if target.Same? then st1 else st1.(redirect := true);
      if st2.redirect && !target.File? then st2
      else Execute(st2, if target.File? then target.fd else -1, body)
    case Timed(lines) => AllAfter(lines, st).(redirect := st.redirect)
    case Parm(args, fd, body) => Execute(AllAfter(args, st.(redirect := true)), fd, body).(redirect := st.redirect)
    case EmptyParm(args) => AllAfter(args, st.(redirect := true))
  }

  function AllAfter(body: seq<Action>, st: State): (r: State)
    decreases body, 0
  {
    if body == [] then st else AllAfter(body[1..], After(body[0], st))
  }

  /** A background command on a clone of the console, from its creation to its release. */
  function Background(closed: seq<int>, written: seq<Output>, fd: int, body: seq<Action>): (r: State) {
    var st := AllAfter(body, State(fd, NoStream, closed, written, false, false));
    Closed(if st.redirect then st.(closed := st.closed + [fd]) else st)
  }

  // ----- The flag alone -----

  function FlagAfter(a: Action, flag: bool): (r: bool)
    decreases a, 1
  {
    match a
    case Write(_, _) => flag
    case Line(args, target, body) =>
      var flag' := FlagAll(args, false) || !target.Same?;
      if flag' && !target.File? then flag' else FlagAll(body, flag')
    case Timed(_) => flag
    case Parm(_, _, _) => flag
    case EmptyParm(args) => FlagAll(args, true)
  }

  function FlagAll(body: seq<Action>, flag: bool): (r: bool)
    decreases body, 0
  {
    if body == [] then flag else FlagAll(body[1..], FlagAfter(body[0], flag))
  }

  lemma {:induction false} FlagIs(a: Action, st: State)
    ensures After(a, st).redirect == FlagAfter(a, st.redirect)
    decreases a, 2
  {
    match a
    case Write(_, _) =>
    case Line(args, target, body) =>
      AllFlagIs(args, st.(redirect := false));
      var st1 := AllAfter(args, st.(redirect := false));
      var st2 := if target.Same? then st1 else st1.(redirect := true);
      ExecuteFlag(st2, if target.File? then target.fd else -1, body);
    case Timed(lines) =>
    case Parm(_, _, _) =>
    case EmptyParm(args) => AllFlagIs(args, st.(redirect := true));
  }

  lemma {:induction false} ExecuteFlag(st: State, fd: int, body: seq<Action>)
    ensures Execute(st, fd, body).redirect == FlagAll(body, st.redirect)
    decreases body, 1
  {
    AllFlagIs(body, if st.redirect then st.(fd := fd, stream := NoStream) else st);
  }

  lemma {:induction false} AllFlagIs(body: seq<Action>, st: State)
    ensures AllAfter(body, st).redirect == FlagAll(body, st.redirect)
    decreases body, 0
  {
    if body != [] {
      FlagIs(body[0], st);
      AllFlagIs(body[1..], After(body[0], st));
    }
  }

  // ----- Commands that leave the flag as they found it -----

  /** Every command executed within leaves the flag as it found it. */
  predicate Tame(a: Action, flag: bool)
    decreases a, 1
  {
    match a
    case Write(_, _) => true
    case Line(args, target, body) =>
      var flag' := FlagAll(args, false) || !target.Same?;
      TameAll(args, false) && ((flag' && !target.File?) || (TameAll(body, flag') && FlagAll(body, flag') == flag'))
    case Timed(lines) => TameAll(lines, flag)
    case Parm(args, _, body) =>
      var flag' := FlagAll(args, true);
      TameAll(args, true) && TameAll(body, flag') && FlagAll(body, flag') == flag'
    case EmptyParm(args) => TameAll(args, true)
  }

  predicate TameAll(body: seq<Action>, flag: bool)
    decreases body, 0
  {
    body != [] ==> Tame(body[0], flag) && TameAll(body[1..], FlagAfter(body[0], flag))
  }

  /** Descriptors from `open` are none of the standard ones in use. */
  predicate Usable(a: Action) {
    match a
    case Write(_, _) => true
    case Line(args, target, body) =>
      && (target.File? ==> UsableFd(target.fd))
      && (forall b :: b in args ==> Usable(b)) && (forall b :: b in body ==> Usable(b))
    case Timed(lines) => forall b :: b in lines ==> Usable(b)
    case Parm(args, fd, body) =>
      UsableFd(fd) && (forall b :: b in args ==> Usable(b)) && (forall b :: b in body ==> Usable(b))
    case EmptyParm(args) => forall b :: b in args ==> Usable(b)
  }

  predicate UsableFd(fd: int) {
    fd >= 0 && fd != STANDARD_FD
  }

  /** The descriptors of all redirections that take place, in the order in which their commands end. */
  function Descriptors(a: Action): (fds: seq<int>)
    decreases a, 1
  {
    match a
    case Write(_, _) => []
    case Line(args, target, body) =>
      var flag' := FlagAll(args, false) || !target.Same?;
      AllDescriptors(args) +
      if flag' && !target.File? then [] else AllDescriptors(body) + if flag' then [target.fd] else []
    case Timed(lines) => AllDescriptors(lines)
    case Parm(args, fd, body) =>
      AllDescriptors(args) + AllDescriptors(body) + if FlagAll(args, true) then [fd] else []
    case EmptyParm(args) => AllDescriptors(args)
  }

  function AllDescriptors(body: seq<Action>): (fds: seq<int>)
    decreases body, 0
  {
    if body == [] then [] else Descriptors(body[0]) + AllDescriptors(body[1..])
  }

  /** The output is as it was, but that a stream may have been opened where there was none. */
  predicate Kept(st: State, r: State) {
    && r.Valid() && !r.lost && r.fd == st.fd
    && (r.stream == st.stream || (st.stream == NoStream && r.stream == OpenOn(st.fd)))
  }

  /**
   Stack discipline: when every command leaves the flag as it found it, the output is the
   original one after any nest of redirections, and each redirection has closed its
   descriptor exactly once, innermost first, whether or not anything was written to it.
   */
  lemma {:induction false} Disciplined(a: Action, st: State)
    requires st.Valid() && !st.lost && Usable(a) && Tame(a, st.redirect)
    ensures Kept(st, After(a, st)) && After(a, st).closed == st.closed + Descriptors(a)
    decreases a, 2
  {
    match a
    case Write(_, _) =>
    case Line(_, _, _) =>
      LineDisciplined(a, st);
    case Timed(lines) =>
      AllDisciplined(lines, st);
    case Parm(_, _, _) =>
      ParmDisciplined(a, st);
    case EmptyParm(args) =>
      AllDisciplined(args, st.(redirect := true));
  }

  lemma {:induction false} LineDisciplined(a: Action, st: State)
    requires a.Line? && st.Valid() && !st.lost && Usable(a) && Tame(a, st.redirect)
    ensures Kept(st, After(a, st)) && After(a, st).closed == st.closed + Descriptors(a)
    decreases a, 1
  {
    hide AllAfter, Execute, FlagAll, TameAll, AllDescriptors;
    AllDisciplined(a.args, st.(redirect := false));
    AllFlagIs(a.args, st.(redirect := false));
    var st1 := AllAfter(a.args, st.(redirect := false));
    var st2 := if a.target.Same? then st1 else st1.(redirect := true);
    if !(st2.redirect && !a.target.File?) {
      ExecuteDisciplined(st2, if a.target.File? then a.target.fd else -1, a.body);
    }
  }

  lemma {:induction false} ParmDisciplined(a: Action, st: State)
    requires a.Parm? && st.Valid() && !st.lost && Usable(a) && Tame(a, st.redirect)
    ensures Kept(st, After(a, st)) && After(a, st).closed == st.closed + Descriptors(a)
    decreases a, 1
  {
    hide AllAfter, Execute, FlagAll, TameAll, AllDescriptors;
    AllDisciplined(a.args, st.(redirect := true));
    AllFlagIs(a.args, st.(redirect := true));
    ExecuteDisciplined(AllAfter(a.args, st.(redirect := true)), a.fd, a.body);
  }

  lemma {:induction false} ExecuteDisciplined(st: State, fd: int, body: seq<Action>)
    requires st.Valid() && !st.lost && (st.redirect ==> UsableFd(fd)) && forall b :: b in body ==> Usable(b)
    requires TameAll(body, st.redirect) && FlagAll(body, st.redirect) == st.redirect
    ensures Kept(st, Execute(st, fd, body))
    ensures Execute(st, fd, body).closed == st.closed + AllDescriptors(body) + if st.redirect then [fd] else []
    ensures st.redirect ==> Execute(st, fd, body).stream == st.stream
    decreases body, 1
  {
    var st' := if st.redirect then st.(fd := fd, stream := NoStream) else st;
    AllDisciplined(body, st');
    AllFlagIs(body, st');
  }

  lemma {:induction false} AllDisciplined(body: seq<Action>, st: State)
    requires st.Valid() && !st.lost && (forall b :: b in body ==> Usable(b)) && TameAll(body, st.redirect)
    ensures Kept(st, AllAfter(body, st)) && AllAfter(body, st).closed == st.closed + AllDescriptors(body)
    decreases body, 0
  {
    if body != [] {
      Disciplined(body[0], st);
      FlagIs(body[0], st);
      AllDisciplined(body[1..], After(body[0], st));
    }
  }

  // ----- Where writes go -----

  /** What is written, and whether the stream of the output is open afterwards. */
  datatype Route = Route(out: seq<Output>, open: bool)

  /**
   What an action writes when the output around it is the descriptor `fd`, on which a stream has
   been opened or not: each redirection is an output of its own, for its body alone.
   */
  function Routed(a: Action, fd: int, open: bool, flag: bool): (r: Route)
    decreases a, 1
  {
    match a
    case Write(opens, text) =>
      if open || opens then Route([Output(fd, text)], true) else Route([], false)
    case Line(args, target, body) =>
      var before := AllRouted(args, fd, open, false);
      var flag' := FlagAll(args, false) || !target.Same?;
      if flag' && !target.File? then before
      else if flag' then before.(out := before.out + AllRouted(body, target.fd, false, true).out)
      else
        var inside := AllRouted(body, fd, before.open, false);
        inside.(out := before.out + inside.out)
    case Timed(lines) => AllRouted(lines, fd, open, flag)
    case Parm(args, own, body) =>
      var before := AllRouted(args, fd, open, true);
      if FlagAll(args, true) then before.(out := before.out + AllRouted(body, own, false, true).out)
      else
        var inside := AllRouted(body, fd, before.open, false);
        inside.(out := before.out + inside.out)
    case EmptyParm(args) => AllRouted(args, fd, open, true)
  }

  function AllRouted(body: seq<Action>, fd: int, open: bool, flag: bool): (r: Route)
    decreases body, 0
  {
    if body == [] then Route([], open) else
      var first := Routed(body[0], fd, open, flag);
      var rest := AllRouted(body[1..], fd, first.open, FlagAfter(body[0], flag));
      rest.(out := first.out + rest.out)
  }

  /** The descriptor that is written to, and whether a stream is open. */
  predicate Writes(st: State, fd: int, open: bool) {
    st.Valid() && !st.lost && open == (st.stream != NoStream) && fd == if open then DescriptorOf(st.stream) else st.fd
  }

  /** From `st` to `r` this was written, and the output goes where it went. */
  predicate Follows(st: State, r: State, fd: int, route: Route) {
    r.written == st.written + route.out && Writes(r, fd, route.open)
  }

  /**
   In any nest of redirections whose commands leave the flag as found, every write reaches the
   descriptor of the innermost redirection around it, in order; it is lost only where no stream
   can be opened and none has been.
   */
  lemma {:induction false} WritesReach(a: Action, st: State, fd: int, open: bool)
    requires Writes(st, fd, open) && Usable(a) && Tame(a, st.redirect)
    ensures Follows(st, After(a, st), fd, Routed(a, fd, open, st.redirect))
    decreases a, 2
  {
    match a
    case Write(_, _) =>
    case Line(_, _, _) =>
      LineReaches(a, st, fd, open);
    case Timed(lines) =>
      AllReach(lines, st, fd, open);
    case Parm(_, _, _) =>
      ParmReaches(a, st, fd, open);
    case EmptyParm(args) =>
      AllReach(args, st.(redirect := true), fd, open);
  }

  lemma {:induction false} LineReaches(a: Action, st: State, fd: int, open: bool)
    requires a.Line? && Writes(st, fd, open) && Usable(a) && Tame(a, st.redirect)
    ensures Follows(st, After(a, st), fd, Routed(a, fd, open, st.redirect))
    decreases a, 1
  {
    hide AllAfter, Execute, FlagAll, TameAll, AllRouted;
    AllReach(a.args, st.(redirect := false), fd, open);
    AllFlagIs(a.args, st.(redirect := false));
    var st1 := AllAfter(a.args, st.(redirect := false));
    var st2 := if a.target.Same? then st1 else st1.(redirect := true);
    if !(st2.redirect && !a.target.File?) {
      ExecuteReaches(st2, if a.target.File? then a.target.fd else -1, a.body, fd, st1.stream != NoStream);
    }
  }

  lemma {:induction false} ParmReaches(a: Action, st: State, fd: int, open: bool)
    requires a.Parm? && Writes(st, fd, open) && Usable(a) && Tame(a, st.redirect)
    ensures Follows(st, After(a, st), fd, Routed(a, fd, open, st.redirect))
    decreases a, 1
  {
    hide AllAfter, Execute, FlagAll, TameAll, AllRouted;
    AllReach(a.args, st.(redirect := true), fd, open);
    AllFlagIs(a.args, st.(redirect := true));
    var st1 := AllAfter(a.args, st.(redirect := true));
    ExecuteReaches(st1, a.fd, a.body, fd, st1.stream != NoStream);
  }

  /** A command that is executed: into its own descriptor, or into that around it. */
  lemma {:induction false} ExecuteReaches(st: State, own: int, body: seq<Action>, fd: int, open: bool)
    requires Writes(st, fd, open) && (st.redirect ==> UsableFd(own)) && forall b :: b in body ==> Usable(b)
    requires TameAll(body, st.redirect) && FlagAll(body, st.redirect) == st.redirect
    ensures var inside := AllRouted(body, if st.redirect then own else fd, !st.redirect && open, st.redirect);
            Follows(st, Execute(st, own, body), fd, if st.redirect then inside.(open := open) else inside)
    decreases body, 1
  {
    hide FlagAll, TameAll, AllRouted, AllAfter;
    var st' := if st.redirect then st.(fd := own, stream := NoStream) else st;
    AllReach(body, st', if st.redirect then own else fd, !st.redirect && open);
    AllFlagIs(body, st');
  }

  lemma {:induction false} AllReach(body: seq<Action>, st: State, fd: int, open: bool)
    requires Writes(st, fd, open) && (forall b :: b in body ==> Usable(b)) && TameAll(body, st.redirect)
    ensures Follows(st, AllAfter(body, st), fd, AllRouted(body, fd, open, st.redirect))
    decreases body, 0
  {
    if body != [] {
      WritesReach(body[0], st, fd, open);
      FlagIs(body[0], st);
      var first := Routed(body[0], fd, open, st.redirect);
      AllReach(body[1..], After(body[0], st), fd, first.open);
    }
  }

  /** Streams can be opened wherever there is a write. */
  predicate Openable(a: Action) {
    match a
    case Write(opens, _) => opens
    case Line(args, _, body) => (forall b :: b in args ==> Openable(b)) && (forall b :: b in body ==> Openable(b))
    case Timed(lines) => forall b :: b in lines ==> Openable(b)
    case Parm(args, _, body) => (forall b :: b in args ==> Openable(b)) && (forall b :: b in body ==> Openable(b))
    case EmptyParm(args) => forall b :: b in args ==> Openable(b)
  }

  /** All texts of an action, in order, but those of a command whose file cannot be opened. */
  function Said(a: Action): (texts: seq<string>)
    decreases a, 1
  {
    match a
    case Write(_, text) => [text]
    case Line(args, target, body) =>
      AllSaid(args) + if (FlagAll(args, false) || !target.Same?) && !target.File? then [] else AllSaid(body)
    case Timed(lines) => AllSaid(lines)
    case Parm(args, _, body) => AllSaid(args) + AllSaid(body)
    case EmptyParm(args) => AllSaid(args)
  }

  function AllSaid(body: seq<Action>): (texts: seq<string>)
    decreases body, 0
  {
    if body == [] then [] else Said(body[0]) + AllSaid(body[1..])
  }

  function TextsOf(out: seq<Output>): (texts: seq<string>) {
    seq(|out|, k requires 0 <= k < |out| => out[k].text)
  }

  lemma TextsJoin(a: seq<Output>, b: seq<Output>)
    ensures TextsOf(a + b) == TextsOf(a) + TextsOf(b)
  {
  }

  /** When streams can be opened, every text is written once, in order. */
  lemma {:induction false} NothingLost(a: Action, fd: int, open: bool, flag: bool)
    requires Openable(a)
    ensures TextsOf(Routed(a, fd, open, flag).out) == Said(a)
    decreases a, 1
  {
    hide TextsOf, FlagAll;
    match a
    case Write(_, text) =>
      OneText(fd, text);
    case Line(args, target, body) =>
      var before := AllRouted(args, fd, open, false);
      AllWritten(args, fd, open, false);
      AllWritten(body, if target.File? then target.fd else -1, false, true);
      AllWritten(body, fd, before.open, false);
      TextsJoin(before.out, AllRouted(body, if target.File? then target.fd else -1, false, true).out);
      TextsJoin(before.out, AllRouted(body, fd, before.open, false).out);
    case Timed(lines) =>
      AllWritten(lines, fd, open, flag);
    case Parm(args, own, body) =>
      var before := AllRouted(args, fd, open, true);
      AllWritten(args, fd, open, true);
      AllWritten(body, own, false, true);
      AllWritten(body, fd, before.open, false);
      TextsJoin(before.out, AllRouted(body, own, false, true).out);
      TextsJoin(before.out, AllRouted(body, fd, before.open, false).out);
    case EmptyParm(args) =>
      AllWritten(args, fd, open, true);
  }

  lemma OneText(fd: int, text: string)
    ensures TextsOf([Output(fd, text)]) == [text] && TextsOf([]) == []
  {
  }

  lemma {:induction false} AllWritten(body: seq<Action>, fd: int, open: bool, flag: bool)
    requires forall b :: b in body ==> Openable(b)
    ensures TextsOf(AllRouted(body, fd, open, flag).out) == AllSaid(body)
    decreases body, 0
  {
    hide TextsOf;
    if body == [] {
      OneText(fd, "");
    } else {
      var first := Routed(body[0], fd, open, flag);
      NothingLost(body[0], fd, open, flag);
      AllWritten(body[1..], fd, first.open, FlagAfter(body[0], flag));
      TextsJoin(first.out, AllRouted(body[1..], fd, first.open, FlagAfter(body[0], flag)).out);
    }
  }

  /** What a redirected background command writes outside redirections of its own goes to its file. */
  lemma BackgroundReaches(closed: seq<int>, written: seq<Output>, fd: int, body: seq<Action>)
    requires UsableFd(fd) && (forall b :: b in body ==> Usable(b)) && TameAll(body, false)
    ensures Background(closed, written, fd, body).written == written + AllRouted(body, fd, false, false).out
  {
    hide AllAfter, FlagAll, TameAll, Usable, AllRouted;
    AllReach(body, State(fd, NoStream, closed, written, false, false), fd, false);
  }

  // ----- Exactly when -----

  /**
   A foreground command gives the output back if and only if it leaves the flag as it found
   it. One that clears the flag is never undirected: its file stays the output, and open. One
   that sets it has the output restored from a save area that was never filled.
   */
  lemma ForegroundExactly(st: State, fd: int, body: seq<Action>)
    requires st.Valid() && !st.lost && (forall b :: b in body ==> Usable(b)) && TameAll(body, st.redirect)
    requires st.redirect ==> UsableFd(fd) && fd != st.fd
    ensures Kept(st, Execute(st, fd, body)) <==> FlagAll(body, st.redirect) == st.redirect
    ensures st.redirect && !FlagAll(body, true) ==>
              var r := Execute(st, fd, body); r.fd == fd && r.closed == st.closed + AllDescriptors(body)
    ensures !st.redirect && FlagAll(body, false) ==> Execute(st, fd, body).lost
  {
    hide AllAfter, FlagAll, TameAll, Usable;
    var st' := if st.redirect then st.(fd := fd, stream := NoStream) else st;
    AllDisciplined(body, st');
    AllFlagIs(body, st');
    if FlagAll(body, st.redirect) == st.redirect {
      ExecuteDisciplined(st, fd, body);
    }
  }

  /**
   A redirected background command closes its descriptor exactly once if and only if it
   leaves the flag of its clone clear; otherwise it closes it twice.
   */
  lemma BackgroundExactly(closed: seq<int>, written: seq<Output>, fd: int, body: seq<Action>)
    requires UsableFd(fd) && (forall b :: b in body ==> Usable(b)) && TameAll(body, false)
    ensures Background(closed, written, fd, body).closed ==
              closed + AllDescriptors(body) + if FlagAll(body, false) then [fd, fd] else [fd]
    ensures Background(closed, written, fd, body).closed == closed + AllDescriptors(body) + [fd] <==> !FlagAll(body, false)
  {
    hide AllAfter, FlagAll, TameAll, Usable;
    var st := State(fd, NoStream, closed, written, false, false);
    AllDisciplined(body, st);
    AllFlagIs(body, st);
    var before := closed + AllDescriptors(body);
    assert before + [fd] + [fd] == before + [fd, fd];
  }

  /** A line that is redirected leaves the flag set, so a command that has one parsed last does not restore it. */
  lemma RedirectedLineSets(args: seq<Action>, fd: int, flag: bool)
    ensures FlagAfter(Line(args, File(fd), []), flag)
    ensures !FlagAfter(Line([], Same, []), flag)
    ensures FlagAfter(Timed([Line(args, File(fd), [])]), flag) == flag
  {
  }

  // ----- In place -----

  class Console {
    var outfd: int
    var outstream: Stream
    var closed: seq<int>
    var written: seq<Output>
    var redirect: bool
    var lost: bool

    ghost function View(): (st: State)
      reads this
    {
      State(outfd, outstream, closed, written, redirect, lost)
    }

    /** nsh_newconsole, also for a clone: all zero but the output, which is standard output. */
    constructor (closed: seq<int>, written: seq<Output>)
      ensures View() == State(1, Standard, closed, written, false, false) && View().Valid()
    {
      outfd, outstream, this.closed, this.written, redirect, lost := STANDARD_FD, Standard, closed, written, false, false;
    }

    /** nsh_openifnotopen */
    method OpenIfNotOpen(opens: bool) returns (ok: bool)
      modifies this`outstream
      ensures View() == Opened(old(View()), opens)
      ensures ok <==> old(outstream) != NoStream || opens
      ensures ok ==> outstream == if old(outstream) == NoStream then OpenOn(outfd) else old(outstream)
    {
      if outstream == NoStream && opens {
        outstream := OpenOn(outfd);
      }
      ok := outstream != NoStream;
    }

    /** nsh_consolewrite and nsh_consoleoutput */
    method WriteText(opens: bool, text: string) returns (ok: bool)
      modifies this`outstream, this`written
      ensures View() == Sent(old(View()), opens, text)
      ensures ok <==> old(outstream) != NoStream || opens
    {
      ok := OpenIfNotOpen(opens);
      if ok {
        written := written + [Output(DescriptorOf(outstream), text)];
      }
    }

    /** nsh_closeifnotclosed */
    method CloseIfNotClosed()
      modifies this`outfd, this`outstream, this`closed
      ensures View() == Closed(old(View()))
    {
      if outstream == Standard {
        outfd := STANDARD_FD;
      } else {
        if outstream.OpenOn? {
          closed := closed + [outstream.fd];
        } else if outfd >= 0 && outfd != STANDARD_FD {
          closed := closed + [outfd];
        }
        outfd, outstream := -1, NoStream;
      }
    }

    /** nsh_consoleredirect */
    method Redirect(fd: int) returns (save: Saved)
      modifies this`outfd, this`outstream
      ensures save == Saved(old(outfd), old(outstream))
      ensures View() == old(View()).(fd := fd, stream := NoStream)
    {
      save := Saved(outfd, outstream);
      outfd, outstream := fd, NoStream;
    }

    /** nsh_consoleundirect; `None` is a save area that was never filled. */
    method Undirect(save: Option<Saved>)
      modifies this
      ensures View() == Undirected(old(View()), save)
    {
      CloseIfNotClosed();
      match save
      case Some(s) => outfd, outstream := s.fd, s.stream;
      case None => outfd, outstream, lost := -1, NoStream, true;
    }

    /** The foreground part of nsh_execute. */
    method ExecuteCommand(fd: int, body: seq<Action>)
      modifies this
      ensures View() == Execute(old(View()), fd, body)
      decreases body, 1
    {
      var save := None;
      if redirect {
        var s := Redirect(fd);
        save := Some(s);
      }
      PerformAll(body);
      if redirect {
        Undirect(save);
      }
    }

    method Perform(a: Action)
      modifies this
      ensures View() == After(a, old(View()))
      decreases a, 2
    {
      match a
      case Write(opens, text) =>
        var _ := WriteText(opens, text);
      case Line(args, target, body) =>
        redirect := false;
        PerformAll(args);
        if !target.Same? {
          redirect := true;
        }
        if !redirect || target.File? {
          ExecuteCommand(if target.File? then target.fd else -1, body);
        }
      case Timed(lines) =>
        var save := redirect;
        PerformAll(lines);
        redirect := save;
      case Parm(args, fd, body) =>
        var save := redirect;
        redirect := true;
        PerformAll(args);
        ExecuteCommand(fd, body);
        redirect := save;
      case EmptyParm(args) =>
        redirect := true;
        PerformAll(args);
    }

    method PerformAll(body: seq<Action>)
      modifies this
      ensures View() == AllAfter(body, old(View()))
      decreases body, 0
    {
      if body != [] {
        Perform(body[0]);
        PerformAll(body[1..]);
      }
    }

    /** nsh_releaseargs and nsh_consolerelease. */
    method ReleaseArgs(fd: int)
      modifies this
      ensures View() == Closed(if old(redirect) then old(View()).(closed := old(closed) + [fd]) else old(View()))
    {
      if redirect {
        closed := closed + [fd];
      }
      CloseIfNotClosed();
    }
  }

  /** The background part of nsh_execute, and nsh_child, for a redirected command. */
  method RunBackground(closed: seq<int>, written: seq<Output>, fd: int, body: seq<Action>)
    returns (now: seq<int>, out: seq<Output>)
    ensures var r := Background(closed, written, fd, body); now == r.closed && out == r.written
  {
    var clone := new Console(closed, written);
    var _ := clone.Redirect(fd);
    clone.PerformAll(body);
    clone.ReleaseArgs(fd);
    now, out := clone.closed, clone.written;
  }
}
