/**
 What the Modbus master tells its application. The type of a failure is kept in one place
 until the failure is reported, so reports are true only as long as requests do not get in
 each other's way; this module says exactly when that is.
 */
module ModbusReports {
  import opened ModbusMaster

  /** The end of a request that this action brings about, at the time it is known. */
  function Verdict(cfg: Config, st: State, a: Action): (v: seq<Report>) {
    if a.Fail? then [Failed(a.error)]
    else if !a.DoPoll? || !st.enabled || st.queue == [] then []
    else if st.queue[0] == FrameReceived then
      if a.input.received.ok && a.input.received.address == st.dest then [] else [Failed(ReceiveData)]
    else if st.queue[0] == Execute then
      var made := Made(cfg, st.frame, a.input.broadcast, st.dest);
      if Raised(cfg, st.frame, made, st.calls + made) == NO_EXCEPTION then [Succeeded] else [Failed(ExecuteFunction)]
    else []
  }

  function Verdicts(cfg: Config, st: State, actions: seq<Action>): (v: seq<Report>)
    decreases |actions|
  {
    if actions == [] then [] else
      Verdict(cfg, st, actions[0]) + Verdicts(cfg, Act(cfg, st, actions[0]), actions[1..])
  }

  lemma {:induction false} RunAppend(cfg: Config, st: State, x: seq<Action>, y: seq<Action>)
    ensures Run(cfg, st, x + y) == Run(cfg, Run(cfg, st, x), y)
    ensures Verdicts(cfg, st, x + y) == Verdicts(cfg, st, x) + Verdicts(cfg, Run(cfg, st, x), y)
    decreases |x|
  {
    hide Act, Verdict;
    if x == [] {
      assert x + y == y;
    } else {
      assert (x + y)[1..] == x[1..] + y;
      RunAppend(cfg, Act(cfg, st, x[0]), x[1..], y);
    }
  }

  lemma RunOne(cfg: Config, st: State, a: Action)
    ensures Run(cfg, st, [a]) == Act(cfg, st, a) && Verdicts(cfg, st, [a]) == Verdict(cfg, st, a)
  {
    hide Act, Verdict;
    assert [a][1..] == [];
    assert Verdicts(cfg, Act(cfg, st, a), []) == [];
  }

  // ----- Completions in the queue -----

  /** The completing events of a queue, in order. */
  function Waiting(queue: seq<EventType>): (w: seq<EventType>)
    ensures w != [] ==> queue != []
  {
    if queue == [] then [] else (if Completes(queue[0]) then [queue[0]] else []) + Waiting(queue[1..])
  }

  lemma {:induction false} WaitingAppend(queue: seq<EventType>, e: EventType)
    ensures Waiting(queue + [e]) == Waiting(queue) + if Completes(e) then [e] else []
  {
    var last := if Completes(e) then [e] else [];
    if queue == [] {
      assert queue + [e] == [e] && [e][1..] == [] && Waiting([e]) == last + Waiting([]) && Waiting([]) == [];
    } else {
      assert (queue + [e])[1..] == queue[1..] + [e];
      WaitingAppend(queue[1..], e);
      var first, rest := if Completes(queue[0]) then [queue[0]] else [], Waiting(queue[1..]);
      assert Waiting(queue + [e]) == first + (rest + last) == (first + rest) + last;
    }
  }

  lemma {:induction false} WaitingHas(queue: seq<EventType>, e: EventType)
    requires Completes(e)
    ensures e in queue <==> e in Waiting(queue)
  {
    if queue != [] {
      assert queue == [queue[0]] + queue[1..];
      WaitingHas(queue[1..], e);
    }
  }

  /** What a poll does to the completing events. */
  lemma WaitingPoll(queue: seq<EventType>, e: EventType)
    requires queue != []
    ensures Completes(queue[0]) ==> Waiting(queue) != [] && Waiting(queue)[0] == queue[0]
    ensures Waiting(queue[1..]) == if Completes(queue[0]) then Waiting(queue)[1..] else Waiting(queue)
    ensures Waiting(queue[1..] + [e]) == Waiting(queue[1..]) + if Completes(e) then [e] else []
  {
    WaitingAppend(queue[1..], e);
  }

  // ----- Requests that keep out of each other's way -----

  /** The events that others than the master itself post, failures aside. */
  predicate Foreign(a: Action) {
    a.Post? ==> a.event != Execute && a.event != ErrorProcess
  }

  /**
   A failure is posted only when no completing event is pending, a frame only when no frame
   waits or is being executed.
   */
  predicate Careful(st: State, a: Action) {
    && (a.Fail? ==> Waiting(st.queue) == [])
    && (a == Post(FrameReceived) ==> FrameReceived !in st.queue && Execute !in st.queue)
  }

  predicate AllCareful(cfg: Config, st: State, actions: seq<Action>)
    decreases |actions|
  {
    actions != [] ==> Careful(st, actions[0]) && AllCareful(cfg, Act(cfg, st, actions[0]), actions[1..])
  }

  ghost predicate AllForeign(actions: seq<Action>) {
    forall k :: 0 <= k < |actions| ==> Foreign(actions[k])
  }

  /** What can be pending in a careful run. */
  predicate Tidy(queue: seq<EventType>) {
    var w := Waiting(queue);
    || w == [] || w == [FrameReceived] || w == [Execute] || w == [ErrorProcess]
    || w == [ErrorProcess, FrameReceived]
  }

  /** A failure that is known but not yet reported. */
  function Unreported(st: State): (r: seq<Report>) {
    if ErrorProcess in st.queue then [Failed(st.error)] else []
  }

  lemma PollReports(cfg: Config, st: State, input: Input)
    requires Tidy(st.queue)
    ensures var r := Poll(cfg, st, input);
            && Tidy(r.queue)
            && r.reports + Unreported(r) == st.reports + Unreported(st) + Verdict(cfg, st, DoPoll(input))
  {
    hide Made, Raised, Lookup, Waiting, Tidy;
    if st.enabled && st.queue != [] {
      TidyRest(st.queue);
    }
  }

  /** The queue without its first event, and with what handling that event may add. */
  lemma TidyRest(queue: seq<EventType>)
    requires queue != [] && Tidy(queue)
    ensures queue[0] != FrameReceived && queue[0] != Execute ==> Tidy(queue[1..])
    ensures queue[0] == FrameReceived ==> Tidy(queue[1..] + [Execute])
    ensures queue[0] == Execute ==> Tidy(queue[1..])
    ensures queue[0] == FrameReceived || queue[0] == Execute ==> Tidy(queue[1..] + [ErrorProcess])
    ensures Completes(queue[0]) ==> ErrorProcess !in queue[1..]
    ensures ErrorProcess in queue <==> queue[0] == ErrorProcess || ErrorProcess in queue[1..]
  {
    hide Waiting;
    WaitingPoll(queue, Execute);
    WaitingPoll(queue, ErrorProcess);
    WaitingHas(queue[1..], ErrorProcess);
    assert queue == [queue[0]] + queue[1..];
  }

  lemma ActReports(cfg: Config, st: State, a: Action)
    requires Tidy(st.queue) && Careful(st, a) && Foreign(a)
    ensures var r := Act(cfg, st, a);
            && Tidy(r.queue)
            && r.reports + Unreported(r) == st.reports + Unreported(st) + Verdict(cfg, st, a)
  {
    hide Poll, Waiting, Tidy;
    match a {
      case Post(e) => TidyPost(st.queue, e);
      case Fail(e) => TidyPost(st.queue, ErrorProcess);
      case DoPoll(input) => PollReports(cfg, st, input);
      case _ =>
    }
  }

  lemma TidyPost(queue: seq<EventType>, e: EventType)
    requires Tidy(queue) && e != Execute
    requires e == FrameReceived ==> FrameReceived !in queue && Execute !in queue
    requires e == ErrorProcess ==> Waiting(queue) == []
    ensures Tidy(queue + [e])
    ensures ErrorProcess in queue + [e] <==> ErrorProcess in queue || e == ErrorProcess
    ensures Waiting(queue) == [] ==> ErrorProcess !in queue
  {
    hide Waiting;
    WaitingAppend(queue, e);
    WaitingHas(queue, FrameReceived);
    WaitingHas(queue, Execute);
    WaitingHas(queue, ErrorProcess);
  }

  /**
   Over every careful run the reports made, and the one failure that may still wait, tell
   exactly how the requests ended, in order.
   */
  lemma {:induction false} ReportsTrue(cfg: Config, st: State, actions: seq<Action>)
    requires Tidy(st.queue) && AllCareful(cfg, st, actions) && AllForeign(actions)
    ensures Tidy(Run(cfg, st, actions).queue)
    ensures var r := Run(cfg, st, actions);
            r.reports + Unreported(r) == st.reports + Unreported(st) + Verdicts(cfg, st, actions)
    decreases |actions|
  {
    hide Act, Verdict, Tidy, Careful, Unreported;
    if actions != [] {
      var st' := Act(cfg, st, actions[0]);
      ActReports(cfg, st, actions[0]);
      ReportsTrue(cfg, st', actions[1..]);
      var before, v, rest := st.reports + Unreported(st), Verdict(cfg, st, actions[0]), Verdicts(cfg, st', actions[1..]);
      assert (before + v) + rest == before + (v + rest);
    }
  }

  lemma {:induction false} CarefulAppend(cfg: Config, st: State, x: seq<Action>, y: seq<Action>)
    ensures AllCareful(cfg, st, x + y) <==> AllCareful(cfg, st, x) && AllCareful(cfg, Run(cfg, st, x), y)
    decreases |x|
  {
    hide Act, Careful;
    if x == [] {
      assert x + y == y;
    } else {
      assert (x + y)[1..] == x[1..] + y;
      CarefulAppend(cfg, Act(cfg, st, x[0]), x[1..], y);
    }
  }

  // ----- Polling until the queue is empty -----

  function Polls(input: Input, n: nat): (actions: seq<Action>)
    ensures |actions| == n && forall k :: 0 <= k < n ==> actions[k] == DoPoll(input)
  {
    if n == 0 then [] else [DoPoll(input)] + Polls(input, n - 1)
  }

  /** No more polls than this are needed to empty a queue. */
  function Work(queue: seq<EventType>): (n: nat)
    ensures queue == [] <==> n == 0
  {
    if queue == [] then 0 else
      (if queue[0] == FrameReceived then 3 else if queue[0] == Execute then 2 else 1) + Work(queue[1..])
  }

  lemma {:induction false} WorkAppend(queue: seq<EventType>, e: EventType)
    ensures Work(queue + [e]) == Work(queue) + if e == FrameReceived then 3 else if e == Execute then 2 else 1
  {
    if queue == [] {
      assert queue + [e] == [e] && [e][1..] == [];
    } else {
      assert (queue + [e])[1..] == queue[1..] + [e];
      WorkAppend(queue[1..], e);
    }
  }

  lemma PollWorks(cfg: Config, st: State, input: Input)
    requires st.enabled
    ensures var r := Poll(cfg, st, input);
            r.enabled && (st.queue == [] ==> r == st) && (st.queue != [] ==> Work(r.queue) < Work(st.queue))
  {
    hide Made, Raised, Lookup;
    if st.queue != [] {
      WorkAppend(st.queue[1..], Execute);
      WorkAppend(st.queue[1..], ErrorProcess);
    }
  }

  /** What comes of polling with one input until the queue is empty: new reports and verdicts. */
  datatype Drained = Drained(st: State, verdicts: seq<Report>)

  function Drain(cfg: Config, st: State, input: Input, n: nat): (r: Drained)
    ensures r.st == Run(cfg, st, Polls(input, n)) && r.verdicts == Verdicts(cfg, st, Polls(input, n))
    decreases n
  {
    if n > 0 then
      assert Polls(input, n)[0] == DoPoll(input) && Polls(input, n)[1..] == Polls(input, n - 1);
      var r := Drain(cfg, Poll(cfg, st, input), input, n - 1);
      Drained(r.st, Verdict(cfg, st, DoPoll(input)) + r.verdicts)
    else Drained(st, [])
  }

  lemma {:induction false} DrainEmpties(cfg: Config, st: State, input: Input, n: nat)
    requires st.enabled && n >= Work(st.queue)
    ensures Drain(cfg, st, input, n).st.queue == []
    decreases n
  {
    hide Poll, Verdict;
    if n > 0 {
      PollWorks(cfg, st, input);
      DrainEmpties(cfg, Poll(cfg, st, input), input, n - 1);
    }
  }

  /** Reports are only ever added. */
  lemma {:induction false} ReportsGrow(cfg: Config, st: State, input: Input, n: nat)
    ensures st.reports <= Drain(cfg, st, input, n).st.reports
    decreases n
  {
    hide Poll, Verdict;
    if n > 0 {
      PollGrows(cfg, st, input);
      ReportsGrow(cfg, Poll(cfg, st, input), input, n - 1);
    }
  }

  lemma PollGrows(cfg: Config, st: State, input: Input)
    ensures st.reports <= Poll(cfg, st, input).reports
  {
    hide Made, Raised;
  }

  /** The first report of a drain is `first`. */
  ghost predicate Tells(cfg: Config, st: State, input: Input, n: nat, first: Report) {
    st.reports + [first] <= Drain(cfg, st, input, n).st.reports
  }

  /** A poll that reports, or one that leaves it to the next. */
  lemma TellsNow(cfg: Config, st: State, input: Input, n: nat, first: Report)
    requires n > 0 && Poll(cfg, st, input).reports == st.reports + [first]
    ensures Tells(cfg, st, input, n, first)
  {
    hide Poll, Verdict;
    ReportsGrow(cfg, Poll(cfg, st, input), input, n - 1);
  }

  lemma TellsLater(cfg: Config, st: State, input: Input, n: nat, first: Report)
    requires n > 0 && Poll(cfg, st, input).reports == st.reports
    requires Tells(cfg, Poll(cfg, st, input), input, n - 1, first)
    ensures Tells(cfg, st, input, n, first)
  {
    hide Poll, Verdict;
  }

  /** When a failure is the first thing pending, it is reported with whatever type is kept now. */
  lemma {:induction false} TellsError(cfg: Config, st: State, input: Input, n: nat)
    requires st.enabled && n >= Work(st.queue) && Waiting(st.queue) != [] && Waiting(st.queue)[0] == ErrorProcess
    ensures Tells(cfg, st, input, n, Failed(st.error))
    decreases n
  {
    hide Made, Raised, Verdict, Tells, Drain;
    PollWorks(cfg, st, input);
    if st.queue[0] == ErrorProcess {
      TellsNow(cfg, st, input, n, Failed(st.error));
    } else {
      TellsError(cfg, Poll(cfg, st, input), input, n - 1);
      TellsLater(cfg, st, input, n, Failed(st.error));
    }
  }

  /** An input whose reception fails. */
  predicate Bad(input: Input) {
    !input.received.ok
  }

  /** An input that leaves this frame behind, whatever is polled. */
  predicate Leaves(input: Input, frame: Pdu) {
    input.received.pdu == frame && input.sent == frame
  }

  /** Replies that end a request one way or the other, whatever the handlers are. */
  const FINE := Pdu(128, NO_EXCEPTION)
  const FAULTY := Pdu(128, ILLEGAL_FUNCTION)

  /** When a frame is the first thing pending and it is bad, the first report is of bad data or not of a timeout. */
  lemma {:induction false} TellsNoTimeout(cfg: Config, st: State, input: Input, n: nat) returns (first: Report)
    requires st.enabled && n >= Work(st.queue) && Waiting(st.queue) != [] && Bad(input)
    requires Waiting(st.queue)[0] == ErrorProcess ==> st.error != RespondTimeout
    ensures Tells(cfg, st, input, n, first) && first != Failed(RespondTimeout)
    decreases n
  {
    hide Made, Raised, Verdict, Tells, Drain, Waiting;
    PollWorks(cfg, st, input);
    var r := Poll(cfg, st, input);
    WaitingPoll(st.queue, ErrorProcess);
    if r.reports != st.reports {
      first := r.reports[|st.reports|];
      TellsNow(cfg, st, input, n, first);
    } else {
      first := TellsNoTimeout(cfg, r, input, n - 1);
      TellsLater(cfg, st, input, n, first);
    }
  }

  /** An execution that comes first and is fine is reported first. */
  lemma {:induction false} TellsSuccess(cfg: Config, st: State, input: Input, n: nat)
    requires st.enabled && n >= Work(st.queue) && Waiting(st.queue) != [] && Waiting(st.queue)[0] == Execute
    requires st.frame == FINE && Leaves(input, FINE)
    ensures Tells(cfg, st, input, n, Succeeded)
    decreases n
  {
    hide Made, Verdict, Tells, Drain;
    PollWorks(cfg, st, input);
    if st.queue[0] == Execute {
      TellsNow(cfg, st, input, n, Succeeded);
    } else {
      TellsSuccess(cfg, Poll(cfg, st, input), input, n - 1);
      TellsLater(cfg, st, input, n, Succeeded);
    }
  }

  /** Draining tells something else first than the first verdict. */
  ghost predicate Betrayed(cfg: Config, st: State, input: Input, n: nat) {
    exists told, due :: told != due && Tells(cfg, st, input, n, told) && [due] <= Drain(cfg, st, input, n).verdicts
  }

  lemma BetrayedLater(cfg: Config, st: State, input: Input, n: nat)
    requires n > 0 && Poll(cfg, st, input).reports == st.reports && Verdict(cfg, st, DoPoll(input)) == []
    requires Betrayed(cfg, Poll(cfg, st, input), input, n - 1)
    ensures Betrayed(cfg, st, input, n)
  {
    hide Poll, Verdict, Tells;
    var st' := Poll(cfg, st, input);
    var told, due :|
      told != due && Tells(cfg, st', input, n - 1, told) && [due] <= Drain(cfg, st', input, n - 1).verdicts;
    TellsLater(cfg, st, input, n, told);
    assert [] + Drain(cfg, st', input, n - 1).verdicts == Drain(cfg, st', input, n - 1).verdicts;
  }

  lemma BetrayedNow(cfg: Config, st: State, input: Input, n: nat, told: Report, due: Report)
    requires n > 0 && Poll(cfg, st, input).reports == st.reports && Verdict(cfg, st, DoPoll(input)) == [due]
    requires told != due && Tells(cfg, Poll(cfg, st, input), input, n - 1, told)
    ensures Betrayed(cfg, st, input, n)
  {
    hide Poll, Verdict, Tells;
    TellsLater(cfg, st, input, n, told);
  }

  /** A bad frame before an execution that is fine: its failure is known first, and told last. */
  lemma {:induction false} FrameBeforeExecution(cfg: Config, st: State, input: Input, n: nat)
    requires st.enabled && n >= Work(st.queue) && Waiting(st.queue) == [FrameReceived, Execute]
    requires Bad(input) && Leaves(input, FINE)
    ensures Betrayed(cfg, st, input, n)
    decreases n
  {
    hide Made, Raised, Tells, Drain, Betrayed, Waiting;
    PollWorks(cfg, st, input);
    WaitingPoll(st.queue, ErrorProcess);
    var r := Poll(cfg, st, input);
    if st.queue[0] == FrameReceived {
      TellsSuccess(cfg, r, input, n - 1);
      BetrayedNow(cfg, st, input, n, Succeeded, Failed(ReceiveData));
    } else {
      FrameBeforeExecution(cfg, r, input, n - 1);
      BetrayedLater(cfg, st, input, n);
    }
  }

  /** An execution that is not fine before a bad frame: its failure is told as the other. */
  lemma {:induction false} ExecutionBeforeFrame(cfg: Config, st: State, input: Input, n: nat)
    requires st.enabled && n >= Work(st.queue) && Waiting(st.queue) == [Execute, FrameReceived]
    requires st.frame == FAULTY && Bad(input) && Leaves(input, FAULTY)
    ensures Betrayed(cfg, st, input, n)
    decreases n
  {
    hide Made, Tells, Drain, Betrayed, Waiting;
    PollWorks(cfg, st, input);
    WaitingPoll(st.queue, ErrorProcess);
    var r := Poll(cfg, st, input);
    if st.queue[0] == Execute {
      TellsBadData(cfg, r, input, n - 1);
      BetrayedNow(cfg, st, input, n, Failed(ReceiveData), Failed(ExecuteFunction));
    } else {
      ExecutionBeforeFrame(cfg, r, input, n - 1);
      BetrayedLater(cfg, st, input, n);
    }
  }

  /** A bad frame before a failure: the failure is told as bad data. */
  lemma {:induction false} TellsBadData(cfg: Config, st: State, input: Input, n: nat)
    requires st.enabled && n >= Work(st.queue) && Waiting(st.queue) == [FrameReceived, ErrorProcess] && Bad(input)
    ensures Tells(cfg, st, input, n, Failed(ReceiveData))
    decreases n
  {
    hide Made, Raised, Tells, Drain, Verdict, Waiting;
    PollWorks(cfg, st, input);
    WaitingPoll(st.queue, ErrorProcess);
    var r := Poll(cfg, st, input);
    if st.queue[0] == FrameReceived {
      TellsError(cfg, r, input, n - 1);
    } else {
      TellsBadData(cfg, r, input, n - 1);
    }
    TellsLater(cfg, st, input, n, Failed(ReceiveData));
  }

  // ----- All runs of a schedule -----

  /** An action without its contents. */
  datatype Kind = Posted(event: EventType) | Failure | Polled | Enabled | Disabled

  function KindOf(a: Action): Kind {
    match a
    case Post(e) => Kind.Posted(e)
    case Fail(_) => Failure
    case DoPoll(_) => Polled
    case Enable => Enabled
    case Disable => Disabled
  }

  function Kinds(actions: seq<Action>): (kinds: seq<Kind>)
    ensures |kinds| == |actions| && forall k :: 0 <= k < |actions| ==> kinds[k] == KindOf(actions[k])
  {
    seq(|actions|, k requires 0 <= k < |actions| => KindOf(actions[k]))
  }

  ghost predicate AllPolls(actions: seq<Action>) {
    forall k :: 0 <= k < |actions| ==> actions[k].DoPoll?
  }

  /** However the queue is emptied after these actions, the reports are the verdicts. */
  ghost predicate Honest(cfg: Config, st: State, actions: seq<Action>) {
    forall more: seq<Action> :: AllPolls(more) ==> HonestAfter(cfg, st, actions + [Enable] + more)
  }

  ghost predicate HonestAfter(cfg: Config, st: State, all: seq<Action>) {
    Run(cfg, st, all).queue == [] ==> Run(cfg, st, all).reports == st.reports + Verdicts(cfg, st, all)
  }

  lemma {:induction false} PollsAreCareful(cfg: Config, st: State, actions: seq<Action>)
    requires forall k :: 0 <= k < |actions| ==> actions[k].DoPoll? || actions[k].Enable?
    ensures AllCareful(cfg, st, actions) && AllForeign(actions)
    decreases |actions|
  {
    hide Act;
    if actions != [] {
      PollsAreCareful(cfg, Act(cfg, st, actions[0]), actions[1..]);
    }
  }

  lemma CarefulIsHonest(cfg: Config, st: State, actions: seq<Action>)
    requires st.queue == [] && AllCareful(cfg, st, actions) && AllForeign(actions)
    ensures Honest(cfg, st, actions)
  {
    hide Run, Verdicts, AllCareful, Waiting;
    forall more: seq<Action> | AllPolls(more) ensures HonestAfter(cfg, st, actions + [Enable] + more) {
      var rest := [Enable] + more;
      assert actions + [Enable] + more == actions + rest;
      PollsAreCareful(cfg, Run(cfg, st, actions), rest);
      CarefulAppend(cfg, st, actions, rest);
      NothingWaits();
      ReportsTrue(cfg, st, actions + rest);
      if Run(cfg, st, actions + rest).queue == [] {
        var r := Run(cfg, st, actions + rest).reports;
        assert r + [] == r && st.reports + [] == st.reports;
      }
    }
  }

  lemma NothingWaits()
    ensures Waiting([]) == [] && Tidy([])
  {
  }

  /** Reports that differ from the verdicts where `told` and `due` stand. */
  lemma Refutes(cfg: Config, st: State, actions: seq<Action>, more: seq<Action>,
                base: seq<Report>, told: Report, due: Report)
    requires AllPolls(more) && told != due
    requires var mid := Run(cfg, st, actions + [Enable]);
             && Run(cfg, mid, more).queue == [] && base + [told] <= Run(cfg, mid, more).reports
             && base + [due] <= st.reports + Verdicts(cfg, st, actions + [Enable]) + Verdicts(cfg, mid, more)
    ensures !Honest(cfg, st, actions)
  {
    hide Run, Verdicts;
    var all := actions + [Enable] + more;
    RunAppend(cfg, st, actions + [Enable], more);
    var due', told' := st.reports + Verdicts(cfg, st, all), Run(cfg, st, all).reports;
    var v := Verdicts(cfg, st, actions + [Enable]);
    var w := Verdicts(cfg, Run(cfg, st, actions + [Enable]), more);
    assert st.reports + v + w == st.reports + (v + w) == due';
    assert due'[|base|] == due && told'[|base|] == told;
    assert !HonestAfter(cfg, st, all);
  }

  /** The state and the verdicts when the last of these actions has been taken. */
  lemma Settle(cfg: Config, st: State, init: seq<Action>, a: Action)
    ensures var pre := Run(cfg, st, init);
            && Run(cfg, st, init + [a] + [Enable]) == Act(cfg, pre, a).(enabled := true)
            && Verdicts(cfg, st, init + [a] + [Enable]) == Verdicts(cfg, st, init) + Verdict(cfg, pre, a)
  {
    hide Verdict, Run, Verdicts;
    var pre := Run(cfg, st, init);
    RunAppend(cfg, st, init, [a]);
    RunAppend(cfg, st, init + [a], [Enable]);
    RunOne(cfg, pre, a);
    RunOne(cfg, Act(cfg, pre, a), Enable);
    assert Verdict(cfg, Act(cfg, pre, a), Enable) == [] by { NoVerdict(cfg, Act(cfg, pre, a)); }
    var v := Verdicts(cfg, st, init) + Verdict(cfg, pre, a);
    assert v + [] == v;
  }

  lemma NoVerdict(cfg: Config, st: State)
    ensures Verdict(cfg, st, Enable) == []
  {
  }

  /** A failure posted while something is pending: there is a type with which it misleads. */
  lemma FailureMisleads(cfg: Config, st: State, init: seq<Action>) returns (error: ErrorType)
    requires st.queue == [] && AllCareful(cfg, st, init) && AllForeign(init)
    requires Waiting(Run(cfg, st, init).queue) != []
    ensures !Honest(cfg, st, init + [Fail(error)])
  {
    hide Run, Verdicts, AllCareful, Waiting, Honest, Drain;
    NothingWaits();
    ReportsTrue(cfg, st, init);
    var pre := Run(cfg, st, init);
    WaitingHas(pre.queue, ErrorProcess);
    WaitingAppend(pre.queue, ErrorProcess);
    error := if Waiting(pre.queue)[0] == ErrorProcess && pre.error == RespondTimeout then ReceiveData else RespondTimeout;
    Settle(cfg, st, init, Fail(error));
    var mid := Act(cfg, pre, Fail(error)).(enabled := true);
    var input := Input(Received(false, 0, FINE), false, FINE);
    var n := Work(mid.queue);
    DrainEmpties(cfg, mid, input, n);
    var told, due;
    if Waiting(pre.queue)[0] == ErrorProcess {
      TellsError(cfg, mid, input, n);
      told, due := Failed(error), Failed(pre.error);
    } else {
      told := TellsNoTimeout(cfg, mid, input, n);
      due := Failed(RespondTimeout);
    }
    assert st.reports + [] == st.reports;
    MisleadsAt(cfg, st, init, Fail(error), input, n, told, due);
  }

  lemma MisleadsAt(cfg: Config, st: State, init: seq<Action>, a: Action, input: Input, n: nat, told: Report, due: Report)
    requires var pre := Run(cfg, st, init);
             var mid := Act(cfg, pre, a).(enabled := true);
             && told != due && mid.reports == pre.reports && Tells(cfg, mid, input, n, told)
             && Drain(cfg, mid, input, n).st.queue == []
             && pre.reports + Unreported(pre) == st.reports + Verdicts(cfg, st, init)
             && [due] <= Unreported(pre) + Verdict(cfg, pre, a) + Drain(cfg, mid, input, n).verdicts
    ensures !Honest(cfg, st, init + [a])
  {
    hide Run, Verdicts, Verdict, Act, Honest, Unreported;
    var pre := Run(cfg, st, init);
    var mid := Act(cfg, pre, a).(enabled := true);
    Settle(cfg, st, init, a);
    var more, d := Polls(input, n), Drain(cfg, mid, input, n);
    var u, v, w := Unreported(pre), Verdict(cfg, pre, a), d.verdicts;
    var before := Verdicts(cfg, st, init);
    assert st.reports + (before + v) + w == (st.reports + before) + (v + w);
    assert (pre.reports + u) + (v + w) == pre.reports + (u + v + w);
    Refutes(cfg, st, init + [a], more, pre.reports, told, due);
  }

  // ----- A frame posted while another is handled -----

  /** Taking the first of two frames: the other now comes before its execution. */
  lemma {:induction false} FirstAccepted(cfg: Config, st: State, input: Input, n: nat) returns (k: nat)
    requires st.enabled && n >= Work(st.queue) && Waiting(st.queue) == [FrameReceived, FrameReceived]
    requires input.received.ok && input.received.address == st.dest
    ensures var d := Drain(cfg, st, input, k);
            && d.verdicts == [] && d.st.reports == st.reports && d.st.enabled
            && Waiting(d.st.queue) == [FrameReceived, Execute]
    decreases n
  {
    hide Made, Raised, Waiting;
    PollWorks(cfg, st, input);
    WaitingPoll(st.queue, Execute);
    var r := Poll(cfg, st, input);
    if st.queue[0] == FrameReceived {
      k := 1;
      assert Drain(cfg, r, input, 0) == Drained(r, []);
    } else {
      k := FirstAccepted(cfg, r, input, n - 1);
      k := k + 1;
    }
  }

  /** Two frames in a row: polls that take the first, refuse the second and so mislead. */
  lemma TwoFrames(cfg: Config, st: State) returns (more: seq<Action>, told: Report, due: Report)
    requires st.enabled && Waiting(st.queue) == [FrameReceived, FrameReceived]
    ensures AllPolls(more) && told != due && Run(cfg, st, more).queue == []
    ensures st.reports + [told] <= Run(cfg, st, more).reports && [due] <= Verdicts(cfg, st, more)
  {
    hide Drain, Run, Verdicts, Waiting, Betrayed;
    var good := Input(Received(true, st.dest, FINE), false, FINE);
    var bad := Input(Received(false, st.dest, FINE), false, FINE);
    var k := FirstAccepted(cfg, st, good, Work(st.queue));
    var mid := Drain(cfg, st, good, k).st;
    var n := Work(mid.queue);
    DrainEmpties(cfg, mid, bad, n);
    FrameBeforeExecution(cfg, mid, bad, n);
    told, due := Unfold(cfg, mid, bad, n);
    more := Polls(good, k) + Polls(bad, n);
    RunAppend(cfg, st, Polls(good, k), Polls(bad, n));
    assert [] + Verdicts(cfg, mid, Polls(bad, n)) == Verdicts(cfg, mid, Polls(bad, n));
  }

  lemma Unfold(cfg: Config, st: State, input: Input, n: nat) returns (told: Report, due: Report)
    requires Betrayed(cfg, st, input, n)
    ensures told != due && st.reports + [told] <= Drain(cfg, st, input, n).st.reports
    ensures [due] <= Drain(cfg, st, input, n).verdicts
  {
    hide Drain;
    told, due :| told != due && Tells(cfg, st, input, n, told) && [due] <= Drain(cfg, st, input, n).verdicts;
  }

  /** Polling until the failure that comes first has been reported. */
  lemma {:induction false} ErrorPassed(cfg: Config, st: State, input: Input, n: nat) returns (k: nat)
    requires st.enabled && n >= Work(st.queue) && Waiting(st.queue) != [] && Waiting(st.queue)[0] == ErrorProcess
    ensures var d := Drain(cfg, st, input, k);
            && d.verdicts == [] && d.st.reports == st.reports + [Failed(st.error)] && d.st.enabled
            && Waiting(d.st.queue) == Waiting(st.queue)[1..]
    decreases n
  {
    hide Made, Raised, Waiting;
    PollWorks(cfg, st, input);
    WaitingPoll(st.queue, Execute);
    var r := Poll(cfg, st, input);
    if st.queue[0] == ErrorProcess {
      k := 1;
      assert Drain(cfg, r, input, 0) == Drained(r, []);
    } else {
      k := ErrorPassed(cfg, r, input, n - 1);
      k := k + 1;
    }
  }

  /** A frame posted while another waits. */
  lemma FrameMisleads(cfg: Config, st: State, init: seq<Action>)
    requires st.queue == [] && AllCareful(cfg, st, init) && AllForeign(init)
    requires FrameReceived in Run(cfg, st, init).queue
    ensures !Honest(cfg, st, init + [Post(FrameReceived)])
  {
    hide Run, Verdicts, AllCareful, Waiting, Honest, Drain;
    NothingWaits();
    ReportsTrue(cfg, st, init);
    var pre := Run(cfg, st, init);
    WaitingHas(pre.queue, FrameReceived);
    WaitingHas(pre.queue, ErrorProcess);
    WaitingAppend(pre.queue, FrameReceived);
    Settle(cfg, st, init, Post(FrameReceived));
    var mid := Act(cfg, pre, Post(FrameReceived)).(enabled := true);
    assert st.reports + [] == st.reports;
    var before := Verdicts(cfg, st, init);
    assert before + [] == before;
    if Waiting(pre.queue) == [FrameReceived] {
      var more, told, due := TwoFrames(cfg, mid);
      var w := Verdicts(cfg, mid, more);
      assert pre.reports + [] == pre.reports;
      assert pre.reports + w == st.reports + before + w;
      Refutes(cfg, st, init + [Post(FrameReceived)], more, pre.reports, told, due);
    } else {
      var input := Input(Received(false, 0, FINE), false, FINE);
      var k := ErrorPassed(cfg, mid, input, Work(mid.queue));
      var late := Drain(cfg, mid, input, k).st;
      assert Waiting(late.queue) == [FrameReceived, FrameReceived];
      var rest, told, due := TwoFrames(cfg, late);
      var more := Polls(input, k) + rest;
      RunAppend(cfg, mid, Polls(input, k), rest);
      var w := Verdicts(cfg, late, rest);
      assert [] + w == w;
      assert late.reports + w == st.reports + before + w;
      Refutes(cfg, st, init + [Post(FrameReceived)], more, late.reports, told, due);
    }
  }

  /** An execution that is due may as well be due with another frame. */
  lemma {:induction false} Reframed(cfg: Config, st: State, actions: seq<Action>, frame: Pdu) returns (other: seq<Action>)
    requires st.queue == [] && AllCareful(cfg, st, actions) && AllForeign(actions)
    requires Execute in Run(cfg, st, actions).queue
    ensures Kinds(other) == Kinds(actions) && AllCareful(cfg, st, other) && AllForeign(other)
    ensures Run(cfg, st, other) == Run(cfg, st, actions).(frame := frame)
    decreases |actions|
  {
    hide Act, Verdict, AllCareful, Run, Tidy, Careful;
    if actions == [] {
      NoRun(cfg, st);
      assert false;
    }
    var n := |actions| - 1;
    var init, a := actions[..n], actions[n];
    assert actions == init + [a];
    var pre := Run(cfg, st, init);
    RunAppend(cfg, st, init, [a]);
    RunOne(cfg, pre, a);
    CarefulAppend(cfg, st, init, [a]);
    CarefulOne(cfg, pre, a);
    NothingWaits();
    ReportsTrue(cfg, st, init);
    var b, own := ReframedStep(cfg, pre, a, frame);
    if own {
      other := init + [b];
      RunOne(cfg, pre, b);
      RunAppend(cfg, st, init, [b]);
      CarefulOne(cfg, pre, b);
      CarefulAppend(cfg, st, init, [b]);
    } else {
      other := Reframed(cfg, st, init, frame);
      var pre' := pre.(frame := frame);
      FrameIsNoCare(pre, frame, a);
      RunAppend(cfg, st, other, [a]);
      CarefulOne(cfg, pre', a);
      CarefulAppend(cfg, st, other, [a]);
      RunOne(cfg, pre', a);
      other := other + [a];
    }
  }

  lemma FrameIsNoCare(st: State, frame: Pdu, a: Action)
    ensures Careful(st.(frame := frame), a) == Careful(st, a)
  {
  }

  lemma NoRun(cfg: Config, st: State)
    ensures Run(cfg, st, []) == st
  {
  }

  lemma CarefulOne(cfg: Config, st: State, a: Action)
    ensures AllCareful(cfg, st, [a]) <==> Careful(st, a)
  {
    hide Act, Careful;
    assert [a][1..] == [];
    assert AllCareful(cfg, Act(cfg, st, a), []);
  }

  /**
   The step that leaves an execution due: either its own input can leave another frame
   behind, or the execution was due before it and the frame does not matter to it.
   */
  lemma ReframedStep(cfg: Config, st: State, a: Action, frame: Pdu) returns (b: Action, own: bool)
    requires Tidy(st.queue) && Foreign(a) && Execute in Act(cfg, st, a).queue
    ensures KindOf(b) == KindOf(a) && Foreign(b) && (Careful(st, a) ==> Careful(st, b))
    ensures own ==> Act(cfg, st, b) == Act(cfg, st, a).(frame := frame)
    ensures !own ==> Execute in st.queue && Act(cfg, st.(frame := frame), a) == Act(cfg, st, a).(frame := frame)
  {
    hide Made, Raised, Waiting;
    b, own := a, false;
    if a.DoPoll? && st.enabled && st.queue != [] {
      WaitingPoll(st.queue, ErrorProcess);
      WaitingHas(st.queue[1..], Execute);
      assert st.queue[0] != Execute;
      var i := a.input;
      if st.queue[0] == FrameReceived || st.queue[0] == FrameSent || st.queue[0] == ErrorProcess {
        b, own := DoPoll(Input(Received(i.received.ok, i.received.address, frame), i.broadcast, frame)), true;
      }
    }
  }

  /** A frame posted while another is being executed: with other contents, it misleads. */
  lemma ExecutionMisleads(cfg: Config, st: State, init: seq<Action>) returns (other: seq<Action>)
    requires st.queue == [] && AllCareful(cfg, st, init) && AllForeign(init)
    requires Execute in Run(cfg, st, init).queue
    ensures Kinds(other) == Kinds(init) && !Honest(cfg, st, other + [Post(FrameReceived)])
  {
    hide Run, Verdicts, AllCareful, Waiting, Honest, Drain, Betrayed, Kinds;
    other := Reframed(cfg, st, init, FAULTY);
    NothingWaits();
    ReportsTrue(cfg, st, other);
    var pre := Run(cfg, st, other);
    WaitingHas(pre.queue, Execute);
    WaitingHas(pre.queue, ErrorProcess);
    WaitingAppend(pre.queue, FrameReceived);
    var mid := Act(cfg, pre, Post(FrameReceived)).(enabled := true);
    var input := Input(Received(false, 0, FAULTY), false, FAULTY);
    var n := Work(mid.queue);
    DrainEmpties(cfg, mid, input, n);
    ExecutionBeforeFrame(cfg, mid, input, n);
    var told, due := Unfold(cfg, mid, input, n);
    assert st.reports + [] == st.reports;
    assert [] + [] + Drain(cfg, mid, input, n).verdicts == Drain(cfg, mid, input, n).verdicts;
    MisleadsAt(cfg, st, other, Post(FrameReceived), input, n, told, due);
  }

  /** Actions that are not careful mislead, with some contents. */
  lemma CarelessMisleads(cfg: Config, st: State, init: seq<Action>, a: Action) returns (other: seq<Action>)
    requires st.queue == [] && AllCareful(cfg, st, init) && AllForeign(init + [a])
    requires !Careful(Run(cfg, st, init), a)
    ensures Kinds(other) == Kinds(init + [a]) && !Honest(cfg, st, other)
  {
    hide Run, AllCareful, Waiting, Honest, Kinds;
    assert AllForeign(init) by {
      assert forall k :: 0 <= k < |init| ==> (init + [a])[k] == init[k];
    }
    if a.Fail? {
      var error := FailureMisleads(cfg, st, init);
      other := init + [Fail(error)];
      SameKinds(init, init, a, Fail(error));
    } else if FrameReceived in Run(cfg, st, init).queue {
      FrameMisleads(cfg, st, init);
      other := init + [a];
    } else {
      other := ExecutionMisleads(cfg, st, init);
      SameKinds(init, other, a, a);
      other := other + [a];
    }
  }

  lemma SameKinds(x: seq<Action>, y: seq<Action>, a: Action, b: Action)
    requires Kinds(x) == Kinds(y) && KindOf(a) == KindOf(b)
    ensures Kinds(x + [a]) == Kinds(y + [b])
  {
    hide Kinds;
    forall k | 0 <= k < |x| + 1 ensures Kinds(x + [a])[k] == Kinds(y + [b])[k] {
      assert k < |x| ==> KindOf((x + [a])[k]) == Kinds(x)[k] && KindOf((y + [b])[k]) == Kinds(y)[k];
    }
  }

  /** Nobody but the master posts executions, or failures without a type. */
  ghost predicate Foreigners(schedule: seq<Kind>) {
    forall k :: 0 <= k < |schedule| ==> schedule[k] != Kind.Posted(Execute) && schedule[k] != Kind.Posted(ErrorProcess)
  }

  ghost predicate AlwaysHonest(cfg: Config, st: State, schedule: seq<Kind>) {
    forall actions: seq<Action> :: Kinds(actions) <= schedule ==> Honest(cfg, st, actions)
  }

  ghost predicate AlwaysCareful(cfg: Config, st: State, schedule: seq<Kind>) {
    forall actions: seq<Action> :: Kinds(actions) <= schedule ==> AllCareful(cfg, st, actions)
  }

  lemma {:induction false} HonestIsCareful(cfg: Config, st: State, schedule: seq<Kind>, actions: seq<Action>)
    requires st.queue == [] && Foreigners(schedule) && AlwaysHonest(cfg, st, schedule) && Kinds(actions) <= schedule
    ensures AllCareful(cfg, st, actions)
    decreases |actions|
  {
    hide Run, AllCareful, Honest, Careful;
    if actions == [] {
      NoneCareful(cfg, st);
    } else {
      var n := |actions| - 1;
      var init, a := actions[..n], actions[n];
      assert actions == init + [a];
      assert Kinds(init) <= schedule;
      HonestIsCareful(cfg, st, schedule, init);
      assert AllForeign(actions) by {
        forall k | 0 <= k < |actions| ensures Foreign(actions[k]) {
          assert KindOf(actions[k]) == schedule[k];
        }
      }
      if !Careful(Run(cfg, st, init), a) {
        var other := CarelessMisleads(cfg, st, init, a);
        assert false;
      }
      CarefulOne(cfg, Run(cfg, st, init), a);
      CarefulAppend(cfg, st, init, [a]);
    }
  }

  lemma NoneCareful(cfg: Config, st: State)
    ensures AllCareful(cfg, st, [])
  {
  }

  /**
   The exact condition: for a schedule of events and polls, the reports are true whatever the
   receptions, frames and types of failure are, however the queue is emptied and at whatever
   time, if and only if, again whatever they are, a failure is posted only when no completing
   event is pending and a frame only when no frame waits or is being executed.
   */
  lemma ReportsExactly(cfg: Config, st: State, schedule: seq<Kind>)
    requires st.queue == [] && Foreigners(schedule)
    ensures AlwaysHonest(cfg, st, schedule) <==> AlwaysCareful(cfg, st, schedule)
  {
    hide Honest, AllCareful;
    if AlwaysHonest(cfg, st, schedule) {
      forall actions: seq<Action> | Kinds(actions) <= schedule ensures AllCareful(cfg, st, actions) {
        HonestIsCareful(cfg, st, schedule, actions);
      }
    } else if AlwaysCareful(cfg, st, schedule) {
      forall actions: seq<Action> | Kinds(actions) <= schedule ensures Honest(cfg, st, actions) {
        forall k | 0 <= k < |actions| ensures Foreign(actions[k]) {
          assert KindOf(actions[k]) == schedule[k];
        }
        CarefulIsHonest(cfg, st, actions);
      }
    }
  }
}
