/**
 The Modbus master's poll function: an event machine between a lossless event queue, the
 receiver, and a table of function handlers.
 */
module ModbusMaster {

  datatype EventType = Ready | FrameReceived | Execute | FrameSent | ErrorProcess

  datatype ErrorType = RespondTimeout | ReceiveData | ExecuteFunction

  /** What the application is told at the end of a request. */
  datatype Report = Succeeded | Failed(error: ErrorType)

  /** A handler in the table; code 0 marks an unused entry. */
  datatype Handler = Handler(code: nat, id: nat)

  /** A handler that was run: which, and for which slave. */
  datatype Call = Call(id: nat, dest: nat)

  /** The first two bytes of a PDU. */
  datatype Pdu = Pdu(code: nat, data: nat)

  /** What the receiver hands over: a frame that is intact or not, its sender and its PDU. */
  datatype Received = Received(ok: bool, address: nat, pdu: Pdu)

  const NO_EXCEPTION: nat := 0
  const ILLEGAL_FUNCTION: nat := 1

  /** The application's handlers: the exception of the last of the calls so far. */
  type Application = seq<Call> -> nat

  datatype Config = Config(handlers: seq<Handler>, slaves: nat, app: Application)

  /** The master between two polls. `sent` is the PDU in the send buffer. */
  datatype State = State(
    enabled: bool, queue: seq<EventType>, dest: nat, error: ErrorType, inMaster: bool,
    frame: Pdu, calls: seq<Call>, releases: nat, reports: seq<Report>)

  /** What a poll may take from outside. */
  datatype Input = Input(received: Received, broadcast: bool, sent: Pdu)

  // ----- The handler table -----

  /** The entry that serves a function code: the first with that code, before any unused one. */
  function Lookup(handlers: seq<Handler>, code: nat): (k: nat)
    ensures k <= |handlers|
    ensures k < |handlers| ==> handlers[k].code == code != 0
    ensures forall j :: 0 <= j < k < |handlers| ==> handlers[j].code != 0 && handlers[j].code != code
    ensures k == |handlers| ==>
              forall j :: 0 <= j < |handlers| && handlers[j].code == code ==>
                code == 0 || exists i :: 0 <= i < j && handlers[i].code == 0
  {
    if handlers == [] || handlers[0].code == 0 then |handlers|
    else if handlers[0].code == code then 0
    else
      var rest := handlers[1..];
      var k := Lookup(rest, code);
      assert forall j :: 0 < j < |handlers| ==> handlers[j] == rest[j - 1];
      k + 1
  }

  /** Handler `id` run for the slaves `first`..`last`, in this order. */
  function CallsFor(id: nat, first: nat, last: nat): (calls: seq<Call>)
    ensures |calls| == if first <= last then last - first + 1 else 0
    ensures forall k :: 0 <= k < |calls| ==> calls[k] == Call(id, first + k)
    decreases last + 1 - first
  {
    if first <= last then [Call(id, first)] + CallsFor(id, first + 1, last) else []
  }

  /** The handler calls that executing a reply makes. */
  function Made(cfg: Config, frame: Pdu, broadcast: bool, dest: nat): (calls: seq<Call>) {
    var k := Lookup(cfg.handlers, frame.code);
    if frame.code >= 128 || k == |cfg.handlers| then []
    else if broadcast then CallsFor(cfg.handlers[k].id, 1, cfg.slaves)
    else [Call(cfg.handlers[k].id, dest)]
  }

  /** The exception that executing a reply ends with, given all calls made by then. */
  function Raised(cfg: Config, frame: Pdu, made: seq<Call>, calls: seq<Call>): (exception: nat) {
    if frame.code >= 128 then frame.data
    else if made == [] then ILLEGAL_FUNCTION
    else cfg.app(calls)
  }

  // ----- One poll -----

  function Handle(cfg: Config, st: State, event: EventType, input: Input): (r: State) {
    match event
    case Ready => st
    case FrameReceived =>
      var rcv := input.received;
      var st' := st.(frame := rcv.pdu);
      if rcv.ok && rcv.address == st.dest then st'.(queue := st.queue + [Execute])
      else st'.(error := ReceiveData, queue := st.queue + [ErrorProcess])
    case Execute =>
      var made := Made(cfg, st.frame, input.broadcast, st.dest);
      var st' := st.(calls := st.calls + made,
                     inMaster := st.inMaster && !Matched(cfg, st.frame),
                     dest := if made != [] && input.broadcast then cfg.slaves else st.dest);
      if Raised(cfg, st.frame, made, st.calls + made) != NO_EXCEPTION then
        st'.(error := ExecuteFunction, queue := st.queue + [ErrorProcess])
      else
        st'.(releases := st.releases + 1, reports := st.reports + [Succeeded])
    case FrameSent => st.(frame := input.sent)
    case ErrorProcess =>
      st.(frame := input.sent, releases := st.releases + 1, reports := st.reports + [Failed(st.error)])
  }

  predicate Matched(cfg: Config, frame: Pdu) {
    frame.code < 128 && Lookup(cfg.handlers, frame.code) < |cfg.handlers|
  }

  function Poll(cfg: Config, st: State, input: Input): (r: State) {
    if !st.enabled || st.queue == [] then st
    else Handle(cfg, st.(queue := st.queue[1..]), st.queue[0], input)
  }

  // ----- Completions are conserved -----

  predicate Completes(e: EventType) {
    e == FrameReceived || e == Execute || e == ErrorProcess
  }

  /** Events in the queue that must end in a release of the master. */
  function Pending(queue: seq<EventType>): (n: nat)
  {
    if queue == [] then 0 else (if Completes(queue[0]) then 1 else 0) + Pending(queue[1..])
  }

  lemma {:induction false} PendingAppend(a: seq<EventType>, b: seq<EventType>)
    ensures Pending(a + b) == Pending(a) + Pending(b)
  {
    if a == [] {
      assert a + b == b;
    } else {
      assert (a + b)[1..] == a[1..] + b;
      PendingAppend(a[1..], b);
    }
  }

  lemma PendingOne(e: EventType)
    ensures Pending([e]) == if Completes(e) then 1 else 0
  {
    assert [e][1..] == [];
  }

  lemma PendingFirst(queue: seq<EventType>)
    requires queue != []
    ensures Pending(queue) == (if Completes(queue[0]) then 1 else 0) + Pending(queue[1..])
  {
  }

  /** A poll neither loses nor adds a completion, and leaves master mode. */
  lemma PollConserves(cfg: Config, st: State, input: Input)
    ensures var r := Poll(cfg, st, input);
            && Pending(r.queue) + r.releases == Pending(st.queue) + st.releases
            && |r.reports| - |st.reports| == r.releases - st.releases
            && (!st.inMaster ==> !r.inMaster)
  {
    hide Made, Raised, Lookup, Pending;
    if st.enabled && st.queue != [] {
      PendingFirst(st.queue);
      PendingAppend(st.queue[1..], [Execute]);
      PendingAppend(st.queue[1..], [ErrorProcess]);
      PendingOne(Execute);
      PendingOne(ErrorProcess);
    }
  }

  /** Calls of the master, and what other tasks do: post an event, or report a failed reception. */
  datatype Action = Post(event: EventType) | Fail(error: ErrorType) | DoPoll(input: Input) | Enable | Disable

  function Act(cfg: Config, st: State, a: Action): (r: State) {
    match a
    case Post(e) => st.(queue := st.queue + [e])
    case Fail(e) => st.(error := e, queue := st.queue + [ErrorProcess])
    case DoPoll(input) => Poll(cfg, st, input)
    case Enable => st.(enabled := true)
    case Disable => st.(enabled := false)
  }

  function Run(cfg: Config, st: State, actions: seq<Action>): (r: State)
    decreases |actions|
  {
    if actions == [] then st else Run(cfg, Act(cfg, st, actions[0]), actions[1..])
  }

  predicate PostsCompletion(a: Action) {
    a.Fail? || (a.Post? && Completes(a.event))
  }

  /** The completing events that the environment posts. */
  function Posted(actions: seq<Action>): (n: nat) {
    if actions == [] then 0 else
      (if PostsCompletion(actions[0]) then 1 else 0) + Posted(actions[1..])
  }

  /**
   Over every run, completions still in the queue plus releases grow exactly with the
   completing events posted from outside; every release comes with one report; and the
   master is never left in master mode.
   */
  lemma {:induction false} Conservation(cfg: Config, st: State, actions: seq<Action>)
    requires !st.inMaster
    ensures var r := Run(cfg, st, actions);
            && Pending(r.queue) + r.releases == Pending(st.queue) + st.releases + Posted(actions)
            && |r.reports| - |st.reports| == r.releases - st.releases
            && !r.inMaster
    decreases |actions|
  {
    hide Poll;
    if actions != [] {
      match actions[0] {
        case Post(e) => PendingAppend(st.queue, [e]);
        case Fail(e) => PendingAppend(st.queue, [ErrorProcess]);
        case DoPoll(input) => PollConserves(cfg, st, input);
        case _ =>
      }
      Conservation(cfg, Act(cfg, st, actions[0]), actions[1..]);
    }
  }

  /** Once the queue is drained, every frame and error posted has released the master exactly once. */
  lemma DrainedReleases(cfg: Config, st: State, actions: seq<Action>)
    requires !st.inMaster && st.queue == [] && Run(cfg, st, actions).queue == []
    ensures Run(cfg, st, actions).releases == st.releases + Posted(actions)
  {
    Conservation(cfg, st, actions);
  }

  // ----- What a reply makes run -----

  /** An entry for this code that no unused entry hides. */
  predicate Serves(handlers: seq<Handler>, code: nat, k: nat) {
    k < |handlers| && handlers[k].code == code && forall j :: 0 <= j <= k ==> handlers[j].code != 0
  }

  /**
   An exception reply runs no handler; a reply to a broadcast runs the matched handler once
   for each slave 1..N in increasing order; any other reply runs at most one handler, for
   the slave that was addressed. The handler is that of a table entry that serves the code,
   and there is a call whenever there is such an entry. The master is left addressed to the
   slave of the last call.
   */
  lemma HandlersRun(cfg: Config, st: State, input: Input) returns (made: seq<Call>)
    requires st.enabled && st.queue != [] && st.queue[0] == Execute
    ensures Poll(cfg, st, input).calls == st.calls + made
    ensures st.frame.code >= 128 ==> made == []
    ensures !input.broadcast ==> |made| <= 1 && forall c :: c in made ==> c.dest == st.dest
    ensures input.broadcast ==> forall i :: 0 <= i < |made| ==> made[i].dest == i + 1
    ensures forall i :: 0 <= i < |made| ==>
              exists k: nat :: Serves(cfg.handlers, st.frame.code, k) && made[i].id == cfg.handlers[k].id
    ensures st.frame.code < 128 && (exists k: nat :: Serves(cfg.handlers, st.frame.code, k)) ==>
              |made| == if input.broadcast then cfg.slaves else 1
    ensures Poll(cfg, st, input).dest == if made == [] then st.dest else made[|made| - 1].dest
  {
    made := Made(cfg, st.frame, input.broadcast, st.dest);
    var k := Lookup(cfg.handlers, st.frame.code);
    if k < |cfg.handlers| {
      assert Serves(cfg.handlers, st.frame.code, k);
    }
  }

  /** The action makes the master take up another PDU: one received, or the one in the send buffer. */
  predicate Takes(st: State, a: Action) {
    a.DoPoll? && st.enabled && st.queue != [] && st.queue[0] in {FrameReceived, FrameSent, ErrorProcess}
  }

  predicate NoneTaken(cfg: Config, st: State, actions: seq<Action>)
    decreases |actions|
  {
    actions != [] ==> !Takes(st, actions[0]) && NoneTaken(cfg, Act(cfg, st, actions[0]), actions[1..])
  }

  /** Whatever else happens, the PDU at hand stays the one taken up last. */
  lemma {:induction false} FrameStays(cfg: Config, st: State, actions: seq<Action>)
    requires NoneTaken(cfg, st, actions)
    ensures Run(cfg, st, actions).frame == st.frame
    decreases |actions|
  {
    hide Made, Raised, Matched;
    if actions != [] {
      FrameStays(cfg, Act(cfg, st, actions[0]), actions[1..]);
    }
  }

  lemma FrameTaken(cfg: Config, st: State, a: Action, later: seq<Action>)
    requires Takes(st, a) && NoneTaken(cfg, Act(cfg, st, a), later)
    ensures Run(cfg, st, [a] + later).frame ==
              if st.queue[0] == FrameReceived then a.input.received.pdu else a.input.sent
  {
    hide Run, NoneTaken;
    FrameStays(cfg, Act(cfg, st, a), later);
    RunFirst(cfg, st, a, later);
  }

  lemma RunFirst(cfg: Config, st: State, a: Action, later: seq<Action>)
    ensures Run(cfg, st, [a] + later) == Run(cfg, Act(cfg, st, a), later)
  {
    hide Act;
    assert ([a] + later)[1..] == later;
  }

  // ----- The poll function itself -----

  class Master {
    const cfg: Config
    const handlers: array<Handler>
    var enabled: bool
    var queue: seq<EventType>
    var dest: nat
    var error: ErrorType
    var inMaster: bool
    var frame: Pdu
    var calls: seq<Call>
    var releases: nat
    var reports: seq<Report>

    ghost predicate Valid()
      reads handlers
    {
      handlers[..] == cfg.handlers
    }

    ghost function View(): (st: State)
      reads this
    {
      State(enabled, queue, dest, error, inMaster, frame, calls, releases, reports)
    }

    constructor (cfg: Config)
      ensures Valid() && fresh(handlers) && this.cfg == cfg
      ensures View() == State(false, [], 0, RespondTimeout, false, Pdu(0, 0), [], 0, [])
    {
      this.cfg := cfg;
      handlers := new Handler[|cfg.handlers|](i requires 0 <= i < |cfg.handlers| => cfg.handlers[i]);
      enabled, queue, dest, error := false, [], 0, RespondTimeout;
      inMaster, frame, calls, releases, reports := false, Pdu(0, 0), [], 0, [];
    }

    /** Scans the table up to the first unused entry. */
    method FindHandler(code: nat) returns (i: nat)
      requires Valid()
      ensures i == Lookup(cfg.handlers, code)
    {
      i := 0;
      while i < handlers.Length && handlers[i].code != 0 && handlers[i].code != code
        invariant i <= handlers.Length
        invariant Lookup(cfg.handlers, code) == i + Lookup(cfg.handlers[i..], code)
      {
        i := i + 1;
      }
      if i < handlers.Length && handlers[i].code == 0 {
        i := handlers.Length;
      }
    }

    /** Runs a handler once, for the current destination. */
    method RunHandler(id: nat) returns (exception: nat)
      modifies this`calls
      ensures calls == old(calls) + [Call(id, dest)] && exception == cfg.app(calls)
    {
      calls := calls + [Call(id, dest)];
      exception := cfg.app(calls);
    }

    /** Runs a handler for every slave in turn. */
    method RunForAll(id: nat, exception0: nat) returns (exception: nat)
      modifies this`calls, this`dest
      ensures calls == old(calls) + CallsFor(id, 1, cfg.slaves)
      ensures dest == if cfg.slaves == 0 then old(dest) else cfg.slaves
      ensures exception == if cfg.slaves == 0 then exception0 else cfg.app(calls)
    {
      exception := exception0;
      var j := 1;
      while j <= cfg.slaves
        invariant 1 <= j <= cfg.slaves + 1
        invariant calls + CallsFor(id, j, cfg.slaves) == old(calls) + CallsFor(id, 1, cfg.slaves)
        invariant dest == if j == 1 then old(dest) else j - 1
        invariant exception == if j == 1 then exception0 else cfg.app(calls)
      {
        dest := j;
        exception := RunHandler(id);
        j := j + 1;
      }
    }

    /** Executes the reply in `frame`. */
    method ExecuteReply(broadcast: bool) returns (exception: nat)
      requires Valid()
      modifies this`calls, this`dest, this`inMaster
      ensures calls == old(calls) + Made(cfg, frame, broadcast, old(dest))
      ensures exception == Raised(cfg, frame, Made(cfg, frame, broadcast, old(dest)), calls)
      ensures inMaster == (old(inMaster) && !Matched(cfg, frame))
      ensures dest == if Made(cfg, frame, broadcast, old(dest)) != [] && broadcast then cfg.slaves else old(dest)
    {
      exception := ILLEGAL_FUNCTION;
      if frame.code >= 128 {
        exception := frame.data;
      } else {
        var i := FindHandler(frame.code);
        if i < handlers.Length {
          assert handlers[i] == handlers[..][i];
          inMaster := true;
          if broadcast {
            exception := RunForAll(handlers[i].id, exception);
          } else {
            exception := RunHandler(handlers[i].id);
          }
          inMaster := false;
        }
      }
    }

    /** eMBMasterPoll. */
    method PollOnce(input: Input) returns (ok: bool)
      requires Valid()
      modifies this
      ensures View() == Poll(cfg, old(View()), input) && ok == old(enabled)
    {
      hide Made, Raised, Matched;
      ok := enabled;
      if !enabled || queue == [] {
        return;
      }
      var event := queue[0];
      queue := queue[1..];
      match event
      case Ready =>
      case FrameReceived =>
        frame := input.received.pdu;
        if input.received.ok && input.received.address == dest {
          queue := queue + [Execute];
        } else {
          error := ReceiveData;
          queue := queue + [ErrorProcess];
        }
      case Execute =>
        var exception := ExecuteReply(input.broadcast);
        if exception != NO_EXCEPTION {
          error := ExecuteFunction;
          queue := queue + [ErrorProcess];
        } else {
          reports := reports + [Succeeded];
          releases := releases + 1;
        }
      case FrameSent =>
        frame := input.sent;
      case ErrorProcess =>
        frame := input.sent;
        reports := reports + [Failed(error)];
        releases := releases + 1;
    }
  }
}
