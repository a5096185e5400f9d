/**
 Whole streams through the PCM decoder: the header goes, the payload comes through (in fast
 forward sub-sampled as one stream), and `streaming` marks exactly the time in between. Some
 headers make the decoder fail to come back; which runs are safe from that is the last part.
 */
module PcmStream {
  import opened Bytes
  import opened PcmFilter
  import opened PcmDecoder
  import opened WavHeader

  datatype Call =
    | Buffer(payload: seq<byte>, final: bool, configureOk: bool, enqueueOk: bool)
    | ChangeRate(rate: nat)
    | StopPlay

  /** The state after a call, the bytes it sent down, and whether it came back. */
  datatype Done = Done(st: State, out: seq<byte>, fault: Fault)

  function Do(st: State, call: Call): (r: Done)
    requires st.Valid()
    ensures r.st.Valid()
  {
    match call
    case Buffer(payload, final, configureOk, enqueueOk) =>
      var e := Enqueue(st, payload, final, configureOk, enqueueOk);
      Done(e.st, e.out, e.fault)
    case ChangeRate(rate) => Done(SetRate(st, rate), [], NoFault)
    case StopPlay => Done(st.(streaming := false), [], NoFault)
  }

  /** Calls one after the other, up to one that does not come back. */
  function Run(st: State, calls: seq<Call>): (r: Done)
    requires st.Valid()
    ensures r.st.Valid()
    decreases |calls|
  {
    if calls == [] then Done(st, [], NoFault) else
      var a := Do(st, calls[0]);
      if a.fault != NoFault then a else
        var b := Run(a.st, calls[1..]);
        Done(b.st, a.out + b.out, b.fault)
  }

  // ----- The payload of one stream -----

  /** The calls of a stream after its first buffer: the driver accepts all, the last one is final. */
  predicate Middle(calls: seq<Call>)
    decreases |calls|
  {
    calls != [] &&
    match calls[0]
    case Buffer(_, final, _, enqueueOk) => enqueueOk && if final then |calls| == 1 else Middle(calls[1..])
    case ChangeRate(_) => Middle(calls[1..])
    case StopPlay => false
  }

  /** The bytes of a stream's buffers. */
  function PayloadOf(calls: seq<Call>): (bytes: seq<byte>) {
    if calls == [] then [] else
      (if calls[0].Buffer? then calls[0].payload else []) + PayloadOf(calls[1..])
  }

  predicate SteadyRate(calls: seq<Call>) {
    forall k :: 0 <= k < |calls| ==> !calls[k].ChangeRate?
  }

  /** Sampling in two pieces is sampling in one, also in whether it comes back. */
  lemma SampledAppend(st: State, x: seq<byte>, y: seq<byte>)
    requires st.Valid()
    ensures st.FaultAt(|x| + |y|) ==
              if st.FaultAt(|x|) != NoFault then st.FaultAt(|x|) else st.Advanced(|x|).FaultAt(|y|)
    ensures st.FaultAt(|x| + |y|) == NoFault ==>
              && st.Sampled(x + y) == st.Sampled(x) + st.Advanced(|x|).Sampled(y)
              && st.Advanced(|x| + |y|) == st.Advanced(|x|).Advanced(|y|)
  {
    hide Filter, After, Reload;
    if st.rate != NORMAL_PLAY && st.FaultAt(|x| + |y|) == NoFault && st.format.align > 0 {
      var align, reload := st.format.align, Reload(st.format.align, st.rate);
      FilterAppend(align, reload, Settled(align, reload, st.phase), x, y);
    }
  }

  /** What a run of `n` bytes comes to from `st` on. */
  ghost predicate ComesTo(r: Done, st: State, payload: seq<byte>) {
    && r.fault == st.FaultAt(|payload|)
    && (r.fault == NoFault ==>
          r.out == st.Sampled(payload) && r.st == st.Advanced(|payload|).(streaming := false))
  }

  /** At a steady rate, the rest of a stream comes out as its bytes sampled in one go. */
  lemma {:induction false} MiddlePayload(st: State, calls: seq<Call>)
    requires st.Valid() && st.streaming && Middle(calls) && SteadyRate(calls)
    ensures ComesTo(Run(st, calls), st, PayloadOf(calls))
    decreases |calls|
  {
    hide Filter, After, SampleOf, PhaseAfter, FaultOf;
    var call, rest := calls[0], calls[1..];
    if call.final {
      assert rest == [];
      assert call.payload + [] == call.payload;
      if st.FaultAt(|call.payload|) == NoFault {
        assert st.Sampled(call.payload) + [] == st.Sampled(call.payload);
      }
    } else {
      SampledAppend(st, call.payload, PayloadOf(rest));
      if st.FaultAt(|call.payload|) == NoFault {
        MiddlePayload(Do(st, call).st, rest);
      }
    }
  }

  /** A stream: a first buffer with a header that the decoder and the driver take, and the rest. */
  predicate IsStream(st: State, first: Call, rest: seq<Call>) {
    && first.Buffer? && first.configureOk && first.enqueueOk && Starts(st, first.payload)
    && if first.final then rest == [] else Middle(rest)
  }

  /**
   Of a whole stream the driver gets exactly the bytes after the header, sampled as one
   piece, however they were cut into buffers, and afterwards the decoder waits for a header;
   or sampling them as one piece does not come back, and then neither does the stream.
   */
  lemma StreamPayload(st: State, first: Call, rest: seq<Call>)
    requires st.Valid() && IsStream(st, first, rest) && SteadyRate(rest)
    ensures |PayloadOf([first] + rest)| >= HEADER_SIZE
    ensures ComesTo(Run(st, [first] + rest), st.(format := FormatOf(first.payload)),
                    PayloadOf([first] + rest)[HEADER_SIZE..])
  {
    hide Filter, After, ValidWav, FormatOf, SampleOf, PhaseAfter, FaultOf;
    var calls := [first] + rest;
    assert calls[1..] == rest;
    var st' := st.(format := FormatOf(first.payload));
    var body := first.payload[HEADER_SIZE..];
    if first.final {
      assert first.payload + [] == first.payload;
      if st'.FaultAt(|body|) == NoFault {
        assert st'.Sampled(body) + [] == st'.Sampled(body);
      }
    } else {
      assert (first.payload + PayloadOf(rest))[HEADER_SIZE..] == body + PayloadOf(rest);
      SampledAppend(st', body, PayloadOf(rest));
      if st'.FaultAt(|body|) == NoFault {
        MiddlePayload(Do(st, first).st, rest);
      }
    }
  }

  /**
   A WAV file as it is written, cut into buffers in any way that leaves its header whole: in
   normal play the driver gets exactly its samples, and the decoder has the format of the file.
   */
  lemma FilePlays(st: State, f: Format, length: nat, dataLength: nat, samples: seq<byte>, first: Call, rest: seq<Call>)
    requires st.Valid() && !st.streaming && st.rate == NORMAL_PLAY && SteadyRate(rest)
    requires Fits(f) && length < 0x1_0000_0000 && dataLength < 0x1_0000_0000
    requires first.Buffer? && first.configureOk && first.enqueueOk && |first.payload| >= HEADER_SIZE
    requires if first.final then rest == [] else Middle(rest)
    requires PayloadOf([first] + rest) == Written(f, length, dataLength) + samples
    ensures var r := Run(st, [first] + rest);
            r.fault == NoFault && r.out == samples && r.st == st.(format := f)
  {
    hide ValidWav, FormatOf, Written, Run, Middle;
    var whole := Written(f, length, dataLength) + samples;
    assert ([first] + rest)[1..] == rest;
    assert PayloadOf([first] + rest) == first.payload + PayloadOf(rest);
    assert first.payload == whole[..|first.payload|];
    assert Written(f, length, dataLength) == whole[..HEADER_SIZE];
    assert OpensWith(first.payload, f, length, dataLength);
    HeaderExactly(first.payload, f);
    StreamPayload(st, first, rest);
  }

  /** The payload bytes that fast forward keeps, from a phase left over from before. */
  function KeptFrom(align: nat, reload: nat, ph: Phase, payload: seq<byte>): (out: seq<byte>)
    requires 0 < align
  {
    if ph.partial > 0 then Select(align, align + reload, ph.partial, payload)
    else Select(align, align + reload, 0, if ph.skip < |payload| then payload[ph.skip..] else [])
  }

  /**
   In fast forward the driver gets the payload bytes at positions `p` with
   `p mod (align + reload) < align`, counted from where the pending frame began or where the
   pending drop ends; and in normal play all of them.
   */
  lemma StreamPositions(st: State, first: Call, rest: seq<Call>)
    requires st.Valid() && IsStream(st, first, rest) && SteadyRate(rest)
    ensures Run(st, [first] + rest).fault == NoFault ==>
              var payload := PayloadOf([first] + rest)[HEADER_SIZE..];
              var align := FormatOf(first.payload).align;
              Run(st, [first] + rest).out ==
                if st.rate == NORMAL_PLAY then payload
                else if align == 0 then []
                else KeptFrom(align, Reload(align, st.rate), st.phase, payload)
  {
    hide Filter, After, ValidWav, FormatOf, Run, PayloadOf, Select, Middle, SteadyRate, KeptFrom, FaultOf;
    StreamPayload(st, first, rest);
    var st', payload := st.(format := FormatOf(first.payload)), PayloadOf([first] + rest)[HEADER_SIZE..];
    if st'.FaultAt(|payload|) == NoFault && st.rate != NORMAL_PLAY && st'.format.align > 0 {
      SampledPositions(st'.format.align, Reload(st'.format.align, st.rate), st.phase, payload);
    }
  }

  lemma SampledPositions(align: nat, reload: nat, ph: Phase, payload: seq<byte>)
    requires 0 < align && ph.Proper() && FaultOf(align, ph, |payload|) == NoFault
    ensures SampleOf(align, reload, ph, payload) == KeptFrom(align, reload, ph, payload)
  {
    hide Filter, After, Select;
    if ph.partial > 0 {
      PendingPhase(align, reload, ph);
      KeepsByPosition(align, reload, ph.partial, payload);
    } else {
      var n := if ph.skip < |payload| then ph.skip else |payload|;
      FilterSkip(align, reload, ph.skip, n, payload);
      StartIsZero(align, reload);
      KeepsByPosition(align, reload, 0, payload[n..]);
      if ph.skip >= |payload| {
        assert payload[n..] == [];
        FilterNothing<byte>(align, reload, Phase(ph.skip - n, 0));
        FilterNothing<byte>(align, reload, START);
      }
    }
  }

  lemma PendingPhase(align: nat, reload: nat, ph: Phase)
    requires 0 < ph.partial <= align && ph.Proper()
    ensures Settled(align, reload, ph) == PhaseAt(align, reload, ph.partial)
  {
    if ph.partial == align {
      ModUnique(align, align + reload, if reload == 0 then 1 else 0, if reload == 0 then 0 else align);
    } else {
      ModUnique(ph.partial, align + reload, 0, ph.partial);
    }
  }

  // ----- Rate changes within a stream -----

  /** No return to normal play. */
  predicate StaysFast(calls: seq<Call>) {
    forall k :: 0 <= k < |calls| && calls[k].ChangeRate? ==> calls[k].rate != NORMAL_PLAY
  }

  function Events(align: nat, calls: seq<Call>): (events: seq<Event<byte>>)
    requires StaysFast(calls)
    ensures |events| == |calls|
  {
    if calls == [] then [] else
      [match calls[0]
       case Buffer(payload, _, _, _) => Feed(payload)
       case ChangeRate(rate) => Rate(Reload(align, rate))
       case StopPlay => Feed([])] + Events(align, calls[1..])
  }

  /** The rest of a stream is a fast-forward session over its buffers and rate changes. */
  lemma {:induction false} MiddleSession(st: State, calls: seq<Call>)
    requires st.Valid() && st.streaming && Middle(calls) && StaysFast(calls) && st.rate != NORMAL_PLAY
    requires st.phase.partial < st.format.align
    ensures var align := st.format.align;
            && Run(st, calls).fault == NoFault
            && Run(st, calls).out == Session(align, Reload(align, st.rate), st.phase, Events(align, calls))
            && !Run(st, calls).st.streaming
    decreases |calls|
  {
    hide Filter, After, Reload;
    var call, rest := calls[0], calls[1..];
    if call.Buffer? && call.final {
      assert rest == [];
    } else {
      MiddleSession(Do(st, call).st, rest);
    }
  }

  lemma {:induction false} EventsInput(align: nat, calls: seq<Call>)
    requires StaysFast(calls) && (forall k :: 0 <= k < |calls| ==> !calls[k].StopPlay?)
    ensures Input(Events(align, calls)) == PayloadOf(calls)
  {
    hide Reload;
    if calls != [] {
      EventsInput(align, calls[1..]);
    }
  }

  /** The rates of a stream, cut to 8 bits, drop whole frames. */
  predicate DropsFrames(align: nat, rate: nat, calls: seq<Call>)
    requires 0 < align && rate != NORMAL_PLAY && StaysFast(calls)
  {
    && Reload(align, rate) % align == 0
    && forall k :: 0 <= k < |calls| && calls[k].ChangeRate? ==> Reload(align, calls[k].rate) % align == 0
  }

  lemma {:induction false} EventsWhole(align: nat, calls: seq<Call>, rate: nat)
    requires StaysFast(calls) && 0 < align && rate != NORMAL_PLAY && DropsFrames(align, rate, calls)
    ensures WholeFrames(align, Events(align, calls))
  {
    hide Reload;
    if calls != [] {
      EventsWhole(align, calls[1..], rate);
    }
  }

  lemma {:induction false} MiddleNoStop(calls: seq<Call>)
    requires Middle(calls)
    ensures forall k :: 0 <= k < |calls| ==> !calls[k].StopPlay?
  {
    if calls[0].ChangeRate? || !calls[0].final {
      MiddleNoStop(calls[1..]);
    }
  }

  /**
   A stream in fast forward, with any rate changes on the way whose drops are whole frames
   (as all are when the frame size divides 256): the driver gets whole frames of the payload,
   in order.
   */
  lemma StreamFrames(st: State, first: Call, rest: seq<Call>) returns (kept: seq<nat>)
    requires st.Valid() && IsStream(st, first, rest) && StaysFast(rest)
    requires st.phase == START && st.rate != NORMAL_PLAY
    requires 0 < FormatOf(first.payload).align && DropsFrames(FormatOf(first.payload).align, st.rate, rest)
    ensures Run(st, [first] + rest).fault == NoFault && |PayloadOf([first] + rest)| >= HEADER_SIZE
    ensures var payload := PayloadOf([first] + rest)[HEADER_SIZE..];
            && Below(kept, |payload|) && Run(st, [first] + rest).out == Pick(payload, kept)
    ensures FrameAligned(FormatOf(first.payload).align, kept)
  {
    hide Filter, After, ValidWav, FormatOf, Reload, Middle, FrameAligned, Below;
    var calls, body := [first] + rest, first.payload[HEADER_SIZE..];
    assert calls[1..] == rest;
    var align := FormatOf(first.payload).align;
    var reload := Reload(align, st.rate);
    var st1 := Do(st, first).st;
    if !first.final {
      MiddleSession(st1, rest);
      MiddleNoStop(rest);
    }
    EventsInput(align, rest);
    EventsWhole(align, rest, st.rate);
    var events := [Feed(body)] + Events(align, rest);
    assert events[1..] == Events(align, rest);
    FramesSurvive(align, reload, events);
    kept := SessionKept(align, reload, START, events, 0);
    assert PayloadOf(calls)[HEADER_SIZE..] == body + PayloadOf(rest);
  }

  lemma {:induction false} KeptIsFilter(align: nat, reload: nat, ph: Phase, at: nat, n: nat)
    requires ph.partial < align
    ensures Kept(align, reload, ph, at, n) == Filter(align, reload, ph, Positions(at, n))
    decreases n
  {
    if n > 0 {
      assert Positions(at, n)[1..] == Positions(at + 1, n - 1);
      KeptIsFilter(align, reload, Next(align, reload, ph), at + 1, n - 1);
    }
  }

  lemma {:induction false} PositionsAt(at: nat, n: nat)
    ensures forall k :: 0 <= k < n ==> Positions(at, n)[k] == at + k
    decreases n
  {
    if n > 0 {
      PositionsAt(at + 1, n - 1);
    }
  }

  /** At a rate, only whole frames are kept of every stream if and only if the drop is whole frames. */
  lemma FramesExactly(align: nat, reload: nat)
    requires 0 < align
    ensures (forall n: nat :: FrameAligned(align, Kept(align, reload, START, 0, n))) <==> reload % align == 0
  {
    hide Kept, Filter, After, Positions, FrameAligned;
    if reload % align == 0 {
      forall n: nat ensures FrameAligned(align, Kept(align, reload, START, 0, n)) {
        NoneKept(align);
        FilterInStep(align, reload, START, 0, [], n);
        assert [] + Kept(align, reload, START, 0, n) == Kept(align, reload, START, 0, n);
      }
    } else {
      SecondFrame(align, reload);
    }
  }

  lemma NoneKept(align: nat)
    requires 0 < align
    ensures InStep(align, START, 0, [])
  {
  }

  lemma SecondFrame(align: nat, reload: nat)
    requires 0 < align && reload % align != 0
    ensures !FrameAligned(align, Kept(align, reload, START, 0, align + reload + 1))
  {
    hide Kept, Filter, After, Positions;
    var n := align + reload + 1;
    var all := Positions(0, n);
    PositionsAt(0, n);
    KeptIsFilter(align, reload, START, 0, n);
    FilterFrame(align, reload, START, all);
    FilterSkip(align, reload, reload, reload, all[align..]);
    assert all[align..][reload..] == [align + reload];
    OneKept(align, reload, align + reload);
    var kept := Kept(align, reload, START, 0, n);
    assert kept[align] == align + reload;
    assert FrameAt(align, kept, align) ==> (align + reload) % align == 0;
    if (align + reload) % align == 0 {
      ModUnique(reload, align, (align + reload) / align - 1, 0);
    }
  }

  lemma OneKept(align: nat, reload: nat, p: nat)
    requires 0 < align
    ensures Filter(align, reload, START, [p]) == [p]
  {
    assert [p][1..] == [];
  }

  // ----- When the decoder is streaming -----

  /** This call begins streaming: an accepted header in a buffer that is not the last. */
  predicate Begins(st: State, call: Call) {
    call.Buffer? && Starts(st, call.payload) && call.configureOk && call.enqueueOk && !call.final
  }

  /** This call ends streaming. */
  predicate Ends(call: Call) {
    call.StopPlay? || (call.Buffer? && call.final)
  }

  ghost predicate BeganAt(st: State, calls: seq<Call>, j: nat)
    requires st.Valid() && j < |calls|
  {
    Begins(Run(st, calls[..j]).st, calls[j]) && forall i :: j < i < |calls| ==> !Ends(calls[i])
  }

  /** A run that comes back is the run without its last call, and that call. */
  lemma {:induction false} RunLast(st: State, calls: seq<Call>)
    requires st.Valid() && calls != [] && Run(st, calls).fault == NoFault
    ensures var n := |calls| - 1;
            && Run(st, calls[..n]).fault == NoFault
            && Do(Run(st, calls[..n]).st, calls[n]).fault == NoFault
            && Run(st, calls).st == Do(Run(st, calls[..n]).st, calls[n]).st
    decreases |calls|
  {
    hide Do;
    var n := |calls| - 1;
    if n > 0 {
      RunLast(Do(st, calls[0]).st, calls[1..]);
      assert calls[..n][1..] == calls[1..][..n - 1];
    } else {
      assert calls[1..] == [] && calls[..n] == [];
    }
  }

  lemma StreamingStep(st: State, call: Call)
    requires st.Valid()
    ensures Do(st, call).fault == NoFault ==>
              (Do(st, call).st.streaming <==> Begins(st, call) || (st.streaming && !Ends(call)))
  {
    hide ValidWav, FormatOf;
  }

  /**
   After any run of calls that comes back the decoder is streaming if and only if some
   accepted first buffer that was not final has been followed by no final buffer, stop or
   shutdown since.
   */
  lemma {:induction false} StreamingExactly(st: State, calls: seq<Call>)
    requires st.Valid() && !st.streaming
    ensures Run(st, calls).fault == NoFault ==>
              (Run(st, calls).st.streaming <==> exists j: nat :: j < |calls| && BeganAt(st, calls, j))
    decreases |calls|
  {
    hide Do, Begins, Ends, Run;
    if calls == [] {
      RunNothing(st);
    } else if Run(st, calls).fault == NoFault {
      var n := |calls| - 1;
      var init := calls[..n];
      RunLast(st, calls);
      StreamingExactly(st, init);
      StreamingStep(Run(st, init).st, calls[n]);
      forall j: nat | j < n ensures BeganAt(st, calls, j) <==> BeganAt(st, init, j) && !Ends(calls[n]) {
        BeganLonger(st, calls, j);
      }
      assert BeganAt(st, calls, n) <==> Begins(Run(st, init).st, calls[n]);
      if Run(st, calls).st.streaming && !BeganAt(st, calls, n) {
        var j: nat :| j < |init| && BeganAt(st, init, j);
        assert BeganAt(st, calls, j);
      }
    }
  }

  lemma RunNothing(st: State)
    requires st.Valid()
    ensures Run(st, []) == Done(st, [], NoFault)
  {
  }

  lemma BeganLonger(st: State, calls: seq<Call>, j: nat)
    requires st.Valid() && j < |calls| - 1
    ensures BeganAt(st, calls, j) <==> BeganAt(st, calls[..|calls| - 1], j) && !Ends(calls[|calls| - 1])
  {
    hide Do, Begins, Ends, Run;
    var init := calls[..|calls| - 1];
    assert init[..j] == calls[..j] && init[j] == calls[j];
  }

  // ----- Which runs come back -----

  /** The headers that the decoder takes in this run have these frame sizes. */
  predicate HeadersIn(st: State, calls: seq<Call>, sizes: set<nat>)
    requires st.Valid()
    decreases |calls|
  {
    calls != [] ==>
      && (calls[0].Buffer? && Starts(st, calls[0].payload) ==> FormatOf(calls[0].payload).align in sizes)
      && (Do(st, calls[0]).fault == NoFault ==> HeadersIn(Do(st, calls[0]).st, calls[1..], sizes))
  }

  /** No size is zero, and no two differ by more than one. */
  ghost predicate Close(sizes: set<nat>) {
    forall a, b :: a in sizes && b in sizes ==> 0 < b && a <= b + 1
  }

  /** What is pending fits every header that may come, and the current frame size is one of them. */
  ghost predicate Prepared(st: State, sizes: set<nat>) {
    && st.Valid() && (forall b :: b in sizes ==> st.phase.partial <= b)
    && (st.streaming ==> st.format.align in sizes)
  }

  lemma SafeStep(st: State, call: Call, sizes: set<nat>)
    requires Prepared(st, sizes) && Close(sizes)
    requires call.Buffer? && Starts(st, call.payload) ==> FormatOf(call.payload).align in sizes
    ensures Do(st, call).fault == NoFault && Prepared(Do(st, call).st, sizes)
  {
    hide ValidWav, FormatOf, Filter, After, SampleOf, PhaseAfter;
  }

  lemma {:induction false} SafeRun(st: State, calls: seq<Call>, sizes: set<nat>)
    requires Prepared(st, sizes) && Close(sizes) && HeadersIn(st, calls, sizes)
    ensures Run(st, calls).fault == NoFault
    decreases |calls|
  {
    hide Do, Starts, FormatOf, Prepared, Close;
    if calls != [] {
      assert st.Valid() by { PreparedValid(st, sizes); }
      SafeStep(st, calls[0], sizes);
      SafeRun(Do(st, calls[0]).st, calls[1..], sizes);
    }
  }

  lemma PreparedValid(st: State, sizes: set<nat>)
    requires Prepared(st, sizes)
    ensures st.Valid()
  {
  }

  /** The header of an 8-bit mono file at 8 kHz, but for its frame size. */
  function Header(align: nat): (h: seq<byte>)
    requires align < 256
    ensures |h| == HEADER_SIZE
  {
    Written(Format(8000, 8000, align, 8, 1), 0, 0)
  }

  lemma HeaderRead(align: nat, body: seq<byte>)
    requires align < 256
    ensures ValidWav(Header(align) + body) && FormatOf(Header(align) + body).align == align
    ensures (Header(align) + body)[HEADER_SIZE..] == body
  {
    hide ValidWav, FormatOf, Written;
    WrittenRead(Format(8000, 8000, align, 8, 1), 0, 0, body);
  }

  /** Fast forward, a stream cut in its first frame of size `a`, and then a header of size `b`. */
  function Shrinking(a: nat, b: nat): (calls: seq<Call>)
    requires 0 < a < 256 && b < 256
  {
    [ChangeRate(2), Buffer(Header(a) + Zeros(a - 1), true, true, true), Buffer(Header(b) + [], false, true, true)]
  }

  /** When the second frame is smaller than what is pending of the first, the copy leaves the buffer. */
  lemma ShrinkingOverruns(a: nat, b: nat)
    requires b + 1 < a < 256
    ensures Run(INITIAL, Shrinking(a, b)).fault == Overruns
    ensures HeadersIn(INITIAL, Shrinking(a, b), {a, b})
  {
    hide ValidWav, FormatOf, Filter, After, Reload, Header;
    var calls := Shrinking(a, b);
    var st1 := INITIAL.(rate := 2);
    HeaderRead(a, Zeros(a - 1));
    HeaderRead(b, []);
    FilterShort(a, Reload(a, 2), START, Zeros(a - 1));
    var st2 := Do(st1, calls[1]).st;
    assert Do(st1, calls[1]).fault == NoFault && st2.phase == Phase(0, a - 1);
    assert Do(st2, calls[2]).fault == Overruns;
    Three(INITIAL, calls, st1, st2, {a, b});
  }

  lemma Three(st: State, calls: seq<Call>, st1: State, st2: State, sizes: set<nat>)
    requires st.Valid() && st1.Valid() && st2.Valid() && |calls| == 3
    requires Do(st, calls[0]).fault == NoFault && Do(st, calls[0]).st == st1
    requires Do(st1, calls[1]).fault == NoFault && Do(st1, calls[1]).st == st2
    ensures Run(st, calls).fault == Do(st2, calls[2]).fault
    ensures (forall k | 0 <= k < 3 ::
               calls[k].Buffer? && |calls[k].payload| >= HEADER_SIZE ==> FormatOf(calls[k].payload).align in sizes)
            ==> HeadersIn(st, calls, sizes)
  {
    hide Do, FormatOf, ValidWav;
    assert calls[1..][0] == calls[1] && calls[1..][1..] == [calls[2]] && [calls[2]][1..] == [];
    var last := Do(st2, calls[2]);
    assert Run(st2, [calls[2]]).fault == last.fault;
    assert Run(st1, calls[1..]).fault == last.fault;
    if forall k | 0 <= k < 3 ::
         calls[k].Buffer? && |calls[k].payload| >= HEADER_SIZE ==> FormatOf(calls[k].payload).align in sizes {
      if last.fault == NoFault {
        assert HeadersIn(last.st, [], sizes);
      }
      assert HeadersIn(st2, [calls[2]], sizes);
      assert HeadersIn(st1, calls[1..], sizes);
    }
  }

  /** A header of frame size zero and one byte of payload, in fast forward. */
  function Empty(): (calls: seq<Call>) {
    [ChangeRate(2), Buffer(Header(0) + [0], false, true, true), StopPlay]
  }

  /** The main loop never ends. */
  lemma EmptyHangs()
    ensures Run(INITIAL, Empty()).fault == Hangs
    ensures HeadersIn(INITIAL, Empty(), {0})
  {
    hide ValidWav, FormatOf, Header;
    var calls, st1 := Empty(), INITIAL.(rate := 2);
    HeaderRead(0, [0]);
    assert Do(st1, calls[1]).fault == Hangs;
    assert calls[1..][0] == calls[1];
    assert Run(st1, calls[1..]).fault == Hangs;
  }

  /** With the sizes of some headers, those of more are allowed too. */
  lemma {:induction false} HeadersMore(st: State, calls: seq<Call>, few: set<nat>, many: set<nat>)
    requires st.Valid() && few <= many && HeadersIn(st, calls, few)
    ensures HeadersIn(st, calls, many)
    decreases |calls|
  {
    hide Do, Starts, FormatOf;
    if calls != [] && Do(st, calls[0]).fault == NoFault {
      HeadersMore(Do(st, calls[0]).st, calls[1..], few, many);
    }
  }

  /**
   The exact condition on frame sizes: every run whose headers have sizes from a set comes
   back, whatever the buffers, rates and stops, if and only if no size in the set is zero and
   no two differ by more than one. So streams of one frame size are safe.
   */
  lemma SafeExactly(sizes: set<nat>)
    requires forall a :: a in sizes ==> a < 256
    ensures (forall calls: seq<Call> :: HeadersIn(INITIAL, calls, sizes) ==> Run(INITIAL, calls).fault == NoFault)
            <==> forall a, b :: a in sizes && b in sizes ==> 0 < b && a <= b + 1
  {
    hide HeadersIn, Run, Shrinking, Empty;
    if Close(sizes) {
      forall calls: seq<Call> | HeadersIn(INITIAL, calls, sizes) ensures Run(INITIAL, calls).fault == NoFault {
        SafeRun(INITIAL, calls, sizes);
      }
    } else {
      var a, b :| a in sizes && b in sizes && !(0 < b && a <= b + 1);
      if b == 0 {
        EmptyHangs();
        HeadersMore(INITIAL, Empty(), {0}, sizes);
      } else {
        ShrinkingOverruns(a, b);
        HeadersMore(INITIAL, Shrinking(a, b), {a, b}, sizes);
      }
    }
  }
}
