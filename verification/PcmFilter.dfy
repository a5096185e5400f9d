/**
 Fast forward on a PCM stream: what the decoder's sub-sampler keeps, as a filter on single
 elements. `align` is the size of a frame (one sample of every channel) and `reload` the
 number of bytes dropped between two kept frames.
 */
module PcmFilter {

  /** Bytes still to be dropped, and bytes of the current frame already kept. */
  datatype Phase = Phase(skip: nat, partial: nat) {
    /** No bytes are dropped in the middle of a frame. */
    predicate Proper() {
      partial > 0 ==> skip == 0
    }
  }

  const START := Phase(0, 0)

  predicate Keeps(ph: Phase) {
    ph.partial > 0 || ph.skip == 0
  }

  function Next(align: nat, reload: nat, ph: Phase): (r: Phase)
    requires ph.partial < align
    ensures r.partial < align
  {
    if !Keeps(ph) then Phase(ph.skip - 1, 0)
    else if ph.partial + 1 == align then Phase(reload, 0)
    else Phase(ph.skip, ph.partial + 1)
  }

  function Filter<T>(align: nat, reload: nat, ph: Phase, input: seq<T>): (output: seq<T>)
    requires ph.partial < align
    decreases |input|
  {
    if input == [] then [] else
      (if Keeps(ph) then [input[0]] else []) + Filter(align, reload, Next(align, reload, ph), input[1..])
  }

  function After(align: nat, reload: nat, ph: Phase, n: nat): (r: Phase)
    requires ph.partial < align
    ensures r.partial < align
    decreases n
  {
    if n == 0 then ph else After(align, reload, Next(align, reload, ph), n - 1)
  }

  /** Along a stream, nothing is ever dropped in the middle of a frame. */
  lemma {:induction false} StaysProper(align: nat, reload: nat, ph: Phase, n: nat)
    requires ph.partial < align && ph.Proper()
    ensures After(align, reload, ph, n).Proper()
    decreases n
  {
    if n > 0 {
      StaysProper(align, reload, Next(align, reload, ph), n - 1);
    }
  }

  // ----- Cutting the stream -----

  lemma {:induction false} FilterAppend<T>(align: nat, reload: nat, ph: Phase, x: seq<T>, y: seq<T>)
    requires ph.partial < align
    ensures Filter(align, reload, ph, x + y)
         == Filter(align, reload, ph, x) + Filter(align, reload, After(align, reload, ph, |x|), y)
    ensures After(align, reload, ph, |x| + |y|) == After(align, reload, After(align, reload, ph, |x|), |y|)
    decreases |x|
  {
    if x == [] {
      assert x + y == y;
    } else {
      assert (x + y)[1..] == x[1..] + y;
      FilterAppend(align, reload, Next(align, reload, ph), x[1..], y);
    }
  }

  /** What is passed on when the stream arrives in pieces. */
  function FilterPieces<T>(align: nat, reload: nat, ph: Phase, pieces: seq<seq<T>>): (output: seq<T>)
    requires ph.partial < align
    decreases |pieces|
  {
    if pieces == [] then [] else
      Filter(align, reload, ph, pieces[0])
      + FilterPieces(align, reload, After(align, reload, ph, |pieces[0]|), pieces[1..])
  }

  function Concat<T>(pieces: seq<seq<T>>): (all: seq<T>) {
    if pieces == [] then [] else pieces[0] + Concat(pieces[1..])
  }

  /** However the stream is cut, the output is that of the uncut stream. */
  lemma {:induction false} CutIndependent<T>(align: nat, reload: nat, ph: Phase, pieces: seq<seq<T>>)
    requires ph.partial < align
    ensures FilterPieces(align, reload, ph, pieces) == Filter(align, reload, ph, Concat(pieces))
    decreases |pieces|
  {
    if pieces != [] {
      FilterAppend(align, reload, ph, pieces[0], Concat(pieces[1..]));
      CutIndependent(align, reload, After(align, reload, ph, |pieces[0]|), pieces[1..]);
    }
  }

  // ----- Which positions are kept -----

  /** The elements at stream positions `p` with `p mod period < align`; the first one is at `at`. */
  function Select<T>(align: nat, period: nat, at: nat, input: seq<T>): (output: seq<T>)
    requires 0 < period
    decreases |input|
  {
    if input == [] then [] else
      (if at % period < align then [input[0]] else []) + Select(align, period, at + 1, input[1..])
  }

  /** The phase at a stream position. */
  function PhaseAt(align: nat, reload: nat, at: nat): (ph: Phase)
    requires 0 < align
    ensures ph.partial < align
  {
    var r := at % (align + reload);
    if r < align then Phase(0, r) else Phase(align + reload - r, 0)
  }

  lemma ModNext(at: nat, period: nat)
    requires 0 < period
    ensures (at + 1) % period == if at % period + 1 == period then 0 else at % period + 1
  {
    var q, r := at / period, at % period;
    assert at + 1 == q * period + (r + 1);
    if r + 1 == period {
      assert at + 1 == (q + 1) * period;
      ModUnique(at + 1, period, q + 1, 0);
    } else {
      ModUnique(at + 1, period, q, r + 1);
    }
  }

  lemma MulAtLeast(k: nat, p: nat)
    requires k >= 1
    ensures k * p >= p
  {
    assert k * p == (k - 1) * p + p;
  }

  lemma ModUnique(a: nat, period: nat, q: int, r: nat)
    requires 0 < period && a == q * period + r && r < period
    ensures a % period == r
  {
    var q', r' := a / period, a % period;
    assert a == q' * period + r';
    if q > q' {
      assert (q - q') * period == q * period - q' * period;
      MulAtLeast(q - q', period);
    } else if q < q' {
      assert (q' - q) * period == q' * period - q * period;
      MulAtLeast(q' - q, period);
    }
  }

  lemma PhaseNext(align: nat, reload: nat, at: nat)
    requires 0 < align
    ensures Keeps(PhaseAt(align, reload, at)) <==> at % (align + reload) < align
    ensures Next(align, reload, PhaseAt(align, reload, at)) == PhaseAt(align, reload, at + 1)
  {
    ModNext(at, align + reload);
  }

  /** From the start, the filter keeps exactly the positions `p` with `p mod (align + reload) < align`. */
  lemma {:induction false} KeepsByPosition<T>(align: nat, reload: nat, at: nat, input: seq<T>)
    requires 0 < align
    ensures Filter(align, reload, PhaseAt(align, reload, at), input) == Select(align, align + reload, at, input)
    ensures After(align, reload, PhaseAt(align, reload, at), |input|) == PhaseAt(align, reload, at + |input|)
    decreases |input|
  {
    if input != [] {
      PhaseNext(align, reload, at);
      KeepsByPosition(align, reload, at + 1, input[1..]);
    }
  }

  lemma StartIsZero(align: nat, reload: nat)
    requires 0 < align
    ensures PhaseAt(align, reload, 0) == START
  {
    ModUnique(0, align + reload, 0, 0);
  }

  // ----- Changing the rate in mid-stream -----

  datatype Event<T> = Feed(bytes: seq<T>) | Rate(reload: nat)

  /** The output of a fast-forward session in which the rate may change between buffers. */
  function Session<T>(align: nat, reload: nat, ph: Phase, events: seq<Event<T>>): (output: seq<T>)
    requires ph.partial < align
    decreases |events|
  {
    if events == [] then [] else
      match events[0]
      case Feed(bytes) =>
        Filter(align, reload, ph, bytes)
        + Session(align, reload, After(align, reload, ph, |bytes|), events[1..])
      case Rate(reload') =>
        Session(align, reload', ph, events[1..])
  }

  function Input<T>(events: seq<Event<T>>): (input: seq<T>) {
    if events == [] then [] else
      (if events[0].Feed? then events[0].bytes else []) + Input(events[1..])
  }

  /** The positions kept of `n` bytes that start at position `at`. */
  function Kept(align: nat, reload: nat, ph: Phase, at: nat, n: nat): (kept: seq<nat>)
    requires ph.partial < align
    decreases n
  {
    if n == 0 then [] else
      (if Keeps(ph) then [at] else []) + Kept(align, reload, Next(align, reload, ph), at + 1, n - 1)
  }

  /** The positions kept by a session. */
  function SessionKept<T>(align: nat, reload: nat, ph: Phase, events: seq<Event<T>>, at: nat): (kept: seq<nat>)
    requires ph.partial < align
    decreases |events|
  {
    if events == [] then [] else
      match events[0]
      case Feed(bytes) =>
        Kept(align, reload, ph, at, |bytes|)
        + SessionKept(align, reload, After(align, reload, ph, |bytes|), events[1..], at + |bytes|)
      case Rate(reload') =>
        SessionKept(align, reload', ph, events[1..], at)
  }

  ghost predicate Below(at: seq<nat>, bound: nat) {
    forall k :: 0 <= k < |at| ==> at[k] < bound
  }

  /** The elements of `input` at the given positions. */
  function Pick<T>(input: seq<T>, at: seq<nat>): (r: seq<T>)
    requires Below(at, |input|)
    ensures |r| == |at| && forall k :: 0 <= k < |at| ==> r[k] == input[at[k]]
    decreases |at|
  {
    if at == [] then [] else [input[at[0]]] + Pick(input, at[1..])
  }

  lemma PickAppend<T>(input: seq<T>, x: seq<nat>, y: seq<nat>)
    requires Below(x, |input|) && Below(y, |input|)
    ensures Below(x + y, |input|) && Pick(input, x + y) == Pick(input, x) + Pick(input, y)
  {
  }

  lemma {:induction false} FilterPicks<T>(align: nat, reload: nat, ph: Phase, input: seq<T>, at: nat, n: nat)
    requires ph.partial < align && at + n <= |input|
    ensures Below(Kept(align, reload, ph, at, n), |input|)
    ensures Filter(align, reload, ph, input[at..at + n]) == Pick(input, Kept(align, reload, ph, at, n))
    decreases n
  {
    if n > 0 {
      var rest := Kept(align, reload, Next(align, reload, ph), at + 1, n - 1);
      FilterPicks(align, reload, Next(align, reload, ph), input, at + 1, n - 1);
      assert input[at..at + n][1..] == input[at + 1..at + 1 + (n - 1)];
      PickAppend(input, if Keeps(ph) then [at] else [], rest);
    }
  }

  lemma SplitInput<T>(input: seq<T>, at: nat, bytes: seq<T>, rest: seq<T>)
    requires at <= |input| && input[at..] == bytes + rest
    ensures at + |bytes| <= |input| && input[at..at + |bytes|] == bytes && input[at + |bytes|..] == rest
  {
    assert input[at..][..|bytes|] == bytes && input[at..][|bytes|..] == rest;
    assert input[at..][..|bytes|] == input[at..at + |bytes|];
    assert input[at..][|bytes|..] == input[at + |bytes|..];
  }

  /** The output of a session is the input at the positions that it keeps. */
  lemma {:induction false} SessionPicks<T>(align: nat, reload: nat, ph: Phase, events: seq<Event<T>>, input: seq<T>, at: nat)
    requires ph.partial < align && at <= |input| && input[at..] == Input(events)
    ensures Below(SessionKept(align, reload, ph, events, at), |input|)
    ensures Session(align, reload, ph, events) == Pick(input, SessionKept(align, reload, ph, events, at))
    decreases |events|
  {
    hide Filter, Kept, After;
    if events != [] {
      match events[0]
      case Feed(bytes) =>
        var n := |bytes|;
        SplitInput(input, at, bytes, Input(events[1..]));
        FilterPicks(align, reload, ph, input, at, n);
        SessionPicks(align, reload, After(align, reload, ph, n), events[1..], input, at + n);
        PickAppend(input, Kept(align, reload, ph, at, n),
                   SessionKept(align, reload, After(align, reload, ph, n), events[1..], at + n));
      case Rate(reload') =>
        assert [] + Input(events[1..]) == Input(events[1..]);
        SessionPicks(align, reload', ph, events[1..], input, at);
    }
  }

  /** The `j`-th kept position continues a frame that starts at a multiple of `align`. */
  ghost predicate FrameAt(align: nat, kept: seq<nat>, j: nat)
    requires 0 < align && j < |kept|
  {
    kept[j - j % align] % align == 0 && kept[j] == kept[j - j % align] + j % align
  }

  /** The kept positions are whole frames: runs of `align` positions that start at a multiple of it. */
  ghost predicate FrameAligned(align: nat, kept: seq<nat>)
    requires 0 < align
  {
    forall j: nat :: j < |kept| ==> FrameAt(align, kept, j)
  }

  /** After `at` input bytes, of which `kept` were kept, the decoder is in phase `ph`. */
  ghost predicate InStep(align: nat, ph: Phase, at: nat, kept: seq<nat>) {
    && ph.partial < align && FrameAligned(align, kept)
    && |kept| % align == ph.partial <= |kept|
    && (ph.partial > 0 ==> ph.skip == 0 && ph.partial <= at && kept[|kept| - ph.partial] == at - ph.partial)
    && (ph.partial == 0 ==> (at + ph.skip) % align == 0)
  }

  lemma AddMultiple(a: nat, x: nat, y: nat)
    requires 0 < a && x % a == 0 && y % a == 0
    ensures (x + y) % a == 0
  {
    assert x == (x / a) * a && y == (y / a) * a;
    assert x + y == (x / a + y / a) * a;
    ModUnique(x + y, a, x / a + y / a, 0);
  }

  lemma SubMod(n: nat, a: nat)
    requires 0 < a
    ensures n % a <= n && (n - n % a) % a == 0
  {
    assert n == (n / a) * a + n % a;
    ModUnique(n - n % a, a, n / a, 0);
  }

  lemma FramesGrow(align: nat, kept: seq<nat>, at: nat)
    requires 0 < align && FrameAligned(align, kept)
    requires |kept| % align <= |kept|
    requires var start := (kept + [at])[|kept| - |kept| % align]; start % align == 0 && at == start + |kept| % align
    ensures FrameAligned(align, kept + [at])
  {
    var kept' := kept + [at];
    forall j: nat | j < |kept'| ensures FrameAt(align, kept', j) {
      SubMod(j, align);
      if j < |kept| {
        assert FrameAt(align, kept, j);
      }
    }
  }

  lemma KeptInStep(align: nat, reload: nat, ph: Phase, at: nat, kept: seq<nat>)
    requires InStep(align, ph, at, kept) && Keeps(ph) && reload % align == 0
    ensures InStep(align, Next(align, reload, ph), at + 1, kept + [at])
  {
    hide FrameAligned;
    var n := |kept|;
    var start := at - ph.partial;
    FrameStart(align, ph, at, kept);
    FramesGrow(align, kept, at);
    ModNext(n, align);
    if ph.partial + 1 == align {
      ModUnique(align, align, 1, 0);
      AddMultiple(align, start, align);
      AddMultiple(align, start + align, reload);
    }
  }

  lemma FrameStart(align: nat, ph: Phase, at: nat, kept: seq<nat>)
    requires InStep(align, ph, at, kept) && Keeps(ph)
    ensures ph.partial <= at && (at - ph.partial) % align == 0
    ensures (kept + [at])[|kept| - ph.partial] == at - ph.partial
  {
    if ph.partial > 0 {
      var j: nat := |kept| - ph.partial;
      SubMod(|kept|, align);
      assert FrameAt(align, kept, j);
    }
  }

  lemma {:induction false} FilterInStep(align: nat, reload: nat, ph: Phase, at: nat, kept: seq<nat>, n: nat)
    requires InStep(align, ph, at, kept) && reload % align == 0
    ensures InStep(align, After(align, reload, ph, n), at + n, kept + Kept(align, reload, ph, at, n))
    decreases n
  {
    hide FrameAligned;
    if n == 0 {
      assert kept + [] == kept;
    } else {
      var ph' := Next(align, reload, ph);
      var rest := Kept(align, reload, ph', at + 1, n - 1);
      if Keeps(ph) {
        KeptInStep(align, reload, ph, at, kept);
        FilterInStep(align, reload, ph', at + 1, kept + [at], n - 1);
        assert kept + ([at] + rest) == (kept + [at]) + rest;
      } else {
        FilterInStep(align, reload, ph', at + 1, kept, n - 1);
        assert [] + rest == rest;
      }
    }
  }

  /** Rates that drop whole frames. */
  ghost predicate WholeFrames<T>(align: nat, events: seq<Event<T>>)
    requires 0 < align
  {
    forall k :: 0 <= k < |events| && events[k].Rate? ==> events[k].reload % align == 0
  }

  lemma {:induction false} SessionInStep<T>(align: nat, reload: nat, ph: Phase, at: nat, kept: seq<nat>, events: seq<Event<T>>)
    requires InStep(align, ph, at, kept) && reload % align == 0 && WholeFrames(align, events)
    ensures FrameAligned(align, kept + SessionKept(align, reload, ph, events, at))
    decreases |events|
  {
    hide FrameAligned;
    if events == [] {
      assert kept + [] == kept;
    } else {
      match events[0]
      case Feed(bytes) =>
        var out, ph' := Kept(align, reload, ph, at, |bytes|), After(align, reload, ph, |bytes|);
        FilterInStep(align, reload, ph, at, kept, |bytes|);
        SessionInStep(align, reload, ph', at + |bytes|, kept + out, events[1..]);
        var rest := SessionKept(align, reload, ph', events[1..], at + |bytes|);
        assert kept + (out + rest) == (kept + out) + rest;
      case Rate(reload') =>
        SessionInStep(align, reload', ph, at, kept, events[1..]);
    }
  }

  /**
   Through any mixture of buffers of any size and rate changes, a session that starts at a
   frame keeps whole frames only (the last may still be incomplete).
   */
  lemma FramesSurvive<T>(align: nat, reload: nat, events: seq<Event<T>>)
    requires 0 < align && reload % align == 0 && WholeFrames(align, events)
    ensures FrameAligned(align, SessionKept(align, reload, START, events, 0))
    ensures Below(SessionKept(align, reload, START, events, 0), |Input(events)|)
    ensures Session(align, reload, START, events) == Pick(Input(events), SessionKept(align, reload, START, events, 0))
  {
    var kept := SessionKept(align, reload, START, events, 0);
    ModUnique(0, align, 0, 0);
    SessionInStep(align, reload, START, 0, [], events);
    assert [] + kept == kept;
    assert Input(events)[0..] == Input(events);
    SessionPicks(align, reload, START, events, Input(events), 0);
  }

  // ----- The rate as the decoder stores it -----

  /** The drop between two frames, cut to the 8 bits of the counter. */
  function Reload(align: nat, rate: nat): (reload: nat)
    requires 0 < rate
    ensures reload < 256
  {
    (align * (rate - 1)) % 256
  }

  function Positions(at: nat, n: nat): (r: seq<nat>)
    ensures |r| == n
    decreases n
  {
    if n == 0 then [] else [at] + Positions(at + 1, n - 1)
  }

  lemma {:induction false} SelectMembers(align: nat, period: nat, at: nat, n: nat, p: nat)
    requires 0 < period && at <= p < at + n
    ensures p in Select(align, period, at, Positions(at, n)) <==> p % period < align
    decreases n
  {
    SelectRange(align, period, at + 1, n - 1);
    if p > at {
      SelectMembers(align, period, at + 1, n - 1, p);
    }
  }

  lemma {:induction false} SelectRange(align: nat, period: nat, at: nat, n: nat)
    requires 0 < period
    ensures forall p :: p in Select(align, period, at, Positions(at, n)) ==> at <= p
    decreases n
  {
    if n > 0 {
      SelectRange(align, period, at + 1, n - 1);
    }
  }

  lemma MulRate(align: nat, rate: nat)
    requires 0 < rate
    ensures align * rate == align + align * (rate - 1)
  {
  }

  lemma DropFits(align: nat, drop: nat, input: seq<nat>)
    requires 0 < align && drop < 256
    ensures Filter(align, drop % 256, START, input) == Select(align, align + drop, 0, input)
  {
    StartIsZero(align, drop);
    KeepsByPosition(align, drop, 0, input);
  }

  /** A drop that does not fit makes the filter keep a position too early. */
  lemma DropOverflows(align: nat, drop: nat) returns (input: seq<nat>)
    requires 0 < align && 256 <= drop
    ensures Filter(align, drop % 256, START, input) != Select(align, align + drop, 0, input)
  {
    hide Filter, Select, Positions, PhaseAt;
    var p := align + drop % 256;
    input := Positions(0, p + 1);
    StartIsZero(align, drop % 256);
    KeepsByPosition(align, drop % 256, 0, input);
    ModUnique(p, p, 1, 0);
    SelectMembers(align, p, 0, p + 1, p);
    ModUnique(p, align + drop, 0, p);
    SelectMembers(align, align + drop, 0, p + 1, p);
  }

  /**
   Fast forward at rate `rate` keeps one frame in `rate`, for every stream, if and only if
   the drop between two frames fits the decoder's 8-bit counter.
   */
  lemma RateExact(align: nat, rate: nat)
    requires 0 < align && 0 < rate
    ensures 0 < align * rate
    ensures (forall input: seq<nat> ::
               Filter(align, Reload(align, rate), START, input) == Select(align, align * rate, 0, input))
            <==> align * (rate - 1) < 256
  {
    hide Filter, Select;
    MulRate(align, rate);
    var drop := align * (rate - 1);
    if drop < 256 {
      forall input: seq<nat>
        ensures Filter(align, Reload(align, rate), START, input) == Select(align, align * rate, 0, input)
      {
        DropFits(align, drop, input);
      }
    } else {
      var input := DropOverflows(align, drop);
    }
  }

  /** A drop of whole frames is one after it has been cut to 8 bits, if the frame size divides 256. */
  lemma ReloadWholeFrames(align: nat, rate: nat)
    requires 0 < align && 256 % align == 0 && 0 < rate
    ensures Reload(align, rate) % align == 0
  {
    var q := 256 / align;
    var k, r := (rate - 1) / q, (rate - 1) % q;
    MulRegroup(align, k, q, r);
    MulLess(align, r, q);
    ModUnique(align * (rate - 1), 256, k, align * r);
    ModUnique(align * r, align, r, 0);
  }

  lemma MulRegroup(a: nat, k: nat, q: nat, r: nat)
    ensures a * (k * q + r) == k * (a * q) + a * r
  {
    assert a * (k * q) == k * (a * q);
  }

  lemma MulLess(a: nat, x: nat, y: nat)
    requires 0 < a && x < y
    ensures a * x < a * y
  {
  }

  /** Otherwise some rate, cut to 8 bits, drops part of a frame. */
  lemma ReloadPartFrame(align: nat) returns (rate: nat)
    requires 0 < align < 256 && 256 % align != 0
    ensures 0 < rate < 256 && Reload(align, rate) % align != 0
  {
    var m := 256 / align + 1;
    var r := align - 256 % align;
    assert align * m == 256 + r by {
      assert 256 == align * (256 / align) + 256 % align;
    }
    rate := m + 1;
    assert align * (rate - 1) == 256 + r;
    ModUnique(align * (rate - 1), 256, 1, r);
    ModUnique(r, align, 0, r);
    assert align > 1;
  }

  /** Every rate drops whole frames if and only if the frame size divides 256. */
  lemma WholeDropsExactly(align: nat)
    requires 0 < align < 256
    ensures (forall rate :: 0 < rate < 256 ==> Reload(align, rate) % align == 0) <==> 256 % align == 0
  {
    hide Reload;
    if 256 % align == 0 {
      forall rate: nat | 0 < rate < 256 ensures Reload(align, rate) % align == 0 {
        ReloadWholeFrames(align, rate);
      }
    } else {
      var rate := ReloadPartFrame(align);
    }
  }
}
