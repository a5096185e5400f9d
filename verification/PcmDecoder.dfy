/**
 The PCM decoder in front of a DAC driver: it consumes the WAV header of each stream, and in
 fast forward it sub-samples the audio buffers in place before it passes them down.
 */
module PcmDecoder {
  import opened Bytes
  import opened PcmFilter

  /** Rate 0 is normal play. */
  const NORMAL_PLAY: nat := 0

  // ----- The WAV header -----

  const HEADER_SIZE: nat := 44

  datatype Format = Format(samprate: nat, byterate: nat, align: nat, bpsamp: nat, nchannels: nat)

  function Le16(b: seq<byte>, i: nat): nat
    requires i + 2 <= |b|
  {
    b[i] as int + 256 * b[i + 1] as int
  }

  function Le32(b: seq<byte>, i: nat): nat
    requires i + 4 <= |b|
  {
    Le16(b, i) + 65536 * Le16(b, i + 2)
  }

  /** RIFF, WAVE, fmt and data chunks of linear PCM whose format fits the decoder's 8-bit fields. */
  predicate ValidWav(h: seq<byte>)
    requires |h| >= HEADER_SIZE
  {
    && Le32(h, 0) == 0x46464952
    && Le32(h, 8) == 0x45564157
    && Le32(h, 12) == 0x20746d66
    && Le32(h, 16) == 16
    && Le16(h, 20) == 1
    && Le16(h, 22) < 256
    && Le16(h, 32) < 256
    && Le16(h, 34) < 256
    && Le32(h, 36) == 0x61746164
  }

  function FormatOf(h: seq<byte>): (f: Format)
    requires |h| >= HEADER_SIZE
  {
    Format(Le32(h, 24), Le32(h, 28), Le16(h, 32), Le16(h, 34), Le16(h, 22))
  }

  // ----- What the decoder does to a stream -----

  /**
   How sub-sampling may fail to come back: the number of bytes that complete a frame wraps
   below zero and the copy leaves the buffer, or the main loop makes no headway.
   */
  datatype Fault = NoFault | Overruns | Hangs

  /** What becomes of sub-sampling `n` bytes at a frame size. */
  function FaultOf(align: nat, ph: Phase, n: nat): (f: Fault) {
    if ph.partial > align then Overruns else if align == 0 && n > ph.skip then Hangs else NoFault
  }

  /** A pending frame that already has the size of one is complete: the drop begins. */
  function Settled(align: nat, reload: nat, ph: Phase): (r: Phase)
    ensures 0 < align && ph.partial <= align ==> r.partial < align
    ensures ph.Proper() ==> r.Proper()
  {
    if 0 < ph.partial == align then Phase(reload, 0) else ph
  }

  function SampleOf(align: nat, reload: nat, ph: Phase, input: seq<byte>): (out: seq<byte>)
    requires FaultOf(align, ph, |input|) == NoFault
  {
    if align == 0 then [] else Filter(align, reload, Settled(align, reload, ph), input)
  }

  function PhaseAfter(align: nat, reload: nat, ph: Phase, n: nat): (r: Phase)
    requires FaultOf(align, ph, n) == NoFault
    ensures r.partial == 0 || r.partial < align
    ensures ph.Proper() ==> r.Proper()
  {
    if align == 0 then Phase(ph.skip - n, 0)
    else
      assert ph.Proper() ==> After(align, reload, Settled(align, reload, ph), n).Proper() by {
        if ph.Proper() {
          StaysProper(align, reload, Settled(align, reload, ph), n);
        }
      }
      After(align, reload, Settled(align, reload, ph), n)
  }

  datatype State = State(streaming: bool, format: Format, rate: nat, phase: Phase) {
    /**
     While streaming, the pending part of a frame is smaller than a frame; no bytes are
     dropped before it is complete; and in normal play nothing is pending.
     */
    predicate Valid() {
      && (streaming ==> phase.partial == 0 || phase.partial < format.align)
      && phase.Proper()
      && (rate == NORMAL_PLAY ==> phase == START)
    }

    function FaultAt(n: nat): Fault {
      if rate == NORMAL_PLAY then NoFault else FaultOf(format.align, phase, n)
    }

    function Sampled(bytes: seq<byte>): (out: seq<byte>)
      requires FaultAt(|bytes|) == NoFault
    {
      if rate == NORMAL_PLAY then bytes else SampleOf(format.align, Reload(format.align, rate), phase, bytes)
    }

    function Advanced(n: nat): (st: State)
      requires FaultAt(n) == NoFault
      ensures Valid() ==> st.Valid() && (st.phase.partial == 0 || st.phase.partial < format.align)
    {
      if rate == NORMAL_PLAY then this
      else this.(phase := PhaseAfter(format.align, Reload(format.align, rate), phase, n))
    }
  }

  const INITIAL := State(false, Format(0, 0, 0, 0, 0), NORMAL_PLAY, START)

  /** The result of passing a buffer to the decoder: what goes down to the driver, if anything. */
  datatype Enqueued = Enqueued(st: State, passed: bool, out: seq<byte>, ok: bool, fault: Fault)

  /** This buffer carries a header that the decoder takes. */
  predicate Starts(st: State, payload: seq<byte>) {
    !st.streaming && |payload| >= HEADER_SIZE && ValidWav(payload)
  }

  function Enqueue(st: State, payload: seq<byte>, final: bool, configureOk: bool, enqueueOk: bool): (r: Enqueued)
    requires st.Valid()
    ensures r.st.Valid()
  {
    if st.streaming then
      Passed(st.(streaming := !final), payload, !final, enqueueOk)
    else if !Starts(st, payload) then
      Enqueued(st, false, [], false, NoFault)
    else
      var st' := st.(format := FormatOf(payload));
      if !configureOk then Enqueued(st', false, [], false, NoFault)
      else Passed(st', payload[HEADER_SIZE..], enqueueOk && !final, enqueueOk)
  }

  /** Samples the payload and hands it down, unless sampling does not come back. */
  function Passed(st: State, payload: seq<byte>, streaming: bool, enqueueOk: bool): (r: Enqueued)
    requires st.Valid()
    ensures r.st.Valid()
  {
    var fault := st.FaultAt(|payload|);
    if fault != NoFault then Enqueued(st, false, [], false, fault)
    else Enqueued(st.Advanced(|payload|).(streaming := streaming), true, st.Sampled(payload), enqueueOk, NoFault)
  }

  function SetRate(st: State, rate: nat): (r: State)
    requires st.Valid()
    ensures r.Valid()
  {
    if st.rate == NORMAL_PLAY || rate == NORMAL_PLAY then st.(rate := rate, phase := START)
    else st.(rate := rate)
  }

  // ----- Runs of bytes through the filter -----

  lemma {:induction false} FilterSkip<T>(align: nat, reload: nat, skip: nat, n: nat, x: seq<T>)
    requires 0 < align && n <= skip && n <= |x|
    ensures Filter(align, reload, Phase(skip, 0), x) == Filter(align, reload, Phase(skip - n, 0), x[n..])
    ensures After(align, reload, Phase(skip, 0), |x|) == After(align, reload, Phase(skip - n, 0), |x| - n)
    decreases n
  {
    if n == 0 {
      assert x[0..] == x;
    } else {
      FilterSkip(align, reload, skip - 1, n - 1, x[1..]);
      assert x[1..][n - 1..] == x[n..];
    }
  }

  /** The rest of a frame is kept, and then the drop begins. */
  lemma {:induction false} FilterFrame<T>(align: nat, reload: nat, ph: Phase, x: seq<T>)
    requires ph.partial < align <= ph.partial + |x| && Keeps(ph)
    ensures var n := align - ph.partial;
            && Filter(align, reload, ph, x) == x[..n] + Filter(align, reload, Phase(reload, 0), x[n..])
            && After(align, reload, ph, |x|) == After(align, reload, Phase(reload, 0), |x| - n)
    decreases align - ph.partial
  {
    var n := align - ph.partial;
    if n > 1 {
      FilterFrame(align, reload, Phase(ph.skip, ph.partial + 1), x[1..]);
      assert [x[0]] + x[1..][..n - 1] == x[..n];
      assert x[1..][n - 1..] == x[n..];
    } else {
      assert [x[0]] == x[..1];
    }
  }

  /** Less than the rest of a frame is kept as a whole. */
  lemma {:induction false} FilterShort<T>(align: nat, reload: nat, ph: Phase, x: seq<T>)
    requires ph.partial + |x| < align && Keeps(ph)
    ensures Filter(align, reload, ph, x) == x
    ensures After(align, reload, ph, |x|) == Phase(ph.skip, ph.partial + |x|)
    decreases |x|
  {
    if x != [] {
      FilterShort(align, reload, Phase(ph.skip, ph.partial + 1), x[1..]);
      assert [x[0]] + x[1..] == x;
    }
  }

  // ----- In place, in one buffer -----

  class AudioBuffer {
    const samp: array<byte>
    var curbyte: nat
    var nbytes: nat
    const final: bool

    ghost predicate Valid()
      reads this
    {
      curbyte <= nbytes <= samp.Length
    }

    ghost function Payload(): (bytes: seq<byte>)
      requires Valid()
      reads this, samp
    {
      samp[curbyte..nbytes]
    }

    constructor (bytes: array<byte>, curbyte: nat, nbytes: nat, final: bool)
      requires curbyte <= nbytes <= bytes.Length
      ensures Valid() && samp == bytes && this.curbyte == curbyte && this.nbytes == nbytes && this.final == final
    {
      samp, this.curbyte, this.nbytes, this.final := bytes, curbyte, nbytes, final;
    }
  }

  /** Copies `n` bytes down in the same array, lowest first. */
  method CopyDown(samp: array<byte>, dest: nat, src: nat, n: nat)
    requires dest <= src && src + n <= samp.Length
    modifies samp
    ensures samp[dest..dest + n] == old(samp[src..src + n])
    ensures forall k :: 0 <= k < samp.Length && !(dest <= k < dest + n) ==> samp[k] == old(samp[k])
  {
    var i := 0;
    while i < n
      invariant 0 <= i <= n
      invariant forall k :: dest <= k < dest + i ==> samp[k] == old(samp[k + (src - dest)])
      invariant forall k :: 0 <= k < samp.Length && !(dest <= k < dest + i) ==> samp[k] == old(samp[k])
    {
      samp[dest + i] := samp[src + i];
      i := i + 1;
    }
  }

  class Decoder {
    var samprate: nat
    var byterate: nat
    var align: nat
    var bpsamp: nat
    var nchannels: nat
    var streaming: bool
    var subsample: nat
    var skip: nat
    var npartial: nat

    constructor ()
      ensures View() == INITIAL
    {
      samprate, byterate, align, bpsamp, nchannels := 0, 0, 0, 0, 0;
      streaming, subsample, skip, npartial := false, NORMAL_PLAY, 0, 0;
    }

    ghost function FilterPhase(): (ph: Phase)
      reads this`skip, this`npartial
    {
      Phase(skip, npartial)
    }

    /** Keeps the next frame, or what there is of it, at `samp[dest..]`. */
    method KeepNext(samp: array<byte>, dest: nat, src: nat, end: nat, reload: nat) returns (n: nat)
      requires dest <= src < end <= samp.Length && npartial == skip == 0 < align
      modifies this`skip, this`npartial, samp
      ensures 0 < n <= end - src && npartial < align && (npartial > 0 ==> src + n == end)
      ensures samp[..dest + n] == old(samp[..dest]) + old(samp[src..end])[..n]
      ensures samp[src + n..end] == old(samp[src..end])[n..]
      ensures Filter(align, reload, START, old(samp[src..end]))
           == old(samp[src..end])[..n] + Filter(align, reload, FilterPhase(), old(samp[src..end])[n..])
      ensures After(align, reload, START, end - src) == After(align, reload, FilterPhase(), end - src - n)
    {
      hide Filter, After;
      ghost var rest := samp[src..end];
      n := align;
      if end - src < align {
        n := end - src;
        FilterShort(align, reload, START, rest);
        npartial := n;
        FilterNothing<byte>(align, reload, FilterPhase());
        assert rest[..n] == rest && rest[n..] == [];
      } else {
        FilterFrame(align, reload, START, rest);
        skip := reload;
      }
      ghost var before := samp[..];
      CopyDown(samp, dest, src, n);
      Moved(before, samp[..], dest, src, n, end);
    }

    /** The main loop: moves what is kept of `samp[from..end]` down to `samp[to..]`. */
    method Sift(samp: array<byte>, to: nat, from: nat, end: nat, reload: nat) returns (dest: nat, fault: Fault)
      requires to <= from <= end <= samp.Length && npartial == 0
      modifies this`skip, this`npartial, samp
      ensures fault == FaultOf(align, old(FilterPhase()), end - from)
      ensures fault == NoFault ==>
                && dest <= end
                && samp[..dest] == old(samp[..to]) + SampleOf(align, reload, old(FilterPhase()), old(samp[from..end]))
                && FilterPhase() == PhaseAfter(align, reload, old(FilterPhase()), end - from)
    {
      hide Filter, After;
      ghost var rest, ph := samp[from..end], FilterPhase();
      ghost var all := samp[..to] + if align == 0 then [] else Filter(align, reload, ph, rest);
      dest := to;
      var src := from;
      while src < end
        invariant to <= dest <= src <= end && samp[src..end] == rest
        invariant align == 0 ==> npartial == 0 && skip + (src - from) == ph.skip && samp[..dest] == all
        invariant align > 0 ==> npartial < align && (npartial > 0 ==> src == end)
        invariant align > 0 ==> samp[..dest] + Filter(align, reload, FilterPhase(), rest) == all
        invariant align > 0 ==> After(align, reload, FilterPhase(), end - src) == After(align, reload, ph, end - from)
      {
        if skip > 0 {
          var n := if skip < end - src then skip else end - src;
          if align > 0 {
            FilterSkip(align, reload, skip, n, rest);
          }
          skip := skip - n;
          src := src + n;
          rest := rest[n..];
        } else if align == 0 {
          return dest, Hangs;
        } else {
          ghost var done := samp[..dest];
          var n := KeepNext(samp, dest, src, end, reload);
          dest := dest + n;
          src := src + n;
          Regroup(done, rest[..n], Filter(align, reload, FilterPhase(), rest[n..]));
          rest := rest[n..];
        }
      }
      fault := NoFault;
      if align > 0 {
        FilterNothing<byte>(align, reload, FilterPhase());
      }
    }

    ghost function View(): (st: State)
      reads this
    {
      State(streaming, Format(samprate, byterate, align, bpsamp, nchannels), subsample, FilterPhase())
    }

    /** Completes the pending frame with the first bytes of a buffer, at the bottom of the array. */
    method FinishFrame(apb: AudioBuffer, reload: nat) returns (n: nat)
      requires apb.Valid() && 0 < npartial <= align <= npartial + (apb.nbytes - apb.curbyte)
      modifies this`skip, this`npartial, apb.samp
      ensures n == align - old(npartial) && FilterPhase() == Phase(reload, 0)
      ensures apb.samp[..n] == old(apb.Payload())[..n]
      ensures apb.samp[apb.curbyte + n..apb.nbytes] == old(apb.Payload())[n..]
    {
      ghost var before := apb.samp[..];
      n := align - npartial;
      if apb.curbyte > 0 {
        CopyDown(apb.samp, 0, apb.curbyte, n);
      }
      Moved(before, apb.samp[..], 0, apb.curbyte, n, apb.nbytes);
      npartial := 0;
      skip := reload;
    }

    /** Filters the payload of a buffer in place. */
    method FastForward(apb: AudioBuffer, reload: nat) returns (fault: Fault)
      requires apb.Valid() && FilterPhase().Proper()
      modifies this`skip, this`npartial, apb, apb.samp
      ensures apb.Valid()
      ensures fault == FaultOf(align, old(FilterPhase()), old(|apb.Payload()|))
      ensures fault == NoFault ==>
                && apb.Payload() == SampleOf(align, reload, old(FilterPhase()), old(apb.Payload()))
                && FilterPhase() == PhaseAfter(align, reload, old(FilterPhase()), old(|apb.Payload()|))
    {
      hide Filter, After, SampleOf, PhaseAfter;
      var src, dest := apb.curbyte, 0;
      ghost var input, ph := apb.Payload(), FilterPhase();
      if npartial > 0 {
        if npartial + (apb.nbytes - apb.curbyte) < align {
          ShortFrame(align, reload, ph, input);
          npartial := npartial + (apb.nbytes - apb.curbyte);
          return NoFault;
        }
        if npartial > align {
          return Overruns;
        }
        Complete(align, reload, ph, input);
        dest := FinishFrame(apb, reload);
        src := src + dest;
      } else {
        assert apb.samp[..0] == [];
      }
      dest, fault := Sift(apb.samp, dest, src, apb.nbytes, reload);
      if fault == NoFault {
        apb.curbyte := 0;
        apb.nbytes := dest;
      }
    }

    /** pcm_subsample: sub-samples the payload of a buffer in place. */
    method Subsample(apb: AudioBuffer) returns (fault: Fault)
      requires apb.Valid() && FilterPhase().Proper()
      modifies this`skip, this`npartial, apb, apb.samp
      ensures apb.Valid()
      ensures fault == old(View()).FaultAt(old(|apb.Payload()|))
      ensures fault == NoFault ==>
                && apb.Payload() == old(View()).Sampled(old(apb.Payload()))
                && View() == old(View()).Advanced(old(|apb.Payload()|))
    {
      hide Filter, After, Reload;
      fault := NoFault;
      if subsample != NORMAL_PLAY {
        fault := FastForward(apb, Reload(align, subsample));
      }
    }

    /** pcm_subsample_configure. */
    method Configure(rate: nat)
      requires View().Valid()
      modifies this`subsample, this`skip, this`npartial
      ensures View() == SetRate(old(View()), rate)
    {
      if subsample == NORMAL_PLAY {
        if rate != NORMAL_PLAY {
          npartial, skip, subsample := 0, 0, rate;
        }
      } else if rate == NORMAL_PLAY {
        npartial, skip, subsample := 0, 0, NORMAL_PLAY;
      } else if subsample != rate {
        subsample := rate;
      }
    }

    /**
     pcm_enqueuebuffer. The driver below answers `configureOk` and `enqueueOk`; `passed` says
     that the buffer was handed to it. With a fault the function does not come back, and only
     the fault is said.
     */
    method EnqueueBuffer(apb: AudioBuffer, configureOk: bool, enqueueOk: bool)
      returns (ok: bool, passed: bool, fault: Fault)
      requires apb.Valid() && View().Valid()
      modifies this, apb, apb.samp
      ensures apb.Valid()
      ensures var r := Enqueue(old(View()), old(apb.Payload()), apb.final, configureOk, enqueueOk);
              && fault == r.fault
              && (fault == NoFault ==>
                    View() == r.st && passed == r.passed && ok == r.ok && (passed ==> apb.Payload() == r.out))
    {
      hide Filter, After, ValidWav, FormatOf;
      ok, passed, fault := false, false, NoFault;
      if streaming {
        if apb.final {
          streaming := false;
        }
        fault := Subsample(apb);
        return enqueueOk, true, fault;
      }
      if apb.nbytes - apb.curbyte >= HEADER_SIZE {
        ghost var payload := apb.Payload();
        var header := apb.samp[apb.curbyte..apb.nbytes];
        if ValidWav(header) {
          var f := FormatOf(header);
          samprate, byterate, align, bpsamp, nchannels := f.samprate, f.byterate, f.align, f.bpsamp, f.nchannels;
          if configureOk {
            apb.curbyte := apb.curbyte + HEADER_SIZE;
            assert apb.Payload() == payload[HEADER_SIZE..];
            fault := Subsample(apb);
            if fault == NoFault {
              passed := true;
              if enqueueOk {
                streaming := !apb.final;
                ok := true;
              }
            }
          }
        }
      }
    }

    /** pcm_stop and pcm_shutdown. */
    method Stop()
      modifies this`streaming
      ensures View() == old(View()).(streaming := false)
    {
      streaming := false;
    }
  }

  /** A move within an array: what is now below `dest + n`, and what is left above `src + n`. */
  lemma Moved(before: seq<byte>, after: seq<byte>, dest: nat, src: nat, n: nat, end: nat)
    requires dest <= src && src + n <= end <= |before| == |after|
    requires after[dest..dest + n] == before[src..src + n]
    requires forall k :: 0 <= k < |after| && !(dest <= k < dest + n) ==> after[k] == before[k]
    ensures after[..dest + n] == before[..dest] + before[src..end][..n]
    ensures after[src + n..end] == before[src..end][n..]
  {
    assert after[..dest] == before[..dest];
    assert after[..dest + n] == after[..dest] + after[dest..dest + n];
    assert before[src..end][..n] == before[src..src + n];
    assert before[src..end][n..] == before[src + n..end];
    assert after[src + n..end] == before[src + n..end];
  }

  /** Bytes that do not complete a pending frame. */
  lemma ShortFrame(align: nat, reload: nat, ph: Phase, input: seq<byte>)
    requires 0 < ph.partial && ph.partial + |input| < align && ph.Proper()
    ensures SampleOf(align, reload, ph, input) == input
    ensures PhaseAfter(align, reload, ph, |input|) == Phase(0, ph.partial + |input|)
  {
    hide Filter, After;
    FilterShort(align, reload, ph, input);
  }

  /** Bytes that complete a pending frame, which may need none any more. */
  lemma Complete(align: nat, reload: nat, ph: Phase, input: seq<byte>)
    requires 0 < ph.partial <= align <= ph.partial + |input| && ph.Proper()
    ensures var n := align - ph.partial;
            && SampleOf(align, reload, ph, input)
               == input[..n] + SampleOf(align, reload, Phase(reload, 0), input[n..])
            && PhaseAfter(align, reload, ph, |input|) == PhaseAfter(align, reload, Phase(reload, 0), |input| - n)
  {
    hide Filter, After;
    if ph.partial < align {
      FilterFrame(align, reload, ph, input);
    } else {
      assert input[..0] == [] && input[0..] == input;
      var out := SampleOf(align, reload, ph, input);
      assert [] + out == out;
    }
  }

  lemma Regroup<T>(a: seq<T>, b: seq<T>, c: seq<T>)
    ensures a + (b + c) == (a + b) + c
  {
  }

  lemma FilterNothing<T>(align: nat, reload: nat, ph: Phase)
    requires ph.partial < align
    ensures Filter<T>(align, reload, ph, []) == [] && After(align, reload, ph, 0) == ph
  {
  }
}
