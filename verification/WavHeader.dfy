/**
 WAV headers as they are written: the three chunks of a linear PCM file with their names spelled
 out and their numbers in little-endian order. The decoder takes exactly these.
 */
module WavHeader {
  import opened Bytes
  import opened PcmFilter
  import opened PcmDecoder

  function Letters(name: string): (b: seq<byte>)
    requires forall k :: 0 <= k < |name| ==> name[k] < 128 as char
    ensures |b| == |name|
  {
    seq(|name|, k requires 0 <= k < |name| => name[k] as int as byte)
  }

  function Put16(n: nat): (b: seq<byte>)
    requires n < 65536
    ensures |b| == 2
  {
    [(n % 256) as byte, (n / 256) as byte]
  }

  function Put32(n: nat): (b: seq<byte>)
    requires n < 0x1_0000_0000
    ensures |b| == 4
  {
    Put16(n % 65536) + Put16(n / 65536)
  }

  /** The five values are those of a header, and three of them fit the decoder's 8-bit fields. */
  predicate Fits(f: Format) {
    f.samprate < 0x1_0000_0000 && f.byterate < 0x1_0000_0000 && f.align < 256 && f.bpsamp < 256 && f.nchannels < 256
  }

  /** The format chunk from its name on, and the data chunk up to its bytes. */
  function FormatChunk(f: Format, dataLength: nat): (h: seq<byte>)
    requires Fits(f) && dataLength < 0x1_0000_0000
    ensures |h| == 32
  {
    Letters("fmt ") + (Put32(16) + (Put16(1) + (Put16(f.nchannels) + (Put32(f.samprate) + (Put32(f.byterate) +
    (Put16(f.align) + (Put16(f.bpsamp) + (Letters("data") + Put32(dataLength)))))))))
  }

  function Written(f: Format, length: nat, dataLength: nat): (h: seq<byte>)
    requires Fits(f) && length < 0x1_0000_0000 && dataLength < 0x1_0000_0000
    ensures |h| == HEADER_SIZE
  {
    Letters("RIFF") + (Put32(length) + (Letters("WAVE") + FormatChunk(f, dataLength)))
  }

  // ----- Reading numbers back -----

  lemma Le16Back(n: nat, rest: seq<byte>)
    requires n < 65536
    ensures Le16(Put16(n) + rest, 0) == n && (Put16(n) + rest)[2..] == rest
  {
  }

  lemma Le32Back(n: nat, rest: seq<byte>)
    requires n < 0x1_0000_0000
    ensures Le32(Put32(n) + rest, 0) == n && (Put32(n) + rest)[4..] == rest
  {
    var b := Put32(n) + rest;
    assert b[0] == Put16(n % 65536)[0] && b[1] == Put16(n % 65536)[1];
    assert b[2] == Put16(n / 65536)[0] && b[3] == Put16(n / 65536)[1];
  }

  lemma NameBack(name: string, rest: seq<byte>)
    requires |name| == 4 && forall k :: 0 <= k < |name| ==> name[k] < 128 as char
    ensures (Letters(name) + rest)[4..] == rest
    ensures Le32(Letters(name) + rest, 0)
         == name[0] as int + 256 * name[1] as int + 65536 * (name[2] as int + 256 * name[3] as int)
  {
    var b := Letters(name) + rest;
    assert forall k :: 0 <= k < 4 ==> b[k] == Letters(name)[k];
  }

  lemma Le16Tail(b: seq<byte>, i: nat, j: nat)
    requires i + j + 2 <= |b|
    ensures Le16(b, i + j) == Le16(b[i..], j)
  {
  }

  lemma Le32Tail(b: seq<byte>, i: nat, j: nat)
    requires i + j + 4 <= |b|
    ensures Le32(b, i + j) == Le32(b[i..], j)
  {
    Le16Tail(b, i, j);
    Le16Tail(b, i, j + 2);
  }

  lemma TailTwice<T>(b: seq<T>, i: nat, j: nat)
    requires i + j <= |b|
    ensures b[i..][j..] == b[i + j..]
  {
  }

  // ----- What the decoder sees -----

  /** The fields of a header from its format chunk on, at their places. */
  predicate FormatFields(c: seq<byte>, f: Format)
    requires |c| >= 32
  {
    && Le32(c, 0) == 0x20746d66 && Le32(c, 4) == 16 && Le16(c, 8) == 1 && Le16(c, 10) == f.nchannels
    && Le32(c, 12) == f.samprate && Le32(c, 16) == f.byterate && Le16(c, 20) == f.align && Le16(c, 22) == f.bpsamp
    && Le32(c, 24) == 0x61746164
  }

  lemma FormatChunkRead(f: Format, dataLength: nat, rest: seq<byte>)
    requires Fits(f) && dataLength < 0x1_0000_0000
    ensures FormatFields(FormatChunk(f, dataLength) + rest, f)
  {
    hide Le16, Le32, Put16, Put32, Letters;
    var c9 := Put32(dataLength) + rest;
    var c8 := Letters("data") + c9;
    var c7 := Put16(f.bpsamp) + c8;
    var c6 := Put16(f.align) + c7;
    var c5 := Put32(f.byterate) + c6;
    var c4 := Put32(f.samprate) + c5;
    var c3 := Put16(f.nchannels) + c4;
    var c2 := Put16(1) + c3;
    var c1 := Put32(16) + c2;
    var c := Letters("fmt ") + c1;
    assert FormatChunk(f, dataLength) + rest == c;
    NameBack("fmt ", c1);
    Le32Back(16, c2);
    Le16Back(1, c3);
    Le16Back(f.nchannels, c4);
    Le32Back(f.samprate, c5);
    Le32Back(f.byterate, c6);
    Le16Back(f.align, c7);
    Le16Back(f.bpsamp, c8);
    NameBack("data", c9);
    TailTwice(c, 4, 4);
    TailTwice(c, 8, 2);
    TailTwice(c, 10, 2);
    TailTwice(c, 12, 4);
    TailTwice(c, 16, 4);
    TailTwice(c, 20, 2);
    TailTwice(c, 22, 2);
    Le32Tail(c, 4, 0);
    Le16Tail(c, 8, 0);
    Le16Tail(c, 10, 0);
    Le32Tail(c, 12, 0);
    Le32Tail(c, 16, 0);
    Le16Tail(c, 20, 0);
    Le16Tail(c, 22, 0);
    Le32Tail(c, 24, 0);
  }

  /** A written header, whatever comes after it, is valid and has the format it was written with. */
  lemma WrittenRead(f: Format, length: nat, dataLength: nat, body: seq<byte>)
    requires Fits(f) && length < 0x1_0000_0000 && dataLength < 0x1_0000_0000
    ensures var h := Written(f, length, dataLength) + body;
            ValidWav(h) && FormatOf(h) == f && h[HEADER_SIZE..] == body
  {
    hide Le16, Le32, Put16, Put32, Letters, FormatChunk;
    var c := FormatChunk(f, dataLength) + body;
    var h2 := Letters("WAVE") + c;
    var h1 := Put32(length) + h2;
    var h := Letters("RIFF") + h1;
    assert Written(f, length, dataLength) + body == h;
    FormatChunkRead(f, dataLength, body);
    NameBack("RIFF", h1);
    Le32Back(length, h2);
    NameBack("WAVE", c);
    TailTwice(h, 4, 4);
    TailTwice(h, 8, 4);
    Le32Tail(h, 8, 0);
    Le32Tail(h, 12, 0);
    Le32Tail(h, 12, 4);
    Le16Tail(h, 12, 8);
    Le16Tail(h, 12, 10);
    Le32Tail(h, 12, 12);
    Le32Tail(h, 12, 16);
    Le16Tail(h, 12, 20);
    Le16Tail(h, 12, 22);
    Le32Tail(h, 12, 24);
  }

  // ----- Nothing else is taken -----

  lemma Put16Back(b: seq<byte>, i: nat)
    requires i + 2 <= |b|
    ensures Le16(b, i) < 65536 && Put16(Le16(b, i)) == b[i..i + 2]
  {
  }

  lemma Put32Back(b: seq<byte>, i: nat)
    requires i + 4 <= |b|
    ensures Le32(b, i) < 0x1_0000_0000 && Put32(Le32(b, i)) == b[i..i + 4]
  {
    hide Le16, Put16;
    Put16Back(b, i);
    Put16Back(b, i + 2);
    assert b[i..i + 4] == b[i..i + 2] + b[i + 2..i + 4];
  }

  lemma Names()
    ensures Letters("RIFF") == Put32(0x46464952) && Letters("WAVE") == Put32(0x45564157)
    ensures Letters("fmt ") == Put32(0x20746d66) && Letters("data") == Put32(0x61746164)
  {
  }

  lemma Slices<T>(b: seq<T>, i: nat, j: nat, k: nat)
    requires i <= j <= k <= |b|
    ensures b[i..j] + b[j..k] == b[i..k]
  {
  }

  /** A valid header is the one written with its format and its two lengths. */
  lemma ValidIsWritten(h: seq<byte>)
    requires |h| >= HEADER_SIZE && ValidWav(h)
    ensures Fits(FormatOf(h)) && Le32(h, 4) < 0x1_0000_0000 && Le32(h, 40) < 0x1_0000_0000
    ensures Written(FormatOf(h), Le32(h, 4), Le32(h, 40)) == h[..HEADER_SIZE]
  {
    hide Le16, Le32, Put16, Put32, Letters;
    Names();
    Put32Back(h, 0);
    Put32Back(h, 4);
    Put32Back(h, 8);
    Put32Back(h, 12);
    Put32Back(h, 16);
    Put16Back(h, 20);
    Put16Back(h, 22);
    Put32Back(h, 24);
    Put32Back(h, 28);
    Put16Back(h, 32);
    Put16Back(h, 34);
    Put32Back(h, 36);
    Put32Back(h, 40);
    Slices(h, 36, 40, 44);
    Slices(h, 34, 36, 44);
    Slices(h, 32, 34, 44);
    Slices(h, 28, 32, 44);
    Slices(h, 24, 28, 44);
    Slices(h, 22, 24, 44);
    Slices(h, 20, 22, 44);
    Slices(h, 16, 20, 44);
    Slices(h, 12, 16, 44);
    Slices(h, 8, 12, 44);
    Slices(h, 4, 8, 44);
    Slices(h, 0, 4, 44);
  }

  /** The buffer begins with a header of this format. */
  ghost predicate Opens(payload: seq<byte>, f: Format) {
    exists length: nat, dataLength: nat :: OpensWith(payload, f, length, dataLength)
  }

  ghost predicate OpensWith(payload: seq<byte>, f: Format, length: nat, dataLength: nat) {
    && Fits(f) && length < 0x1_0000_0000 && dataLength < 0x1_0000_0000
    && Written(f, length, dataLength) <= payload
  }

  /** A buffer has a valid header of a format if and only if it begins with a written one. */
  lemma HeaderExactly(payload: seq<byte>, f: Format)
    ensures |payload| >= HEADER_SIZE && ValidWav(payload) && FormatOf(payload) == f <==> Opens(payload, f)
  {
    hide ValidWav, FormatOf, Written, Le32;
    if |payload| >= HEADER_SIZE && ValidWav(payload) && FormatOf(payload) == f {
      ValidIsWritten(payload);
      assert OpensWith(payload, f, Le32(payload, 4), Le32(payload, 40));
    }
    if length: nat, dataLength: nat :| OpensWith(payload, f, length, dataLength) {
      WrittenRead(f, length, dataLength, payload[HEADER_SIZE..]);
      assert payload == Written(f, length, dataLength) + payload[HEADER_SIZE..];
    }
  }

  /**
   A decoder that waits for a stream takes every buffer that begins with a written header: it has
   the five values of the header, hands the bytes after it to the driver, and is streaming unless
   the driver refuses them or they are the last.
   */
  lemma HeaderTaken(st: State, payload: seq<byte>, f: Format, final: bool, configureOk: bool, enqueueOk: bool)
    requires st.Valid() && !st.streaming && Opens(payload, f)
    ensures var r := Enqueue(st, payload, final, configureOk, enqueueOk);
            var ready := st.(format := f);
            && |payload| >= HEADER_SIZE && r.st.format == f && r.st.rate == st.rate
            && (!configureOk ==> r == Enqueued(ready, false, [], false, NoFault))
            && (configureOk ==> r.fault == ready.FaultAt(|payload| - HEADER_SIZE))
            && (configureOk && r.fault == NoFault ==>
                  && r.passed && r.out == ready.Sampled(payload[HEADER_SIZE..]) && r.ok == enqueueOk
                  && (r.st.streaming <==> enqueueOk && !final))
  {
    hide ValidWav, FormatOf, Opens, SampleOf, PhaseAfter;
    HeaderExactly(payload, f);
  }

  /** And it refuses every other buffer: nothing is handed down, and nothing changes. */
  lemma OthersRefused(st: State, payload: seq<byte>, final: bool, configureOk: bool, enqueueOk: bool)
    requires st.Valid() && !st.streaming && !exists f :: Opens(payload, f)
    ensures Enqueue(st, payload, final, configureOk, enqueueOk) == Enqueued(st, false, [], false, NoFault)
  {
    hide ValidWav, FormatOf, Opens;
    if |payload| >= HEADER_SIZE {
      HeaderExactly(payload, FormatOf(payload));
    }
  }

  /** Where a header has a chunk name or a number that is fixed. */
  predicate Fixed(i: nat) {
    i < 4 || 8 <= i < 22 || 36 <= i < 40
  }

  /** Two headers have the same bytes in their fixed places, and zeros above their 8-bit fields. */
  lemma FixedSame(f: Format, a: nat, b: nat, g: Format, c: nat, d: nat, i: nat)
    requires Fits(f) && a < 0x1_0000_0000 && b < 0x1_0000_0000
    requires Fits(g) && c < 0x1_0000_0000 && d < 0x1_0000_0000
    requires Fixed(i) || i in {23, 33, 35}
    ensures Written(f, a, b)[i] == Written(g, c, d)[i] && (!Fixed(i) ==> Written(f, a, b)[i] == 0)
  {
    hide Put32, Letters;
    Places(f, a, b);
    Places(g, c, d);
    var x, y := Written(f, a, b), Written(g, c, d);
    if i < 4 {
      assert x[i] == x[0..4][i] && y[i] == y[0..4][i];
    } else if 8 <= i < 22 {
      assert x[i] == x[8..22][i - 8] && y[i] == y[8..22][i - 8];
    } else if 36 <= i < 40 {
      assert x[i] == x[36..40][i - 36] && y[i] == y[36..40][i - 36];
    } else {
      assert x[23] == x[22..24][1] && x[33] == x[32..34][1] && x[35] == x[34..36][1];
      assert y[23] == y[22..24][1] && y[33] == y[32..34][1] && y[35] == y[34..36][1];
    }
  }

  lemma Places(f: Format, length: nat, dataLength: nat)
    requires Fits(f) && length < 0x1_0000_0000 && dataLength < 0x1_0000_0000
    ensures var h := Written(f, length, dataLength);
            && h[0..4] == Letters("RIFF") && h[8..22] == Letters("WAVE") + (Letters("fmt ") + (Put32(16) + Put16(1)))
            && h[22..24] == Put16(f.nchannels) && h[32..34] == Put16(f.align) && h[34..36] == Put16(f.bpsamp)
            && h[36..40] == Letters("data")
  {
    hide Put16, Put32, Letters, FormatChunk;
    var h, chunk := Written(f, length, dataLength), FormatChunk(f, dataLength);
    ChunkPlaces(f, dataLength);
    assert h[12..] == chunk;
    assert h[8..22] == Letters("WAVE") + chunk[..10];
    Within(h, 12, 10, 12);
    Within(h, 12, 20, 22);
    Within(h, 12, 22, 24);
    Within(h, 12, 24, 28);
  }

  lemma ChunkPlaces(f: Format, dataLength: nat)
    requires Fits(f) && dataLength < 0x1_0000_0000
    ensures var c := FormatChunk(f, dataLength);
            && c[..10] == Letters("fmt ") + (Put32(16) + Put16(1)) && c[10..12] == Put16(f.nchannels)
            && c[20..22] == Put16(f.align) && c[22..24] == Put16(f.bpsamp) && c[24..28] == Letters("data")
  {
    hide Put16, Put32, Letters, From;
    var data := Letters("data") + Put32(dataLength);
    var depth := Put16(f.bpsamp) + data;
    var last := Put16(f.align) + depth;
    var slow := Put32(f.byterate) + last;
    var rates := Put32(f.samprate) + slow;
    var channels := Put16(f.nchannels) + rates;
    var kind := Put16(1) + channels;
    var c := FormatChunk(f, dataLength);
    FromFirst(c, Letters("fmt "), Put32(16) + kind);
    Onward(c, 4, Put32(16), kind);
    Onward(c, 8, Put16(1), channels);
    Onward(c, 10, Put16(f.nchannels), rates);
    Onward(c, 12, Put32(f.samprate), slow);
    Onward(c, 16, Put32(f.byterate), last);
    Onward(c, 20, Put16(f.align), depth);
    Onward(c, 22, Put16(f.bpsamp), data);
    Onward(c, 24, Letters("data"), Put32(dataLength));
    assert c[..10] == c[0..4] + (c[4..8] + c[8..10]);
  }

  /** From some place on, the bytes are these. */
  predicate From(b: seq<byte>, at: nat, rest: seq<byte>) {
    at <= |b| && b[at..] == rest
  }

  lemma FromFirst(b: seq<byte>, part: seq<byte>, rest: seq<byte>)
    requires b == part + rest
    ensures b[0..|part|] == part && From(b, |part|, rest)
  {
  }

  lemma Onward(b: seq<byte>, at: nat, part: seq<byte>, rest: seq<byte>)
    requires From(b, at, part + rest)
    ensures at + |part| <= |b| && b[at..at + |part|] == part && From(b, at + |part|, rest)
  {
    assert b[at..][..|part|] == b[at..at + |part|];
    assert b[at..][|part|..] == b[at + |part|..];
  }

  lemma Within(b: seq<byte>, at: nat, i: nat, j: nat)
    requires i <= j && at + j <= |b|
    ensures b[at..][i..j] == b[at + i..at + j]
  {
  }

  /**
   A header in which one byte of a chunk name or of a fixed number is changed, or the upper byte of
   a field that has to fit 8 bits is not zero, is refused.
   */
  lemma ChangedRefused(st: State, f: Format, length: nat, dataLength: nat, body: seq<byte>, i: nat, b: byte,
                       final: bool, configureOk: bool, enqueueOk: bool)
    requires st.Valid() && !st.streaming && Fits(f) && length < 0x1_0000_0000 && dataLength < 0x1_0000_0000
    requires (Fixed(i) || i in {23, 33, 35}) && b != Written(f, length, dataLength)[i]
    ensures Enqueue(st, Written(f, length, dataLength)[i := b] + body, final, configureOk, enqueueOk)
         == Enqueued(st, false, [], false, NoFault)
  {
    hide Written, Enqueue;
    var payload := Written(f, length, dataLength)[i := b] + body;
    if g :| Opens(payload, g) {
      var c: nat, d: nat :| OpensWith(payload, g, c, d);
      FixedSame(f, length, dataLength, g, c, d, i);
    }
    OthersRefused(st, payload, final, configureOk, enqueueOk);
  }
}
