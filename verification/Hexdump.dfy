/**
 The `hexdump` command: a window of a file, read in pieces of any size and dumped piece by
 piece under the offset of its first byte.
 */
module Hexdump {
  import opened Bytes
  import opened Devices

  /** One dump: the offset in its heading, its bytes and the lines that show them. */
  datatype Dump = Dump(at: nat, bytes: seq<byte>, lines: seq<string>)

  function DumpedBytes(dumps: seq<Dump>): (bytes: seq<byte>) {
    if dumps == [] then [] else dumps[0].bytes + DumpedBytes(dumps[1..])
  }

  /** Every dump has the bytes of the file at the offset in its heading, and shows them. */
  ghost predicate Labelled(data: seq<byte>, dumps: seq<Dump>) {
    forall k :: 0 <= k < |dumps| ==> TrueTo(data, dumps[k])
  }

  ghost predicate TrueTo(data: seq<byte>, d: Dump) {
    d.at + |d.bytes| <= |data| && d.bytes == data[d.at..d.at + |d.bytes|] && d.lines == LinesOf(d.bytes, 0)
  }

  function Window(data: seq<byte>, skip: nat, count: nat): (w: seq<byte>) {
    if skip >= |data| then [] else if skip + count < |data| then data[skip..skip + count] else data[skip..]
  }

  lemma {:induction false} DumpedAppend(dumps: seq<Dump>, d: Dump)
    ensures DumpedBytes(dumps + [d]) == DumpedBytes(dumps) + d.bytes
  {
    if dumps == [] {
      assert dumps + [d] == [d];
      assert DumpedBytes([d]) == d.bytes + DumpedBytes([]);
    } else {
      assert (dumps + [d])[1..] == dumps[1..] + [d];
      DumpedAppend(dumps[1..], d);
    }
  }

  /** Cutting the front off a window. */
  lemma WindowFront(data: seq<byte>, skip: nat, count: nat, n: nat)
    requires skip + n <= |data| && n <= count
    ensures Window(data, skip, count) == data[skip..skip + n] + Window(data, skip + n, count - n)
  {
  }

  class Hexdumper {
    const file: InputFile
    const buffer: array<byte>
    var dumps: seq<Dump>

    constructor (file: InputFile, size: nat)
      ensures this.file == file && buffer.Length == size && dumps == [] && fresh(buffer)
    {
      this.file := file;
      buffer := new byte[size](_ => 0);
      dumps := [];
    }

    /** nsh_dumpbuffer under a heading with the offset: the lines show all the bytes, sixteen a line. */
    method DumpBuffer(at: nat, from: nat, n: nat)
      requires from + n <= buffer.Length < MAX_DUMP
      modifies this`dumps
      ensures dumps == old(dumps) + [Dump(at, buffer[from..from + n], LinesOf(buffer[from..from + n], 0))]
    {
      var lines := FormatLines(buffer[from..from + n]);
      dumps := dumps + [Dump(at, buffer[from..from + n], lines)];
    }

    /** Dumps `n` of the `got` bytes just read at `position`, those from `from` on. */
    method ShowPart(ghost position: nat, ghost got: nat, at: nat, from: nat, n: nat, ghost count: nat, ghost all: seq<byte>)
      requires from + n <= got <= buffer.Length < MAX_DUMP && position + got <= |file.data|
      requires buffer[..got] == file.data[position..position + got] && at == position + from && n <= count
      requires Shown(file.data, dumps, at, count, all)
      modifies this`dumps
      ensures Shown(file.data, dumps, at + n, count - n, all)
    {
      hide Window, DumpedBytes, LinesOf;
      ghost var before := dumps;
      PartRead(buffer[..got], file.data, position, from, n);
      assert buffer[from..from + n] == buffer[..got][from..from + n];
      DumpBuffer(at, from, n);
      DumpedAppend(before, dumps[|before|]);
      WindowFront(file.data, at, count, n);
      var shown, part, rest := DumpedBytes(before), file.data[at..at + n], Window(file.data, at + n, count - n);
      assert shown + (part + rest) == (shown + part) + rest;
    }

    /**
     cmd_hexdump: for every way in which reads are cut, the dumps show exactly the bytes
     `skip` to `skip + count` of the file, each once and in order, each dump under its true
     offset. A failing read leaves a prefix of that.
     */
    method DumpFile(skip: nat, count0: nat) returns (ok: bool)
      requires file.pos == 0 && 0 < buffer.Length < MAX_DUMP && dumps == []
      modifies this`dumps, file`pos, file`calls, buffer
      ensures Labelled(file.data, dumps)
      ensures ok ==> DumpedBytes(dumps) == Window(file.data, skip, count0)
      ensures DumpedBytes(dumps) <= Window(file.data, skip, count0)
      ensures Reliable(file.pattern) ==> ok
    {
      hide Labelled, Window, DumpedBytes, LinesOf;
      ghost var data, all := file.data, Window(file.data, skip, count0);
      var count: nat, position: nat := count0, 0;
      NothingShown(data, skip, count0);
      while true
        invariant file.pos == position <= |data|
        invariant Shown(data, dumps, if position < skip then skip else position, count, all)
        decreases |data| - file.pos
      {
        var got := file.Read(buffer, 0, buffer.Length);
        if got < 0 {
          return false;
        }
        if got == 0 {
          break;
        }
        assert buffer[..got] == data[position..position + got];
        var n := got;
        if position < skip {
          position := position + got;
          if position > skip {
            var from := got - (position - skip);
            n := if position - skip > count then count else position - skip;
            ShowPart(position - got, got, skip, from, n, count, all);
            if count > n {
              count := count - n;
            } else {
              WindowEnds(data, skip + n, count - n);
              return true;
            }
          }
        } else {
          if n > count {
            n := count;
          }
          ShowPart(position, got, position, 0, n, count, all);
          position := position + n;
          if count > n {
            count := count - n;
          } else {
            WindowEnds(data, position, count - n);
            return true;
          }
        }
      }
      WindowEnds(data, if position < skip then skip else position, count);
      ok := true;
    }
  }

  /** The dumps so far, and the window from `at` on still to come, make up `all`. */
  ghost predicate Shown(data: seq<byte>, dumps: seq<Dump>, at: nat, count: nat, all: seq<byte>) {
    Labelled(data, dumps) && DumpedBytes(dumps) + Window(data, at, count) == all
  }

  lemma NothingShown(data: seq<byte>, skip: nat, count: nat)
    ensures Shown(data, [], skip, count, Window(data, skip, count))
  {
    assert [] + Window(data, skip, count) == Window(data, skip, count);
  }

  lemma WindowEnds(data: seq<byte>, at: nat, count: nat)
    requires at >= |data| || count == 0
    ensures Window(data, at, count) == []
  {
  }

  // ----- Lines -----

  /** The line buffer on the stack, and the range of its offset (an `int` printed by %x). */
  const LINE_SIZE := 128
  const MAX_DUMP := 0x8000_0000

  const HEX_DIGITS: string := "0123456789abcdef"

  /** %x, filled up with zeros to `width` digits. */
  function Hex(n: nat, width: nat): (s: string)
    ensures |s| >= width && s != ""
    decreases n, width
  {
    var digit := [HEX_DIGITS[n % 16]];
    if n < 16 && width <= 1 then digit
    else Hex(n / 16, if width > 0 then width - 1 else 0) + digit
  }

  function DigitValue(c: char): nat {
    if '0' <= c <= '9' then c as int - '0' as int
    else if 'a' <= c <= 'f' then c as int - 'a' as int + 10
    else 16
  }

  /** The number that digits spell. */
  function HexValue(s: string): nat {
    if s == "" then 0 else 16 * HexValue(s[..|s| - 1]) + DigitValue(s[|s| - 1])
  }

  lemma DigitBack(d: nat)
    requires d < 16
    ensures DigitValue(HEX_DIGITS[d]) == d
  {
    assert HEX_DIGITS[10..] == "abcdef";
    assert d >= 10 ==> HEX_DIGITS[d] == HEX_DIGITS[10..][d - 10];
  }

  /** Reading the digits back gives the number, whatever the width. */
  lemma {:induction false} HexBack(n: nat, width: nat)
    ensures HexValue(Hex(n, width)) == n
    decreases n, width
  {
    hide DigitValue;
    DigitBack(n % 16);
    var s := Hex(n, width);
    if n < 16 && width <= 1 {
      assert HexValue(s[..0]) == 0;
    } else {
      HexBack(n / 16, if width > 0 then width - 1 else 0);
      assert s[..|s| - 1] == Hex(n / 16, if width > 0 then width - 1 else 0);
    }
  }

  /** The bytes of a line in hexadecimal, each with a blank. */
  function HexBytes(bytes: seq<byte>): (s: string) {
    if bytes == [] then "" else Hex(bytes[0] as int, 2) + " " + HexBytes(bytes[1..])
  }

  function Printed(b: byte): char {
    if 0x20 <= b <= 0x7e then (b as int) as char else '.'
  }

  /** The chart of ASCII, from its third row on; the last place of its last row is no character. */
  function ChartRow(row: nat): (r: string)
    requires 2 <= row < 8
    ensures |r| == if row == 7 then 15 else 16
  {
    match row
    case 2 => " !\"#$%&'()*+,-./"
    case 3 => "0123456789:;<=>?"
    case 4 => "@ABCDEFGHIJKLMNO"
    case 5 => "PQRSTUVWXYZ[\\]^_"
    case 6 => "`abcdefghijklmno"
    case 7 => "pqrstuvwxyz{|}~"
  }

  /** A byte is shown by its character in the chart, and by a dot if it has none. */
  lemma PrintedIs(b: byte)
    ensures Printed(b) ==
              var row, column := b as int / 16, b as int % 16;
              if 2 <= row < 8 && column < |ChartRow(row)| then ChartRow(row)[column] else '.'
  {
    var row, column := b as int / 16, b as int % 16;
    if 2 <= row < 8 && column < |ChartRow(row)| {
      ChartCodes(row, column);
    }
  }

  lemma ChartCodes(row: nat, column: nat)
    requires 2 <= row < 8 && column < |ChartRow(row)|
    ensures ChartRow(row)[column] as int == 16 * row + column
  {
    hide ChartRow;
    if row < 5 {
      UpperRows();
    } else {
      LowerRows();
    }
  }

  lemma UpperRows()
    ensures |ChartRow(2)| == 16 && forall k :: 0 <= k < 16 ==> ChartRow(2)[k] as int == 32 + k
    ensures |ChartRow(3)| == 16 && forall k :: 0 <= k < 16 ==> ChartRow(3)[k] as int == 48 + k
    ensures |ChartRow(4)| == 16 && forall k :: 0 <= k < 16 ==> ChartRow(4)[k] as int == 64 + k
  {
  }

  lemma LowerRows()
    ensures |ChartRow(5)| == 16 && forall k :: 0 <= k < 16 ==> ChartRow(5)[k] as int == 80 + k
    ensures |ChartRow(6)| == 16 && forall k :: 0 <= k < 16 ==> ChartRow(6)[k] as int == 96 + k
    ensures |ChartRow(7)| == 15 && forall k :: 0 <= k < 15 ==> ChartRow(7)[k] as int == 112 + k
  {
  }

  function Characters(bytes: seq<byte>): (s: string)
    ensures |s| == |bytes| && forall j :: 0 <= j < |bytes| ==> s[j] == Printed(bytes[j])
  {
    if bytes == [] then "" else [Printed(bytes[0])] + Characters(bytes[1..])
  }

  /** The offset and the first `n` columns of digits; columns without a byte are blank. */
  function Columns(i: nat, bytes: seq<byte>, n: nat): (s: string) {
    if n <= |bytes| then Hex(i, 4) + ": " + HexBytes(bytes[..n])
    else Columns(i, bytes, n - 1) + "   "
  }

  /** One line of a dump: the offset, up to sixteen bytes in hexadecimal, and as characters. */
  function Line(i: nat, bytes: seq<byte>): (s: string)
    requires |bytes| <= 16
  {
    Columns(i, bytes, 16) + Characters(bytes)
  }

  /** The up to sixteen bytes of the line that starts at `i`. */
  function Row(bytes: seq<byte>, i: nat): (row: seq<byte>)
    requires i < |bytes|
    ensures 0 < |row| <= 16
  {
    if i + 16 < |bytes| then bytes[i..i + 16] else bytes[i..]
  }

  function LinesOf(bytes: seq<byte>, i: nat): (lines: seq<string>)
    decreases |bytes| - i
  {
    if i >= |bytes| then [] else [Line(i, Row(bytes, i))] + LinesOf(bytes, i + 16)
  }

  function Power16(n: nat): nat {
    if n == 0 then 1 else 16 * Power16(n - 1)
  }

  lemma {:induction false} HexLength(n: nat, width: nat, digits: nat)
    requires width <= digits && 0 < digits && n < Power16(digits)
    ensures |Hex(n, width)| <= digits
    decreases digits
  {
    if !(n < 16 && width <= 1) {
      HexLength(n / 16, if width > 0 then width - 1 else 0, digits - 1);
    }
  }

  lemma ByteDigits(b: byte)
    ensures |Hex(b as int, 2)| == 2
  {
    assert Power16(2) == 256;
    HexLength(b as int, 2, 2);
  }

  lemma SliceBehind(a: string, b: string, i: nat, j: nat)
    requires i <= j <= |b|
    ensures (a + b)[|a| + i..|a| + j] == b[i..j]
  {
  }

  /** Every byte is shown at a place of its own, in digits. */
  lemma {:induction false} HexBytesAt(bytes: seq<byte>)
    ensures |HexBytes(bytes)| == 3 * |bytes|
    ensures forall j :: 0 <= j < |bytes| ==> HexBytes(bytes)[3 * j..3 * j + 2] == Hex(bytes[j] as int, 2)
  {
    if bytes != [] {
      var first, rest := Hex(bytes[0] as int, 2) + " ", bytes[1..];
      ByteDigits(bytes[0]);
      HexBytesAt(rest);
      forall j | 0 <= j < |bytes| ensures HexBytes(bytes)[3 * j..3 * j + 2] == Hex(bytes[j] as int, 2) {
        hide Hex;
        if j > 0 {
          SliceBehind(first, HexBytes(rest), 3 * (j - 1), 3 * (j - 1) + 2);
        } else {
          assert (first + HexBytes(rest))[0..2] == first[0..2];
        }
      }
    }
  }

  lemma {:induction false} HexBytesAppend(bytes: seq<byte>, b: byte)
    ensures HexBytes(bytes + [b]) == HexBytes(bytes) + Hex(b as int, 2) + " "
  {
    if bytes == [] {
      assert bytes + [b] == [b];
      assert HexBytes([b]) == Hex(b as int, 2) + " " + HexBytes([]);
    } else {
      assert (bytes + [b])[1..] == bytes[1..] + [b];
      HexBytesAppend(bytes[1..], b);
      var first, rest, last := Hex(bytes[0] as int, 2) + " ", HexBytes(bytes[1..]), Hex(b as int, 2) + " ";
      assert first + (rest + last) == (first + rest) + last;
      assert HexBytes(bytes[1..] + [b]) == rest + last;
      assert HexBytes(bytes) + Hex(b as int, 2) + " " == HexBytes(bytes) + last;
    }
  }

  /** The next column, as it is written. */
  lemma ColumnsStep(i: nat, bytes: seq<byte>, n: nat)
    ensures Columns(i, bytes, n + 1) ==
            Columns(i, bytes, n) + if n < |bytes| then Hex(bytes[n] as int, 2) + " " else "   "
  {
    hide Hex, HexBytes;
    if n < |bytes| {
      assert bytes[..n + 1] == bytes[..n] + [bytes[n]];
      HexBytesAppend(bytes[..n], bytes[n]);
      var head, done, last := Hex(i, 4) + ": ", HexBytes(bytes[..n]), Hex(bytes[n] as int, 2);
      assert head + (done + last + " ") == (head + done) + (last + " ");
    }
  }

  lemma {:induction false} ColumnsAt(i: nat, bytes: seq<byte>, n: nat)
    ensures |Columns(i, bytes, n)| == |Hex(i, 4)| + 2 + 3 * n
    ensures Hex(i, 4) + ": " + HexBytes(if n < |bytes| then bytes[..n] else bytes) <= Columns(i, bytes, n)
  {
    if n <= |bytes| {
      HexBytesAt(bytes[..n]);
      assert n == |bytes| ==> bytes[..n] == bytes;
    } else {
      ColumnsAt(i, bytes, n - 1);
      assert n - 1 == |bytes| ==> bytes[..n - 1] == bytes;
    }
  }

  method Put(line: array<char>, at: nat, s: string) returns (end: nat)
    requires at + |s| < line.Length
    modifies line
    ensures end == at + |s| && line[..end] == old(line[..at]) + s && line[end] == '\0'
  {
    var k := 0;
    while k < |s|
      invariant 0 <= k <= |s| && line[..at] == old(line[..at]) && line[at..at + k] == s[..k]
    {
      line[at + k] := s[k];
      k := k + 1;
    }
    end := at + |s|;
    line[end] := '\0';
    assert line[..end] == line[..at] + line[at..end];
  }

  /** One line of nsh_dumpbuffer, built up in a buffer of 128 characters. */
  method FormatLine(line: array<char>, i: nat, bytes: seq<byte>) returns (end: nat)
    requires line.Length == LINE_SIZE && i < MAX_DUMP && 0 < |bytes| <= 16
    modifies line
    ensures end < LINE_SIZE && line[..end] == Line(i, bytes) && line[end] == '\0'
  {
    hide Hex, HexBytes, Line;
    LineFits(i, bytes);
    ColumnsAt(i, bytes, 0);
    end := Put(line, 0, Hex(i, 4) + ": ");
    assert bytes[..0] == [];
    assert line[..end] == Columns(i, bytes, 0) by { NoColumns(i, bytes); }
    var j := 0;
    while j < 16
      invariant 0 <= j <= 16 && end == |Hex(i, 4)| + 2 + 3 * j && line[..end] == Columns(i, bytes, j)
    {
      if j < |bytes| {
        ByteDigits(bytes[j]);
      }
      ColumnsStep(i, bytes, j);
      end := Put(line, end, if j < |bytes| then Hex(bytes[j] as int, 2) + " " else "   ");
      j := j + 1;
    }
    end := PutCharacters(line, end, i, bytes);
  }

  lemma NoColumns(i: nat, bytes: seq<byte>)
    ensures Columns(i, bytes, 0) == Hex(i, 4) + ": "
  {
    assert HexBytes(bytes[..0]) == "";
  }

  method FormatLines(bytes: seq<byte>) returns (lines: seq<string>)
    requires |bytes| < MAX_DUMP
    ensures lines == LinesOf(bytes, 0)
  {
    hide Line, Row;
    var line, i := new char[LINE_SIZE], 0;
    lines := [];
    while i < |bytes|
      invariant 0 <= i && lines + LinesOf(bytes, i) == LinesOf(bytes, 0)
    {
      var end := FormatLine(line, i, Row(bytes, i));
      ghost var before, rest := lines, LinesOf(bytes, i + 16);
      lines := lines + [line[..end]];
      assert before + ([line[..end]] + rest) == lines + rest;
      i := i + 16;
    }
  }

  method PutCharacters(line: array<char>, start: nat, i: nat, bytes: seq<byte>) returns (end: nat)
    requires start + |bytes| < line.Length && |bytes| <= 16 && line[..start] == Columns(i, bytes, 16)
    modifies line
    ensures end == start + |bytes| && line[..end] == Line(i, bytes)
    ensures line[end] == '\0'
  {
    hide Hex, HexBytes, Columns, Characters, Printed;
    ghost var columns, shown := Columns(i, bytes, 16), Characters(bytes);
    end := Put(line, start, "");
    assert columns + shown[..0] == columns;
    var j := 0;
    while j < 16
      invariant 0 <= j <= 16 && end == start + if j < |bytes| then j else |bytes|
      invariant line[..end] == columns + shown[..end - start] && line[end] == '\0'
    {
      if j < |bytes| {
        end := Put(line, end, [Printed(bytes[j])]);
        assert columns + shown[..j] + [shown[j]] == columns + shown[..j + 1];
      }
      j := j + 1;
    }
    assert shown[..|bytes|] == shown;
  }

  /** A line, with its terminator, fits the buffer. */
  lemma LineFits(i: nat, bytes: seq<byte>)
    requires |bytes| <= 16 && i < MAX_DUMP
    ensures |Line(i, bytes)| == |Hex(i, 4)| + 2 + 48 + |bytes| < LINE_SIZE
  {
    hide Hex, HexBytes, Columns;
    assert Power16(8) > MAX_DUMP by { assert Power16(4) == 0x1_0000; }
    HexLength(i, 4, 8);
    ColumnsAt(i, bytes, 16);
  }

  /**
   A line begins with the digits of the offset. After them it shows byte `j` in two digits in
   column `3 * j` and as a character in column `48 + j`, however many bytes it has.
   */
  lemma LineShows(i: nat, bytes: seq<byte>, j: nat)
    requires j < |bytes| <= 16 && i < MAX_DUMP
    ensures var s := |Hex(i, 4)| + 2;
            && |Line(i, bytes)| == s + 48 + |bytes|
            && HexValue(Line(i, bytes)[..s - 2]) == i && Line(i, bytes)[s - 2..s] == ": "
            && HexValue(Line(i, bytes)[s + 3 * j..s + 3 * j + 2]) == bytes[j] as int
            && var row, column := bytes[j] as int / 16, bytes[j] as int % 16;
               Line(i, bytes)[s + 48 + j] ==
                 if 2 <= row < 8 && column < |ChartRow(row)| then ChartRow(row)[column] else '.'
  {
    hide Hex, HexBytes, Columns, ChartRow, Printed;
    LineFits(i, bytes);
    HexBytesAt(bytes);
    ColumnsAt(i, bytes, 16);
    var head, shown := Hex(i, 4) + ": ", HexBytes(bytes);
    Inside(head, shown, Columns(i, bytes, 16), Characters(bytes), 3 * j);
    PrintedIs(bytes[j]);
    HexBack(bytes[j] as int, 2);
    HexBack(i, 4);
    OffsetFirst(Hex(i, 4), shown, Columns(i, bytes, 16), Characters(bytes));
  }

  /** A byte is followed by a blank, and a column without a byte is blank. */
  lemma LineBlanks(i: nat, bytes: seq<byte>, j: nat)
    requires |bytes| <= 16 && i < MAX_DUMP && j < 16
    ensures var s := |Hex(i, 4)| + 2 + 3 * j;
            && |Line(i, bytes)| >= s + 3 && Line(i, bytes)[s + 2] == ' '
            && (j >= |bytes| ==> Line(i, bytes)[s..s + 3] == "   ")
  {
    hide Hex, HexBytes, Columns, Printed;
    LineFits(i, bytes);
    ColumnsAt(i, bytes, 16);
    ColumnsAt(i, bytes, j);
    ColumnsAt(i, bytes, j + 1);
    ColumnsStep(i, bytes, j);
    ColumnsFirst(i, bytes, j + 1, 16);
    if j < |bytes| {
      ByteDigits(bytes[j]);
    }
    var s, line := |Columns(i, bytes, j)|, Line(i, bytes);
    assert line[..s + 3] == Columns(i, bytes, j + 1);
    assert line[s..s + 3] == line[..s + 3][s..];
  }

  lemma {:induction false} ColumnsFirst(i: nat, bytes: seq<byte>, n: nat, m: nat)
    requires n <= m
    ensures Columns(i, bytes, n) <= Columns(i, bytes, m)
    decreases m
  {
    hide Columns, Hex;
    if n < m {
      ColumnsStep(i, bytes, m - 1);
      ColumnsFirst(i, bytes, n, m - 1);
    }
  }

  lemma {:induction false} LineNumber(bytes: seq<byte>, from: nat, k: nat)
    requires from + 16 * k < |bytes|
    ensures k < |LinesOf(bytes, from)|
    ensures LinesOf(bytes, from)[k] == Line(from + 16 * k, Row(bytes, from + 16 * k))
    decreases k
  {
    hide Line, Row;
    if k > 0 {
      LineNumber(bytes, from + 16, k - 1);
    }
  }

  /**
   A dump shows every byte: byte `p` is on line `p / 16`, which begins with the offset of its first
   byte, in two digits and as a character in column `p % 16`.
   */
  lemma EveryByteShown(bytes: seq<byte>, p: nat)
    requires p < |bytes| < MAX_DUMP
    ensures var i, j := p / 16 * 16, p % 16;
            var s := |Hex(i, 4)| + 2;
            && p / 16 < |LinesOf(bytes, 0)|
            && var line := LinesOf(bytes, 0)[p / 16];
               var row, column := bytes[p] as int / 16, bytes[p] as int % 16;
               && |line| > s + 48 + j && HexValue(line[..s - 2]) == i && line[s - 2..s] == ": "
               && HexValue(line[s + 3 * j..s + 3 * j + 2]) == bytes[p] as int
               && line[s + 48 + j] == if 2 <= row < 8 && column < |ChartRow(row)| then ChartRow(row)[column] else '.'
  {
    hide Hex, Line, ChartRow, LinesOf, HexValue;
    var i, j := p / 16 * 16, p % 16;
    assert p == i + j && i == 16 * (p / 16);
    LineNumber(bytes, 0, p / 16);
    assert Row(bytes, i)[j] == bytes[p];
    LineShows(i, Row(bytes, i), j);
  }

  /** A dump has no more lines than its bytes fill. */
  lemma {:induction false} LineCount(bytes: seq<byte>, from: nat)
    requires from <= |bytes|
    ensures |LinesOf(bytes, from)| == (|bytes| - from + 15) / 16
    decreases |bytes| - from
  {
    hide Line, Row;
    if from + 16 <= |bytes| {
      LineCount(bytes, from + 16);
    }
  }

  lemma OffsetFirst(digits: string, shown: string, whole: string, tail: string)
    requires digits + ": " + shown <= whole
    ensures (whole + tail)[..|digits|] == digits && (whole + tail)[|digits|..|digits| + 2] == ": "
  {
    var head := digits + ": " + shown;
    assert head[..|digits|] == digits && head[|digits|..|digits| + 2] == ": ";
    assert (whole + tail)[..|digits|] == head[..|digits|];
    assert (whole + tail)[|digits|..|digits| + 2] == head[|digits|..|digits| + 2];
  }

  lemma Inside(head: string, shown: string, whole: string, tail: string, at: nat)
    requires head + shown <= whole && at + 2 <= |shown|
    ensures (whole + tail)[|head| + at..|head| + at + 2] == shown[at..at + 2]
  {
    assert (whole + tail)[|head| + at..|head| + at + 2] == (head + shown)[|head| + at..|head| + at + 2];
  }

  /** Part of what a read has put into the buffer is part of the file. */
  lemma PartRead(got: seq<byte>, data: seq<byte>, position: nat, from: nat, n: nat)
    requires position + |got| <= |data| && got == data[position..position + |got|] && from + n <= |got|
    ensures got[from..from + n] == data[position + from..position + from + n]
  {
    var part, expected := got[from..from + n], data[position + from..position + from + n];
    forall k | 0 <= k < n ensures part[k] == expected[k] {
      assert got[from + k] == data[position..position + |got|][from + k];
    }
  }
}
