/** Files behind calls that may transfer less than they are asked to, or fail. */
module Devices {
  import opened Bytes

  /** A device that never fails. */
  ghost predicate Reliable(pattern: nat -> int) {
    forall n: nat :: pattern(n) >= 0
  }

  class InputFile {
    const data: seq<byte>
    /** The device's answer to its n-th read: a failure if negative, else how much it gives. */
    const pattern: nat -> int
    var pos: nat
    var calls: nat

    constructor (data: seq<byte>, pattern: nat -> int)
      ensures this.data == data && pos == 0
    {
      this.data, this.pattern, pos, calls := data, pattern, 0, 0;
    }

    /** Some bytes, at least one unless the file is at its end, or a failure. */
    method Read(buf: array<byte>, off: nat, n: nat) returns (got: int)
      requires off + n <= buf.Length && pos <= |data|
      modifies this`pos, this`calls, buf
      ensures got < 0 ==> pos == old(pos) && buf[..] == old(buf[..]) && !Reliable(pattern)
      ensures got >= 0 ==>
                && got <= n && pos == old(pos) + got <= |data|
                && (got == 0 <==> n == 0 || old(pos) == |data|)
                && buf[..off + got] == old(buf[..off]) + data[old(pos)..pos]
    {
      var answer := pattern(calls);
      calls := calls + 1;
      if answer < 0 {
        return -1;
      }
      var most := if n < |data| - pos then n else |data| - pos;
      got := if most == 0 then 0 else 1 + answer % most;
      forall k | 0 <= k < got {
        buf[off + k] := data[pos + k];
      }
      assert buf[off..off + got] == data[pos..pos + got];
      pos := pos + got;
    }
  }

  class OutputFile {
    const pattern: nat -> int
    var data: seq<byte>
    var calls: nat

    constructor (pattern: nat -> int)
      ensures data == []
    {
      this.pattern, data, calls := pattern, [], 0;
    }

    /** Takes some of the bytes, at least one, or fails. */
    method Write(buf: array<byte>, off: nat, n: nat) returns (put: int)
      requires off + n <= buf.Length && n > 0
      modifies this
      ensures put < 0 ==> data == old(data) && !Reliable(pattern)
      ensures put >= 0 ==> 0 < put <= n && data == old(data) + buf[off..off + put]
    {
      var answer := pattern(calls);
      calls := calls + 1;
      if answer < 0 {
        return -1;
      }
      put := 1 + answer % n;
      data := data + buf[off..off + put];
    }
  }
}
