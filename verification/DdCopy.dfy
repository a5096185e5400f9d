/**
 The `dd` command: copies a file block by block through devices that may read and write
 less than they are asked to, or fail.
 */
module DdCopy {
  import opened Bytes
  import opened Devices

  // ----- What is to be written -----

  /** The first block of the input, filled up with zeros. */
  function Block(input: seq<byte>, bs: nat): (block: seq<byte>)
    ensures |block| == bs
  {
    if |input| >= bs then input[..bs] else input + Zeros(bs - |input|)
  }

  function Rest(input: seq<byte>, bs: nat): (rest: seq<byte>) {
    if |input| >= bs then input[bs..] else []
  }

  /** Blocks `skip` to `skip + count` of the input, one after the other. */
  function Copied(input: seq<byte>, bs: nat, skip: nat, count: nat): (out: seq<byte>)
    requires 0 < bs
    decreases |input|
  {
    if input == [] || count == 0 then []
    else if skip > 0 then Copied(Rest(input, bs), bs, skip - 1, count)
    else Block(input, bs) + Copied(Rest(input, bs), bs, 0, count - 1)
  }

  /** The input with its last block filled up with zeros. */
  function Padded(input: seq<byte>, bs: nat): (out: seq<byte>)
    requires 0 < bs
    ensures |input| <= |out| < |input| + bs && out[..|input|] == input
    ensures forall k :: |input| <= k < |out| ==> out[k] == 0
    decreases |input|
  {
    if input == [] then [] else Block(input, bs) + Padded(Rest(input, bs), bs)
  }

  function Drop(s: seq<byte>, n: nat): seq<byte> {
    if n <= |s| then s[n..] else []
  }

  function Take(s: seq<byte>, n: nat): seq<byte> {
    if n <= |s| then s[..n] else s
  }

  lemma DropMore(a: seq<byte>, b: seq<byte>, n: nat)
    ensures Drop(a + b, |a| + n) == Drop(b, n)
    ensures Take(a + b, |a| + n) == a + Take(b, n)
  {
  }

  lemma Times(k: nat, bs: nat)
    requires k > 0
    ensures k * bs == bs + (k - 1) * bs
  {
  }

  /** `dd` writes the padded input from byte `skip * bs` on, at most `count * bs` bytes of it. */
  lemma {:induction false} CopiedIsSlice(input: seq<byte>, bs: nat, skip: nat, count: nat)
    requires 0 < bs
    ensures Copied(input, bs, skip, count) == Take(Drop(Padded(input, bs), skip * bs), count * bs)
    decreases |input|
  {
    hide Padded, Block, Rest;
    PaddedStep(input, bs);
    if input == [] {
    } else if count == 0 {
      assert count * bs == 0;
    } else if skip > 0 {
      CopiedIsSlice(Rest(input, bs), bs, skip - 1, count);
      Times(skip, bs);
      DropMore(Block(input, bs), Padded(Rest(input, bs), bs), (skip - 1) * bs);
    } else {
      CopiedIsSlice(Rest(input, bs), bs, 0, count - 1);
      Times(count, bs);
      assert skip * bs == 0;
      DropMore(Block(input, bs), Padded(Rest(input, bs), bs), (count - 1) * bs);
    }
  }

  lemma PaddedStep(input: seq<byte>, bs: nat)
    requires 0 < bs
    ensures Padded(input, bs) == if input == [] then [] else Block(input, bs) + Padded(Rest(input, bs), bs)
    ensures input != [] ==> |Rest(input, bs)| < |input|
  {
  }

  // ----- The command -----

  class Dd {
    const infile: InputFile
    const outfile: OutputFile
    const skip: nat
    const sectsize: nat
    const buffer: array<byte>
    var nsectors: nat
    var sector: nat
    var eof: bool
    var nbytes: nat

    ghost predicate Valid()
      reads this, infile
    {
      0 < sectsize == buffer.Length && nbytes <= sectsize && infile.pos <= |infile.data|
    }

    ghost function Left(): seq<byte>
      requires Valid()
      reads this, infile
    {
      infile.data[infile.pos..]
    }

    constructor (infile: InputFile, outfile: OutputFile, sectsize: nat, count: nat, skip: nat)
      requires 0 < sectsize && infile.pos <= |infile.data|
      ensures Valid() && this.infile == infile && this.outfile == outfile && fresh(buffer)
      ensures this.sectsize == sectsize && nsectors == count && this.skip == skip && sector == 0 && !eof
    {
      this.infile, this.outfile, this.sectsize, this.skip := infile, outfile, sectsize, skip;
      buffer := new byte[sectsize](_ => 0);
      nsectors, sector, eof, nbytes := count, 0, false, 0;
    }

    /** dd_read: fills the buffer from as many reads as it takes, or up to the end of the file. */
    method ReadBlock() returns (ok: bool)
      requires Valid()
      modifies this`nbytes, this`eof, infile`pos, infile`calls, buffer
      ensures Valid()
      ensures ok ==>
                && buffer[..nbytes] + Left() == old(Left())
                && (nbytes == sectsize || Left() == [])
                && eof == (old(eof) || nbytes == 0)
      ensures Reliable(infile.pattern) ==> ok
    {
      nbytes := 0;
      ghost var data, start := infile.data, infile.pos;
      assert buffer[..0] == data[start..start];
      var more := true;
      while more
        invariant Valid() && eof == old(eof) && infile.pos == start + nbytes
        invariant buffer[..nbytes] == data[start..infile.pos]
        invariant !more ==> nbytes == sectsize || infile.pos == |data|
        decreases more, |data| - infile.pos
      {
        ghost var pos := infile.pos;
        var got := infile.Read(buffer, nbytes, sectsize - nbytes);
        if got < 0 {
          return false;
        }
        assert data[start..pos] + data[pos..infile.pos] == data[start..infile.pos];
        nbytes := nbytes + got;
        more := nbytes < sectsize && got > 0;
      }
      assert data[start..] == data[start..infile.pos] + data[infile.pos..];
      eof := eof || nbytes == 0;
      ok := true;
    }

    /** dd_write: writes the whole buffer in as many writes as it takes. */
    method WriteBlock() returns (ok: bool)
      requires Valid()
      modifies outfile
      ensures ok ==> outfile.data == old(outfile.data) + buffer[..]
      ensures old(outfile.data) <= outfile.data <= old(outfile.data) + buffer[..]
      ensures Reliable(outfile.pattern) ==> ok
    {
      var written := 0;
      while written < sectsize
        invariant written <= sectsize
        invariant outfile.data == old(outfile.data) + buffer[..written]
      {
        var put := outfile.Write(buffer, written, sectsize - written);
        if put < 0 {
          return false;
        }
        assert buffer[..written] + buffer[written..written + put] == buffer[..written + put];
        written := written + put;
      }
      assert buffer[..sectsize] == buffer[..];
      ok := true;
    }

    /** Fills the buffer up with zeros. */
    method PadBlock()
      requires Valid()
      modifies buffer
      ensures buffer[..] == old(buffer[..nbytes]) + Zeros(sectsize - nbytes)
    {
      var i := nbytes;
      while i < sectsize
        invariant nbytes <= i <= sectsize
        invariant buffer[..nbytes] == old(buffer[..nbytes])
        invariant forall k :: nbytes <= k < i ==> buffer[k] == 0
      {
        buffer[i] := 0;
        i := i + 1;
      }
      assert buffer[nbytes..] == Zeros(sectsize - nbytes);
      assert buffer[..] == buffer[..nbytes] + buffer[nbytes..];
    }

    ghost function StillSkipped(): nat
      reads this
    {
      if sector < skip then skip - sector else 0
    }

    /**
     The transfer loop. For every way in which the devices cut up reads and writes: if no
     device fails, exactly the chosen blocks are written; if one does, a prefix of them.
     */
    method Transfer() returns (ok: bool)
      requires Valid() && !eof && sector == 0
      modifies this, infile`pos, infile`calls, outfile, buffer
      ensures ok ==>
                outfile.data == old(outfile.data) + Copied(old(Left()), sectsize, skip, old(nsectors))
      ensures outfile.data <= old(outfile.data) + Copied(old(Left()), sectsize, skip, old(nsectors))
      ensures Reliable(infile.pattern) && Reliable(outfile.pattern) ==> ok
    {
      hide Copied, Zeros;
      ghost var all := outfile.data + Copied(Left(), sectsize, skip, nsectors);
      while !eof && nsectors > 0
        invariant Valid()
        invariant outfile.data + Copied(Left(), sectsize, StillSkipped(), nsectors) == all
        invariant eof ==> Left() == []
        decreases !eof, |infile.data| - infile.pos
      {
        ghost var input, skips, count, out := Left(), StillSkipped(), nsectors, outfile.data;
        ok := ReadBlock();
        if !ok {
          return;
        }
        if !eof {
          ghost var left := Left();
          PadBlock();
          BlockRead(input, sectsize, buffer[..], nbytes, left);
          CopiedStep(input, sectsize, skips, count);
          if sector >= skip {
            ok := WriteBlock();
            if !ok {
              Grouped(out, buffer[..], Copied(left, sectsize, 0, count - 1), outfile.data);
              return;
            }
            Grouped(out, buffer[..], Copied(left, sectsize, 0, count - 1), outfile.data);
            nsectors := nsectors - 1;
          }
          sector := sector + 1;
        }
      }
      CopiedNothing(Left(), sectsize, StillSkipped(), nsectors);
      ok := true;
    }
  }

  /** What has been read and padded is the first block of the input. */
  lemma BlockRead(input: seq<byte>, bs: nat, block: seq<byte>, n: nat, left: seq<byte>)
    requires 0 < n <= bs == |block| && block[..n] + left == input && (n == bs || left == [])
    requires block == block[..n] + Zeros(bs - n)
    ensures input != [] && block == Block(input, bs) && left == Rest(input, bs)
  {
    hide Zeros;
    if n == bs {
      assert block[..n] == block;
    } else {
      assert block[..n] + [] == block[..n];
    }
  }

  lemma CopiedStep(input: seq<byte>, bs: nat, skip: nat, count: nat)
    requires 0 < bs && input != [] && count > 0
    ensures Copied(input, bs, skip, count) ==
              if skip > 0 then Copied(Rest(input, bs), bs, skip - 1, count)
              else Block(input, bs) + Copied(Rest(input, bs), bs, 0, count - 1)
  {
  }

  lemma CopiedNothing(input: seq<byte>, bs: nat, skip: nat, count: nat)
    requires 0 < bs && (input == [] || count == 0)
    ensures Copied(input, bs, skip, count) == []
  {
  }

  lemma Grouped(a: seq<byte>, b: seq<byte>, c: seq<byte>, d: seq<byte>)
    ensures a + (b + c) == (a + b) + c
    ensures d <= a + b ==> d <= a + (b + c)
  {
  }
}
