/**
 The copy of an argument list for a new process: one allocation that holds the pointer array
 and, packed behind it, the strings.
 */
module ArgvCopy {
  import opened Options

  const MAX_ARGS: nat := 256
  const POINTER_SIZE: nat := 4

  datatype Status = Ok | TooMany

  predicate IsString(s: string) {
    forall k :: 0 <= k < |s| ==> s[k] != '\0'
  }

  /** The bytes that the first `n` strings take with their terminators. */
  function Packed(args: seq<string>, n: nat): (size: nat)
    requires n <= |args|
  {
    if n == 0 then 0 else Packed(args, n - 1) + |args[n - 1]| + 1
  }

  function PointersSize(nargs: nat): nat {
    (nargs + 1) * POINTER_SIZE
  }

  /** Where string `i` is put. */
  function Offset(args: seq<string>, i: nat): (at: nat)
    requires i <= |args|
  {
    PointersSize(|args|) + Packed(args, i)
  }

  /** The C string at an offset of a buffer. */
  ghost predicate HoldsString(buffer: seq<char>, at: nat, s: string) {
    at + |s| < |buffer| && buffer[at..at + |s|] == s && buffer[at + |s|] == '\0'
  }

  lemma {:induction false} PackedGrows(args: seq<string>, i: nat, j: nat)
    requires i < j <= |args|
    ensures Packed(args, i) + |args[i]| + 1 <= Packed(args, j)
    decreases j
  {
    if i < j - 1 {
      PackedGrows(args, i, j - 1);
    }
  }

  /**
   The string regions lie one behind the other without overlap, start right behind the
   pointers and end with the allocation.
   */
  lemma RegionsTile(args: seq<string>, i: nat, j: nat)
    requires i < j < |args|
    ensures Offset(args, 0) == 4 * (|args| + 1)
    ensures Offset(args, i) + |args[i]| + 1 == Offset(args, i + 1)
    ensures Offset(args, i) + |args[i]| + 1 <= Offset(args, j)
    ensures Offset(args, j) + |args[j]| + 1 <= Offset(args, |args|)
  {
    PackedGrows(args, i, j);
    PackedGrows(args, j, |args|);
  }

  class Binary {
    var argbuffer: Option<array<char>>
    var argv: seq<Option<nat>>

    constructor ()
      ensures argbuffer == None && argv == []
    {
      argbuffer, argv := None, [];
    }

    /** Counts arguments and bytes, giving up past the limit. */
    method Measure(args: seq<string>) returns (status: Status, argsize: nat)
      ensures status == TooMany <==> |args| > MAX_ARGS
      ensures status == Ok ==> argsize == Packed(args, |args|)
    {
      argsize := 0;
      var nargs := 0;
      while nargs < |args|
        invariant nargs <= |args| && nargs <= MAX_ARGS
        invariant argsize == Packed(args, nargs)
      {
        argsize := argsize + |args[nargs]| + 1;
        nargs := nargs + 1;
        if nargs > MAX_ARGS {
          return TooMany, argsize;
        }
      }
      status := Ok;
    }

    /** memcpy of a string with its terminator. */
    method PutString(buffer: array<char>, at: nat, s: string)
      requires at + |s| < buffer.Length
      modifies buffer
      ensures HoldsString(buffer[..], at, s)
      ensures forall k :: 0 <= k < buffer.Length && !(at <= k <= at + |s|) ==> buffer[k] == old(buffer[k])
    {
      var i := 0;
      while i < |s|
        invariant 0 <= i <= |s|
        invariant buffer[at..at + i] == s[..i]
        invariant forall k :: 0 <= k < buffer.Length && !(at <= k < at + i) ==> buffer[k] == old(buffer[k])
      {
        buffer[at + i] := s[i];
        assert buffer[at..at + i + 1] == buffer[at..at + i] + [s[i]];
        i := i + 1;
      }
      buffer[at + |s|] := '\0';
      assert buffer[..][at..at + |s|] == buffer[at..at + |s|] == s;
    }

    /** Copies the strings one behind the other and returns the pointers to them. */
    method PutAll(buffer: array<char>, args: seq<string>) returns (pointers: seq<Option<nat>>)
      requires buffer.Length == Offset(args, |args|)
      modifies buffer
      ensures |pointers| == |args|
      ensures forall i :: 0 <= i < |args| ==> pointers[i] == Some(Offset(args, i))
      ensures AllHeld(buffer[..], args, |args|)
    {
      hide HoldsString, Packed;
      PackedStep(args);
      var ptr, i := PointersSize(|args|), 0;
      pointers := [];
      while i < |args|
        invariant 0 <= i <= |args| && ptr == Offset(args, i) && |pointers| == i
        invariant forall j :: 0 <= j < i ==> pointers[j] == Some(Offset(args, j))
        invariant AllHeld(buffer[..], args, i)
      {
        ghost var before := buffer[..];
        pointers := pointers + [Some(ptr)];
        PackedGrows(args, i, |args|);
        PutString(buffer, ptr, args[i]);
        HeldStays(before, buffer[..], args, i);
        ptr := ptr + |args[i]| + 1;
        i := i + 1;
      }
    }

    /**
     binfmt_copyargv: lists over the limit are turned down before anything is allocated; for
     any other non-empty list each pointer leads to a copy of its string, in one allocation of
     exactly the size needed.
     */
    method CopyArgv(args: seq<string>) returns (status: Status)
      requires forall i :: 0 <= i < |args| ==> IsString(args[i])
      modifies this
      ensures status == TooMany <==> |args| > 256
      ensures status == TooMany || args == [] ==> argbuffer == None && argv == []
      ensures status == Ok && args != [] ==>
                && argbuffer.Some? && fresh(argbuffer.value)
                && argbuffer.value.Length == Offset(args, |args|)
                && |argv| == |args| + 1 && argv[|args|] == None && argv[0] == Some(4 * |argv|)
                && (forall i :: 0 <= i < |args| ==> argv[i] == Some(Offset(args, i)))
                && AllHeld(argbuffer.value[..], args, |args|)
    {
      hide HoldsString, Packed;
      argbuffer, argv := None, [];
      var argsize;
      status, argsize := Measure(args);
      if args != [] {
        PackedGrows(args, 0, |args|);
      }
      PackedStep(args);
      if status == Ok && argsize > 0 {
        var buffer := new char[PointersSize(|args|) + argsize];
        var pointers := PutAll(buffer, args);
        argbuffer, argv := Some(buffer), pointers + [None];
      }
    }
  }

  /** The first `n` strings are in their places. */
  ghost predicate AllHeld(buffer: seq<char>, args: seq<string>, n: nat)
    requires n <= |args|
  {
    forall i :: 0 <= i < n ==> HoldsString(buffer, Offset(args, i), args[i])
  }

  lemma PackedStep(args: seq<string>)
    ensures Packed(args, 0) == 0
    ensures forall i :: 0 <= i < |args| ==> Packed(args, i + 1) == Packed(args, i) + |args[i]| + 1
  {
  }

  /** Writing string `n` leaves the earlier strings alone. */
  lemma HeldStays(before: seq<char>, now: seq<char>, args: seq<string>, n: nat)
    requires n < |args| && |now| == |before| && AllHeld(before, args, n)
    requires HoldsString(now, Offset(args, n), args[n])
    requires forall k :: 0 <= k < |now| && !(Offset(args, n) <= k <= Offset(args, n) + |args[n]|) ==> now[k] == before[k]
    ensures AllHeld(now, args, n + 1)
  {
    hide Packed;
    forall j | 0 <= j < n ensures HoldsString(now, Offset(args, j), args[j]) {
      PackedGrows(args, j, n);
      var at := Offset(args, j);
      assert now[at..at + |args[j]|] == before[at..at + |args[j]|];
    }
  }
}
