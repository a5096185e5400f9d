/** The byte type of the byte-level models. */
module Bytes {
  newtype byte = x: int | 0 <= x < 256

  function Zeros(n: nat): (z: seq<byte>)
    ensures |z| == n && forall k :: 0 <= k < n ==> z[k] == 0
  {
    if n == 0 then [] else [0] + Zeros(n - 1)
  }
}
