/** Bytes and a few functions on sequences of them. */
module Bytes {
  type Byte = b: nat | b < 256

  function Min(a: nat, b: nat): nat { if a < b then a else b }

  function Zeros(n: nat): (z: seq<Byte>)
    ensures |z| == n && forall k :: 0 <= k < n ==> z[k] == 0
  {
    seq<Byte>(n, _ => 0)
  }

  /** The first `n` bytes, or all of them. */
  function Take(d: seq<Byte>, n: nat): seq<Byte> { if n < |d| then d[..n] else d }
}
