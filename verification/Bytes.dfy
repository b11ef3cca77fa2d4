/** Bytes and fixed-width unsigned arithmetic. */
module Bytes {
  type byte = b: int | 0 <= b < 256

  const UINT32_RANGE := 0x1_0000_0000

  /** A sum as 32-bit unsigned arithmetic computes it. */
  function Wrap32(n: nat): (r: nat)
    ensures r < UINT32_RANGE
    ensures r == n <==> n < UINT32_RANGE
  {
    n % UINT32_RANGE
  }

  function Zeros(n: nat): (r: seq<byte>)
    ensures |r| == n && forall i | 0 <= i < n :: r[i] == 0
  {
    seq(n, _ => 0)
  }
}
