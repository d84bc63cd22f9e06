/** Types shared by the protocol and card modules. */
module Basics {
  const MAX_U64: int := 0xFFFF_FFFF_FFFF_FFFF
  const BLOCK_SIZE := 512

  /** std::uint64_t: every arithmetic step must be shown to stay in range. */
  type U64 = x: int | 0 <= x <= MAX_U64

  /** std::uint32_t */
  type U32 = x: int | 0 <= x <= 0xFFFF_FFFF

  /** One sector (CdcBlockData and SdBlock are the same 512-byte array). */
  type Block = b: seq<bv8> | |b| == BLOCK_SIZE witness seq(BLOCK_SIZE, _ => 0)

  function ZeroBlock(): Block { seq(BLOCK_SIZE, _ => 0) }

  datatype Option<+T> = None | Some(value: T)
  datatype Result<+T, +E> = Ok(value: T) | Err(error: E)

  /** BlockOperationResult: the outcome of one backend call. */
  datatype BlockOperation = Complete | Pending | Failed

  function Min(a: int, b: int): int { if a <= b then a else b }
  function Max(a: int, b: int): int { if a >= b then a else b }

  /** Quotient and remainder are the only ones that fit. */
  lemma DivRem(v: int, d: int, q: int, r: int)
    requires 0 <= q && 0 <= r < d && v == q * d + r
    ensures v / d == q && v % d == r
  {
    SmallMultiple(q - v / d, d, v % d - r);
  }

  lemma SmallMultiple(k: int, d: int, m: int)
    requires k * d == m && -d < m < d
    ensures k == 0
  {}

  function Power2(k: nat): (p: nat)
    ensures p > 0
  {
    if k == 0 then 1 else 2 * Power2(k - 1)
  }
}
