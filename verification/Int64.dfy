/** Go's 64-bit integers, which wrap around. */
module Int64 {
  newtype int64 = x: int | -0x8000_0000_0000_0000 <= x < 0x8000_0000_0000_0000

  const MIN_INT64 := -0x8000_0000_0000_0000
  const MAX_INT64 := 0x7FFF_FFFF_FFFF_FFFF

  /** Two's-complement wrap-around of a sum or product. */
  function Wrap64(x: int): (w: int)
    ensures MIN_INT64 <= w <= MAX_INT64
  {
    (x + 0x8000_0000_0000_0000) % 0x1_0000_0000_0000_0000 - 0x8000_0000_0000_0000
  }

  lemma WrapIsIdentity(x: int)
    requires MIN_INT64 <= x <= MAX_INT64
    ensures Wrap64(x) == x
  {}

  /** A wrapped value is congruent to the value. */
  lemma WrapShifts(x: int) returns (k: int)
    ensures Wrap64(x) == x - k * 0x1_0000_0000_0000_0000
    ensures x > MAX_INT64 ==> k >= 1
    ensures x < MIN_INT64 ==> k <= -1
  {
    k := (x + 0x8000_0000_0000_0000) / 0x1_0000_0000_0000_0000;
  }
}
