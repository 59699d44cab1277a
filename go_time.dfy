/**
 * Go's signed 64-bit integers and `time.Duration` (an int64 count of
 * nanoseconds), with the wrap-around of int64 multiplication written out.
 */
module GoTime {

  const TwoTo63: int := 0x8000_0000_0000_0000
  const TwoTo64: int := 0x1_0000_0000_0000_0000

  newtype int64 = x: int | -0x8000_0000_0000_0000 <= x < 0x8000_0000_0000_0000

  /** `time.Duration`: nanoseconds, as an int64. */
  type Duration = int64

  /** `time.Millisecond`, in nanoseconds. */
  const Millisecond: int := 1_000_000

  /** The largest millisecond count whose product with `time.Millisecond` still fits in an int64. */
  const MaxExactMillis: int := 9_223_372_036_854

  /** Two's-complement truncation of an unbounded integer to int64, as the Go runtime does on overflow. */
  function Wrap64(x: int): (r: int64)
    ensures (r as int - x) % TwoTo64 == 0
    ensures -TwoTo63 <= x < TwoTo63 ==> r as int == x
  {
    var m := x % TwoTo64;
    if m < TwoTo63 then m as int64 else (m - TwoTo64) as int64
  }

  /** `time.Duration(ms) * time.Millisecond`: the product is computed in int64 and wraps. */
  function MillisToDuration(ms: int64): (d: Duration)
    ensures (d as int - ms as int * Millisecond) % TwoTo64 == 0
    ensures -MaxExactMillis <= ms as int <= MaxExactMillis ==> d as int == ms as int * Millisecond
  {
    Wrap64(ms as int * Millisecond)
  }

  /** The bound on exact conversion is tight: one millisecond more and the duration wraps to a negative value. */
  lemma MillisToDurationWrapsPastBound()
    ensures MillisToDuration((MaxExactMillis + 1) as int64) < 0
    ensures MillisToDuration(-(MaxExactMillis + 1) as int64) > 0
  {
  }
}
