/** Durations of the Go library. */
module Durations {
  const SECOND := 1000000000
  const MAX_INT64 := 0x7FFF_FFFF_FFFF_FFFF

  /** Durations are 64-bit counts of nanoseconds. */
  predicate IsDuration(d: int) { -MAX_INT64 - 1 <= d <= MAX_INT64 }

  function Wrap64(x: int): (r: int)
    ensures IsDuration(r) && (IsDuration(x) ==> r == x)
  {
    (x + 0x8000_0000_0000_0000) % 0x1_0000_0000_0000_0000 - 0x8000_0000_0000_0000
  }
}
