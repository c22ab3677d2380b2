/** Shared vocabulary: optional values and the machine integers the operator uses. */
module Basics {

  datatype Option<+T> = None | Some(value: T)

  /** Largest and smallest int64 values; ring versions and drain timestamps are int64. */
  const MAX_INT64: int := 0x7fff_ffff_ffff_ffff
  const MIN_INT64: int := -0x8000_0000_0000_0000

  /** Replica counts are int32 and never negative. */
  type Count = n: int | 0 <= n < 0x8000_0000

  /** Clock readings and durations are counted in nanoseconds. */
  const SECOND: int := 1_000_000_000

  /** `v + 1` on an int64, which wraps. */
  function Increment(v: int): (r: int)
    ensures v < MAX_INT64 ==> r > v
    ensures v == MAX_INT64 ==> r < v
  {
    if v == MAX_INT64 then MIN_INT64 else v + 1
  }
}
