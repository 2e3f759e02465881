/** Integer helpers shared by the server model: Python's `max`/`min`, where a
    slice bound lands, and `int()` of a float. */
module Numeric {

  function Max(x: int, y: int): int { if x < y then y else x }
  function Min(x: int, y: int): int { if x < y then x else y }

  /** Where a slice bound lands in an axis of length n: a negative bound
      counts from the end, and the result is clamped into [0, n]. */
  function SliceBound(x: int, n: nat): (r: int)
    ensures 0 <= r <= n
    ensures 0 <= x <= n ==> r == x
    ensures x < -(n as int) ==> r == 0
    ensures -(n as int) <= x < 0 ==> r == x + n
    ensures n < x ==> r == n
  {
    if x < 0 then (if x + n < 0 then 0 else x + n) else if x > n then n else x
  }

  /** The number of elements a slice `[start:stop]` selects from an axis of
      length n: never more than the axis holds, exactly stop - start for
      bounds inside the axis, and none once the stop is not after the start. */
  function SliceLength(start: int, stop: int, n: nat): (r: nat)
    ensures r <= n
    ensures 0 <= start <= stop <= n ==> r == stop - start
    ensures 0 <= stop <= start ==> r == 0
  {
    Max(SliceBound(stop, n) - SliceBound(start, n), 0)
  }

  /** Python's `int()` of a float: the integer part, rounding toward zero. */
  function Trunc(x: real): (r: int)
    ensures x >= 0.0 ==> r >= 0 && r as real <= x < r as real + 1.0
    ensures x < 0.0 ==> r <= 0 && r as real - 1.0 < x <= r as real
  {
    if x >= 0.0 then x.Floor else -((-x).Floor)
  }
}
