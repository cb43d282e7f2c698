/** Time as the operator sees it: nanoseconds on one clock that never runs backwards. */
module Clock {
  type Time = int

  const SECOND := 1_000_000_000
  const MINUTE := 60 * SECOND
}

/** Go's fixed-width integers. */
module Ints {
  const TWO_63 := 0x8000_0000_0000_0000
  const TWO_64 := 0x1_0000_0000_0000_0000

  type int32 = x: int | -0x8000_0000 <= x < 0x8000_0000
  type int64 = x: int | -TWO_63 <= x < TWO_63

  /** Two's-complement wrap-around of a 64-bit result. */
  function Wrap64(x: int): (r: int64)
    ensures -TWO_63 <= x < TWO_63 ==> r == x
  {
    (x + TWO_63) % TWO_64 - TWO_63
  }
}

module Options {
  datatype Option<+T> = None | Some(value: T)
}
