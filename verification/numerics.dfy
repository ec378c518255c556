/** Machine integers and the conversions the form performs on them. */
module Numerics {

  const Int32Min: int := -0x8000_0000
  const Int32Max: int := 0x7fff_ffff

  /** A C# `int`. */
  type Int32 = x: int | Int32Min <= x <= Int32Max

  /** `x + 1` on a C# `int`, as `x++` and `Max(...) + 1` compute it: C#
      arithmetic is unchecked unless asked otherwise, so the largest `int`
      wraps around to the smallest. */
  function Inc32(x: Int32): (r: Int32)
    ensures x < Int32Max ==> r == x + 1
    ensures x == Int32Max ==> r == Int32Min
  {
    if x == Int32Max then Int32Min else x + 1
  }

  /** The C# cast `(int)d` of a `decimal`: truncation toward zero. */
  function TruncateToInt(d: real): (r: int)
    ensures 0.0 <= d ==> r as real <= d < r as real + 1.0
    ensures d < 0.0 ==> r as real - 1.0 < d <= r as real
  {
    if d >= 0.0 then d.Floor else -((-d).Floor)
  }
}
