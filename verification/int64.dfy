/** The edges of 64-bit arithmetic the program relies on. */
module Int64 {
  const I64_MAX := 0x7fff_ffff_ffff_ffff
  const I64_MIN := -0x8000_0000_0000_0000

  /** Whole numbers up to here are 64-bit floats. */
  const FLOAT_EXACT := 0x20_0000_0000_0000

  /** `saturating_add`, `saturating_sub` and `saturating_mul`, given the exact result. */
  function Saturate(x: int): (r: int)
    ensures I64_MIN <= r <= I64_MAX && (I64_MIN <= x <= I64_MAX ==> r == x)
    ensures r != x ==> r == (if x > 0 then 9_223_372_036_854_775_807 else -9_223_372_036_854_775_808)
  {
    if x > I64_MAX then I64_MAX else if x < I64_MIN then I64_MIN else x
  }
}
