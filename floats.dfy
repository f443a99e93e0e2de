/** Floating-point values as the feature code sees them: a finite number,
    modelled by a real, or NaN. Rounding and the infinities are not modelled. */
module Floats {

  datatype Float = NaN | Num(v: real)

  /** IEEE subtraction: NaN if either operand is NaN. */
  function Sub(a: Float, b: Float): Float
  {
    if a.Num? && b.Num? then Num(a.v - b.v) else NaN
  }

  /** Multiplication by a finite factor (a pixel width or height). */
  function Scale(a: Float, k: real): Float
  {
    if a.Num? then Num(a.v * k) else NaN
  }

  /** Addition of a finite offset (a pixel delta). */
  function Shift(a: Float, d: real): Float
  {
    if a.Num? then Num(a.v + d) else NaN
  }

  function Abs(x: real): real
  {
    if x < 0.0 then -x else x
  }
}
