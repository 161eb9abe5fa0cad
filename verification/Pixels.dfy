/** Single-precision pixel values: exact reals with an explicit largest magnitude, and the three
    kinds of non-finite value that the pipeline tells apart. Rounding is not modelled. */
module Pixels {

  /** The largest finite single-precision number, (2^24 - 1) * 2^104. */
  const FLT_MAX: real := 340282346638528859811704183484516925440.0

  datatype RawPixel = Fin(v: real) | PosInf | NegInf | NaN

  type Pixel = p: RawPixel | p.Fin? ==> -FLT_MAX <= p.v <= FLT_MAX witness Fin(0.0)

  /** The comparison `p >= level`; false for NaN. */
  predicate AtLeast(p: Pixel, level: real) {
    p.PosInf? || (p.Fin? && p.v >= level)
  }

  /** The comparison `p > 0`; false for NaN. */
  predicate Positive(p: Pixel) {
    p.PosInf? || (p.Fin? && p.v > 0.0)
  }

  /** Round an exact result that leaves the finite range to an infinity. */
  function Overflowing(v: real): Pixel {
    if v > FLT_MAX then PosInf else if v < -FLT_MAX then NegInf else Fin(v)
  }

  function Minus(a: Pixel, b: Pixel): Pixel {
    match (a, b)
    case (Fin(x), Fin(y)) => Overflowing(x - y)
    case (NaN, _) => NaN
    case (_, NaN) => NaN
    case (PosInf, PosInf) => NaN
    case (NegInf, NegInf) => NaN
    case (PosInf, _) => PosInf
    case (NegInf, _) => NegInf
    case (_, PosInf) => NegInf
    case (_, NegInf) => PosInf
  }

  function Sign(p: Pixel): int
    requires !p.NaN?
  {
    match p
    case PosInf => 1
    case NegInf => -1
    case Fin(v) => if v > 0.0 then 1 else if v < 0.0 then -1 else 0
  }

  function Times(a: Pixel, b: Pixel): Pixel {
    if a.NaN? || b.NaN? then NaN
    else if a.Fin? && b.Fin? then Overflowing(a.v * b.v)
    else
      var s := Sign(a) * Sign(b);
      if s > 0 then PosInf else if s < 0 then NegInf else NaN
  }
}
