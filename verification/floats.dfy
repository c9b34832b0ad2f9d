/** The numeric values of the filter: exact reals extended with the
    infinities and NaN that a floating-point division by zero produces.
    numpy scalars divide by zero without raising, so these values can reach
    the comparisons of the filter. */
module Floats {

  datatype Float = Finite(v: real) | PosInf | NegInf | NaN

  /** x / y: a non-zero divisor gives the exact quotient; a zero divisor
      gives a signed infinity, or NaN for 0/0. */
  function Div(x: real, y: real): (r: Float)
    ensures y != 0.0 ==> r == Finite(x / y)
    ensures y == 0.0 ==> (r == PosInf <==> x > 0.0) && (r == NegInf <==> x < 0.0) && (r == NaN <==> x == 0.0)
  {
    if y != 0.0 then Finite(x / y)
    else if x > 0.0 then PosInf
    else if x < 0.0 then NegInf
    else NaN
  }

  function Abs(f: Float): (r: Float)
    ensures r != NegInf
    ensures f.Finite? ==> r == Finite(if f.v < 0.0 then -f.v else f.v)
    ensures r.NaN? <==> f.NaN?
  {
    match f
    case Finite(x) => Finite(if x < 0.0 then -x else x)
    case PosInf => PosInf
    case NegInf => PosInf
    case NaN => NaN
  }

  /** Multiplication by a positive constant. */
  function Scale(f: Float, k: real): (r: Float)
    requires k > 0.0
    ensures f.Finite? <==> r.Finite?
    ensures f.Finite? ==> r.v == f.v * k
    ensures !f.Finite? ==> r == f
  {
    match f
    case Finite(x) => Finite(x * k)
    case _ => f
  }

  /** f <= t; every comparison with NaN is false. */
  predicate AtMost(f: Float, t: real) {
    match f
    case Finite(x) => x <= t
    case PosInf => false
    case NegInf => true
    case NaN => false
  }

  /** f >= t. */
  predicate AtLeast(f: Float, t: real) {
    match f
    case Finite(x) => x >= t
    case PosInf => true
    case NegInf => false
    case NaN => false
  }

  /** f > t. */
  predicate Above(f: Float, t: real) {
    match f
    case Finite(x) => x > t
    case PosInf => true
    case NegInf => false
    case NaN => false
  }
}
