/** IEEE 754 double values without rounding: the reals, both infinities and NaN. It makes
    the percentage arithmetic of the battery code total, as it is in C. */
module Doubles {

  datatype Double = Finite(r: real) | PosInf | NegInf | NaN

  /** a / b, where a zero divisor is a positive zero. */
  function Quotient(a: real, b: real): Double {
    if b != 0.0 then Finite(a / b)
    else if a > 0.0 then PosInf
    else if a < 0.0 then NegInf
    else NaN
  }

  function Negate(a: Double): Double {
    match a
    case Finite(r) => Finite(-r)
    case PosInf => NegInf
    case NegInf => PosInf
    case NaN => NaN
  }

  function Plus(a: Double, b: Double): Double {
    match (a, b)
    case (Finite(x), Finite(y)) => Finite(x + y)
    case (NaN, _) => NaN
    case (_, NaN) => NaN
    case (PosInf, NegInf) => NaN
    case (NegInf, PosInf) => NaN
    case (Finite(_), _) => b
    case (_, _) => a
  }

  function Minus(a: Double, b: Double): Double {
    Plus(a, Negate(b))
  }

  function DividedBy(a: Double, b: Double): Double {
    match (a, b)
    case (Finite(x), Finite(y)) => Quotient(x, y)
    case (NaN, _) => NaN
    case (_, NaN) => NaN
    case (Finite(_), _) => Finite(0.0)
    case (_, Finite(y)) => if y >= 0.0 then a else Negate(a)
    case (_, _) => NaN
  }

  /** The C comparison a > r; every comparison with NaN is false. */
  predicate Exceeds(a: Double, r: real) {
    a.PosInf? || (a.Finite? && a.r > r)
  }

  /** The C comparison a < r. */
  predicate FallsBelow(a: Double, r: real) {
    a.NegInf? || (a.Finite? && a.r < r)
  }
}
