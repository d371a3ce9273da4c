/**
 * Floating-point numbers as JavaScript and NumPy see them. Finite values are
 * exact reals (rounding is not modelled); the special values NaN and the two
 * infinities are kept apart because the dashboard produces them on empty or
 * all-zero inputs.
 */
module Numbers {

  datatype Number = Finite(value: real) | NaN | PosInf | NegInf

  /** IEEE 754 division of two finite operands (the denominator is a positive zero). */
  function Divide(a: real, b: real): (r: Number)
    ensures r.Finite? <==> b != 0.0
    ensures r.Finite? ==> r.value * b == a
    ensures r == NaN <==> a == 0.0 && b == 0.0
    ensures r == PosInf <==> a > 0.0 && b == 0.0
    ensures r == NegInf <==> a < 0.0 && b == 0.0
  {
    if b != 0.0 then Finite(a / b)
    else if a > 0.0 then PosInf
    else if a < 0.0 then NegInf
    else NaN
  }

  /** Multiplication by a positive constant. */
  function Scale(x: Number, c: real): (r: Number)
    requires c > 0.0
    ensures r.Finite? <==> x.Finite?
    ensures r.Finite? ==> r.value == x.value * c
    ensures !r.Finite? ==> r == x
  {
    match x
    case Finite(v) => Finite(v * c)
    case _ => x
  }

  /** `Math.min(x, c)` for a finite bound `c`: NaN wins, the positive infinity loses. */
  function Min(x: Number, c: real): (r: Number)
    ensures r != PosInf
    ensures r.Finite? ==> r.value <= c
    ensures x.Finite? && x.value <= c ==> r == x
    ensures x.Finite? && x.value > c ==> r == Finite(c)
    ensures x == PosInf ==> r == Finite(c)
    ensures r == NaN <==> x == NaN
    ensures r == NegInf <==> x == NegInf
  {
    match x
    case Finite(v) => if v <= c then x else Finite(c)
    case PosInf => Finite(c)
    case _ => x
  }
}
