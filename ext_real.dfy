/**
 * The part of IEEE double arithmetic that the dashboard's pandas expressions
 * rely on: a value is a finite number, an infinity or NaN.  Finite values are
 * exact reals (no rounding) and the sign of zero is not tracked.
 */
module ExtReal {

  datatype Ext = Num(v: real) | PosInf | NegInf | NaN

  function Neg(a: Ext): (r: Ext)
    ensures a.Num? <==> r.Num?
    ensures a.Num? ==> r.v == -a.v
  {
    match a
    case Num(x) => Num(-x)
    case PosInf => NegInf
    case NegInf => PosInf
    case NaN => NaN
  }

  function Add(a: Ext, b: Ext): (r: Ext)
    ensures a.Num? && b.Num? ==> r == Num(a.v + b.v)
    ensures (a.NaN? || b.NaN?) ==> r.NaN?
  {
    match (a, b)
    case (NaN, _) => NaN
    case (_, NaN) => NaN
    case (PosInf, NegInf) => NaN
    case (NegInf, PosInf) => NaN
    case (PosInf, _) => PosInf
    case (NegInf, _) => NegInf
    case (_, PosInf) => PosInf
    case (_, NegInf) => NegInf
    case (Num(x), Num(y)) => Num(x + y)
  }

  function Sub(a: Ext, b: Ext): (r: Ext)
    ensures a.Num? && b.Num? ==> r == Num(a.v - b.v)
  {
    Add(a, Neg(b))
  }

  /** Division; a finite number over zero is a signed infinity, and 0/0 is NaN. */
  function Div(a: Ext, b: Ext): (r: Ext)
    ensures a.Num? && b.Num? && b.v != 0.0 ==> r == Num(a.v / b.v)
    ensures a.Num? && b.Num? && b.v == 0.0 ==>
      r == (if a.v > 0.0 then PosInf else if a.v < 0.0 then NegInf else NaN)
    ensures a.Num? && (b.PosInf? || b.NegInf?) ==> r == Num(0.0)
    ensures (a.NaN? || b.NaN?) ==> r.NaN?
  {
    match (a, b)
    case (NaN, _) => NaN
    case (_, NaN) => NaN
    case (Num(x), Num(y)) =>
      if y != 0.0 then Num(x / y)
      else if x > 0.0 then PosInf
      else if x < 0.0 then NegInf
      else NaN
    case (Num(_), _) => Num(0.0)
    case (PosInf, Num(y)) => if y < 0.0 then NegInf else PosInf
    case (NegInf, Num(y)) => if y < 0.0 then PosInf else NegInf
    case (_, _) => NaN
  }
}
