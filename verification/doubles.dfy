/**
  Java's double, modelled as the extended reals: a finite real, a signed
  infinity, or NaN. Rounding, overflow and the sign of zero are not modelled;
  what matters for the interpreter is that every arithmetic operation is
  total, so that dividing by zero yields a value and never an error.
*/
module Doubles {

  datatype Double = Finite(r: real) | Infinity(negative: bool) | NaN

  function Negate(a: Double): (r: Double)
    ensures a.NaN? <==> r.NaN?
  {
    match a
    case Finite(x) => Finite(-x)
    case Infinity(n) => Infinity(!n)
    case NaN => NaN
  }

  function Add(a: Double, b: Double): (r: Double)
    ensures (a.NaN? || b.NaN?) ==> r.NaN?
    ensures a.Finite? && b.Finite? ==> r == Finite(a.r + b.r)
  {
    match (a, b)
    case (NaN, _) => NaN
    case (_, NaN) => NaN
    case (Infinity(n), Infinity(m)) => if n == m then Infinity(n) else NaN
    case (Infinity(n), Finite(_)) => Infinity(n)
    case (Finite(_), Infinity(m)) => Infinity(m)
    case (Finite(x), Finite(y)) => Finite(x + y)
  }

  /** IEEE 754 subtraction is addition of the negated right operand. */
  function Subtract(a: Double, b: Double): (r: Double)
    ensures (a.NaN? || b.NaN?) ==> r.NaN?
    ensures a.Finite? && b.Finite? ==> r == Finite(a.r - b.r)
    ensures a.Infinity? && a == b ==> r.NaN?
  {
    Add(a, Negate(b))
  }

  /** Zero times an infinity is NaN; otherwise the sign of an infinite product is the product of the signs. */
  function Multiply(a: Double, b: Double): (r: Double)
    ensures (a.NaN? || b.NaN?) ==> r.NaN?
    ensures (a.Infinity? && b == Finite(0.0)) || (a == Finite(0.0) && b.Infinity?) ==> r.NaN?
    ensures a.Finite? && b.Finite? ==> r == Finite(a.r * b.r)
    ensures a.Infinity? && b.Finite? && b.r < 0.0 ==> r == Infinity(!a.negative)
    ensures a.Infinity? && b.Finite? && b.r > 0.0 ==> r == a
  {
    match (a, b)
    case (NaN, _) => NaN
    case (_, NaN) => NaN
    case (Infinity(n), Infinity(m)) => Infinity(n != m)
    case (Infinity(n), Finite(y)) => if y == 0.0 then NaN else Infinity(n != (y < 0.0))
    case (Finite(x), Infinity(m)) => if x == 0.0 then NaN else Infinity(m != (x < 0.0))
    case (Finite(_), Finite(_)) => Finite(a.r * b.r)
  }

  /** Division never fails: a zero divisor yields an infinity or NaN. */
  function Divide(a: Double, b: Double): (r: Double)
    ensures b == Finite(0.0) ==> !r.Finite?
    ensures a.Finite? && b.Finite? && b.r != 0.0 ==> r == Finite(a.r / b.r)
  {
    match (a, b)
    case (NaN, _) => NaN
    case (_, NaN) => NaN
    case (Infinity(_), Infinity(_)) => NaN
    case (Infinity(n), Finite(y)) => Infinity(n != (y < 0.0))
    case (Finite(_), Infinity(_)) => Finite(0.0)
    case (Finite(x), Finite(y)) =>
      if y != 0.0 then Finite(x / y)
      else if x == 0.0 then NaN
      else Infinity(x < 0.0)
  }

  /** Java's primitive `<` on doubles: false whenever NaN is involved. */
  predicate Less(a: Double, b: Double)
    ensures Less(a, b) ==> !a.NaN? && !b.NaN? && a != b
    ensures a.Finite? && b.Finite? ==> (Less(a, b) <==> a.r < b.r)
    ensures a == Infinity(true) && !b.NaN? && b != a ==> Less(a, b)
  {
    match (a, b)
    case (NaN, _) => false
    case (_, NaN) => false
    case (Finite(x), Finite(y)) => x < y
    case (Infinity(n), Finite(_)) => n
    case (Finite(_), Infinity(m)) => !m
    case (Infinity(n), Infinity(m)) => n && !m
  }

  /** Java's primitive `<=` on doubles: false whenever NaN is involved. */
  predicate LessOrEqual(a: Double, b: Double)
    ensures (a.NaN? || b.NaN?) ==> !LessOrEqual(a, b)
    ensures a.Finite? && b.Finite? ==> (LessOrEqual(a, b) <==> a.r <= b.r)
  {
    !a.NaN? && (a == b || Less(a, b))
  }

  /**
    Apart from NaN, which is unordered, `<` is a strict total order and `<=`
    is its reflexive closure, as IEEE 754 comparison promises.
  */
  lemma OrderedApartFromNaN(a: Double, b: Double)
    requires !a.NaN? && !b.NaN?
    ensures Less(a, b) ==> !Less(b, a)
    ensures a != b ==> Less(a, b) || Less(b, a)
    ensures LessOrEqual(a, b) <==> !Less(b, a)
  {
  }
}
