/** The part of JavaScript's number semantics that the ledger's arithmetic reaches:
    division by zero, out-of-range array reads (`undefined`) and NaN. Finite numbers
    are exact reals; rounding of binary floating point is not modelled. */
module JsValues {

  /** A JavaScript number. `Undefined` is the value read past the end of an array;
      every arithmetic operation turns it into `NaN`. */
  datatype JsNum = Num(v: real) | Infinity | NegInfinity | NaN | Undefined

  /** Option, for optional values that are not numbers. */
  datatype Option<T> = None | Some(value: T)

  predicate IsNaNLike(a: JsNum) {
    a == NaN || a == Undefined
  }

  /** Sign of a non-NaN value: 1, 0 or -1. */
  function Sign(a: JsNum): int
    requires !IsNaNLike(a)
  {
    match a
    case Num(x) => if x > 0.0 then 1 else if x < 0.0 then -1 else 0
    case Infinity => 1
    case NegInfinity => -1
  }

  function Neg(a: JsNum): JsNum {
    match a
    case Num(x) => Num(-x)
    case Infinity => NegInfinity
    case NegInfinity => Infinity
    case _ => NaN
  }

  /** IEEE addition. */
  function Add(a: JsNum, b: JsNum): JsNum {
    if a.Num? && b.Num? then Num(a.v + b.v)
    else if IsNaNLike(a) || IsNaNLike(b) then NaN
    else if (a == Infinity && b == NegInfinity) || (a == NegInfinity && b == Infinity) then NaN
    else if a == Infinity || b == Infinity then Infinity
    else NegInfinity
  }

  /** IEEE subtraction. */
  function Sub(a: JsNum, b: JsNum): JsNum {
    Add(a, Neg(b))
  }

  /** IEEE multiplication: an infinity times zero is NaN. */
  function Mul(a: JsNum, b: JsNum): JsNum {
    if a.Num? && b.Num? then Num(a.v * b.v)
    else if IsNaNLike(a) || IsNaNLike(b) then NaN
    else if Sign(a) == 0 || Sign(b) == 0 then NaN
    else if Sign(a) == Sign(b) then Infinity
    else NegInfinity
  }

  /** IEEE division: a non-zero number over zero is an infinity, zero over zero is NaN.
      Zero is always taken as +0 (the ledger's zeros come from sums starting at 0). */
  function Div(a: JsNum, b: JsNum): JsNum {
    if IsNaNLike(a) || IsNaNLike(b) then NaN
    else if a.Num? && b.Num? then
      if b.v != 0.0 then Num(a.v / b.v)
      else if a.v > 0.0 then Infinity
      else if a.v < 0.0 then NegInfinity
      else NaN
    else if b.Num? then
      // an infinity over a finite number
      if Sign(b) == 0 then a
      else if Sign(a) == Sign(b) then Infinity
      else NegInfinity
    else if a.Num? then Num(0.0)
    else NaN
  }

  /** JavaScript truthiness of a number: zero and NaN are falsy. */
  predicate Truthy(a: JsNum) {
    match a
    case Num(x) => x != 0.0
    case Infinity => true
    case NegInfinity => true
    case _ => false
  }

  /** `a > t` for a finite `t`; every comparison with NaN is false. */
  predicate GreaterThan(a: JsNum, t: real) {
    match a
    case Num(x) => x > t
    case Infinity => true
    case _ => false
  }

  /** `a >= t` for a finite `t`. */
  predicate AtLeast(a: JsNum, t: real) {
    match a
    case Num(x) => x >= t
    case Infinity => true
    case _ => false
  }

  /** `a <= b` between two numbers that are finite or +Infinity. */
  predicate Le(a: JsNum, b: JsNum) {
    (a.Num? && b.Num? && a.v <= b.v) || ((a.Num? || a == Infinity) && b == Infinity)
  }

  /** `Math.round` on a finite number: halves round towards +infinity. */
  function Round(x: real): int {
    (x + 0.5).Floor
  }

  function MathRound(a: JsNum): JsNum {
    match a
    case Num(x) => Num(Round(x) as real)
    case Undefined => NaN
    case _ => a
  }

  /** `Math.max(0, a)`. */
  function MaxZero(a: JsNum): JsNum {
    match a
    case Num(x) => Num(if x > 0.0 then x else 0.0)
    case Infinity => Infinity
    case NegInfinity => Num(0.0)
    case _ => NaN
  }

  /** `Math.min(100, x)` on a finite number. */
  function Min100(x: real): real {
    if x < 100.0 then x else 100.0
  }

  /** Over a positive base, a percentage change is not negative exactly when the new
      value is at least the base. */
  lemma PercentSign(value: real, base: real)
    requires base > 0.0
    ensures (value - base) / base * 100.0 >= 0.0 <==> value >= base
  {
    var q := (value - base) / base;
    assert q * base == value - base;
    if q < 0.0 {
      assert q * base < 0.0;
    } else {
      assert q * base >= 0.0;
    }
  }
}
