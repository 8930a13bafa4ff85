/**
 * IEEE-754 double arithmetic, as far as the weighting potential reader needs it.
 *
 * A finite double is an exact `real` (rounding is not modelled). Infinities and
 * not-a-number are kept, because the pad potential divides by zero on the
 * readout plane and its value there is decided by them. A zero divisor is the
 * positive zero. `atan` and `sqrt` from <cmath> stay uninterpreted: they are the
 * two function values of a `Libm`.
 */
module Floating {

  /** M_PI from <cmath>, to the digits the header spells out. */
  const Pi: real := 3.14159265358979323846

  /** std::numeric_limits<double>::epsilon(), that is 2^-52. */
  const Epsilon: real := 1.0 / 4503599627370496.0

  datatype Double = Finite(value: real) | PosInf | NegInf | NaN

  /** The two transcendental functions of <cmath> the potential calls. */
  datatype Libm = Libm(atan: real -> real, sqrt: real -> real)

  /** `sqrt` gives a positive root of a positive argument. */
  ghost predicate SqrtPositive(lib: Libm) {
    forall t :: t > 0.0 ==> lib.sqrt(t) > 0.0
  }

  function Neg(a: Double): Double {
    match a
    case Finite(v) => Finite(-v)
    case PosInf => NegInf
    case NegInf => PosInf
    case NaN => NaN
  }

  /** a + b */
  function Add(a: Double, b: Double): Double {
    match (a, b)
    case (NaN, _) => NaN
    case (_, NaN) => NaN
    case (PosInf, NegInf) => NaN
    case (NegInf, PosInf) => NaN
    case (PosInf, _) => PosInf
    case (NegInf, _) => NegInf
    case (_, PosInf) => PosInf
    case (_, NegInf) => NegInf
    case (Finite(x), Finite(y)) => Finite(x + y)
  }

  /** a - b */
  function Sub(a: Double, b: Double): Double {
    Add(a, Neg(b))
  }

  /** k * a for a finite factor k */
  function Scale(k: real, a: Double): Double {
    match a
    case Finite(v) => Finite(k * v)
    case PosInf => if k > 0.0 then PosInf else if k < 0.0 then NegInf else NaN
    case NegInf => if k > 0.0 then NegInf else if k < 0.0 then PosInf else NaN
    case NaN => NaN
  }

  /** a / y for a finite divisor y; a zero divisor is +0 */
  function Divide(a: Double, y: real): Double {
    match a
    case Finite(v) =>
      if y != 0.0 then Finite(v / y)
      else if v > 0.0 then PosInf
      else if v < 0.0 then NegInf
      else NaN
    case PosInf => if y < 0.0 then NegInf else PosInf
    case NegInf => if y < 0.0 then PosInf else NegInf
    case NaN => NaN
  }

  /** std::atan: uninterpreted on finite arguments, +-pi/2 at the infinities */
  function Atan(lib: Libm, a: Double): Double {
    match a
    case Finite(v) => Finite(lib.atan(v))
    case PosInf => Finite(Pi / 2.0)
    case NegInf => Finite(-Pi / 2.0)
    case NaN => NaN
  }

  /** std::fabs */
  function FAbs(x: real): (r: real)
    ensures r >= 0.0 && (r == x || r == -x)
  {
    if x < 0.0 then -x else x
  }

  /** Conversion toward zero, as fmod uses it. */
  function Trunc(q: real): (n: int)
    ensures FAbs(n as real) <= FAbs(q) < FAbs(n as real) + 1.0
    ensures n != 0 ==> (n > 0 <==> q > 0.0)
  {
    if q >= 0.0 then q.Floor else -((-q).Floor)
  }

  /** A proper fraction of y, positive or negative, is smaller than y; its sign is the product of the signs. */
  lemma FractionOf(d: real, y: real)
    requires -1.0 < d < 1.0 && y != 0.0
    ensures FAbs(d * y) < FAbs(y)
    ensures d * y > 0.0 <==> (d > 0.0 && y > 0.0) || (d < 0.0 && y < 0.0)
    ensures d * y < 0.0 <==> (d > 0.0 && y < 0.0) || (d < 0.0 && y > 0.0)
  {
    if y > 0.0 {
      assert (1.0 - d) * y > 0.0;
      assert (1.0 + d) * y > 0.0;
    } else {
      assert (1.0 - d) * y < 0.0;
      assert (1.0 + d) * y < 0.0;
    }
  }

  /** The part of x / y that truncation drops, times y, is smaller than y and has the sign of x. */
  lemma TruncRemainder(x: real, y: real)
    requires y != 0.0
    ensures var r := x - Trunc(x / y) as real * y;
      FAbs(r) < FAbs(y) && (r != 0.0 ==> (r > 0.0 <==> x > 0.0))
  {
    var q := x / y;
    var n := Trunc(q) as real;
    var d := q - n;
    assert x == q * y;
    assert x - n * y == d * y;
    FractionOf(d, y);
    if y > 0.0 {
      assert x > 0.0 <==> q > 0.0;
    } else {
      assert x > 0.0 <==> q < 0.0;
    }
  }

  /** The whole multiple n * y. */
  function Multiple(n: int, y: real): real {
    n as real * y
  }

  /**
   * std::fmod: x - trunc(x / y) * y, not-a-number for a zero divisor. The
   * result differs from x by a whole multiple of y, is smaller than the
   * divisor, and is zero or has the sign of x; together these fix it.
   */
  function FMod(x: real, y: real): (r: Double)
    ensures y == 0.0 ==> r == NaN
    ensures y != 0.0 ==> r.Finite? && exists n: int :: r.value == x - Multiple(n, y)
    ensures y != 0.0 ==> r.Finite? && FAbs(r.value) < FAbs(y) && (r.value != 0.0 ==> (r.value > 0.0 <==> x > 0.0))
  {
    if y == 0.0 then NaN
    else
      var n := Trunc(x / y);
      TruncRemainder(x, y);
      Finite(x - Multiple(n, y))
  }

  /** The comparison a > b, false when a is not-a-number. */
  predicate Greater(a: Double, b: real) {
    match a
    case Finite(v) => v > b
    case PosInf => true
    case NegInf => false
    case NaN => false
  }

  /** Dividing n * y by a non-zero y gives back n. */
  lemma MultipleQuotient(n: real, y: real)
    requires y != 0.0
    ensures (n * y) / y == n
  {
  }

  /** The remainder of a whole multiple is zero. */
  lemma FModOfMultiple(x: real, y: real, k: int)
    requires y != 0.0 && x == k as real * y
    ensures FMod(x, y) == Finite(0.0)
  {
    MultipleQuotient(k as real, y);
    assert Trunc(x / y) == k;
    assert x - Multiple(k, y) == 0.0;
  }
}
