/**
 * The weighting potential of a rectangular pad in a plane condenser
 * (doi:10.1016/j.nima.2014.08.044), as the reader returns it for the
 * `pad` model: a method-of-images series over a four-corner arctan sum.
 *
 * Local coordinates put the readout plane at local z = 0, that is at the
 * upper end of the thickness domain; d is the sensor thickness.
 */
module PadPotential {
  import opened Floating
  import opened Geometry

  /** The number of image terms summed: the series stops after n = 100. */
  const ImageTerms: nat := 100

  /** A value that is a number or not-a-number. */
  predicate NotInfinite(v: Double) {
    !v.PosInf? && !v.NegInf?
  }

  /** The `arctan` helper: atan(a * b / c / sqrt(a^2 + b^2 + c^2)), which is never infinite. */
  function CornerArctan(lib: Libm, a: real, b: real, c: real): (r: Double)
    ensures NotInfinite(r)
  {
    Atan(lib, Divide(Divide(Finite(a * b), c), lib.sqrt(a * a + b * b + c * c)))
  }

  /** One implant corner as `f` sees it: its offsets from (x, y), and whether its term is added. */
  datatype Corner = Corner(added: bool, a: real, b: real)

  /**
   * The implant corners seen from (x, y), in the order `f` combines them: the
   * corners (-,-) and (+,+) added, then (-,+) and (+,-) subtracted.
   */
  function Corners(implant: Vec2, x: real, y: real): (cs: seq<Corner>)
    ensures |cs| == 4
    ensures forall i :: 0 <= i < 4 ==> (cs[i].added <==> i < 2)
  {
    var x1 := x - implant.x / 2.0;
    var x2 := x + implant.x / 2.0;
    var y1 := y - implant.y / 2.0;
    var y2 := y + implant.y / 2.0;
    [Corner(true, x1, y1), Corner(true, x2, y2), Corner(false, x1, y2), Corner(false, x2, y1)]
  }

  /**
   * The sum, left to right, of the corners' signed arctan terms: a corner
   * that is subtracted contributes the negated term, and adding a negated
   * term is subtracting the term. None of these sums is infinite.
   *
   * f is folded over its corner list, rather than written as one expression,
   * so that the verifier unfolds the four arctan terms (whose arithmetic is
   * nonlinear) only in the proofs that ask for them through FExpanded; with
   * the single expression, the lemmas about the whole potential exceed the
   * resource limit.
   */
  function CornerSum(lib: Libm, cs: seq<Corner>, u: real): (r: Double)
    requires |cs| >= 1
    ensures NotInfinite(r)
    decreases |cs|
  {
    if |cs| == 1 then
      (if cs[0].added then CornerArctan(lib, cs[0].a, cs[0].b, u) else Neg(CornerArctan(lib, cs[0].a, cs[0].b, u)))
    else Add(CornerSum(lib, cs[..|cs| - 1], u), CornerSum(lib, cs[|cs| - 1..], u))
  }

  /** The `f` helper: the corner sum of the implant seen from (x, y) at local depth u; never infinite. */
  function F(lib: Libm, implant: Vec2, x: real, y: real, u: real): (r: Double)
    ensures NotInfinite(r)
  {
    CornerSum(lib, Corners(implant, x, y), u)
  }

  /** f written out: the four corner terms in the order the source adds them. */
  lemma {:induction false} FExpanded(lib: Libm, implant: Vec2, x: real, y: real, u: real)
    ensures F(lib, implant, x, y, u) ==
      Combine(CornerArctan(lib, x - implant.x / 2.0, y - implant.y / 2.0, u),
              CornerArctan(lib, x + implant.x / 2.0, y + implant.y / 2.0, u),
              CornerArctan(lib, x - implant.x / 2.0, y + implant.y / 2.0, u),
              CornerArctan(lib, x + implant.x / 2.0, y - implant.y / 2.0, u))
  {
    var cs := Corners(implant, x, y);
    assert cs[..3][..2][..1] == cs[..1] && cs[..3][..2] == cs[..2] && cs[..4][..3] == cs[..3] && cs[..4] == cs;
    assert cs[..2][1..] == [cs[1]] && cs[..3][2..] == [cs[2]] && cs[3..] == [cs[3]];
    var p := CornerSum(lib, cs[..1], u);
    var q := CornerSum(lib, [cs[1]], u);
    var r := CornerSum(lib, [cs[2]], u);
    var s := CornerSum(lib, [cs[3]], u);
    assert CornerSum(lib, cs[..2], u) == Add(p, q);
    assert CornerSum(lib, cs[..3], u) == Add(Add(p, q), r);
    assert CornerSum(lib, cs, u) == Add(Add(Add(p, q), r), s);
  }

  /** p + q - r - s, evaluated left to right. */
  function Combine(p: Double, q: Double, r: Double, s: Double): Double {
    Sub(Sub(Add(p, q), r), s)
  }

  /** The n-th image pair for a given f: f(2nd - z) - f(2nd + z). */
  function ImageTerm(f: real -> Double, d: real, localZ: real, n: nat): Double {
    Sub(f(2.0 * n as real * d - localZ), f(2.0 * n as real * d + localZ))
  }

  /** The image pairs in the order the loop adds them, n = 1 first. */
  function ImageSeries(f: real -> Double, d: real, localZ: real): (ts: seq<Double>)
    ensures |ts| == ImageTerms
  {
    seq(ImageTerms, i requires 0 <= i => ImageTerm(f, d, localZ, i + 1))
  }

  /** `sum` after `sum = 0` and `sum += t` for each t in turn. */
  function Accumulate(ts: seq<Double>): Double
    decreases |ts|
  {
    if ts == [] then Finite(0.0) else Add(Accumulate(ts[..|ts| - 1]), ts[|ts| - 1])
  }

  /** A sum of terms none of which is infinite is not infinite either. */
  lemma {:induction false} AccumulateNotInfinite(ts: seq<Double>)
    requires forall i :: 0 <= i < |ts| ==> NotInfinite(ts[i])
    ensures NotInfinite(Accumulate(ts))
    decreases |ts|
  {
    if ts != [] {
      AccumulateNotInfinite(ts[..|ts| - 1]);
    }
  }

  /** (f(z) - sum of the image pairs) / (2 pi), for a given f. */
  function ImagePotential(f: real -> Double, d: real, localZ: real): Double {
    Scale(1.0 / (2.0 * Pi), Sub(f(localZ), Accumulate(ImageSeries(f, d, localZ))))
  }

  /** f at a fixed (x, y), as a function of the local depth. */
  function FAt(lib: Libm, implant: Vec2, x: real, y: real): real -> Double {
    u => F(lib, implant, x, y, u)
  }

  /**
   * The value the pad potential function returns at pos: the image series in
   * local coordinates, local z = upper - z and d = upper - lower.
   */
  function Potential(lib: Libm, implant: Vec2, domain: Domain, pos: Vec3): (phi: Double)
    ensures NotInfinite(phi)
  {
    var f := FAt(lib, implant, pos.x, pos.y);
    var d := domain.upper - domain.lower;
    var localZ := -pos.z + domain.upper;
    AccumulateNotInfinite(ImageSeries(f, d, localZ));
    ImagePotential(f, d, localZ)
  }

  /** The lookup function the reader hands to the detector for the `pad` model, which never returns an infinity. */
  function PotentialFunction(lib: Libm, implant: Vec2, domain: Domain): (lookup: Vec3 -> Double)
    ensures forall pos :: NotInfinite(lookup(pos))
  {
    pos => Potential(lib, implant, domain, pos)
  }

  /** The loop over n = 1..100 that sums the image pairs of f. */
  method SumImageSeries(f: real -> Double, d: real, localZ: real) returns (sum: Double)
    ensures sum == Accumulate(ImageSeries(f, d, localZ))
  {
    ghost var ts := ImageSeries(f, d, localZ);
    sum := Finite(0.0);
    for n := 1 to ImageTerms + 1
      invariant sum == Accumulate(ts[..n - 1])
    {
      sum := Add(sum, Sub(f(2.0 * n as real * d - localZ), f(2.0 * n as real * d + localZ)));
      assert ts[n - 1] == ImageTerm(f, d, localZ, n);
      assert ts[..n][..n - 1] == ts[..n - 1];
    }
    assert ts[..ImageTerms] == ts;
  }

  /** The lookup function itself: the series in local coordinates, then the final scaling. */
  method EvaluatePotential(lib: Libm, implant: Vec2, domain: Domain, pos: Vec3) returns (phi: Double)
    ensures phi == Potential(lib, implant, domain, pos)
  {
    var f := FAt(lib, implant, pos.x, pos.y);
    var d := domain.upper - domain.lower;
    var localZ := -pos.z + domain.upper;
    var sum := SumImageSeries(f, d, localZ);
    phi := Scale(1.0 / (2.0 * Pi), Sub(f(localZ), sum));
    assert phi == ImagePotential(f, d, localZ);
  }

  // ---------------------------------------------------------------------------
  // Off the readout plane f is finite; on it the corner terms are +-pi/2.

  lemma CornerArctanOffPlane(lib: Libm, a: real, b: real, c: real)
    requires SqrtPositive(lib) && c != 0.0
    ensures CornerArctan(lib, a, b, c).Finite?
  {
    assert c * c > 0.0;
    assert lib.sqrt(a * a + b * b + c * c) > 0.0;
  }

  /** Off the readout plane f is a number. */
  lemma FFinite(lib: Libm, implant: Vec2, x: real, y: real, u: real)
    requires SqrtPositive(lib) && u != 0.0
    ensures F(lib, implant, x, y, u).Finite?
  {
    FExpanded(lib, implant, x, y, u);
    CornerArctanOffPlane(lib, x - implant.x / 2.0, y - implant.y / 2.0, u);
    CornerArctanOffPlane(lib, x + implant.x / 2.0, y + implant.y / 2.0, u);
    CornerArctanOffPlane(lib, x - implant.x / 2.0, y + implant.y / 2.0, u);
    CornerArctanOffPlane(lib, x + implant.x / 2.0, y - implant.y / 2.0, u);
  }

  /** On the readout plane a corner away from the pad's edge lines gives +-pi/2. */
  lemma CornerArctanOnPlane(lib: Libm, a: real, b: real)
    requires SqrtPositive(lib) && a != 0.0 && b != 0.0
    ensures CornerArctan(lib, a, b, 0.0) == Finite(if (a > 0.0) == (b > 0.0) then Pi / 2.0 else -Pi / 2.0)
  {
    assert a * a > 0.0 && b * b >= 0.0;
    assert lib.sqrt(a * a + b * b + 0.0 * 0.0) > 0.0;
    if (a > 0.0) == (b > 0.0) {
      assert a * b > 0.0;
    } else {
      assert a * b < 0.0;
    }
  }

  /** On the readout plane a corner on an edge line is 0/0. */
  lemma CornerArctanOnEdge(lib: Libm, a: real, b: real)
    requires a == 0.0 || b == 0.0
    ensures CornerArctan(lib, a, b, 0.0) == NaN
  {
    assert a * b == 0.0;
  }

  // ---------------------------------------------------------------------------
  // Sums of corner terms. An arctan term is a number or not-a-number, never
  // infinite, and on such values the order of the four terms does not matter.

  lemma CombineSwapped(p: Double, q: Double, r: Double, s: Double)
    requires NotInfinite(p) && NotInfinite(q) && NotInfinite(r) && NotInfinite(s)
    ensures Combine(q, p, s, r) == Combine(p, q, r, s)
  {
  }

  // ---------------------------------------------------------------------------
  // The image terms cancel on the readout plane.

  /** A sum of zeros is zero. */
  lemma {:induction false} AccumulateZeros(ts: seq<Double>)
    requires forall i :: 0 <= i < |ts| ==> ts[i] == Finite(0.0)
    ensures Accumulate(ts) == Finite(0.0)
  {
    if ts != [] {
      AccumulateZeros(ts[..|ts| - 1]);
    }
  }

  /** At local z = 0 every image pair is f(2nd) - f(2nd), which is 0 wherever f is a number. */
  lemma ImageTermsCancelAtZero(f: real -> Double, d: real)
    requires d > 0.0
    requires forall u :: u > 0.0 ==> f(u).Finite?
    ensures forall n :: 1 <= n <= ImageTerms ==> ImageTerm(f, d, 0.0, n) == Finite(0.0)
  {
    forall n | 1 <= n <= ImageTerms
      ensures ImageTerm(f, d, 0.0, n) == Finite(0.0)
    {
      var u := 2.0 * n as real * d;
      assert u > 0.0;
      assert u - 0.0 == u + 0.0 == u;
      assert f(u).Finite?;
    }
  }

  /** ... so the whole series is 0 at local z = 0. */
  lemma SeriesVanishesAtZero(f: real -> Double, d: real)
    requires d > 0.0
    requires forall u :: u > 0.0 ==> f(u).Finite?
    ensures Accumulate(ImageSeries(f, d, 0.0)) == Finite(0.0)
  {
    ImageTermsCancelAtZero(f, d);
    AccumulateZeros(ImageSeries(f, d, 0.0));
  }

  /** ... and the potential is f(0) / (2 pi). */
  lemma ImagePotentialAtZero(f: real -> Double, d: real)
    requires d > 0.0
    requires forall u :: u > 0.0 ==> f(u).Finite?
    ensures ImagePotential(f, d, 0.0) == Scale(1.0 / (2.0 * Pi), f(0.0))
  {
    SeriesVanishesAtZero(f, d);
    var v := f(0.0);
    assert Sub(v, Finite(0.0)) == v;
  }

  /** The series sees f only through its values. */
  lemma ImagePotentialCongruent(f: real -> Double, g: real -> Double, d: real, localZ: real)
    requires forall u :: f(u) == g(u)
    ensures ImagePotential(f, d, localZ) == ImagePotential(g, d, localZ)
  {
    assert ImageSeries(f, d, localZ) == ImageSeries(g, d, localZ);
  }

  /** On the readout plane the potential is f(x, y, 0) / (2 pi). */
  lemma PotentialOnReadoutPlane(lib: Libm, implant: Vec2, domain: Domain, pos: Vec3)
    requires SqrtPositive(lib) && domain.lower < domain.upper
    requires pos.z == domain.upper
    ensures Potential(lib, implant, domain, pos) == Scale(1.0 / (2.0 * Pi), F(lib, implant, pos.x, pos.y, 0.0))
  {
    var f := FAt(lib, implant, pos.x, pos.y);
    forall u | u > 0.0
      ensures f(u).Finite?
    {
      FFinite(lib, implant, pos.x, pos.y, u);
    }
    ImagePotentialAtZero(f, domain.upper - domain.lower);
    assert -pos.z + domain.upper == 0.0;
  }

  /** Inside the implant footprint f(x, y, 0) is 2 pi: all four corners add pi/2. */
  lemma FOnPad(lib: Libm, implant: Vec2, x: real, y: real)
    requires SqrtPositive(lib)
    requires -implant.x / 2.0 < x < implant.x / 2.0
    requires -implant.y / 2.0 < y < implant.y / 2.0
    ensures F(lib, implant, x, y, 0.0) == Finite(2.0 * Pi)
  {
    FExpanded(lib, implant, x, y, 0.0);
    var x1, x2 := x - implant.x / 2.0, x + implant.x / 2.0;
    var y1, y2 := y - implant.y / 2.0, y + implant.y / 2.0;
    CornerArctanOnPlane(lib, x1, y1);
    CornerArctanOnPlane(lib, x2, y2);
    CornerArctanOnPlane(lib, x1, y2);
    CornerArctanOnPlane(lib, x2, y1);
  }

  /** Beside the footprint the four corners cancel pairwise. */
  lemma FBesidePad(lib: Libm, implant: Vec2, x: real, y: real)
    requires SqrtPositive(lib) && implant.x >= 0.0 && implant.y >= 0.0
    requires x != implant.x / 2.0 && x != -implant.x / 2.0
    requires y != implant.y / 2.0 && y != -implant.y / 2.0
    requires FAbs(x) > implant.x / 2.0 || FAbs(y) > implant.y / 2.0
    ensures F(lib, implant, x, y, 0.0) == Finite(0.0)
  {
    FExpanded(lib, implant, x, y, 0.0);
    var x1, x2 := x - implant.x / 2.0, x + implant.x / 2.0;
    var y1, y2 := y - implant.y / 2.0, y + implant.y / 2.0;
    CornerArctanOnPlane(lib, x1, y1);
    CornerArctanOnPlane(lib, x2, y2);
    CornerArctanOnPlane(lib, x1, y2);
    CornerArctanOnPlane(lib, x2, y1);
  }

  /** On an edge line one corner is 0/0, and f is not a number. */
  lemma FOnPadEdge(lib: Libm, implant: Vec2, x: real, y: real)
    requires x == implant.x / 2.0 || x == -implant.x / 2.0 ||
             y == implant.y / 2.0 || y == -implant.y / 2.0
    ensures F(lib, implant, x, y, 0.0) == NaN
  {
    FExpanded(lib, implant, x, y, 0.0);
    var x1, x2 := x - implant.x / 2.0, x + implant.x / 2.0;
    var y1, y2 := y - implant.y / 2.0, y + implant.y / 2.0;
    if x1 == 0.0 || y1 == 0.0 {
      CornerArctanOnEdge(lib, x1, y1);
    } else {
      CornerArctanOnEdge(lib, x2, y2);
    }
  }

  lemma ScaleByTwoPi()
    ensures Scale(1.0 / (2.0 * Pi), Finite(2.0 * Pi)) == Finite(1.0)
  {
    assert (1.0 / (2.0 * Pi)) * (2.0 * Pi) == 1.0;
  }

  /** On the readout plane, inside the implant footprint, the potential is 1. */
  lemma UnitPotentialOnPad(lib: Libm, implant: Vec2, domain: Domain, pos: Vec3)
    requires SqrtPositive(lib) && domain.lower < domain.upper
    requires pos.z == domain.upper
    requires -implant.x / 2.0 < pos.x < implant.x / 2.0
    requires -implant.y / 2.0 < pos.y < implant.y / 2.0
    ensures Potential(lib, implant, domain, pos) == Finite(1.0)
  {
    PotentialOnReadoutPlane(lib, implant, domain, pos);
    FOnPad(lib, implant, pos.x, pos.y);
    ScaleByTwoPi();
  }

  /**
   * On the readout plane, beside the implant footprint (and off its edge
   * lines), the potential is 0.
   */
  lemma ZeroPotentialBesidePad(lib: Libm, implant: Vec2, domain: Domain, pos: Vec3)
    requires SqrtPositive(lib) && domain.lower < domain.upper
    requires pos.z == domain.upper && implant.x >= 0.0 && implant.y >= 0.0
    requires pos.x != implant.x / 2.0 && pos.x != -implant.x / 2.0
    requires pos.y != implant.y / 2.0 && pos.y != -implant.y / 2.0
    requires FAbs(pos.x) > implant.x / 2.0 || FAbs(pos.y) > implant.y / 2.0
    ensures Potential(lib, implant, domain, pos) == Finite(0.0)
  {
    PotentialOnReadoutPlane(lib, implant, domain, pos);
    FBesidePad(lib, implant, pos.x, pos.y);
  }

  /** On the readout plane, on an edge line of the implant, the potential is not a number. */
  lemma NaNOnPadEdge(lib: Libm, implant: Vec2, domain: Domain, pos: Vec3)
    requires pos.z == domain.upper
    requires pos.x == implant.x / 2.0 || pos.x == -implant.x / 2.0 ||
             pos.y == implant.y / 2.0 || pos.y == -implant.y / 2.0
    ensures Potential(lib, implant, domain, pos) == NaN
  {
    assert -pos.z + domain.upper == 0.0;
    FOnPadEdge(lib, implant, pos.x, pos.y);
    var f := FAt(lib, implant, pos.x, pos.y);
    assert f(0.0) == NaN;
  }

  // ---------------------------------------------------------------------------
  // Symmetries of the pad.

  /** Both corner coordinates negated: the same arctan term. */
  lemma CornerArctanEven(lib: Libm, a: real, b: real, c: real)
    ensures CornerArctan(lib, -a, -b, c) == CornerArctan(lib, a, b, c)
  {
    assert (-a) * (-b) == a * b;
    assert (-a) * (-a) + (-b) * (-b) + c * c == a * a + b * b + c * c;
  }

  /** f is unchanged under the point reflection (x, y) -> (-x, -y). */
  lemma FPointSymmetric(lib: Libm, implant: Vec2, x: real, y: real, u: real)
    ensures F(lib, implant, -x, -y, u) == F(lib, implant, x, y, u)
  {
    var x1, x2 := x - implant.x / 2.0, x + implant.x / 2.0;
    var y1, y2 := y - implant.y / 2.0, y + implant.y / 2.0;
    assert -x - implant.x / 2.0 == -x2 && -x + implant.x / 2.0 == -x1;
    assert -y - implant.y / 2.0 == -y2 && -y + implant.y / 2.0 == -y1;
    var p, q := CornerArctan(lib, x1, y1, u), CornerArctan(lib, x2, y2, u);
    var r, s := CornerArctan(lib, x1, y2, u), CornerArctan(lib, x2, y1, u);
    CornerArctanEven(lib, x1, y1, u);
    CornerArctanEven(lib, x2, y2, u);
    CornerArctanEven(lib, x1, y2, u);
    CornerArctanEven(lib, x2, y1, u);
    FExpanded(lib, implant, x, y, u);
    FExpanded(lib, implant, -x, -y, u);
    CombineSwapped(p, q, r, s);
  }

  /** ... at every depth. */
  lemma FAtPointSymmetric(lib: Libm, implant: Vec2, x: real, y: real)
    ensures forall u :: FAt(lib, implant, -x, -y)(u) == FAt(lib, implant, x, y)(u)
  {
    forall u: real
      ensures FAt(lib, implant, -x, -y)(u) == FAt(lib, implant, x, y)(u)
    {
      FPointSymmetric(lib, implant, x, y, u);
    }
  }

  /** The series for f seen from (-x, -y) equals the one seen from (x, y). */
  lemma ImagePotentialPointSymmetric(lib: Libm, implant: Vec2, x: real, y: real, d: real, localZ: real)
    ensures ImagePotential(FAt(lib, implant, -x, -y), d, localZ) == ImagePotential(FAt(lib, implant, x, y), d, localZ)
  {
    FAtPointSymmetric(lib, implant, x, y);
    ImagePotentialCongruent(FAt(lib, implant, -x, -y), FAt(lib, implant, x, y), d, localZ);
  }

  /** Two positions at the same depth, where f agrees at every depth, have the same potential. */
  lemma PotentialCongruent(lib: Libm, implant: Vec2, domain: Domain, p: Vec3, q: Vec3)
    requires p.z == q.z
    requires forall u :: FAt(lib, implant, p.x, p.y)(u) == FAt(lib, implant, q.x, q.y)(u)
    ensures Potential(lib, implant, domain, p) == Potential(lib, implant, domain, q)
  {
    var f, g := FAt(lib, implant, p.x, p.y), FAt(lib, implant, q.x, q.y);
    var d, localZ := domain.upper - domain.lower, -p.z + domain.upper;
    assert Potential(lib, implant, domain, p) == ImagePotential(f, d, localZ);
    assert Potential(lib, implant, domain, q) == ImagePotential(g, d, localZ);
    ImagePotentialCongruent(f, g, d, localZ);
  }

  /** The potential is unchanged under the point reflection through the pad axis. */
  lemma PotentialPointSymmetric(lib: Libm, implant: Vec2, domain: Domain, pos: Vec3)
    ensures Potential(lib, implant, domain, Vec3(-pos.x, -pos.y, pos.z)) == Potential(lib, implant, domain, pos)
  {
    FAtPointSymmetric(lib, implant, pos.x, pos.y);
    PotentialCongruent(lib, implant, domain, Vec3(-pos.x, -pos.y, pos.z), pos);
  }

  /** The potential depends on depth only through local z = upper - z and on d = upper - lower. */
  lemma PotentialDependsOnLocalZ(lib: Libm, implant: Vec2, domain: Domain, pos: Vec3, t: real)
    ensures Potential(lib, implant, Domain(domain.lower + t, domain.upper + t), Vec3(pos.x, pos.y, pos.z + t))
         == Potential(lib, implant, domain, pos)
  {
    var f := FAt(lib, implant, pos.x, pos.y);
    var d, localZ := domain.upper - domain.lower, -pos.z + domain.upper;
    assert Potential(lib, implant, domain, pos) == ImagePotential(f, d, localZ);
    var shifted, moved := Domain(domain.lower + t, domain.upper + t), Vec3(pos.x, pos.y, pos.z + t);
    assert shifted.upper - shifted.lower == d;
    assert -moved.z + shifted.upper == localZ;
    assert Potential(lib, implant, shifted, moved) == ImagePotential(f, d, localZ);
  }
}
