/** FHermiteCubicSpline (GoKartReplicationComponent.h:23-35): a cubic Hermite
    segment between two locations with given derivatives, evaluated at
    LerpRatio. FMath::CubicInterp and FMath::CubicInterpDerivative are written
    out per coordinate over reals. */
module Hermite {
  import opened KartTypes

  /** FMath::CubicInterp on one coordinate, in the Hermite basis form. */
  function CubicInterp(p0: real, t0: real, p1: real, t1: real, a: real): real
  {
    var a2 := a * a;
    var a3 := a2 * a;
    (2.0 * a3 - 3.0 * a2 + 1.0) * p0 + (a3 - 2.0 * a2 + a) * t0 + (a3 - a2) * t1 + (-2.0 * a3 + 3.0 * a2) * p1
  }

  /** FMath::CubicInterpDerivative on one coordinate, in the coefficient form
      a * A^2 + b * A + c the engine uses. */
  function CubicInterpDerivative(p0: real, t0: real, p1: real, t1: real, a: real): real
  {
    var ca := 6.0 * p0 + 3.0 * t0 + 3.0 * t1 - 6.0 * p1;
    var cb := -6.0 * p0 - 4.0 * t0 - 2.0 * t1 + 6.0 * p1;
    var cc := t0;
    ca * (a * a) + cb * a + cc
  }

  /** The cubic and quadratic coefficients of CubicInterp as a polynomial in the ratio. */
  function CubicCoefficient(p0: real, t0: real, p1: real, t1: real): real
  {
    2.0 * p0 + t0 + t1 - 2.0 * p1
  }

  function QuadraticCoefficient(p0: real, t0: real, p1: real, t1: real): real
  {
    -3.0 * p0 - 2.0 * t0 - t1 + 3.0 * p1
  }

  /** The polynomial c3 x^3 + c2 x^2 + c1 x + c0. */
  function Cubic(c3: real, c2: real, c1: real, c0: real, x: real): real
  {
    c3 * (x * x * x) + c2 * (x * x) + c1 * x + c0
  }

  /** The derivative 3 c3 x^2 + 2 c2 x + c1 of Cubic. */
  function CubicSlope(c3: real, c2: real, c1: real, x: real): real
  {
    3.0 * c3 * (x * x) + 2.0 * c2 * x + c1
  }

  /** Half the second derivative of Cubic plus its third-order term at step h. */
  function CubicRemainder(c3: real, c2: real, x: real, h: real): real
  {
    3.0 * c3 * x + c2 + c3 * h
  }

  /** CubicInterp's polynomial and its derivative, in powers of the ratio. */
  function PowerCubic(p0: real, t0: real, p1: real, t1: real, x: real): real
  {
    Cubic(CubicCoefficient(p0, t0, p1, t1), QuadraticCoefficient(p0, t0, p1, t1), t0, p0, x)
  }

  function PowerSlope(p0: real, t0: real, p1: real, t1: real, x: real): real
  {
    CubicSlope(CubicCoefficient(p0, t0, p1, t1), QuadraticCoefficient(p0, t0, p1, t1), t0, x)
  }

  /** What is left of CubicInterp(a + h) - CubicInterp(a) after the first-order
      term: h squared times a factor that stays bounded as h shrinks. */
  function SecondOrderTerm(p0: real, t0: real, p1: real, t1: real, a: real, h: real): real
  {
    h * h * CubicRemainder(CubicCoefficient(p0, t0, p1, t1), QuadraticCoefficient(p0, t0, p1, t1), a, h)
  }

  datatype HermiteCubicSpline = HermiteCubicSpline(
    StartLocation: Vec3, StartDerivative: Vec3,
    TargetLocation: Vec3, TargetDerivative: Vec3,
    LerpRatio: real, VelocityToDerative: real)
  {
    /** InterpolateLocation() const: reads only the four endpoint vectors and
        LerpRatio, and runs from the start location at ratio 0 to the target at ratio 1. */
    function InterpolateLocation(): (r: Vec3)
      ensures LerpRatio == 0.0 ==> r == StartLocation
      ensures LerpRatio == 1.0 ==> r == TargetLocation
    {
      Vec3(CubicInterp(StartLocation.X, StartDerivative.X, TargetLocation.X, TargetDerivative.X, LerpRatio),
           CubicInterp(StartLocation.Y, StartDerivative.Y, TargetLocation.Y, TargetDerivative.Y, LerpRatio),
           CubicInterp(StartLocation.Z, StartDerivative.Z, TargetLocation.Z, TargetDerivative.Z, LerpRatio))
    }

    /** InterpolateDerivative() const: reads only the four endpoint vectors and
        LerpRatio, and runs from the start derivative at ratio 0 to the target at ratio 1. */
    function InterpolateDerivative(): (r: Vec3)
      ensures LerpRatio == 0.0 ==> r == StartDerivative
      ensures LerpRatio == 1.0 ==> r == TargetDerivative
    {
      Vec3(CubicInterpDerivative(StartLocation.X, StartDerivative.X, TargetLocation.X, TargetDerivative.X, LerpRatio),
           CubicInterpDerivative(StartLocation.Y, StartDerivative.Y, TargetLocation.Y, TargetDerivative.Y, LerpRatio),
           CubicInterpDerivative(StartLocation.Z, StartDerivative.Z, TargetLocation.Z, TargetDerivative.Z, LerpRatio))
    }
  }

  /** The engine's derivative formula is the derivative of its location formula:
      the change of CubicInterp over a step h is h times CubicInterpDerivative
      plus a term of order h squared. */
  lemma DerivativeIsSlope(p0: real, t0: real, p1: real, t1: real, a: real, h: real)
    ensures CubicInterp(p0, t0, p1, t1, a + h) - CubicInterp(p0, t0, p1, t1, a)
            == h * CubicInterpDerivative(p0, t0, p1, t1, a) + SecondOrderTerm(p0, t0, p1, t1, a, h)
  {
    PowerForm(p0, t0, p1, t1, a + h);
    PowerForm(p0, t0, p1, t1, a);
    DerivativeForm(p0, t0, p1, t1, a);
    InterpStep(p0, t0, p1, t1, a, h);
    Substitute(CubicInterp(p0, t0, p1, t1, a + h), CubicInterp(p0, t0, p1, t1, a),
               PowerCubic(p0, t0, p1, t1, a + h), PowerCubic(p0, t0, p1, t1, a),
               CubicInterpDerivative(p0, t0, p1, t1, a), PowerSlope(p0, t0, p1, t1, a),
               SecondOrderTerm(p0, t0, p1, t1, a, h), h);
  }

  /** CubicStep for the coefficients of CubicInterp. */
  lemma InterpStep(p0: real, t0: real, p1: real, t1: real, a: real, h: real)
    ensures PowerCubic(p0, t0, p1, t1, a + h) - PowerCubic(p0, t0, p1, t1, a)
            == h * PowerSlope(p0, t0, p1, t1, a) + SecondOrderTerm(p0, t0, p1, t1, a, h)
  {
    CubicStep(CubicCoefficient(p0, t0, p1, t1), QuadraticCoefficient(p0, t0, p1, t1), t0, p0, a, h);
  }

  /** Rewriting a first-order expansion along equalities, with every term kept abstract. */
  lemma Substitute(i1: real, i0: real, k1: real, k0: real, d: real, s: real, q: real, h: real)
    requires i1 == k1 && i0 == k0 && d == s
    requires k1 - k0 == h * s + q
    ensures i1 - i0 == h * d + q
  {
  }

  /** The step of a cubic from a to a + h, split into its first-order and higher-order parts. */
  lemma CubicStep(c3: real, c2: real, c1: real, c0: real, a: real, h: real)
    ensures Cubic(c3, c2, c1, c0, a + h) - Cubic(c3, c2, c1, c0, a)
            == h * CubicSlope(c3, c2, c1, a) + h * h * CubicRemainder(c3, c2, a, h)
  {
    CubeTermStep(c3, a, h);
    SquareTermStep(c2, a, h);
    assert c1 * (a + h) - c1 * a == h * c1;
    CollectTerms(c3 * ((a + h) * (a + h) * (a + h)) - c3 * (a * a * a), c2 * ((a + h) * (a + h)) - c2 * (a * a),
                 c1 * (a + h) - c1 * a, 3.0 * c3 * (a * a), 2.0 * c2 * a, c1, 3.0 * c3 * a + c3 * h, c2, h);
  }

  /** The cubic term's step. */
  lemma CubeTermStep(c3: real, a: real, h: real)
    ensures c3 * ((a + h) * (a + h) * (a + h)) - c3 * (a * a * a) == h * (3.0 * c3 * (a * a)) + h * h * (3.0 * c3 * a + c3 * h)
  {
    assert (a + h) * (a + h) == a * a + 2.0 * a * h + h * h;
    assert (a + h) * (a + h) * (a + h) == a * a * a + 3.0 * (a * a) * h + 3.0 * a * (h * h) + h * h * h;
  }

  /** The quadratic term's step. */
  lemma SquareTermStep(c2: real, a: real, h: real)
    ensures c2 * ((a + h) * (a + h)) - c2 * (a * a) == h * (2.0 * c2 * a) + h * h * c2
  {
    assert (a + h) * (a + h) == a * a + 2.0 * a * h + h * h;
  }

  /** Adding up the steps of the three terms, every term kept abstract. */
  lemma CollectTerms(d3: real, d2: real, d1: real, s3: real, s2: real, s1: real, r3: real, r2: real, h: real)
    requires d3 == h * s3 + h * h * r3 && d2 == h * s2 + h * h * r2 && d1 == h * s1
    ensures d3 + d2 + d1 == h * (s3 + s2 + s1) + h * h * (r3 + r2)
  {
  }

  /** The engine's coefficient form of the derivative is the slope of the power form. */
  lemma DerivativeForm(p0: real, t0: real, p1: real, t1: real, a: real)
    ensures CubicInterpDerivative(p0, t0, p1, t1, a) == PowerSlope(p0, t0, p1, t1, a)
  {
  }

  /** CubicInterp rewritten as a polynomial in the ratio. */
  lemma PowerForm(p0: real, t0: real, p1: real, t1: real, a: real)
    ensures CubicInterp(p0, t0, p1, t1, a) == PowerCubic(p0, t0, p1, t1, a)
  {
  }

  /** Half-way along, the Hermite location is the linear midpoint shifted by a
      eighth of the difference of the derivatives; it equals the linear midpoint
      exactly when the two derivatives agree. */
  lemma Midpoint(p0: real, t0: real, p1: real, t1: real)
    ensures CubicInterp(p0, t0, p1, t1, 0.5) == (p0 + p1) / 2.0 + (t0 - t1) / 8.0
    ensures CubicInterp(p0, t0, p1, t1, 0.5) == (p0 + p1) / 2.0 <==> t0 == t1
  {
  }

  /** Half-way along a spline, the location is the linear midpoint of its
      endpoints shifted by an eighth of the difference of the endpoint
      derivatives; it is the linear midpoint exactly when the derivatives agree. */
  lemma SplineMidpoint(s: HermiteCubicSpline)
    requires s.LerpRatio == 0.5
    ensures s.InterpolateLocation()
            == Add(Scale(Add(s.StartLocation, s.TargetLocation), 0.5), Scale(Sub(s.StartDerivative, s.TargetDerivative), 0.125))
    ensures s.InterpolateLocation() == Scale(Add(s.StartLocation, s.TargetLocation), 0.5)
            <==> s.StartDerivative == s.TargetDerivative
  {
    var p0, t0, p1, t1 := s.StartLocation, s.StartDerivative, s.TargetLocation, s.TargetDerivative;
    Midpoint(p0.X, t0.X, p1.X, t1.X);
    Midpoint(p0.Y, t0.Y, p1.Y, t1.Y);
    Midpoint(p0.Z, t0.Z, p1.Z, t1.Z);
    MidpointByCoordinates(s.InterpolateLocation(), p0, t0, p1, t1);
  }

  /** Assembling the three coordinates of the midpoint, every coordinate kept abstract. */
  lemma MidpointByCoordinates(loc: Vec3, p0: Vec3, t0: Vec3, p1: Vec3, t1: Vec3)
    requires loc.X == (p0.X + p1.X) / 2.0 + (t0.X - t1.X) / 8.0
    requires loc.Y == (p0.Y + p1.Y) / 2.0 + (t0.Y - t1.Y) / 8.0
    requires loc.Z == (p0.Z + p1.Z) / 2.0 + (t0.Z - t1.Z) / 8.0
    ensures loc == Add(Scale(Add(p0, p1), 0.5), Scale(Sub(t0, t1), 0.125))
    ensures loc == Scale(Add(p0, p1), 0.5) <==> t0 == t1
  {
  }
}
