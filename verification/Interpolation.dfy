/** Cubic interpolation of a sampled state, and the accelerations written for the
    ends of each sampling interval. Times and states are real numbers. */
module Interpolation {
  import opened RealFacts

  function Eval(c0: real, c1: real, c2: real, c3: real, c4: real, s: real): real {
    c0 + c1 * s + c2 * (s * s) + c3 * (s * s * s) + c4 * (s * s * s * s)
  }

  /** c0 + c1 s + c2 s^2 + c3 s^3 + c4 s^4, where s is the time since the start of the interval. */
  datatype Poly = Poly(c0: real, c1: real, c2: real, c3: real, c4: real) {
    function At(s: real): real {
      Eval(c0, c1, c2, c3, c4, s)
    }

    function Derivative(): Poly {
      Poly(c1, 2.0 * c2, 3.0 * c3, 4.0 * c4, 0.0)
    }

    predicate Cubic() {
      c4 == 0.0
    }
  }

  /** The x of the formulas: positions s1, s2 and velocities v1, v2 at the ends of an interval of length dt. */
  function X(s1: real, v1: real, s2: real, v2: real, dt: real): real
    requires dt != 0.0
  {
    6.0 * ((s2 - s1) / dt - 0.5 * (v2 + v1)) / (dt * dt)
  }

  function Y(s1: real, v1: real, s2: real, v2: real, dt: real): real
    requires dt != 0.0
  {
    (v2 - v1) / dt + X(s1, v1, s2, v2, dt) * dt
  }

  function VelocityFrom(v1: real, x: real, y: real, s: real): real {
    v1 + y * s - x * s * s
  }

  function PositionFrom(s1: real, v1: real, x: real, y: real, s: real): real {
    s1 + v1 * s + y * s * s * 0.5 - x * s * s * s / 3.0
  }

  function Velocity(s1: real, v1: real, s2: real, v2: real, dt: real, s: real): real
    requires dt != 0.0
  {
    VelocityFrom(v1, X(s1, v1, s2, v2, dt), Y(s1, v1, s2, v2, dt), s)
  }

  function Position(s1: real, v1: real, s2: real, v2: real, dt: real, s: real): real
    requires dt != 0.0
  {
    PositionFrom(s1, v1, X(s1, v1, s2, v2, dt), Y(s1, v1, s2, v2, dt), s)
  }

  /** The interpolant as a polynomial. */
  function Interpolant(s1: real, v1: real, s2: real, v2: real, dt: real): Poly
    requires dt != 0.0
  {
    Poly(s1, v1, Y(s1, v1, s2, v2, dt) / 2.0, -X(s1, v1, s2, v2, dt) / 3.0, 0.0)
  }

  /** The states at both ends of an interval of length dt of a motion that follows p. */
  function Sampled(p: Poly, dt: real): Poly
    requires dt != 0.0
  {
    Interpolant(p.At(0.0), p.Derivative().At(0.0), p.At(dt), p.Derivative().At(dt), dt)
  }

  // ---------------------------------------------------------------------------
  // The interpolant is the cubic through the end states
  // ---------------------------------------------------------------------------

  lemma PositionIsEval(s1: real, v1: real, x: real, y: real, s: real, c2: real, c3: real)
    requires c2 == y / 2.0 && c3 == -x / 3.0
    ensures PositionFrom(s1, v1, x, y, s) == Eval(s1, v1, c2, c3, 0.0, s)
  {
    assert y * s * s * 0.5 == c2 * (s * s);
    assert x * s * s * s / 3.0 == -(c3 * (s * s * s));
  }

  lemma VelocityIsEval(v1: real, x: real, y: real, s: real, d1: real, d2: real, d3: real)
    requires d1 == y && d2 == -x && d3 == 0.0
    ensures VelocityFrom(v1, x, y, s) == Eval(v1, d1, d2, d3, 0.0, s)
  {
    assert x * s * s == -(d2 * (s * s));
  }

  lemma FormulasAreTheInterpolant(s1: real, v1: real, s2: real, v2: real, dt: real, s: real)
    requires dt != 0.0
    ensures Position(s1, v1, s2, v2, dt, s) == Interpolant(s1, v1, s2, v2, dt).At(s)
    ensures Velocity(s1, v1, s2, v2, dt, s) == Interpolant(s1, v1, s2, v2, dt).Derivative().At(s)
  {
    var x, y := X(s1, v1, s2, v2, dt), Y(s1, v1, s2, v2, dt);
    PositionIsEval(s1, v1, x, y, s, y / 2.0, -x / 3.0);
    VelocityIsEval(v1, x, y, s, 2.0 * (y / 2.0), 3.0 * (-x / 3.0), 4.0 * 0.0);
  }

  lemma MatchesEnds(s1: real, v1: real, s2: real, v2: real, dt: real)
    requires dt != 0.0
    ensures var c := Interpolant(s1, v1, s2, v2, dt);
            && c.At(0.0) == s1 && c.Derivative().At(0.0) == v1
            && c.At(dt) == s2 && c.Derivative().At(dt) == v2
  {
    var a, b := (s2 - s1) / dt, (v2 - v1) / dt;
    var n, k := 6.0 * (a - 0.5 * (v2 + v1)), dt * dt;
    Quotient(s2 - s1, dt);
    Quotient(v2 - v1, dt);
    Square(dt);
    Quotient(n, k);
    EndsFromCoefficients(s1, v1, s2, v2, dt, n / k, b + n / k * dt, a, b);
  }

  lemma EndsFromCoefficients(s1: real, v1: real, s2: real, v2: real, dt: real, x: real, y: real, a: real, b: real)
    requires dt * a == s2 - s1 && dt * b == v2 - v1
    requires (dt * dt) * x == 6.0 * (a - 0.5 * (v2 + v1)) && y == b + x * dt
    ensures v1 + y * dt - x * dt * dt == v2
    ensures s1 + v1 * dt + y * dt * dt * 0.5 - x * dt * dt * dt / 3.0 == s2
  {
  }

  // ---------------------------------------------------------------------------
  // The quartic error
  // ---------------------------------------------------------------------------

  lemma MeanVelocity(c0: real, c1: real, c2: real, c3: real, c4: real, dt: real, v: real)
    requires dt != 0.0
    requires v == c0 + c1 * dt + c2 * (dt * dt) + c3 * (dt * dt * dt) + c4 * (dt * dt * dt * dt)
    ensures (v - c0) / dt == c1 + c2 * dt + c3 * (dt * dt) + c4 * (dt * dt * dt)
  {
    QuotientIs(v - c0, dt, c1 + c2 * dt + c3 * (dt * dt) + c4 * (dt * dt * dt));
  }

  lemma MeanAcceleration(c1: real, c2: real, c3: real, c4: real, dt: real, w: real)
    requires dt != 0.0
    requires w == c1 + 2.0 * c2 * dt + 3.0 * c3 * (dt * dt) + 4.0 * c4 * (dt * dt * dt)
    ensures (w - c1) / dt == 2.0 * c2 + 3.0 * c3 * dt + 4.0 * c4 * (dt * dt)
  {
    QuotientIs(w - c1, dt, 2.0 * c2 + 3.0 * c3 * dt + 4.0 * c4 * (dt * dt));
  }

  lemma XFromCoefficients(c1: real, c2: real, c3: real, c4: real, dt: real, a: real, w: real, n: real)
    requires a == c1 + c2 * dt + c3 * (dt * dt) + c4 * (dt * dt * dt)
    requires w == c1 + 2.0 * c2 * dt + 3.0 * c3 * (dt * dt) + 4.0 * c4 * (dt * dt * dt)
    requires n == 6.0 * (a - 0.5 * (w + c1))
    ensures n == (dt * dt) * (-3.0 * c3 - 6.0 * c4 * dt)
  {
  }

  lemma YFromCoefficients(c2: real, c3: real, c4: real, dt: real, b: real, x: real, y: real)
    requires b == 2.0 * c2 + 3.0 * c3 * dt + 4.0 * c4 * (dt * dt)
    requires x == -3.0 * c3 - 6.0 * c4 * dt && y == b + x * dt
    ensures y == 2.0 * c2 - 2.0 * c4 * (dt * dt)
  {
  }

  lemma XYOfStates(c0: real, c1: real, c2: real, c3: real, c4: real, dt: real, v: real, w: real)
    requires dt != 0.0
    requires v == c0 + c1 * dt + c2 * (dt * dt) + c3 * (dt * dt * dt) + c4 * (dt * dt * dt * dt)
    requires w == c1 + 2.0 * c2 * dt + 3.0 * c3 * (dt * dt) + 4.0 * c4 * (dt * dt * dt)
    ensures X(c0, c1, v, w, dt) == -3.0 * c3 - 6.0 * c4 * dt
    ensures Y(c0, c1, v, w, dt) == 2.0 * c2 - 2.0 * c4 * (dt * dt)
  {
    var a, b := (v - c0) / dt, (w - c1) / dt;
    var n := 6.0 * (a - 0.5 * (w + c1));
    Square(dt);
    MeanVelocity(c0, c1, c2, c3, c4, dt, v);
    MeanAcceleration(c1, c2, c3, c4, dt, w);
    XFromCoefficients(c1, c2, c3, c4, dt, a, w, n);
    QuotientIs(n, dt * dt, -3.0 * c3 - 6.0 * c4 * dt);
    YFromCoefficients(c2, c3, c4, dt, b, n / (dt * dt), b + n / (dt * dt) * dt);
  }

  lemma EvalAtZero(c0: real, c1: real, c2: real, c3: real, c4: real)
    ensures Eval(c0, c1, c2, c3, c4, 0.0) == c0
  {
  }

  lemma EvalOfDerivative(c1: real, c2: real, c3: real, c4: real, s: real)
    ensures Eval(c1, 2.0 * c2, 3.0 * c3, 4.0 * c4, 0.0, s)
         == c1 + 2.0 * c2 * s + 3.0 * c3 * (s * s) + 4.0 * c4 * (s * s * s)
  {
  }

  lemma XYOnQuartic(p: Poly, dt: real, s: real, u: real, v: real, w: real)
    requires dt != 0.0
    requires s == p.At(0.0) && u == p.Derivative().At(0.0) && v == p.At(dt) && w == p.Derivative().At(dt)
    ensures s == p.c0 && u == p.c1
    ensures X(s, u, v, w, dt) == -3.0 * p.c3 - 6.0 * p.c4 * dt
    ensures Y(s, u, v, w, dt) == 2.0 * p.c2 - 2.0 * p.c4 * (dt * dt)
  {
    EvalAtZero(p.c0, p.c1, p.c2, p.c3, p.c4);
    EvalAtZero(p.c1, 2.0 * p.c2, 3.0 * p.c3, 4.0 * p.c4, 0.0);
    EvalOfDerivative(p.c1, p.c2, p.c3, p.c4, dt);
    XYOfStates(p.c0, p.c1, p.c2, p.c3, p.c4, dt, v, w);
  }

  lemma QuarticCoefficients(p: Poly, dt: real)
    requires dt != 0.0
    ensures Sampled(p, dt) == Poly(p.c0, p.c1, p.c2 - p.c4 * (dt * dt), p.c3 + 2.0 * p.c4 * dt, 0.0)
  {
    XYOnQuartic(p, dt, p.At(0.0), p.Derivative().At(0.0), p.At(dt), p.Derivative().At(dt));
  }

  lemma PositionError(c0: real, c1: real, c2: real, c3: real, c4: real, k2: real, k3: real, k4: real,
                      dt: real, s: real, r: real)
    requires r == dt - s && k2 == c2 - c4 * (dt * dt) && k3 == c3 + 2.0 * c4 * dt && k4 == 0.0
    ensures Eval(c0, c1, c2, c3, c4, s) - Eval(c0, c1, k2, k3, k4, s) == c4 * (s * s) * (r * r)
  {
  }

  lemma VelocityError(c1: real, c2: real, c3: real, c4: real, k2: real, k3: real, k4: real,
                      dt: real, s: real, r: real)
    requires r == dt - s && k2 == c2 - c4 * (dt * dt) && k3 == c3 + 2.0 * c4 * dt && k4 == 0.0
    ensures Eval(c1, 2.0 * c2, 3.0 * c3, 4.0 * c4, 0.0, s) - Eval(c1, 2.0 * k2, 3.0 * k3, 4.0 * k4, 0.0, s)
         == 2.0 * c4 * s * r * (r - s)
  {
  }

  predicate IsSampled(p: Poly, c: Poly, dt: real) {
    && c.c0 == p.c0
    && c.c1 == p.c1
    && c.c2 == p.c2 - p.c4 * (dt * dt)
    && c.c3 == p.c3 + 2.0 * p.c4 * dt
    && c.c4 == 0.0
  }

  lemma PositionErrorAgainst(p: Poly, c: Poly, dt: real, s: real, r: real)
    requires IsSampled(p, c, dt) && r == dt - s
    ensures p.At(s) - c.At(s) == p.c4 * (s * s) * (r * r)
  {
    PositionError(p.c0, p.c1, p.c2, p.c3, p.c4, c.c2, c.c3, c.c4, dt, s, r);
  }

  lemma VelocityErrorAgainst(p: Poly, c: Poly, dt: real, s: real, r: real)
    requires IsSampled(p, c, dt) && r == dt - s
    ensures p.Derivative().At(s) - c.Derivative().At(s) == 2.0 * p.c4 * s * r * (r - s)
  {
    VelocityError(p.c1, p.c2, p.c3, p.c4, c.c2, c.c3, c.c4, dt, s, r);
  }

  /** The exact error of the interpolated position and velocity on a quartic, s after the
      start of the interval and r before its end. */
  lemma QuarticError(p: Poly, dt: real, s: real, r: real)
    requires dt != 0.0 && r == dt - s
    ensures p.At(s) - Sampled(p, dt).At(s) == p.c4 * (s * s) * (r * r)
    ensures p.Derivative().At(s) - Sampled(p, dt).Derivative().At(s) == 2.0 * p.c4 * s * r * (r - s)
  {
    QuarticCoefficients(p, dt);
    PositionErrorAgainst(p, Sampled(p, dt), dt, s, r);
    VelocityErrorAgainst(p, Sampled(p, dt), dt, s, r);
  }

  lemma ProductBound(s: real, dt: real, u: real)
    requires 0.0 <= s <= dt && u == s * (dt - s)
    ensures 0.0 <= u <= dt * dt / 4.0
  {
    var h := dt / 2.0 - s;
    Square(h);
    assert dt * dt / 4.0 - u == h * h;
  }

  lemma ScaledSquareBound(c: real, u: real, b: real)
    requires 0.0 <= u <= b
    ensures Abs(c * (u * u)) <= Abs(c) * (b * b)
  {
    assert u * u <= b * b;
    Square(u);
  }

  lemma ErrorAsSquare(p: Poly, dt: real, s: real, u: real)
    requires dt != 0.0 && u == s * (dt - s)
    ensures p.At(s) - Sampled(p, dt).At(s) == p.c4 * (u * u)
  {
    QuarticError(p, dt, s, dt - s);
    RegroupSquares(p.c4, s, dt - s, u);
  }

  lemma RegroupSquares(c: real, s: real, r: real, u: real)
    requires u == s * r
    ensures c * (s * s) * (r * r) == c * (u * u)
  {
  }

  /** Within the interval the position error is at most |c4| dt^4 / 16, which is the
      fourth derivative 24 c4 times dt^4 / 384; the midpoint attains it. */
  lemma QuarticErrorBound(p: Poly, dt: real, s: real)
    requires dt > 0.0 && 0.0 <= s <= dt
    ensures Abs(p.At(s) - Sampled(p, dt).At(s)) <= Abs(24.0 * p.c4) * (dt * dt * dt * dt) / 384.0
    ensures Abs(p.At(dt / 2.0) - Sampled(p, dt).At(dt / 2.0)) == Abs(24.0 * p.c4) * (dt * dt * dt * dt) / 384.0
  {
    WithinBound(p, dt, s, s * (dt - s), dt * dt / 4.0);
    WithinBound(p, dt, dt / 2.0, dt * dt / 4.0, dt * dt / 4.0);
  }

  lemma WithinBound(p: Poly, dt: real, s: real, u: real, b: real)
    requires dt > 0.0 && 0.0 <= s <= dt && u == s * (dt - s) && b == dt * dt / 4.0
    ensures Abs(p.At(s) - Sampled(p, dt).At(s)) <= Abs(24.0 * p.c4) * (dt * dt * dt * dt) / 384.0
    ensures u == b ==> Abs(p.At(s) - Sampled(p, dt).At(s)) == Abs(24.0 * p.c4) * (dt * dt * dt * dt) / 384.0
  {
    ErrorAsSquare(p, dt, s, u);
    ProductBound(s, dt, u);
    ScaledSquareBound(p.c4, u, b);
    Square(b);
    AbsOfProduct(p.c4, b * b);
    FourthPower(p.c4, dt, b);
  }

  lemma FourthPower(c: real, dt: real, b: real)
    requires b == dt * dt / 4.0
    ensures Abs(c) * (b * b) == Abs(24.0 * c) * (dt * dt * dt * dt) / 384.0
  {
    assert Abs(24.0 * c) == 24.0 * Abs(c);
    assert b * b == dt * dt * dt * dt / 16.0;
  }

  /** The estimate of 0.0026 times the fourth derivative times dt^4, on which the
      sampling formulas rest, is slightly below
      the true bound: the error respects it exactly where s (dt - s) is small enough, which
      leaves out a neighbourhood of the midpoint. */
  lemma DocumentedConstant(p: Poly, dt: real, s: real, u: real, b: real, f: real)
    requires dt > 0.0 && p.c4 != 0.0 && f == dt * dt * dt * dt
    requires u == s * (dt - s) && b == dt * dt / 4.0
    ensures Abs(p.At(s) - Sampled(p, dt).At(s)) <= 0.0026 * Abs(24.0 * p.c4) * f <==> u * u <= 0.0624 * f
    ensures Abs(p.At(dt / 2.0) - Sampled(p, dt).At(dt / 2.0)) > 0.0026 * Abs(24.0 * p.c4) * f
  {
    RespectsConstant(p, dt, s, u, f);
    RespectsConstant(p, dt, dt / 2.0, b, f);
    FourthIsPositive(dt, b, f);
  }

  lemma RespectsConstant(p: Poly, dt: real, s: real, u: real, f: real)
    requires dt != 0.0 && p.c4 != 0.0 && u == s * (dt - s)
    ensures Abs(p.At(s) - Sampled(p, dt).At(s)) <= 0.0026 * Abs(24.0 * p.c4) * f <==> u * u <= 0.0624 * f
  {
    ErrorAsSquare(p, dt, s, u);
    CompareScaled(p.c4, u, f);
  }

  lemma FourthIsPositive(dt: real, b: real, f: real)
    requires dt > 0.0 && b == dt * dt / 4.0 && f == dt * dt * dt * dt
    ensures b * b == f / 16.0 && f > 0.0
  {
    Square(dt);
    Square(b);
  }

  lemma CompareScaled(c: real, u: real, f: real)
    requires c != 0.0
    ensures Abs(c * (u * u)) <= 0.0026 * Abs(24.0 * c) * f <==> u * u <= 0.0624 * f
  {
    var k, g := Abs(c), 0.0624 * f;
    Square(u);
    AbsOfProduct(c, u * u);
    assert Abs(24.0 * c) == 24.0 * k;
    assert 0.0026 * (24.0 * k) * f == g * k;
    ScaledOrder(u * u, g, k);
  }

  /** The interpolant is the only cubic through the end states: any cubic motion is reproduced. */
  lemma CubicIsReproduced(p: Poly, dt: real)
    requires dt != 0.0 && p.Cubic()
    ensures Sampled(p, dt) == p
  {
    QuarticCoefficients(p, dt);
  }

  /** Any cubic that matches position and velocity at both ends is the interpolant. */
  lemma InterpolantIsUnique(s1: real, v1: real, s2: real, v2: real, dt: real, c: Poly)
    requires dt != 0.0 && c.Cubic()
    ensures (c.At(0.0) == s1 && c.Derivative().At(0.0) == v1 && c.At(dt) == s2 && c.Derivative().At(dt) == v2)
            <==> c == Interpolant(s1, v1, s2, v2, dt)
  {
    MatchesEnds(s1, v1, s2, v2, dt);
    CubicIsReproduced(c, dt);
  }

  /** Position and velocity join without a jump where two intervals meet. */
  lemma IntervalsJoin(s1: real, v1: real, s2: real, v2: real, dt: real, s3: real, v3: real, dt': real)
    requires dt != 0.0 && dt' != 0.0
    ensures Position(s1, v1, s2, v2, dt, dt) == Position(s2, v2, s3, v3, dt', 0.0)
    ensures Velocity(s1, v1, s2, v2, dt, dt) == Velocity(s2, v2, s3, v3, dt', 0.0)
  {
    MatchesEnds(s1, v1, s2, v2, dt);
    MatchesEnds(s2, v2, s3, v3, dt');
    FormulasAreTheInterpolant(s1, v1, s2, v2, dt, dt);
    FormulasAreTheInterpolant(s2, v2, s3, v3, dt', 0.0);
  }

  /** The accelerations written at the two ends are those of the interpolant; on a quartic
      both fall short of the true ones by 2 c4 dt^2. */
  lemma EndAccelerations(p: Poly, dt: real)
    requires dt != 0.0
    ensures var x := X(p.At(0.0), p.Derivative().At(0.0), p.At(dt), p.Derivative().At(dt), dt);
            var y := Y(p.At(0.0), p.Derivative().At(0.0), p.At(dt), p.Derivative().At(dt), dt);
            var true'' := p.Derivative().Derivative();
            var cubic'' := Sampled(p, dt).Derivative().Derivative();
            && y == cubic''.At(0.0) == true''.At(0.0) - 2.0 * p.c4 * (dt * dt)
            && y - 2.0 * x * dt == cubic''.At(dt) == true''.At(dt) - 2.0 * p.c4 * (dt * dt)
  {
    QuarticCoefficients(p, dt);
  }

  // ---------------------------------------------------------------------------
  // Absolute times
  // ---------------------------------------------------------------------------

  /** The polynomial p of absolute time, as a polynomial of the time since t1. */
  function Shift(p: Poly, t1: real): Poly {
    Poly(p.At(t1), p.Derivative().At(t1),
         p.c2 + 3.0 * p.c3 * t1 + 6.0 * p.c4 * (t1 * t1),
         p.c3 + 4.0 * p.c4 * t1,
         p.c4)
  }

  lemma EvalOfSum(c0: real, c1: real, c2: real, c3: real, c4: real, t: real, s: real, u: real,
                  q0: real, q1: real, q2: real, q3: real)
    requires u == t + s
    requires q0 == Eval(c0, c1, c2, c3, c4, t) && q1 == Eval(c1, 2.0 * c2, 3.0 * c3, 4.0 * c4, 0.0, t)
    requires q2 == c2 + 3.0 * c3 * t + 6.0 * c4 * (t * t) && q3 == c3 + 4.0 * c4 * t
    ensures Eval(q0, q1, q2, q3, c4, s) == Eval(c0, c1, c2, c3, c4, u)
  {
  }

  lemma DerivativeOfSum(c1: real, c2: real, c3: real, c4: real, t: real, s: real, u: real,
                        q1: real, q2: real, q3: real)
    requires u == t + s && q1 == Eval(c1, 2.0 * c2, 3.0 * c3, 4.0 * c4, 0.0, t)
    requires q2 == c2 + 3.0 * c3 * t + 6.0 * c4 * (t * t) && q3 == c3 + 4.0 * c4 * t
    ensures Eval(q1, 2.0 * q2, 3.0 * q3, 4.0 * c4, 0.0, s) == Eval(c1, 2.0 * c2, 3.0 * c3, 4.0 * c4, 0.0, u)
  {
    EvalOfSum(c1, 2.0 * c2, 3.0 * c3, 4.0 * c4, 0.0, t, s, u, q1, 2.0 * q2, 3.0 * q3, 4.0 * c4);
  }

  lemma ShiftIsTheSameMotion(p: Poly, t1: real, s: real)
    ensures Shift(p, t1).At(s) == p.At(t1 + s)
    ensures Shift(p, t1).Derivative().At(s) == p.Derivative().At(t1 + s)
  {
    var q := Shift(p, t1);
    EvalOfSum(p.c0, p.c1, p.c2, p.c3, p.c4, t1, s, t1 + s, q.c0, q.c1, q.c2, q.c3);
    DerivativeOfSum(p.c1, p.c2, p.c3, p.c4, t1, s, t1 + s, q.c1, q.c2, q.c3);
  }

  /** spkez_intfc::call_data, as far as interpolation is concerned: positions in
      0..3 and velocities in 3..6 of the states at the ends of the interval. */
  class CallData {
    var itime: real
    var ftime: real
    var iresult: array<real>
    var fresult: array<real>

    constructor (itime: real, iresult: array<real>, ftime: real, fresult: array<real>)
      ensures this.itime == itime && this.iresult == iresult && this.ftime == ftime && this.fresult == fresult
    {
      this.itime, this.iresult, this.ftime, this.fresult := itime, iresult, ftime, fresult;
    }

    ghost predicate Ready()
      reads this
    {
      iresult.Length == 6 && fresult.Length == 6 && itime != ftime
    }

    method Interpolate(t: real, state: array<real>)
      requires Ready() && state.Length == 6 && state != iresult && state != fresult
      modifies state
      ensures forall k :: 0 <= k < 3 ==>
                && state[k] == Position(iresult[k], iresult[3 + k], fresult[k], fresult[3 + k],
                                        ftime - itime, t - itime)
                && state[3 + k] == Velocity(iresult[k], iresult[3 + k], fresult[k], fresult[3 + k],
                                            ftime - itime, t - itime)
    {
      var tMT1 := t - itime;
      var deltaT := ftime - itime;
      for k := 0 to 3
        invariant forall j :: 0 <= j < k ==>
                    && state[j] == Position(iresult[j], iresult[3 + j], fresult[j], fresult[3 + j], deltaT, tMT1)
                    && state[3 + j] == Velocity(iresult[j], iresult[3 + j], fresult[j], fresult[3 + j], deltaT, tMT1)
      {
        var vk := 3 + k;
        var x := X(iresult[k], iresult[vk], fresult[k], fresult[vk], deltaT);
        var y := Y(iresult[k], iresult[vk], fresult[k], fresult[vk], deltaT);
        state[vk] := VelocityFrom(iresult[vk], x, y, tMT1);
        state[k] := PositionFrom(iresult[k], iresult[vk], x, y, tMT1);
      }
    }
  }

  /** Interpolating exact states of p is interpolating its shifted copy. */
  lemma InterpolateShifted(p: Poly, t1: real, t2: real, t: real, s: real)
    requires t1 != t2 && s == t - t1
    ensures p.At(t) == Shift(p, t1).At(s) && p.Derivative().At(t) == Shift(p, t1).Derivative().At(s)
    ensures Position(p.At(t1), p.Derivative().At(t1), p.At(t2), p.Derivative().At(t2), t2 - t1, s)
            == Sampled(Shift(p, t1), t2 - t1).At(s)
    ensures Velocity(p.At(t1), p.Derivative().At(t1), p.At(t2), p.Derivative().At(t2), t2 - t1, s)
            == Sampled(Shift(p, t1), t2 - t1).Derivative().At(s)
  {
    var q, dt := Shift(p, t1), t2 - t1;
    ShiftIsTheSameMotion(p, t1, 0.0);
    ShiftIsTheSameMotion(p, t1, dt);
    ShiftIsTheSameMotion(p, t1, s);
    assert t1 + 0.0 == t1 && t1 + dt == t2 && t1 + s == t;
    FormulasAreTheInterpolant(q.At(0.0), q.Derivative().At(0.0), q.At(dt), q.Derivative().At(dt), dt, s);
  }

  lemma QuarticErrorBy(q: Poly, c: real, dt: real, s: real, r: real)
    requires dt != 0.0 && r == dt - s && c == q.c4
    ensures q.At(s) - Sampled(q, dt).At(s) == c * (s * s) * (r * r)
    ensures q.Derivative().At(s) - Sampled(q, dt).Derivative().At(s) == 2.0 * c * s * r * (r - s)
  {
    QuarticError(q.(c4 := c), dt, s, r);
  }

  /** The error of interpolation between exact states, at times t1 and t2, of a motion that is
      a quartic of absolute time with leading coefficient c: s after t1 and r before t2. */
  lemma InterpolationError(p: Poly, c: real, t1: real, t2: real, t: real, s: real, r: real)
    requires t1 != t2 && s == t - t1 && r == t2 - t && c == p.c4
    ensures p.At(t) - Position(p.At(t1), p.Derivative().At(t1), p.At(t2), p.Derivative().At(t2), t2 - t1, s)
            == c * (s * s) * (r * r)
    ensures p.Derivative().At(t)
            - Velocity(p.At(t1), p.Derivative().At(t1), p.At(t2), p.Derivative().At(t2), t2 - t1, s)
            == 2.0 * c * s * r * (r - s)
  {
    InterpolateShifted(p, t1, t2, t, s);
    QuarticErrorBy(Shift(p, t1), c, t2 - t1, s, r);
  }
}
