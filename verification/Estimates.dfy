/** The estimate of an interpolation error and the state it remembers (compute_abs_err_sec_4th). The
    formulas for errors and intervals are arguments; which states they are given is modelled. */
module Estimates {
  import opened Influencers
  import opened Options
  import opened RealFacts
  import opened Runs
  import opened Steps

  /** The state of a light body relative to a heavy one at some time, None where spkez throws; the
      error for a heavy body, a state and the square of the acceleration; the milliseconds until the
      look-ahead; the encoding of errors; and the end of the plan. */
  datatype Formulas = Formulas(
    state: (int, int, int) -> Option<State>,
    error: (int, State, real) -> real,
    interval: (real, State) -> int,
    encode: real -> int,
    planEnd: int)

  function Part(v: real, before: real, dt: real): real
    requires dt != 0.0
  {
    (v - before) / dt * ((v - before) / dt)
  }

  /** The square of the mean acceleration since the remembered time, zero without a memory. */
  function Acceleration2(s: State, t: int, p: Option<(int, State)>): real {
    match p
    case None => 0.0
    case Some((before, r)) =>
      if before >= t then 0.0
      else
        var dt := Seconds(t - before);
        Part(s.vx, r.vx, dt) + Part(s.vy, r.vy, dt) + Part(s.vz, r.vz, dt)
  }

  function LookAhead(f: Formulas, heavy: int, t: int, now: State, a2: real): int {
    t + f.interval(f.error(heavy, now, a2), now)
  }

  /** The larger of the errors now and at the look-ahead counts, if that is before the end of the plan,
      and its state is remembered. */
  function Estimate(f: Formulas, light: int, heavy: int, t: int, p: Option<(int, State)>): Option<(int, State)> {
    match f.state(light, heavy, t)
    case None => None
    case Some(now) =>
      var a2 := Acceleration2(now, t, p);
      var e := f.error(heavy, now, a2);
      var newTime := LookAhead(f, heavy, t, now, a2);
      if newTime >= f.planEnd then Some((f.encode(e), now))
      else match f.state(light, heavy, newTime)
        case None => None
        case Some(later) =>
          var newError := f.error(heavy, later, a2);
          if newError > e then Some((f.encode(newError), later)) else Some((f.encode(e), now))
  }

  /** There is no estimate exactly if the state now is missing, or that at a look-ahead within the plan. */
  lemma EstimateMissingExactlyWhen(f: Formulas, light: int, heavy: int, t: int, p: Option<(int, State)>)
    ensures Estimate(f, light, heavy, t, p) == None <==>
            f.state(light, heavy, t) == None
            || (var now := f.state(light, heavy, t).value;
                var newTime := LookAhead(f, heavy, t, now, Acceleration2(now, t, p));
                newTime < f.planEnd && f.state(light, heavy, newTime) == None)
  {
  }

  /** The remembered state is that of the time it is remembered with exactly if there is no look-ahead
      within the plan, or its error is not larger, or the state is the same there. */
  lemma RemembersNowExactlyWhen(f: Formulas, light: int, heavy: int, t: int, p: Option<(int, State)>, now: State)
    requires f.state(light, heavy, t) == Some(now) && Estimate(f, light, heavy, t, p).Some?
    ensures Estimate(f, light, heavy, t, p).value.1 == now <==>
            var a2 := Acceleration2(now, t, p);
            var newTime := LookAhead(f, heavy, t, now, a2);
            || newTime >= f.planEnd
            || f.state(light, heavy, newTime) == Some(now)
            || f.error(heavy, f.state(light, heavy, newTime).value, a2) <= f.error(heavy, now, a2)
  {
  }

  /** The key is the encoded error of the remembered state, which is that of now or of a look-ahead before
      the end of the plan, and neither has a larger error. */
  lemma KeyIsOfLargerError(f: Formulas, light: int, heavy: int, t: int, p: Option<(int, State)>, now: State,
                           a2: real, newTime: int, key: int, kept: State)
    requires f.state(light, heavy, t) == Some(now) && Estimate(f, light, heavy, t, p) == Some((key, kept))
    requires a2 == Acceleration2(now, t, p) && newTime == t + f.interval(f.error(heavy, now, a2), now)
    ensures key == f.encode(f.error(heavy, kept, a2))
    ensures f.error(heavy, now, a2) <= f.error(heavy, kept, a2)
    ensures newTime < f.planEnd ==>
              && f.state(light, heavy, newTime).Some?
              && f.error(heavy, f.state(light, heavy, newTime).value, a2) <= f.error(heavy, kept, a2)
    ensures kept == now || (newTime < f.planEnd && f.state(light, heavy, newTime) == Some(kept))
  {
  }

  /** With an encoding that keeps the order of errors the key is thus the larger of the two encodings. */
  lemma KeyIsLarger(f: Formulas, light: int, heavy: int, t: int, p: Option<(int, State)>, now: State, later: State,
                    a2: real, newTime: int)
    requires forall d, e :: d <= e ==> f.encode(d) <= f.encode(e)
    requires f.state(light, heavy, t) == Some(now) && f.state(light, heavy, newTime) == Some(later)
    requires a2 == Acceleration2(now, t, p) && newTime == t + f.interval(f.error(heavy, now, a2), now) < f.planEnd
    ensures Estimate(f, light, heavy, t, p).Some?
    ensures var key, k, k' := Estimate(f, light, heavy, t, p).value.0, f.encode(f.error(heavy, now, a2)),
                              f.encode(f.error(heavy, later, a2));
            key == if k' > k then k' else k
  {
    assert f.encode(f.error(heavy, now, a2)) <= f.encode(f.error(heavy, later, a2))
        || f.encode(f.error(heavy, later, a2)) <= f.encode(f.error(heavy, now, a2));
  }

  // ---------------------------------------------------------------------------
  // The formulas of the source
  // ---------------------------------------------------------------------------

  /** The error per second to the fourth power, for a mass parameter, a distance, the square of a velocity and an
      acceleration. */
  function MotionError(gm: real, r: real, v2: real, a: real): real
    requires r > 0.0
  {
    Square(r);
    gm * (0.0624 * v2 / (r * r) + 0.0052 * a / r) / (r * r)
  }

  /** The bounds on the fourth derivative of a position under gravity that the source gives for motion across and
      towards a body. */
  function FourthDerivative(gm: real, r: real, v2: real, a: real): real
    requires r > 0.0
  {
    PositivePow4(r);
    24.0 * gm * v2 / Pow4(r) + 2.0 * gm * a / (r * r * r)
  }

  lemma Cube(r: real)
    requires r > 0.0
    ensures r * r > 0.0 && r * r * r > 0.0 && Pow4(r) > 0.0
  {
    Square(r);
    ZeroProduct(r * r, r);
    PositivePow4(r);
  }

  lemma AcrossTerm(gm: real, r: real, v2: real, k: real, q: real, t: real)
    requires r > 0.0 && k == r * r && k > 0.0 && k * q == v2 && Pow4(r) * t == 24.0 * gm * v2
    ensures k * t == 24.0 * (gm * q)
  {
    assert Pow4(r) * t == (k * t) * k && 24.0 * gm * v2 == (24.0 * (gm * q)) * k;
    CancelFactor(k * t, 24.0 * (gm * q), k);
  }

  lemma TowardsTerm(gm: real, r: real, a: real, k: real, q: real, t: real)
    requires r > 0.0 && k == r * r && r * q == a && r * r * r * t == 2.0 * gm * a
    ensures k * t == 2.0 * (gm * q)
  {
    assert r * r * r * t == (k * t) * r && 2.0 * gm * a == (2.0 * (gm * q)) * r;
    CancelFactor(k * t, 2.0 * (gm * q), r);
  }

  lemma ScaledTerms(gm: real, k: real, across: real, towards: real, t: real, u: real, e: real)
    requires k > 0.0 && k * t == 24.0 * (gm * across) && k * u == 2.0 * (gm * towards)
    requires k * e == gm * (0.0624 * across + 0.0052 * towards)
    ensures e == 0.0026 * (t + u)
  {
    assert k * e == 0.0624 * (gm * across) + 0.0052 * (gm * towards);
    assert (0.0026 * (t + u)) * k == 0.0026 * (k * t) + 0.0026 * (k * u);
    CancelFactor(e, 0.0026 * (t + u), k);
  }

  lemma MovedFactor(c: real, n: real, k: real)
    requires k > 0.0
    ensures c * n / k == c * (n / k)
  {
    Quotient(n, k);
    QuotientIs(c * n, k, c * (n / k));
  }

  /** The error is 0.0026 times those bounds. The exact constant is 1/384 for motion of the fourth degree, so that
      the largest error within an interval can be larger than the estimate by one part in 624. */
  lemma ErrorOfMotion(gm: real, r: real, v2: real, a: real)
    requires r > 0.0
    ensures MotionError(gm, r, v2, a) == 0.0026 * FourthDerivative(gm, r, v2, a)
    ensures FourthDerivative(gm, r, v2, a) / 384.0 == MotionError(gm, r, v2, a) * (625.0 / 624.0)
  {
    Cube(r);
    var k := r * r;
    var across, towards := v2 / k, a / r;
    var t, u := 24.0 * gm * v2 / Pow4(r), 2.0 * gm * a / (r * r * r);
    var e := MotionError(gm, r, v2, a);
    Quotient(v2, k);
    Quotient(a, r);
    Quotient(24.0 * gm * v2, Pow4(r));
    Quotient(2.0 * gm * a, r * r * r);
    AcrossTerm(gm, r, v2, k, across, t);
    TowardsTerm(gm, r, a, k, towards, u);
    MovedFactor(0.0624, v2, k);
    MovedFactor(0.0052, a, r);
    Quotient(gm * (0.0624 * across + 0.0052 * towards), k);
    ScaledTerms(gm, k, across, towards, t, u, e);
  }

  /** The look-ahead in milliseconds, for an error at a distance r. */
  function LookAheadMillis(w: World, error: real, r: real): int
    requires IsWorld(w) && error > 0.0 && r > 0.0
  {
    PositiveQuotient(error, r);
    PositiveQuotient(w.relError, error / r);
    Milliseconds(w.root(w.relError / (error / r)))
  }

  /** It looks ahead to where the error now would be what was asked for, in a frame that does not rotate. */
  lemma LooksAheadToError(w: World, error: real, r: real, m: int)
    requires IsWorld(w) && error > 0.0 && r > 0.0 && m >= 1
    ensures LookAheadMillis(w, error, r) >= m <==> ErrorAfter(error, 0.0, r, Seconds(m) - 0.0005) <= w.relError
  {
    var rate, d := Rate(error, 0.0, r), Seconds(m) - 0.0005;
    RootOfQuotient(w, rate);
    ReachesMillis(w.root(w.relError / rate), m);
    ErrorOfRate(error, 0.0, r, d, rate, ErrorAfter(error, 0.0, r, d));
    PrecisionOfInterval(w, rate, w.root(w.relError / rate), d);
  }

  // ---------------------------------------------------------------------------
  // A velocity of another time
  // ---------------------------------------------------------------------------

  /** A motion with constant acceleration, given by the velocity at time zero. */
  predicate Accelerated(s: State, v: State, a: State, t: int) {
    && s.vx == v.vx + a.vx * Seconds(t) && s.vy == v.vy + a.vy * Seconds(t) && s.vz == v.vz + a.vz * Seconds(t)
  }

  lemma SquaresOfProducts(n: real, q: real, dt: real, a: real, span: real)
    requires n == dt * q && n == a * span
    ensures q * q * (dt * dt) == (a * a) * (span * span)
  {
    assert q * q * (dt * dt) == n * n && (a * a) * (span * span) == n * n;
  }

  lemma Spans(a: real, v: real, vs: real, vr: real, t: int, u: int)
    requires vs == v + a * Seconds(t) && vr == v + a * Seconds(u)
    ensures vs - vr == a * Seconds(t - u)
  {
  }

  lemma PartOf(v: real, before: real, a: real, span: real, dt: real, a2: real, span2: real, dt2: real)
    requires dt != 0.0 && v - before == a * span
    requires a2 == a * a && span2 == span * span && dt2 == dt * dt
    ensures Part(v, before, dt) * dt2 == a2 * span2
  {
    Quotient(v - before, dt);
    SquaresOfProducts(v - before, (v - before) / dt, dt, a, span);
  }

  lemma SumOfParts(px: real, py: real, pz: real, ax: real, ay: real, az: real, span2: real, dt2: real)
    requires px * dt2 == ax * span2 && py * dt2 == ay * span2 && pz * dt2 == az * span2
    ensures (px + py + pz) * dt2 == (ax + ay + az) * span2
  {
  }

  /** The share of one coordinate in the square of the acceleration. */
  lemma Share(a: real, v: real, vs: real, vr: real, t: int, u: int, span: real, dt: real, a2: real, span2: real,
              dt2: real)
    requires vs == v + a * Seconds(t) && vr == v + a * Seconds(u) && span == Seconds(t - u)
    requires dt != 0.0 && a2 == a * a && span2 == span * span && dt2 == dt * dt
    ensures Part(vs, vr, dt) * dt2 == a2 * span2
  {
    Spans(a, v, vs, vr, t, u);
    PartOf(vs, vr, a, span, dt, a2, span2, dt2);
  }

  lemma AccelerationOfParts(s: State, r: State, t: int, before: int, dt: real)
    requires before < t && dt == Seconds(t - before)
    ensures dt > 0.0
    ensures Acceleration2(s, t, Some((before, r)))
         == Part(s.vx, r.vx, dt) + Part(s.vy, r.vy, dt) + Part(s.vz, r.vz, dt)
  {
  }

  /** What is computed from the velocity of time u, remembered with time before, is the square of the
      acceleration times that of (t - u) / (t - before). */
  lemma AccelerationFromOtherTime(s: State, r: State, v: State, a: State, t: int, before: int, u: int,
                                  dt: real, span: real, dt2: real, span2: real, a2: real)
    requires before < t && Accelerated(s, v, a, t) && Accelerated(r, v, a, u)
    requires dt == Seconds(t - before) && span == Seconds(t - u) && dt2 == dt * dt && span2 == span * span
    requires a2 == a.vx * a.vx + a.vy * a.vy + a.vz * a.vz
    ensures Acceleration2(s, t, Some((before, r))) * dt2 == a2 * span2
  {
    var ax2, ay2, az2 := a.vx * a.vx, a.vy * a.vy, a.vz * a.vz;
    AccelerationOfParts(s, r, t, before, dt);
    Share(a.vx, v.vx, s.vx, r.vx, t, u, span, dt, ax2, span2, dt2);
    Share(a.vy, v.vy, s.vy, r.vy, t, u, span, dt, ay2, span2, dt2);
    Share(a.vz, v.vz, s.vz, r.vz, t, u, span, dt, az2, span2, dt2);
    SumOfParts(Part(s.vx, r.vx, dt), Part(s.vy, r.vy, dt), Part(s.vz, r.vz, dt), ax2, ay2, az2, span2, dt2);
  }

  // ---------------------------------------------------------------------------
  // Bounded velocities
  // ---------------------------------------------------------------------------

  predicate Slow(s: State, v: real) {
    -v <= s.vx <= v && -v <= s.vy <= v && -v <= s.vz <= v
  }

  lemma FactorWithin(n: real, q: real, dt: real, bound: real)
    requires n == dt * q && dt >= 0.001 && 0.0 <= bound && n <= bound
    ensures q <= 1000.0 * bound
  {
    if q > 0.0 {
      assert (dt - 0.001) * q >= 0.0;
    }
  }

  lemma SmallQuotient(n: real, dt: real, bound: real)
    requires dt >= 0.001 && bound >= 0.0 && -bound <= n <= bound
    ensures -1000.0 * bound <= n / dt <= 1000.0 * bound
  {
    var q := n / dt;
    Quotient(n, dt);
    FactorWithin(n, q, dt, bound);
    assert -n == dt * -q;
    FactorWithin(-n, -q, dt, bound);
  }

  lemma SmallSquare(q: real, bound: real)
    requires -bound <= q <= bound
    ensures 0.0 <= q * q <= bound * bound
  {
    Square(q);
    assert bound * bound - q * q == (bound - q) * (bound + q);
  }

  lemma SmallPart(a: real, b: real, v: real, dt: real)
    requires dt >= 0.001 && -v <= a <= v && -v <= b <= v
    ensures 0.0 <= Part(a, b, dt) <= 4000000.0 * (v * v)
  {
    SmallQuotient(a - b, dt, 2.0 * v);
    SmallSquare((a - b) / dt, 2000.0 * v);
    assert (2000.0 * v) * (2000.0 * v) == 4000000.0 * (v * v);
  }

  lemma SmallAcceleration(s: State, t: int, p: Option<(int, State)>, v: real)
    requires v >= 0.0 && Slow(s, v) && (p.Some? ==> Slow(p.value.1, v))
    ensures 0.0 <= Acceleration2(s, t, p) <= 12000000.0 * (v * v)
  {
    Square(v);
    if p.Some? && p.value.0 < t {
      var r, dt := p.value.1, Seconds(t - p.value.0);
      SmallPart(s.vx, r.vx, v, dt);
      SmallPart(s.vy, r.vy, v, dt);
      SmallPart(s.vz, r.vz, v, dt);
    }
  }

  /** Within the plan the states of the pairs are known and no faster than v. */
  ghost predicate SlowStates(f: Formulas, pairs: set<(int, int)>, t: int, v: real) {
    forall i, j, u :: (i, j) in pairs && t <= u < f.planEnd ==>
      f.state(i, j, u).Some? && Slow(f.state(i, j, u).value, v)
  }

  /** No error of such a state exceeds the key, for any acceleration between such states. */
  ghost predicate ErrorsWithin(f: Formulas, pairs: set<(int, int)>, t: int, v: real, key: int) {
    forall i, j, u, a2 ::
      (i, j) in pairs && t <= u < f.planEnd && f.state(i, j, u).Some? && 0.0 <= a2 <= 12000000.0 * (v * v) ==>
        f.encode(f.error(j, f.state(i, j, u).value, a2)) <= key
  }

  lemma SlowState(f: Formulas, pairs: set<(int, int)>, t: int, v: real, key: int, i: int, j: int, u: int, a2: real)
    requires SlowStates(f, pairs, t, v) && ErrorsWithin(f, pairs, t, v, key)
    requires (i, j) in pairs && t <= u < f.planEnd && 0.0 <= a2 <= 12000000.0 * (v * v)
    ensures f.state(i, j, u).Some? && Slow(f.state(i, j, u).value, v)
    ensures f.encode(f.error(j, f.state(i, j, u).value, a2)) <= key
  {
    assert f.state(i, j, u).Some?;
  }

  ghost predicate LooksAhead(f: Formulas) {
    forall e: real, s: State :: f.interval(e, s) >= 0
  }

  lemma AheadIsLater(f: Formulas, heavy: int, t: int, now: State, a2: real)
    requires LooksAhead(f)
    ensures LookAhead(f, heavy, t, now, a2) >= t
  {
    var e := f.error(heavy, now, a2);
    assert f.interval(e, now) >= 0;
  }

  lemma SlowEstimate(f: Formulas, pairs: set<(int, int)>, t: int, v: real, key: int, i: int, j: int, u: int,
                     p: Option<(int, State)>)
    requires LooksAhead(f)
    requires v >= 0.0 && SlowStates(f, pairs, t, v) && ErrorsWithin(f, pairs, t, v, key)
    requires (i, j) in pairs && t <= u < f.planEnd && (p.Some? ==> Slow(p.value.1, v))
    ensures var e := Estimate(f, i, j, u, p); e.Some? && e.value.0 <= key && Slow(e.value.1, v)
  {
    Square(v);
    SlowState(f, pairs, t, v, key, i, j, u, 0.0);
    var now := f.state(i, j, u).value;
    var a2 := Acceleration2(now, u, p);
    SmallAcceleration(now, u, p, v);
    SlowState(f, pairs, t, v, key, i, j, u, a2);
    var newTime := LookAhead(f, j, u, now, a2);
    AheadIsLater(f, j, u, now, a2);
    if newTime < f.planEnd {
      SlowState(f, pairs, t, v, key, i, j, newTime, a2);
    }
  }

  /** So the estimates stay good in the sense that runs need to complete, where slow states are good. */
  lemma SlowEstimatesStayGood(f: Formulas, w: World, bs: Bounds, t: int, v: real)
    requires forall i, j, u, p :: w.estimate(i, j, u, p) == Estimate(f, i, j, u, p)
    requires LooksAhead(f)
    requires v >= 0.0 && SlowStates(f, bs.pairs, t, v) && ErrorsWithin(f, bs.pairs, t, v, bs.key)
    requires forall i, j, u, s :: bs.good(i, j, u, s) <==> Slow(s, v)
    ensures EstimatesStayGood(w, bs, t, f.planEnd)
  {
    forall i, j, u, p | (i, j) in bs.pairs && t <= u < f.planEnd && GoodMemory(bs, i, j, u, p)
      ensures GoodEstimate(bs, i, j, u, w.estimate(i, j, u, p))
    {
      assert p.Some? ==> Slow(p.value.1, v);
      SlowEstimate(f, bs.pairs, t, v, bs.key, i, j, u, p);
    }
  }
}
