/** The step size of the ephemeris sampler and the sequence of its steps.
    Times are integer milliseconds, durations in seconds are real numbers. */
module Steps {
  import opened Influencers
  import opened Options
  import opened RealFacts

  /** The arguments of a spkez call. */
  datatype Args = Args(target: int, frame: string, abcorr: string, observer: int)

  /** The ephemeris; None where spkez throws. */
  type Ephemeris = (Args, int) -> Option<State>

  /** What the sampler gets from outside: the ephemeris, the error estimates and
      the functions of the mathematical library, and the precision that is asked for. */
  datatype World = World(
    eph: Ephemeris,
    estimate: Estimator,
    radius: State -> real,
    decode: int -> real,
    root: real -> real,
    relError: real)

  function Pow4(x: real): real {
    x * x * x * x
  }

  /** radius is the length of the position, decode the exponential that undoes the encoding of
      errors, and root the fourth root. */
  ghost predicate IsWorld(w: World) {
    && w.relError > 0.0
    && (forall s :: w.radius(s) >= 0.0 && w.radius(s) * w.radius(s) == s.x * s.x + s.y * s.y + s.z * s.z)
    && (forall k :: w.decode(k) > 0.0)
    && (forall j, k :: j <= k ==> w.decode(j) <= w.decode(k))
    && (forall x :: x > 0.0 ==> w.root(x) > 0.0 && Pow4(w.root(x)) == x)
  }

  /** A body and what is known of its influencers. */
  datatype Body = Body(id: int, data: seq<Datum>)

  function UpdatedBody(w: World, b: Body, t: int): Body {
    b.(data := Updated(w.estimate, b.id, b.data, t))
  }

  function UpdatedIfAny(w: World, b: Option<Body>, t: int): Option<Body> {
    match b
    case None => None
    case Some(body) => Some(UpdatedBody(w, body, t))
  }

  predicate IsReset(light: Body, relative: Option<Body>) {
    light.data == AsReset(light.data) && (relative.Some? ==> relative.value.data == AsReset(relative.value.data))
  }

  /** No influencer was evaluated after t. */
  predicate ReadyAt(light: Body, relative: Option<Body>, t: int) {
    NotAhead(light.data, t) && (relative.Some? ==> NotAhead(relative.value.data, t))
  }

  // ---------------------------------------------------------------------------
  // The size of one step
  // ---------------------------------------------------------------------------

  lemma PositiveQuotient(a: real, b: real)
    requires a > 0.0 && b > 0.0
    ensures a / b > 0.0
  {
    Quotient(a, b);
    ScaledOrder(a / b, 0.0, b);
  }

  lemma PositivePow4(x: real)
    requires x > 0.0
    ensures Pow4(x) > 0.0
  {
    Square(x);
    Square(x * x);
    assert Pow4(x) == (x * x) * (x * x);
  }

  /** The decoded estimates of both bodies. */
  function DecodedError(w: World, light: Body, relative: Option<Body>): (e: real)
    requires IsWorld(w)
    ensures e > 0.0
  {
    w.decode(MaxKey(light.data)) + if relative.None? then 0.0 else w.decode(MaxKey(relative.value.data))
  }

  /** The term for a frame that rotates; the period is in hours and negative for an inertial frame. */
  function FrameError(period: real): (e: real)
    ensures e >= 0.0
  {
    if period > 0.000000000000001 then
      PositivePow4(3600.0 * period);
      PositiveQuotient(4.05, Pow4(3600.0 * period));
      4.05 / Pow4(3600.0 * period)
    else 0.0
  }

  /** The relative interpolation error per second to the fourth power, for a distance r. */
  function Rate(decoded: real, period: real, r: real): (e: real)
    requires decoded > 0.0 && r > 0.0
    ensures e > 0.0
  {
    PositiveQuotient(decoded, r);
    decoded / r + FrameError(period)
  }

  /** The relative error d seconds after a sample, for bodies at a distance r and an error per second to
      the fourth power; a frame that rotates adds to it, with a period in hours. */
  function ErrorAfter(error: real, period: real, r: real, d: real): real
    requires r > 0.0
  {
    if period > 0.000000000000001 then Pow4(d) * error / r + 4.05 * Pow4(d / (3600.0 * period))
    else Pow4(d) * error / r
  }

  lemma Pow4OfProduct(q: real, n: real, d: real)
    requires d == n * q
    ensures Pow4(d) == Pow4(n) * Pow4(q)
  {
    assert d * d == (n * n) * (q * q);
    assert Pow4(d) == (d * d) * (d * d) && Pow4(n) == (n * n) * (n * n) && Pow4(q) == (q * q) * (q * q);
  }

  lemma FrameTerm(n: real, d: real)
    requires n > 0.0
    ensures Pow4(n) > 0.0 && 4.05 * Pow4(d / n) == Pow4(d) * (4.05 / Pow4(n))
  {
    PositivePow4(n);
    Quotient(d, n);
    Quotient(4.05, Pow4(n));
    Pow4OfProduct(d / n, n, d);
    Regroup(4.05, Pow4(n), Pow4(d / n), 4.05 / Pow4(n), Pow4(d));
  }

  lemma Regroup(a: real, n: real, q: real, f: real, d: real)
    requires a == n * f && d == n * q
    ensures a * q == d * f
  {
  }

  lemma TermOfBodies(p: real, error: real, r: real)
    requires r > 0.0
    ensures p * error / r == p * (error / r)
  {
    Quotient(error, r);
    QuotientIs(p * error, r, p * (error / r));
  }

  /** It grows with the fourth power of the time. */
  lemma ErrorAtRate(error: real, period: real, r: real, d: real)
    requires r > 0.0
    ensures ErrorAfter(error, period, r, d) == Pow4(d) * (error / r + FrameError(period))
  {
    TermOfBodies(Pow4(d), error, r);
    if period > 0.000000000000001 {
      FrameTerm(3600.0 * period, d);
    }
  }

  function AtRate(rate: real, d: real): real {
    Pow4(d) * rate
  }

  lemma ErrorOfRate(error: real, period: real, r: real, d: real, rate: real, after: real)
    requires error > 0.0 && r > 0.0 && rate == Rate(error, period, r) && after == ErrorAfter(error, period, r, d)
    ensures after == AtRate(rate, d)
  {
    ErrorAtRate(error, period, r, d);
  }

  const LONGEST := 30000000.0

  function Capped(s: real): real {
    if s > LONGEST then LONGEST else s
  }

  /** The sampling interval in seconds before it is cut to milliseconds. For two bodies at the
      same place the quotient is infinite and the interval zero. */
  function Interval(w: World, decoded: real, period: real, r: real): (s: real)
    requires IsWorld(w) && decoded > 0.0 && r >= 0.0
    ensures s >= 0.0
  {
    if r == 0.0 then 0.0
    else
      PositiveQuotient(w.relError, Rate(decoded, period, r));
      Capped(w.root(w.relError / Rate(decoded, period, r)))
  }

  function SamplingSeconds(w: World, light: Body, relative: Option<Body>, period: real, r: real): (s: real)
    requires IsWorld(w) && r >= 0.0
    ensures s >= 0.0
  {
    Interval(w, DecodedError(w, light, relative), period, r)
  }

  /** The conversion of a duration to milliseconds: whole seconds, and the fraction to the nearest
      millisecond, which may be a whole second again. */
  function Milliseconds(s: real): int {
    var seconds := s.Floor;
    var millis := (0.5 + 1000.0 * (s - seconds as real)).Floor;
    if millis == 1000 then 1000 * (seconds + 1) else 1000 * seconds + millis
  }

  lemma RoundsToNearest(s: real)
    ensures 1000.0 * s - 0.5 < Milliseconds(s) as real <= 1000.0 * s + 0.5
    ensures s >= 0.0 ==> Milliseconds(s) >= 0
  {
  }

  lemma ReachesMillis(s: real, m: int)
    ensures Milliseconds(s) >= m <==> 1000.0 * s + 0.5 >= m as real
  {
    RoundsToNearest(s);
  }

  /** The end of a step of s seconds. */
  function StepEnd(now: int, s: real, planEnd: int): int {
    if now + Milliseconds(s) > planEnd then planEnd else now + Milliseconds(s)
  }

  function Seconds(millis: int): real {
    millis as real / 1000.0
  }

  lemma SquareGrows(a: real, b: real)
    requires 0.0 <= a < b
    ensures a * a < b * b
  {
    ZeroProduct(b - a, b + a);
    assert b * b - a * a == (b - a) * (b + a);
  }

  lemma Pow4Grows(a: real, b: real)
    requires 0.0 <= a < b
    ensures Pow4(a) < Pow4(b)
  {
    SquareGrows(a, b);
    Square(a);
    SquareGrows(a * a, b * b);
    assert Pow4(a) == (a * a) * (a * a) && Pow4(b) == (b * b) * (b * b);
  }

  lemma Pow4Order(a: real, b: real)
    requires a >= 0.0 && b >= 0.0
    ensures Pow4(a) <= Pow4(b) <==> a <= b
  {
    if a < b {
      Pow4Grows(a, b);
    } else if b < a {
      Pow4Grows(b, a);
    }
  }

  /** A step to the interval s keeps the requested precision exactly as long as it is not longer. */
  lemma PrecisionOfInterval(w: World, rate: real, s: real, d: real)
    requires IsWorld(w) && rate > 0.0 && s > 0.0 && AtRate(rate, s) == w.relError && d >= 0.0
    ensures AtRate(rate, d) <= w.relError <==> d <= s
  {
    Pow4Order(d, s);
    ScaledOrder(Pow4(d), Pow4(s), rate);
  }

  lemma RootOfQuotient(w: World, rate: real)
    requires IsWorld(w) && rate > 0.0
    ensures w.relError / rate > 0.0 && w.root(w.relError / rate) > 0.0
    ensures AtRate(rate, w.root(w.relError / rate)) == w.relError
  {
    PositiveQuotient(w.relError, rate);
    Quotient(w.relError, rate);
  }

  /** The step is cut at the end of the plan, or at the longest interval, or rounded down. */
  predicate StepKept(now: int, root: real, planEnd: int) {
    var s := Capped(root);
    now + Milliseconds(s) > planEnd || root > LONGEST || Milliseconds(s) as real <= 1000.0 * s
  }

  lemma CutOrRoundedDown(root: real, s: real, millis: int, room: int)
    requires 0.0 < s <= root && s == Capped(root) && room >= 0
    requires 1000.0 * s - 0.5 < millis as real <= 1000.0 * s + 0.5
    ensures millis >= 0
    ensures Seconds(if millis > room then room else millis) <= root <==>
            millis > room || root > LONGEST || millis as real <= 1000.0 * s
  {
    if root > LONGEST {
      assert millis <= 30000000000;
    } else if millis > room {
      assert room <= millis - 1;
    }
  }

  lemma StepWithinRoot(now: int, root: real, planEnd: int)
    requires root > 0.0 && now <= planEnd
    ensures var to := StepEnd(now, Capped(root), planEnd);
            now <= to <= planEnd && (Seconds(to - now) <= root <==> StepKept(now, root, planEnd))
  {
    var s := Capped(root);
    RoundsToNearest(s);
    CutOrRoundedDown(root, s, Milliseconds(s), planEnd - now);
  }

  /** A step for the interval s, at an error rate for which s gives the error that was asked for. */
  lemma StepOfInterval(w: World, rate: real, s: real, now: int, planEnd: int, to: int, after: real)
    requires IsWorld(w) && rate > 0.0 && s > 0.0 && AtRate(rate, s) == w.relError && now <= planEnd
    requires to == StepEnd(now, Capped(s), planEnd) && after == AtRate(rate, Seconds(to - now))
    ensures now <= to <= planEnd && (after <= w.relError <==> StepKept(now, s, planEnd))
  {
    StepWithinRoot(now, s, planEnd);
    PrecisionOfInterval(w, rate, s, Seconds(to - now));
  }

  lemma StepWithError(w: World, error: real, period: real, r: real, s: real, now: int, planEnd: int, to: int,
                      after: real)
    requires IsWorld(w) && error > 0.0 && r > 0.0 && s > 0.0 && now <= planEnd
    requires ErrorAfter(error, period, r, s) == w.relError && to == StepEnd(now, Capped(s), planEnd)
    requires after == ErrorAfter(error, period, r, Seconds(to - now))
    ensures now <= to <= planEnd && (after <= w.relError <==> StepKept(now, s, planEnd))
  {
    var rate := Rate(error, period, r);
    ErrorOfRate(error, period, r, s, rate, w.relError);
    ErrorOfRate(error, period, r, Seconds(to - now), rate, after);
    StepOfInterval(w, rate, s, now, planEnd, to, after);
  }

  lemma RootIs(w: World, rate: real, s: real)
    requires IsWorld(w) && rate > 0.0 && s > 0.0 && w.relError == AtRate(rate, s)
    ensures w.root(w.relError / rate) == s
  {
    RootOfQuotient(w, rate);
    CancelFactor(Pow4(w.root(w.relError / rate)), Pow4(s), rate);
    Pow4Order(w.root(w.relError / rate), s);
    Pow4Order(s, w.root(w.relError / rate));
  }

  /** The step is computed from the one interval that has the error that was asked for. */
  lemma IsInterval(w: World, error: real, period: real, r: real, s: real)
    requires IsWorld(w) && error > 0.0 && r > 0.0 && s > 0.0 && ErrorAfter(error, period, r, s) == w.relError
    ensures Interval(w, error, period, r) == Capped(s)
  {
    var rate := Rate(error, period, r);
    ErrorOfRate(error, period, r, s, rate, w.relError);
    RootIs(w, rate, s);
  }

  lemma IntervalOfError(w: World, error: real, period: real, r: real) returns (s: real)
    requires IsWorld(w) && error > 0.0 && r > 0.0
    ensures s > 0.0 && ErrorAfter(error, period, r, s) == w.relError
  {
    var rate := Rate(error, period, r);
    RootOfQuotient(w, rate);
    s := w.root(w.relError / rate);
    ErrorOfRate(error, period, r, s, rate, ErrorAfter(error, period, r, s));
  }

  /** The error at the end of a step is within what was asked for exactly if the step was cut or the
      conversion to milliseconds did not make it longer than the interval with the error asked for. */
  lemma StepSizeGuarantee(w: World, light: Body, relative: Option<Body>, period: real, r: real, now: int,
                          planEnd: int, to: int, error: real)
    returns (s: real, after: real)
    requires IsWorld(w) && r > 0.0 && now <= planEnd && error == DecodedError(w, light, relative)
    requires to == StepEnd(now, SamplingSeconds(w, light, relative, period, r), planEnd)
    ensures now <= to <= planEnd
    ensures s > 0.0 && ErrorAfter(error, period, r, s) == w.relError
    ensures after == ErrorAfter(error, period, r, Seconds(to - now))
    ensures after <= w.relError <==> StepKept(now, s, planEnd)
  {
    s := IntervalOfError(w, error, period, r);
    IsInterval(w, error, period, r, s);
    after := ErrorAfter(error, period, r, Seconds(to - now));
    StepWithError(w, error, period, r, s, now, planEnd, to, after);
  }

  /** The step is longer than its interval exactly if nothing cuts it and the interval is nearer to
      the next millisecond than to the last, or just between them. */
  predicate Lengthened(now: int, root: real, planEnd: int) {
    root <= LONGEST && now + Milliseconds(root) <= planEnd && 1000.0 * root - (1000.0 * root).Floor as real >= 0.5
  }

  lemma RoundedUpExactlyWhen(x: real, whole: int, m: int)
    requires whole as real <= x < whole as real + 1.0 && x - 0.5 < m as real <= x + 0.5
    ensures m as real > x <==> x - whole as real >= 0.5
  {
    assert whole <= m <= whole + 1;
  }

  lemma KeptUnlessLengthened(now: int, root: real, planEnd: int)
    ensures StepKept(now, root, planEnd) <==> !Lengthened(now, root, planEnd)
  {
    if root <= LONGEST {
      RoundsToNearest(root);
      RoundedUpExactlyWhen(1000.0 * root, (1000.0 * root).Floor, Milliseconds(root));
    }
  }

  /** Then, and only then, is the error larger than what was asked for. */
  lemma PrecisionIsMissedExactlyWhen(w: World, light: Body, relative: Option<Body>, period: real, r: real,
                                     now: int, planEnd: int, to: int, error: real, s: real, after: real)
    requires IsWorld(w) && r > 0.0 && now <= planEnd && error == DecodedError(w, light, relative)
    requires to == StepEnd(now, SamplingSeconds(w, light, relative, period, r), planEnd)
    requires s > 0.0 && ErrorAfter(error, period, r, s) == w.relError
    requires after == ErrorAfter(error, period, r, Seconds(to - now))
    ensures after > w.relError <==> Lengthened(now, s, planEnd)
  {
    IsInterval(w, error, period, r, s);
    StepWithError(w, error, period, r, s, now, planEnd, to, after);
    KeptUnlessLengthened(now, s, planEnd);
  }

  /** An interval of 100.0006 seconds becomes a step of 100.001 seconds, whose error is too large. */
  lemma StepMayBeLengthened(w: World, light: Body, relative: Option<Body>, period: real, r: real,
                            now: int, planEnd: int, error: real)
    requires IsWorld(w) && r > 0.0 && now + 100001 <= planEnd && error == DecodedError(w, light, relative)
    requires ErrorAfter(error, period, r, 100.0006) == w.relError
    ensures StepEnd(now, SamplingSeconds(w, light, relative, period, r), planEnd) == now + 100001
    ensures ErrorAfter(error, period, r, 100.001) > w.relError
  {
    IsInterval(w, error, period, r, 100.0006);
    assert Milliseconds(100.0006) == 100001 && Seconds(100001) == 100.001;
    PrecisionIsMissedExactlyWhen(w, light, relative, period, r, now, planEnd, now + 100001, error, 100.0006,
                                 ErrorAfter(error, period, r, 100.001));
  }

  /** The error that the step is computed from covers every influencer that was tracked. */
  lemma ErrorCoversInfluencers(w: World, light: Body, relative: Option<Body>, d: Datum)
    requires IsWorld(w)
    ensures d in light.data ==> w.decode(d.key) <= DecodedError(w, light, relative)
    ensures relative.Some? && d in relative.value.data ==> w.decode(d.key) <= DecodedError(w, light, relative)
  {
    if d in light.data {
      MaxKeyIsMax(light.data);
    }
    if relative.Some? && d in relative.value.data {
      MaxKeyIsMax(relative.value.data);
    }
  }

  /** The error after d seconds is no larger than what was asked for. */
  predicate Allows(w: World, error: real, period: real, r: real, d: real)
    requires r > 0.0
  {
    ErrorAfter(error, period, r, d) <= w.relError
  }

  lemma ReachesExactlyWhen(w: World, error: real, period: real, r: real, d: real)
    requires IsWorld(w) && error > 0.0 && r > 0.0 && d > 0.0
    ensures Interval(w, error, period, r) >= d <==> d <= LONGEST && Allows(w, error, period, r, d)
  {
    var rate, after := Rate(error, period, r), ErrorAfter(error, period, r, d);
    var s := IntervalOfError(w, error, period, r);
    IsInterval(w, error, period, r, s);
    ErrorOfRate(error, period, r, s, rate, w.relError);
    ErrorOfRate(error, period, r, d, rate, after);
    PrecisionOfInterval(w, rate, s, d);
  }

  /** A step of m milliseconds, up to the longest one, is made if and only if the bodies are apart and
      the error after half a millisecond less is no larger than what was asked for. */
  lemma StepReaches(w: World, light: Body, relative: Option<Body>, period: real, r: real, m: int)
    requires IsWorld(w) && r >= 0.0 && 1 <= m
    ensures Milliseconds(SamplingSeconds(w, light, relative, period, r)) >= m <==>
            && m <= 30000000000 && r > 0.0
            && Allows(w, DecodedError(w, light, relative), period, r, Seconds(m) - 0.0005)
  {
    ReachesMillis(SamplingSeconds(w, light, relative, period, r), m);
    if r > 0.0 {
      ReachesExactlyWhen(w, DecodedError(w, light, relative), period, r, Seconds(m) - 0.0005);
    }
  }

  // ---------------------------------------------------------------------------
  // All steps from the start of the plan
  // ---------------------------------------------------------------------------

  /** One call of propagate: the bodies as they were when the step was computed. */
  datatype Step = Step(from: int, to: int, light: Body, relative: Option<Body>)

  /** Whether a throw leaves the two lists of a body in disagreement, and at which influencer. */
  datatype Tear = Whole | LightTorn(at: nat) | RelativeTorn(at: nat)

  datatype Outcome = Completed | AssertionFailed | NoProgress | Thrown(tear: Tear)

  datatype Run = Run(outcome: Outcome, steps: seq<Step>)

  /** The same arguments all along a run. */
  datatype Call = Call(w: World, args: Args, period: real, planEnd: int)

  predicate Known(c: Call, t: int) {
    c.w.eph(c.args, t).Some?
  }

  function Distance(c: Call, t: int): (r: real)
    requires IsWorld(c.w)
    ensures r >= 0.0
  {
    match c.w.eph(c.args, t)
    case None => 0.0
    case Some(state) => c.w.radius(state)
  }

  /** How the updates of both bodies fail, if they do. */
  function EndOfUpdates(w: World, light: Body, relative: Option<Body>, t: int): Option<Outcome> {
    match EndOfUpdate(w.estimate, light.id, light.data, t)
    case Asserted => Some(AssertionFailed)
    case Threw(i) => Some(Thrown(LightTorn(i)))
    case Done =>
      if relative.None? then None
      else match EndOfUpdate(w.estimate, relative.value.id, relative.value.data, t)
        case Asserted => Some(AssertionFailed)
        case Threw(i) => Some(Thrown(RelativeTorn(i)))
        case Done => None
  }

  function NextStep(c: Call, light: Body, relative: Option<Body>, t: int): Step
    requires IsWorld(c.w)
  {
    var lit, rel := UpdatedBody(c.w, light, t), UpdatedIfAny(c.w, relative, t);
    Step(t, StepEnd(t, SamplingSeconds(c.w, lit, rel, c.period, Distance(c, t)), c.planEnd), lit, rel)
  }

  /** How a call of propagate fails, if it does: in the updates, or for want of the state at the start
      or at the end of the step. */
  function FailureAt(c: Call, light: Body, relative: Option<Body>, t: int): Option<Outcome>
    requires IsWorld(c.w)
  {
    match EndOfUpdates(c.w, light, relative, t)
    case Some(o) => Some(o)
    case None => if Known(c, t) && Known(c, NextStep(c, light, relative, t).to) then None else Some(Thrown(Whole))
  }

  /** Why no step is made from time t, if none is. A step that rounds to nothing would be repeated for ever. */
  function StopAt(c: Call, light: Body, relative: Option<Body>, t: int): Option<Outcome>
    requires IsWorld(c.w)
  {
    match FailureAt(c, light, relative, t)
    case Some(o) => Some(o)
    case None => if NextStep(c, light, relative, t).to <= t then Some(NoProgress) else None
  }

  /** The steps of the sampling loop from time t on. */
  function StepsFrom(c: Call, light: Body, relative: Option<Body>, t: int): Run
    requires IsWorld(c.w)
    decreases c.planEnd - t
  {
    if t >= c.planEnd then Run(Completed, [])
    else match StopAt(c, light, relative, t)
      case Some(o) => Run(o, [])
      case None =>
        var s := NextStep(c, light, relative, t);
        var rest := StepsFrom(c, s.light, s.relative, s.to);
        Run(rest.outcome, [s] + rest.steps)
  }

  /** The first influencer of a body that has no estimate, if none up to it was evaluated later. */
  predicate FirstWithout(w: World, b: Body, t: int, i: nat) {
    && i < |b.data| && !Estimable(w.estimate, b.id, b.data[i], t)
    && forall j :: 0 <= j <= i ==> b.data[j].prevTime <= t && (j < i ==> Estimable(w.estimate, b.id, b.data[j], t))
  }

  predicate CanUpdate(w: World, b: Body, t: int) {
    NotAhead(b.data, t) && forall d <- b.data :: Estimable(w.estimate, b.id, d, t)
  }

  /** The updates succeed exactly if both can be made; they leave the light body torn exactly at its first
      influencer without an estimate, and the other one only once the light one is updated. */
  lemma UpdatesEnd(w: World, light: Body, relative: Option<Body>, t: int)
    ensures EndOfUpdates(w, light, relative, t) == None <==>
            CanUpdate(w, light, t) && (relative.Some? ==> CanUpdate(w, relative.value, t))
    ensures forall i :: EndOfUpdates(w, light, relative, t) == Some(Thrown(LightTorn(i))) <==>
              FirstWithout(w, light, t, i)
    ensures forall i :: EndOfUpdates(w, light, relative, t) == Some(Thrown(RelativeTorn(i))) <==>
              CanUpdate(w, light, t) && relative.Some? && FirstWithout(w, relative.value, t, i)
  {
    UpdateSucceedsExactlyWhen(w.estimate, light.id, light.data, t);
    forall i: nat {
      UpdateThrowsExactlyWhen(w.estimate, light.id, light.data, t, i);
    }
    if relative.Some? {
      var b := relative.value;
      UpdateSucceedsExactlyWhen(w.estimate, b.id, b.data, t);
      forall i: nat {
        UpdateThrowsExactlyWhen(w.estimate, b.id, b.data, t, i);
      }
    }
  }

  /** Every influencer of a body after an update at time t, from what was known of it before. */
  predicate BodyEvaluated(w: World, before: Body, after: Body, t: int) {
    && after.id == before.id && |after.data| == |before.data|
    && forall i :: 0 <= i < |before.data| ==> Evaluated(w.estimate, after.id, before.data[i], after.data[i], t)
  }

  predicate AnyEvaluated(w: World, before: Option<Body>, after: Option<Body>, t: int) {
    after.Some? == before.Some? && (before.Some? ==> BodyEvaluated(w, before.value, after.value, t))
  }

  lemma UpdateEvaluates(w: World, light: Body, relative: Option<Body>, t: int)
    requires EndOfUpdates(w, light, relative, t) == None
    ensures BodyEvaluated(w, light, UpdatedBody(w, light, t), t)
    ensures AnyEvaluated(w, relative, UpdatedIfAny(w, relative, t), t)
    ensures forall u :: t <= u ==> ReadyAt(UpdatedBody(w, light, t), UpdatedIfAny(w, relative, t), u)
  {
    UpdatedAtOneTime(w.estimate, light.id, light.data, t, UpdatedBody(w, light, t).data);
    if relative.Some? {
      var b := relative.value;
      UpdatedAtOneTime(w.estimate, b.id, b.data, t, UpdatedBody(w, b, t).data);
    }
  }

  lemma NotAheadNotAsserted(e: Estimator, light: int, s: seq<Datum>, t: int)
    requires NotAhead(s, t)
    ensures EndOfUpdate(e, light, s, t) != Asserted
  {
    var i := StopOf(e, light, s, t);
    if i < |s| {
      assert s[i] in s;
    }
  }

  lemma ReadyNotAsserted(w: World, light: Body, relative: Option<Body>, t: int)
    requires ReadyAt(light, relative, t)
    ensures EndOfUpdates(w, light, relative, t) != Some(AssertionFailed)
  {
    NotAheadNotAsserted(w.estimate, light.id, light.data, t);
    if relative.Some? {
      NotAheadNotAsserted(w.estimate, relative.value.id, relative.value.data, t);
    }
  }

  /** The assertion on evaluation times can fail at the start of the plan only. */
  lemma {:induction false} NoAssertionFires(c: Call, light: Body, relative: Option<Body>, t: int)
    requires IsWorld(c.w)
    ensures StepsFrom(c, light, relative, t).outcome == AssertionFailed <==>
            t < c.planEnd && EndOfUpdates(c.w, light, relative, t) == Some(AssertionFailed)
    decreases c.planEnd - t
  {
    if t < c.planEnd && StopAt(c, light, relative, t) == None {
      var s := NextStep(c, light, relative, t);
      UpdateEvaluates(c.w, light, relative, t);
      ReadyNotAsserted(c.w, s.light, s.relative, s.to);
      NoAssertionFires(c, s.light, s.relative, s.to);
    }
  }

  lemma ResetCarriesDeluge(s: seq<Datum>)
    requires s == AsReset(s)
    ensures forall d <- s :: d.key == 0 && d.prevTime == DELUGE && Previous(d) == None
  {
    forall d | d in s
      ensures d.key == 0 && d.prevTime == DELUGE
    {
      var i :| 0 <= i < |s| && s[i] == d;
      assert s[i] == AsReset(s)[i];
    }
  }

  /** After a reset the assertion fails exactly for a plan that starts before the deluge date. */
  lemma AssertedAfterReset(w: World, light: Body, relative: Option<Body>, t: int)
    requires light.data != [] && IsReset(light, relative)
    ensures EndOfUpdates(w, light, relative, t) == Some(AssertionFailed) <==> t < DELUGE
  {
    ResetCarriesDeluge(light.data);
    if relative.Some? {
      ResetCarriesDeluge(relative.value.data);
    }
    if t < DELUGE {
      assert light.data[0] in light.data && Blocked(w.estimate, light.id, light.data[0], t);
      assert StopOf(w.estimate, light.id, light.data, t) == 0;
    } else {
      ReadyNotAsserted(w, light, relative, t);
    }
  }

  /** Everything a step promises: it starts at t, every influencer of both bodies was evaluated for t
      unless it carried t before, and its length follows from the errors they then have. */
  predicate IsStep(c: Call, s: Step, light: Body, relative: Option<Body>, t: int)
    requires IsWorld(c.w)
  {
    && s.from == t < s.to <= c.planEnd && Known(c, t) && Known(c, s.to)
    && BodyEvaluated(c.w, light, s.light, t) && AnyEvaluated(c.w, relative, s.relative, t)
    && s.to == StepEnd(t, SamplingSeconds(c.w, s.light, s.relative, c.period, Distance(c, t)), c.planEnd)
  }

  function StartOf(steps: seq<Step>, i: nat, t: int): int
    requires i <= |steps|
  {
    if i == 0 then t else steps[i - 1].to
  }

  /** The bodies before the i-th step. */
  function LightBefore(steps: seq<Step>, i: nat, light: Body): Body
    requires i <= |steps|
  {
    if i == 0 then light else steps[i - 1].light
  }

  function RelativeBefore(steps: seq<Step>, i: nat, relative: Option<Body>): Option<Body>
    requires i <= |steps|
  {
    if i == 0 then relative else steps[i - 1].relative
  }

  /** The steps of a run follow each other without a gap, and each continues with the bodies of the last. */
  predicate AreSteps(c: Call, steps: seq<Step>, light: Body, relative: Option<Body>, t: int)
    requires IsWorld(c.w)
  {
    forall i :: 0 <= i < |steps| ==>
      IsStep(c, steps[i], LightBefore(steps, i, light), RelativeBefore(steps, i, relative), StartOf(steps, i, t))
  }

  lemma StepMovesOn(c: Call, steps: seq<Step>, light: Body, relative: Option<Body>, t: int, i: nat)
    requires IsWorld(c.w) && AreSteps(c, steps, light, relative, t) && i < |steps|
    ensures steps[i].from == StartOf(steps, i, t) < steps[i].to
  {
    assert IsStep(c, steps[i], LightBefore(steps, i, light), RelativeBefore(steps, i, relative), StartOf(steps, i, t));
  }

  lemma AllStepsMoveOn(c: Call, steps: seq<Step>, light: Body, relative: Option<Body>, t: int)
    requires IsWorld(c.w) && AreSteps(c, steps, light, relative, t)
    ensures forall i :: 0 <= i < |steps| ==> StartOf(steps, i, t) < steps[i].to
  {
    forall i | 0 <= i < |steps|
      ensures StartOf(steps, i, t) < steps[i].to
    {
      StepMovesOn(c, steps, light, relative, t, i);
    }
  }

  lemma BeforeLaterStep(s: Step, rest: seq<Step>, light: Body, relative: Option<Body>, t: int, i: nat, steps: seq<Step>)
    requires steps == [s] + rest && 0 < i <= |steps|
    ensures LightBefore(steps, i, light) == LightBefore(rest, i - 1, s.light)
    ensures RelativeBefore(steps, i, relative) == RelativeBefore(rest, i - 1, s.relative)
    ensures StartOf(steps, i, t) == StartOf(rest, i - 1, s.to)
  {
  }

  lemma PrependStep(c: Call, s: Step, rest: seq<Step>, light: Body, relative: Option<Body>, t: int, steps: seq<Step>)
    requires IsWorld(c.w) && IsStep(c, s, light, relative, t) && AreSteps(c, rest, s.light, s.relative, s.to)
    requires steps == [s] + rest
    ensures AreSteps(c, steps, light, relative, t)
  {
    forall i | 0 < i < |steps|
      ensures IsStep(c, steps[i], LightBefore(steps, i, light), RelativeBefore(steps, i, relative),
                     StartOf(steps, i, t))
    {
      assert steps[i] == rest[i - 1];
      BeforeLaterStep(s, rest, light, relative, t, i, steps);
    }
    assert steps[0] == s;
  }

  /** What holds of all steps of every run: they are chained, each evaluates the influencers that the
      last one left, and moves forward by what follows from the errors. */
  lemma {:induction false} RunIsChained(c: Call, light: Body, relative: Option<Body>, t: int)
    requires IsWorld(c.w)
    ensures AreSteps(c, StepsFrom(c, light, relative, t).steps, light, relative, t)
    decreases c.planEnd - t
  {
    if t < c.planEnd && StopAt(c, light, relative, t) == None {
      var s := NextStep(c, light, relative, t);
      RunIsChained(c, s.light, s.relative, s.to);
      UpdateEvaluates(c.w, light, relative, t);
      PrependStep(c, s, StepsFrom(c, s.light, s.relative, s.to).steps, light, relative, t,
                  StepsFrom(c, light, relative, t).steps);
    }
  }

  /** A run completes exactly if its last step ends at the end of the plan. */
  lemma {:induction false} RunCoversPlan(c: Call, light: Body, relative: Option<Body>, t: int)
    requires IsWorld(c.w) && t < c.planEnd
    ensures var run := StepsFrom(c, light, relative, t);
            run.outcome == Completed <==> run.steps != [] && run.steps[|run.steps| - 1].to == c.planEnd
    decreases c.planEnd - t
  {
    if StopAt(c, light, relative, t) == None {
      var s := NextStep(c, light, relative, t);
      if s.to < c.planEnd {
        RunCoversPlan(c, s.light, s.relative, s.to);
      }
    }
  }

  lemma NoStepFromNowhere(c: Call, light: Body, relative: Option<Body>, now: int)
    requires IsWorld(c.w)
    ensures StepEnd(now, SamplingSeconds(c.w, light, relative, c.period, 0.0), c.planEnd) <= now
  {
    assert Milliseconds(0.0) == 0;
  }

  /** The largest key of all, zero if there is none. */
  predicate IsLargestKey(s: seq<Datum>, key: int) {
    && (s == [] ==> key == 0)
    && (s != [] ==> (exists d <- s :: d.key == key) && forall d <- s :: d.key <= key)
  }

  lemma LargestKeyIsMax(s: seq<Datum>, key: int)
    requires IsLargestKey(s, key)
    ensures MaxKey(s) == key
  {
    if s != [] {
      MaxKeyIsMax(s);
    }
  }

  predicate IsLength(r: real, state: State) {
    r >= 0.0 && r * r == state.x * state.x + state.y * state.y + state.z * state.z
  }

  lemma LengthIsUnique(a: real, b: real, s: State)
    requires IsLength(a, s) && IsLength(b, s)
    ensures a == b
  {
    if a < b {
      SquareGrows(a, b);
    } else if b < a {
      SquareGrows(b, a);
    }
  }

  /** The error of a step and the distance of the bodies: the largest keys of both bodies are decoded and
      added, and the state at the start is at that distance. */
  predicate IsErrorOf(c: Call, s: Step, key: int, other: int, error: real, r: real) {
    && IsLargestKey(s.light.data, key) && (s.relative.Some? ==> IsLargestKey(s.relative.value.data, other))
    && error == c.w.decode(key) + (if s.relative.Some? then c.w.decode(other) else 0.0)
    && Known(c, s.from) && IsLength(r, c.w.eph(c.args, s.from).value)
  }

  lemma ErrorOfStepIs(c: Call, s: Step, key: int, other: int, error: real, r: real)
    requires IsWorld(c.w) && IsErrorOf(c, s, key, other, error, r)
    ensures error == DecodedError(c.w, s.light, s.relative) && r == Distance(c, s.from)
  {
    LargestKeyIsMax(s.light.data, key);
    if s.relative.Some? {
      LargestKeyIsMax(s.relative.value.data, other);
    }
    LengthIsUnique(r, Distance(c, s.from), c.w.eph(c.args, s.from).value);
  }

  lemma MaxKeyIsLargest(s: seq<Datum>)
    ensures IsLargestKey(s, MaxKey(s))
  {
    if s != [] {
      MaxKeyIsMax(s);
    }
  }

  lemma ErrorOfStep(c: Call, s: Step) returns (key: int, other: int, error: real, r: real)
    requires IsWorld(c.w) && Known(c, s.from)
    ensures IsErrorOf(c, s, key, other, error, r)
  {
    key, other := MaxKey(s.light.data), if s.relative.Some? then MaxKey(s.relative.value.data) else 0;
    error, r := DecodedError(c.w, s.light, s.relative), Distance(c, s.from);
    MaxKeyIsLargest(s.light.data);
    if s.relative.Some? {
      MaxKeyIsLargest(s.relative.value.data);
    }
  }

  /** A step is made from bodies that are apart. */
  lemma StepsApart(c: Call, s: Step, light: Body, relative: Option<Body>, t: int)
    requires IsWorld(c.w) && IsStep(c, s, light, relative, t)
    ensures s.from == t < s.to <= c.planEnd && Known(c, t) && Distance(c, t) > 0.0
    ensures s.to == StepEnd(t, SamplingSeconds(c.w, s.light, s.relative, c.period, Distance(c, t)), c.planEnd)
  {
    if Distance(c, t) == 0.0 {
      NoStepFromNowhere(c, s.light, s.relative, t);
    }
  }

  lemma StepOfRun(c: Call, light: Body, relative: Option<Body>, t: int, steps: seq<Step>, i: nat, s: Step)
    requires IsWorld(c.w) && steps == StepsFrom(c, light, relative, t).steps && i < |steps| && s == steps[i]
    ensures s.from < s.to <= c.planEnd && Known(c, s.from) && Distance(c, s.from) > 0.0
    ensures s.to
         == StepEnd(s.from, SamplingSeconds(c.w, s.light, s.relative, c.period, Distance(c, s.from)), c.planEnd)
  {
    RunIsChained(c, light, relative, t);
    StepsApart(c, s, LightBefore(steps, i, light), RelativeBefore(steps, i, relative), StartOf(steps, i, t));
  }

  lemma PrecisionOfStep(c: Call, p: Step, error: real, r: real) returns (s: real, after: real)
    requires IsWorld(c.w) && p.from <= c.planEnd && r > 0.0 && error == DecodedError(c.w, p.light, p.relative)
    requires p.to == StepEnd(p.from, SamplingSeconds(c.w, p.light, p.relative, c.period, r), c.planEnd)
    ensures s > 0.0 && ErrorAfter(error, c.period, r, s) == c.w.relError
    ensures after == ErrorAfter(error, c.period, r, Seconds(p.to - p.from))
    ensures after <= c.w.relError <==> StepKept(p.from, s, c.planEnd)
  {
    s, after := StepSizeGuarantee(c.w, p.light, p.relative, c.period, r, p.from, c.planEnd, p.to, error);
  }

  /** Every step of every run keeps the requested precision for the errors that the bodies then carry,
      unless rounding made it longer. */
  lemma RunKeepsPrecision(c: Call, light: Body, relative: Option<Body>, t: int, steps: seq<Step>, i: nat,
                          p: Step)
    returns (key: int, other: int, error: real, r: real, s: real, after: real)
    requires IsWorld(c.w) && steps == StepsFrom(c, light, relative, t).steps && i < |steps| && p == steps[i]
    ensures IsErrorOf(c, p, key, other, error, r) && r > 0.0
    ensures s > 0.0 && ErrorAfter(error, c.period, r, s) == c.w.relError
    ensures after == ErrorAfter(error, c.period, r, Seconds(p.to - p.from))
    ensures after <= c.w.relError <==> StepKept(p.from, s, c.planEnd)
  {
    StepOfRun(c, light, relative, t, steps, i, p);
    key, other, error, r := ErrorOfStep(c, p);
    ErrorOfStepIs(c, p, key, other, error, r);
    s, after := PrecisionOfStep(c, p, error, r);
  }

  /** And it is as long as that: it takes m milliseconds or more exactly if these are within the plan and
      the longest interval, and the error half a millisecond earlier is no larger than what was asked for. */
  lemma RunStepsReach(c: Call, light: Body, relative: Option<Body>, t: int, steps: seq<Step>, i: nat,
                      p: Step, key: int, other: int, error: real, r: real, m: int, after: real)
    requires IsWorld(c.w) && steps == StepsFrom(c, light, relative, t).steps && i < |steps| && p == steps[i]
    requires IsErrorOf(c, p, key, other, error, r) && 1 <= m
    requires r > 0.0 ==> after == ErrorAfter(error, c.period, r, Seconds(m) - 0.0005)
    ensures r > 0.0
    ensures p.to >= p.from + m <==> p.from + m <= c.planEnd && m <= 30000000000 && after <= c.w.relError
  {
    StepOfRun(c, light, relative, t, steps, i, p);
    ErrorOfStepIs(c, p, key, other, error, r);
    StepReaches(c.w, p.light, p.relative, c.period, r, m);
  }

  // ---------------------------------------------------------------------------
  // A reset forgets everything
  // ---------------------------------------------------------------------------

  /** Equal but for remembered states that no estimate will look at. */
  predicate SameDatum(d: Datum, e: Datum) {
    && d.bodyID == e.bodyID && d.key == e.key && d.prevTime == e.prevTime
    && (d.prevTime > DELUGE ==> d.prevState == e.prevState)
  }

  predicate SameData(s: seq<Datum>, r: seq<Datum>) {
    |s| == |r| && forall i :: 0 <= i < |s| ==> SameDatum(s[i], r[i])
  }

  predicate SameBody(b: Body, c: Body) {
    b.id == c.id && SameData(b.data, c.data)
  }

  predicate SameIfAny(b: Option<Body>, c: Option<Body>) {
    b.Some? == c.Some? && (b.Some? ==> SameBody(b.value, c.value))
  }

  lemma {:induction false} SameMaxKey(s: seq<Datum>, r: seq<Datum>)
    requires SameData(s, r)
    ensures MaxKey(s) == MaxKey(r)
  {
    if s != [] {
      assert SameDatum(s[|s| - 1], r[|s| - 1]);
      SameMaxKey(s[..|s| - 1], r[..|s| - 1]);
    }
  }

  lemma {:induction false} SameStop(e: Estimator, light: int, s: seq<Datum>, r: seq<Datum>, t: int)
    requires SameData(s, r)
    ensures StopOf(e, light, s, t) == StopOf(e, light, r, t)
  {
    if s != [] {
      assert SameDatum(s[|s| - 1], r[|s| - 1]);
      SameStop(e, light, s[..|s| - 1], r[..|s| - 1], t);
    }
  }

  lemma SameEndOfUpdate(e: Estimator, light: int, s: seq<Datum>, r: seq<Datum>, t: int)
    requires SameData(s, r)
    ensures EndOfUpdate(e, light, s, t) == EndOfUpdate(e, light, r, t)
  {
    SameStop(e, light, s, r, t);
    var i := StopOf(e, light, s, t);
    assert i < |s| ==> SameDatum(s[i], r[i]);
  }

  lemma SameAfterUpdate(w: World, b: Body, c: Body, t: int)
    requires SameBody(b, c)
    ensures SameBody(UpdatedBody(w, b, t), UpdatedBody(w, c, t))
    ensures EndOfUpdate(w.estimate, b.id, b.data, t) == EndOfUpdate(w.estimate, c.id, c.data, t)
    ensures MaxKey(UpdatedBody(w, b, t).data) == MaxKey(UpdatedBody(w, c, t).data)
  {
    forall i | 0 <= i < |b.data|
      ensures SameDatum(Evaluate(w.estimate, b.id, b.data[i], t), Evaluate(w.estimate, c.id, c.data[i], t))
    {
      assert SameDatum(b.data[i], c.data[i]);
    }
    SameEndOfUpdate(w.estimate, b.id, b.data, c.data, t);
    SameMaxKey(UpdatedBody(w, b, t).data, UpdatedBody(w, c, t).data);
  }

  function Ends(steps: seq<Step>): (points: seq<int>)
    ensures |points| == |steps|
  {
    seq(|steps|, i requires 0 <= i < |steps| => steps[i].to)
  }

  lemma SameNextStep(c: Call, light: Body, relative: Option<Body>, light': Body, relative': Option<Body>, t: int,
                     s: Step, s': Step)
    requires IsWorld(c.w) && SameBody(light, light') && SameIfAny(relative, relative')
    requires s == NextStep(c, light, relative, t) && s' == NextStep(c, light', relative', t)
    ensures EndOfUpdates(c.w, light, relative, t) == EndOfUpdates(c.w, light', relative', t)
    ensures s.to == s'.to && SameBody(s.light, s'.light) && SameIfAny(s.relative, s'.relative)
  {
    SameAfterUpdate(c.w, light, light', t);
    if relative.Some? {
      SameAfterUpdate(c.w, relative.value, relative'.value, t);
    }
    assert DecodedError(c.w, s.light, s.relative) == DecodedError(c.w, s'.light, s'.relative);
  }

  /** Two runs that start from data of which an estimate sees the same make the same steps. */
  lemma {:induction false} SameRun(c: Call, light: Body, relative: Option<Body>, light': Body,
                                   relative': Option<Body>, t: int)
    requires IsWorld(c.w) && SameBody(light, light') && SameIfAny(relative, relative')
    ensures StepsFrom(c, light, relative, t).outcome == StepsFrom(c, light', relative', t).outcome
    ensures Ends(StepsFrom(c, light, relative, t).steps) == Ends(StepsFrom(c, light', relative', t).steps)
    decreases c.planEnd - t
  {
    var s, s' := NextStep(c, light, relative, t), NextStep(c, light', relative', t);
    SameNextStep(c, light, relative, light', relative', t, s, s');
    if t < c.planEnd && StopAt(c, light, relative, t) == None {
      SameRun(c, s.light, s.relative, s'.light, s'.relative, s.to);
      EndsOfMore(s, StepsFrom(c, s.light, s.relative, s.to).steps);
      EndsOfMore(s', StepsFrom(c, s'.light, s'.relative, s.to).steps);
    }
  }

  lemma EndsOfMore(s: Step, rest: seq<Step>)
    ensures Ends([s] + rest) == [s.to] + Ends(rest)
  {
  }
}
