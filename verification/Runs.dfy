/** What holds of the steps of the sampling loop after a reset, and how and when the loop ends. */
module Runs {
  import opened Influencers
  import opened Options
  import opened RealFacts
  import opened Steps

  // ---------------------------------------------------------------------------
  // The errors of a run after a reset
  // ---------------------------------------------------------------------------

  /** Key and state of every influencer are the estimate for time t, given its state at the time u of the
      last evaluation, or nothing if it was not evaluated after the deluge date. */
  predicate HasEstimates(w: World, before: Body, after: Body, u: int, t: int) {
    && after.id == before.id && |after.data| == |before.data|
    && forall i :: 0 <= i < |before.data| ==>
         after.data[i].bodyID == before.data[i].bodyID
         && EstimatedFrom(w.estimate, before.id, before.data[i], after.data[i], u, t)
  }

  predicate AnyHasEstimates(w: World, before: Option<Body>, after: Option<Body>, u: int, t: int) {
    after.Some? == before.Some? && (before.Some? ==> HasEstimates(w, before.value, after.value, u, t))
  }

  /** The same of the keys alone. */
  predicate HasKeys(w: World, before: Body, after: Body, u: int, t: int) {
    && after.id == before.id && |after.data| == |before.data|
    && forall i :: 0 <= i < |before.data| ==>
         var d := before.data[i];
         IsEstimate(w.estimate(before.id, d.bodyID, t, if u > DELUGE then Some((u, d.prevState)) else None),
                    after.data[i].key)
  }

  predicate IsEstimate(e: Option<(int, State)>, key: int) {
    e.Some? && e.value.0 == key
  }

  predicate AnyHasKeys(w: World, before: Option<Body>, after: Option<Body>, u: int, t: int) {
    after.Some? == before.Some? && (before.Some? ==> HasKeys(w, before.value, after.value, u, t))
  }

  lemma EstimatesAreKeys(w: World, before: Body, after: Body, u: int, t: int)
    requires HasEstimates(w, before, after, u, t)
    ensures HasKeys(w, before, after, u, t)
  {
    forall i | 0 <= i < |before.data|
      ensures var d := before.data[i];
              IsEstimate(w.estimate(before.id, d.bodyID, t, if u > DELUGE then Some((u, d.prevState)) else None),
                         after.data[i].key)
    {
      assert EstimatedFrom(w.estimate, before.id, before.data[i], after.data[i], u, t);
    }
  }

  /** Every influencer carries the time t. */
  predicate AllAt(b: Body, t: int) {
    forall d <- b.data :: d.prevTime == t
  }

  lemma EvaluatedIsEstimated(w: World, before: Body, after: Body, u: int, t: int)
    requires BodyEvaluated(w, before, after, t) && AllAt(before, u) && u != t
    ensures HasEstimates(w, before, after, u, t)
  {
    forall i | 0 <= i < |before.data|
      ensures EstimatedFrom(w.estimate, before.id, before.data[i], after.data[i], u, t)
      ensures after.data[i].bodyID == before.data[i].bodyID
    {
      assert before.data[i] in before.data;
      assert Evaluated(w.estimate, after.id, before.data[i], after.data[i], t);
    }
  }

  lemma EvaluatedAt(w: World, before: Body, after: Body, t: int)
    requires BodyEvaluated(w, before, after, t)
    ensures AllAt(after, t)
  {
    forall d | d in after.data
      ensures d.prevTime == t
    {
      var i :| 0 <= i < |after.data| && after.data[i] == d;
      assert Evaluated(w.estimate, after.id, before.data[i], after.data[i], t);
    }
  }

  lemma ResetAt(b: Body)
    requires b.data == AsReset(b.data)
    ensures AllAt(b, DELUGE)
  {
    ResetCarriesDeluge(b.data);
  }

  /** From the second step on, every step of every run has the estimates for its start, made from the states
      that the step before remembered, with the time of that step. */
  lemma LaterKeysAreEstimates(c: Call, light: Body, relative: Option<Body>, t: int, steps: seq<Step>, i: nat)
    requires IsWorld(c.w) && steps == StepsFrom(c, light, relative, t).steps && 0 < i < |steps|
    ensures HasEstimates(c.w, steps[i - 1].light, steps[i].light, steps[i - 1].from, steps[i].from)
    ensures AnyHasEstimates(c.w, steps[i - 1].relative, steps[i].relative, steps[i - 1].from, steps[i].from)
  {
    RunIsChained(c, light, relative, t);
    var last, s := steps[i - 1], steps[i];
    assert IsStep(c, last, LightBefore(steps, i - 1, light), RelativeBefore(steps, i - 1, relative), last.from);
    assert IsStep(c, s, last.light, last.relative, s.from);
    EvaluatedAt(c.w, LightBefore(steps, i - 1, light), last.light, last.from);
    EvaluatedIsEstimated(c.w, last.light, s.light, last.from, s.from);
    if last.relative.Some? {
      EvaluatedAt(c.w, RelativeBefore(steps, i - 1, relative).value, last.relative.value, last.from);
      EvaluatedIsEstimated(c.w, last.relative.value, s.relative.value, last.from, s.from);
    }
  }

  /** After a reset the first step has estimates made from nothing, if the plan does not start at the deluge
      date. */
  lemma FirstKeysAreEstimates(c: Call, light: Body, relative: Option<Body>, t: int, s: Step)
    requires IsWorld(c.w) && IsReset(light, relative) && s == NextStep(c, light, relative, t) && t != DELUGE
    requires EndOfUpdates(c.w, light, relative, t) == None
    ensures HasEstimates(c.w, light, s.light, DELUGE, t) && AnyHasEstimates(c.w, relative, s.relative, DELUGE, t)
  {
    UpdateEvaluates(c.w, light, relative, t);
    ResetAt(light);
    EvaluatedIsEstimated(c.w, light, s.light, DELUGE, t);
    if relative.Some? {
      ResetAt(relative.value);
      EvaluatedIsEstimated(c.w, relative.value, s.relative.value, DELUGE, t);
    }
  }

  /** If it does, nothing is evaluated: all keys are still zero, and the first step has the length that
      follows from the decoded zero for each body, whatever the estimates are. */
  lemma FirstStepAtDeluge(c: Call, light: Body, relative: Option<Body>, s: Step, r: real)
    requires IsWorld(c.w) && IsReset(light, relative) && s == NextStep(c, light, relative, DELUGE)
    requires r == Distance(c, DELUGE)
    ensures s.light == light && s.relative == relative
    ensures var zero := c.w.decode(0) + if relative.None? then 0.0 else c.w.decode(0);
            s.to == StepEnd(DELUGE, Interval(c.w, zero, c.period, r), c.planEnd)
  {
    DelugeIsPassedOver(c.w.estimate, light.id, light.data);
    if relative.Some? {
      DelugeIsPassedOver(c.w.estimate, relative.value.id, relative.value.data);
    }
  }

  /** The time of the last evaluation before a step of a run that started after a reset. */
  function LastTime(steps: seq<Step>, i: nat): int
    requires i < |steps|
  {
    if i == 0 then DELUGE else steps[i - 1].from
  }

  /** Every key of a step is the estimate for its start. */
  predicate StepHasEstimates(c: Call, light: Body, relative: Option<Body>, steps: seq<Step>, i: nat)
    requires i < |steps|
  {
    && HasKeys(c.w, LightBefore(steps, i, light), steps[i].light, LastTime(steps, i), steps[i].from)
    && AnyHasKeys(c.w, RelativeBefore(steps, i, relative), steps[i].relative, LastTime(steps, i), steps[i].from)
  }

  lemma EstimatesOfStep(c: Call, light: Body, relative: Option<Body>, steps: seq<Step>, i: nat)
    requires i < |steps|
    requires HasEstimates(c.w, LightBefore(steps, i, light), steps[i].light, LastTime(steps, i), steps[i].from)
    requires AnyHasEstimates(c.w, RelativeBefore(steps, i, relative), steps[i].relative, LastTime(steps, i),
                             steps[i].from)
    ensures StepHasEstimates(c, light, relative, steps, i)
  {
    EstimatesAreKeys(c.w, LightBefore(steps, i, light), steps[i].light, LastTime(steps, i), steps[i].from);
    if steps[i].relative.Some? {
      EstimatesAreKeys(c.w, RelativeBefore(steps, i, relative).value, steps[i].relative.value, LastTime(steps, i),
                       steps[i].from);
    }
  }

  predicate KeysAreEstimates(c: Call, light: Body, relative: Option<Body>, steps: seq<Step>) {
    forall i :: 0 <= i < |steps| ==> StepHasEstimates(c, light, relative, steps, i)
  }

  /** All first estimates of a body for the deluge date are zero. */
  predicate ZeroAtDeluge(w: World, b: Body) {
    forall i :: 0 <= i < |b.data| ==> IsEstimate(w.estimate(b.id, b.data[i].bodyID, DELUGE, None), 0)
  }

  lemma ResetHasEstimates(w: World, b: Body)
    requires b.data == AsReset(b.data)
    ensures HasKeys(w, b, b, DELUGE, DELUGE) <==> ZeroAtDeluge(w, b)
  {
    forall i | 0 <= i < |b.data|
      ensures b.data[i].key == 0
    {
      assert b.data[i] == AsReset(b.data)[i];
    }
  }

  lemma FirstStepHasEstimatesExactlyWhen(c: Call, light: Body, relative: Option<Body>, t: int, steps: seq<Step>)
    requires IsWorld(c.w) && IsReset(light, relative) && steps != [] && steps[0] == NextStep(c, light, relative, t)
    requires EndOfUpdates(c.w, light, relative, t) == None
    ensures StepHasEstimates(c, light, relative, steps, 0) <==>
            t != DELUGE || (ZeroAtDeluge(c.w, light) && (relative.Some? ==> ZeroAtDeluge(c.w, relative.value)))
  {
    if t != DELUGE {
      FirstKeysAreEstimates(c, light, relative, t, steps[0]);
      EstimatesOfStep(c, light, relative, steps, 0);
    } else {
      FirstStepAtDeluge(c, light, relative, steps[0], Distance(c, DELUGE));
      ResetHasEstimates(c.w, light);
      if relative.Some? {
        ResetHasEstimates(c.w, relative.value);
      }
    }
  }

  lemma FirstOfRun(c: Call, light: Body, relative: Option<Body>, t: int, steps: seq<Step>)
    requires IsWorld(c.w) && steps == StepsFrom(c, light, relative, t).steps && steps != []
    ensures steps[0] == NextStep(c, light, relative, t) && EndOfUpdates(c.w, light, relative, t) == None
  {
  }

  /** After a reset the steps of a run are sized from the estimates for their starts exactly if the plan
      does not start at the deluge date, or the estimates for that date are zero. */
  lemma KeysAreEstimatesExactlyWhen(c: Call, light: Body, relative: Option<Body>, t: int, steps: seq<Step>)
    requires IsWorld(c.w) && IsReset(light, relative)
    requires steps == StepsFrom(c, light, relative, t).steps && steps != []
    ensures KeysAreEstimates(c, light, relative, steps) <==>
            t != DELUGE || (ZeroAtDeluge(c.w, light) && (relative.Some? ==> ZeroAtDeluge(c.w, relative.value)))
  {
    forall i | 0 < i < |steps|
      ensures StepHasEstimates(c, light, relative, steps, i)
    {
      LaterKeysAreEstimates(c, light, relative, t, steps, i);
      EstimatesOfStep(c, light, relative, steps, i);
    }
    FirstOfRun(c, light, relative, t, steps);
    FirstStepHasEstimatesExactlyWhen(c, light, relative, t, steps);
  }

  // ---------------------------------------------------------------------------
  // The end of a run
  // ---------------------------------------------------------------------------

  /** Where a run stands: the bodies and the time. */
  datatype Place = Place(light: Body, relative: Option<Body>, t: int)

  /** Where a run is after its steps. */
  function LastPlace(light: Body, relative: Option<Body>, t: int, steps: seq<Step>): Place {
    var n := |steps|;
    Place(LightBefore(steps, n, light), RelativeBefore(steps, n, relative), StartOf(steps, n, t))
  }

  /** A step would be shorter than half a millisecond: the bodies are at one place, or the error
      after half a millisecond is larger than what was asked for. */
  predicate Stalls(c: Call, p: Place)
    requires IsWorld(c.w)
  {
    var r := Distance(c, p.t);
    var error := DecodedError(c.w, UpdatedBody(c.w, p.light, p.t), UpdatedIfAny(c.w, p.relative, p.t));
    r == 0.0 || !Allows(c.w, error, c.period, r, 0.0005)
  }

  lemma NoStepExactlyWhen(c: Call, p: Place)
    requires IsWorld(c.w) && p.t < c.planEnd
    ensures NextStep(c, p.light, p.relative, p.t).to <= p.t <==> Stalls(c, p)
  {
    var s := NextStep(c, p.light, p.relative, p.t);
    StepReaches(c.w, s.light, s.relative, c.period, Distance(c, p.t), 1);
    assert Seconds(1) - 0.0005 == 0.0005;
  }

  lemma LastPlaceOfMore(s: Step, rest: seq<Step>, light: Body, relative: Option<Body>, t: int)
    ensures LastPlace(light, relative, t, [s] + rest) == LastPlace(s.light, s.relative, s.to, rest)
  {
    if rest != [] {
      BeforeLaterStep(s, rest, light, relative, t, |rest| + 1, [s] + rest);
    }
  }

  /** A run that does not complete stops at the place it reached last. */
  lemma {:induction false} RunStopsWhere(c: Call, light: Body, relative: Option<Body>, t: int, p: Place)
    requires IsWorld(c.w) && p == LastPlace(light, relative, t, StepsFrom(c, light, relative, t).steps)
    ensures var o := StepsFrom(c, light, relative, t).outcome;
            if p.t >= c.planEnd then o == Completed else StopAt(c, p.light, p.relative, p.t) == Some(o)
    decreases c.planEnd - t
  {
    if t < c.planEnd && StopAt(c, light, relative, t) == None {
      var s := NextStep(c, light, relative, t);
      LastPlaceOfMore(s, StepsFrom(c, s.light, s.relative, s.to).steps, light, relative, t);
      RunStopsWhere(c, s.light, s.relative, s.to, p);
    }
  }

  lemma StopsStalledExactlyWhen(c: Call, p: Place)
    requires IsWorld(c.w) && p.t < c.planEnd
    ensures StopAt(c, p.light, p.relative, p.t) == Some(NoProgress) <==>
            FailureAt(c, p.light, p.relative, p.t) == None && Stalls(c, p)
  {
    NoStepExactlyWhen(c, p);
  }

  /** The loop goes on for ever exactly if it comes to a place before the end of the plan from which
      propagate succeeds, but the step rounds to nothing. */
  lemma RunStallsExactlyWhen(c: Call, light: Body, relative: Option<Body>, t: int, p: Place)
    requires IsWorld(c.w) && p == LastPlace(light, relative, t, StepsFrom(c, light, relative, t).steps)
    ensures StepsFrom(c, light, relative, t).outcome == NoProgress <==>
            p.t < c.planEnd && FailureAt(c, p.light, p.relative, p.t) == None && Stalls(c, p)
  {
    RunStopsWhere(c, light, relative, t, p);
    if p.t < c.planEnd {
      StopsStalledExactlyWhen(c, p);
    }
  }

  /** It ends with a throw that leaves the light body torn exactly if it comes to a place where an estimate
      for that body is missing, and with one that leaves both bodies whole exactly if the updates succeed
      there but the state at the start or the end of the step is missing. */
  lemma RunThrowsExactlyWhen(c: Call, light: Body, relative: Option<Body>, t: int, p: Place)
    requires IsWorld(c.w) && p == LastPlace(light, relative, t, StepsFrom(c, light, relative, t).steps)
    ensures var o := StepsFrom(c, light, relative, t).outcome;
            && (forall i :: o == Thrown(LightTorn(i)) <==> p.t < c.planEnd && FirstWithout(c.w, p.light, p.t, i))
            && (forall i :: o == Thrown(RelativeTorn(i)) <==>
                  p.t < c.planEnd && CanUpdate(c.w, p.light, p.t)
                  && p.relative.Some? && FirstWithout(c.w, p.relative.value, p.t, i))
            && (o == Thrown(Whole) <==>
                  p.t < c.planEnd && CanUpdate(c.w, p.light, p.t)
                  && (p.relative.Some? ==> CanUpdate(c.w, p.relative.value, p.t))
                  && (!Known(c, p.t) || !Known(c, NextStep(c, p.light, p.relative, p.t).to)))
  {
    RunStopsWhere(c, light, relative, t, p);
    UpdatesEnd(c.w, p.light, p.relative, p.t);
    NeverThrowsWhole(c.w, p.light, p.relative, p.t);
  }

  lemma NeverThrowsWhole(w: World, light: Body, relative: Option<Body>, t: int)
    ensures EndOfUpdates(w, light, relative, t) != Some(Thrown(Whole))
  {
  }

  /** Two bodies at one place at the start of the plan make the loop endless. */
  lemma StallsAtOnce(c: Call, light: Body, relative: Option<Body>, t: int, s: State)
    requires IsWorld(c.w) && t < c.planEnd && EndOfUpdates(c.w, light, relative, t) == None
    requires c.w.eph(c.args, t) == Some(s) && s.x == s.y == s.z == 0.0
    ensures StepsFrom(c, light, relative, t) == Run(NoProgress, [])
  {
    ZeroProduct(c.w.radius(s), c.w.radius(s));
    NoStepExactlyWhen(c, Place(light, relative, t));
    RoundsToNearest(0.0);
  }

  // ---------------------------------------------------------------------------
  // Runs that complete
  // ---------------------------------------------------------------------------

  /** What is known beforehand of the estimates for pairs of a light and a heavy body: with good memories,
      given by the pair, their time and their state, no key exceeds a bound and the next memory is good.
      And a distance that the bodies keep, and the milliseconds that every step makes. */
  datatype Bounds = Bounds(
    pairs: set<(int, int)>,
    good: (int, int, int, State) -> bool,
    key: int,
    distance: real,
    step: int)

  /** No memory, or a good one of an earlier time. */
  predicate GoodMemory(bs: Bounds, i: int, j: int, u: int, p: Option<(int, State)>) {
    p.Some? ==> p.value.0 < u && bs.good(i, j, p.value.0, p.value.1)
  }

  predicate GoodEstimate(bs: Bounds, i: int, j: int, u: int, e: Option<(int, State)>) {
    e.Some? && e.value.0 <= bs.key && bs.good(i, j, u, e.value.1)
  }

  /** Within the plan, estimates from good memories are good. */
  ghost predicate EstimatesStayGood(w: World, bs: Bounds, t: int, planEnd: int) {
    forall i, j, u, p :: (i, j) in bs.pairs && t <= u < planEnd && GoodMemory(bs, i, j, u, p) ==>
      GoodEstimate(bs, i, j, u, w.estimate(i, j, u, p))
  }

  predicate GoodDatum(bs: Bounds, light: int, d: Datum) {
    d.key <= bs.key && (d.prevTime > DELUGE ==> bs.good(light, d.bodyID, d.prevTime, d.prevState))
  }

  predicate GoodBody(bs: Bounds, b: Body) {
    forall d <- b.data :: (b.id, d.bodyID) in bs.pairs && GoodDatum(bs, b.id, d)
  }

  predicate AllGood(bs: Bounds, light: Body, relative: Option<Body>) {
    GoodBody(bs, light) && (relative.Some? ==> GoodBody(bs, relative.value))
  }

  lemma UpdateStaysGood(w: World, bs: Bounds, b: Body, t: int, planEnd: int)
    requires EstimatesStayGood(w, bs, t, planEnd) && t < planEnd && GoodBody(bs, b) && NotAhead(b.data, t)
    ensures GoodBody(bs, UpdatedBody(w, b, t))
    ensures CanUpdate(w, b, t)
  {
    forall d | d in b.data
      ensures Estimable(w.estimate, b.id, d, t)
      ensures GoodDatum(bs, b.id, Evaluate(w.estimate, b.id, d, t))
    {
      if d.prevTime != t {
        assert GoodMemory(bs, b.id, d.bodyID, t, Previous(d));
        assert GoodEstimate(bs, b.id, d.bodyID, t, w.estimate(b.id, d.bodyID, t, Previous(d)));
      }
    }
    forall x | x in UpdatedBody(w, b, t).data
      ensures (b.id, x.bodyID) in bs.pairs && GoodDatum(bs, b.id, x)
    {
      var i :| 0 <= i < |b.data| && UpdatedBody(w, b, t).data[i] == x;
      assert b.data[i] in b.data;
    }
  }

  /** The decoded bound for each body. */
  function DecodedBound(w: World, relative: Option<Body>, bound: int): (e: real)
    requires IsWorld(w)
    ensures e > 0.0
  {
    w.decode(bound) + if relative.None? then 0.0 else w.decode(bound)
  }

  lemma DecodedWithin(w: World, light: Body, relative: Option<Body>, bound: int)
    requires IsWorld(w) && bound >= 0 && (forall d <- light.data :: d.key <= bound)
    requires relative.Some? ==> forall d <- relative.value.data :: d.key <= bound
    ensures DecodedError(w, light, relative) <= DecodedBound(w, relative, bound)
  {
    if light.data != [] {
      MaxKeyIsMax(light.data);
    }
    if relative.Some? && relative.value.data != [] {
      MaxKeyIsMax(relative.value.data);
    }
  }

  lemma QuotientGrows(a: real, b: real, r: real, s: real)
    requires 0.0 <= a <= b && 0.0 < s <= r
    ensures a / r <= b / s
  {
    Quotient(a, r);
    Quotient(b, s);
    ScaledOrder(s, r, 1.0);
    if a / r > b / s {
      ScaledOrder(a / r, b / s, s);
      Quotient(a, s);
    }
  }

  /** Bodies whose states are known and that stay at least a distance apart, with estimates that stay good,
      move so many milliseconds in each step if the worst error after those less a half is not larger than
      what was asked for. */
  ghost predicate Advances(c: Call, bs: Bounds, relative: Option<Body>, t: int)
    requires IsWorld(c.w)
  {
    && 1 <= bs.step <= 30000000000 && 0 <= bs.key && bs.distance > 0.0
    && EstimatesStayGood(c.w, bs, t, c.planEnd)
    && (forall u :: t <= u <= c.planEnd ==> Known(c, u))
    && (forall u :: t <= u < c.planEnd ==> Distance(c, u) >= bs.distance)
    && Allows(c.w, DecodedBound(c.w, relative, bs.key), c.period, bs.distance, Seconds(bs.step) - 0.0005)
  }

  lemma AdvancesLater(c: Call, bs: Bounds, relative: Option<Body>, relative': Option<Body>, t: int, u: int)
    requires IsWorld(c.w) && Advances(c, bs, relative, t)
    requires t <= u && relative'.Some? == relative.Some?
    ensures Advances(c, bs, relative', u)
  {
    assert DecodedBound(c.w, relative', bs.key) == DecodedBound(c.w, relative, bs.key);
    assert EstimatesStayGood(c.w, bs, u, c.planEnd);
  }

  lemma SmallerError(p: real, e: real, worst: real, frame: real, limit: real)
    requires p > 0.0 && e <= worst && p * (worst + frame) <= limit
    ensures p * (e + frame) <= limit
  {
    ScaledOrder(e + frame, worst + frame, p);
  }

  lemma SmallerErrorAllowed(w: World, e: real, worst: real, period: real, r: real, distance: real, d: real)
    requires 0.0 < distance <= r && d > 0.0 && 0.0 <= e <= worst && Allows(w, worst, period, distance, d)
    ensures Allows(w, e, period, r, d)
  {
    QuotientGrows(e, worst, r, distance);
    PositivePow4(d);
    ErrorAtRate(e, period, r, d);
    ErrorAtRate(worst, period, distance, d);
    SmallerError(Pow4(d), e / r, worst / distance, FrameError(period), w.relError);
  }

  lemma BothStayGood(c: Call, bs: Bounds, light: Body, relative: Option<Body>, t: int, s: Step)
    requires IsWorld(c.w) && EstimatesStayGood(c.w, bs, t, c.planEnd) && t < c.planEnd
    requires AllGood(bs, light, relative) && ReadyAt(light, relative, t) && s == NextStep(c, light, relative, t)
    ensures AllGood(bs, s.light, s.relative) && s.relative.Some? == relative.Some?
    ensures EndOfUpdates(c.w, light, relative, t) == None
  {
    UpdateStaysGood(c.w, bs, light, t, c.planEnd);
    if relative.Some? {
      UpdateStaysGood(c.w, bs, relative.value, t, c.planEnd);
    }
    UpdatesEnd(c.w, light, relative, t);
  }

  lemma StepIsLong(c: Call, bs: Bounds, light: Body, relative: Option<Body>, t: int, s: Step)
    requires IsWorld(c.w) && t < c.planEnd && Advances(c, bs, relative, t)
    requires AllGood(bs, s.light, s.relative) && s == NextStep(c, light, relative, t)
    ensures s.to == c.planEnd || t + bs.step <= s.to < c.planEnd
  {
    assert Milliseconds(SamplingSeconds(c.w, s.light, s.relative, c.period, Distance(c, t))) >= bs.step by {
      DecodedWithin(c.w, s.light, s.relative, bs.key);
      SmallerErrorAllowed(c.w, DecodedError(c.w, s.light, s.relative), DecodedBound(c.w, relative, bs.key),
                          c.period, Distance(c, t), bs.distance, Seconds(bs.step) - 0.0005);
      StepReaches(c.w, s.light, s.relative, c.period, Distance(c, t), bs.step);
    }
  }

  /** All of n steps of m milliseconds but the last fit into a time. */
  predicate Fits(n: nat, m: int, time: int) {
    n > 0 ==> (n - 1) * m < time
  }

  lemma OneMoreFits(n: nat, m: int, after: int, before: int)
    requires before > 0 && Fits(n, m, after) && (n > 0 ==> after + m <= before)
    ensures Fits(n + 1, m, before)
  {
    if n > 0 {
      assert n * m == (n - 1) * m + m;
    }
  }

  lemma RestFits(c: Call, s: Step, t: int, m: int)
    requires IsWorld(c.w) && t < c.planEnd && (s.to == c.planEnd || t + m <= s.to < c.planEnd)
    requires Fits(|StepsFrom(c, s.light, s.relative, s.to).steps|, m, c.planEnd - s.to)
    ensures Fits(1 + |StepsFrom(c, s.light, s.relative, s.to).steps|, m, c.planEnd - t)
  {
    OneMoreFits(|StepsFrom(c, s.light, s.relative, s.to).steps|, m, c.planEnd - s.to, c.planEnd - t);
  }

  /** What a step of such a run leads to. */
  lemma StepOnward(c: Call, bs: Bounds, light: Body, relative: Option<Body>, t: int, s: Step)
    requires IsWorld(c.w) && ReadyAt(light, relative, t) && AllGood(bs, light, relative) && t < c.planEnd
    requires Advances(c, bs, relative, t) && s == NextStep(c, light, relative, t)
    ensures StopAt(c, light, relative, t) == None
    ensures s.to == c.planEnd || t + bs.step <= s.to < c.planEnd
    ensures ReadyAt(s.light, s.relative, s.to) && AllGood(bs, s.light, s.relative) && Advances(c, bs, s.relative, s.to)
  {
    BothStayGood(c, bs, light, relative, t, s);
    StepIsLong(c, bs, light, relative, t, s);
    assert Known(c, t) && Known(c, s.to);
    UpdateEvaluates(c.w, light, relative, t);
    AdvancesLater(c, bs, relative, s.relative, t, s.to);
  }

  /** Then the run ends at the end of the plan, after no more steps than fit into it and one. */
  lemma {:induction false} RunCompletes(c: Call, bs: Bounds, light: Body, relative: Option<Body>, t: int)
    requires IsWorld(c.w) && ReadyAt(light, relative, t) && AllGood(bs, light, relative)
    requires Advances(c, bs, relative, t)
    ensures StepsFrom(c, light, relative, t).outcome == Completed
    ensures Fits(|StepsFrom(c, light, relative, t).steps|, bs.step, c.planEnd - t)
    decreases c.planEnd - t
  {
    if t < c.planEnd {
      var s := NextStep(c, light, relative, t);
      StepOnward(c, bs, light, relative, t, s);
      RunCompletes(c, bs, s.light, s.relative, s.to);
      RestFits(c, s, t, bs.step);
    }
  }
}
