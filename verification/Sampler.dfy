/** The sampling loop over the ephemeris and the cache of its results. */
module Sampler {
  import opened Influencers
  import opened Options
  import opened Steps
  import SampleTimes

  datatype Sample = Sample(time: int, state: State)

  predicate AllKnown(w: World, a: Args, times: seq<int>) {
    forall i :: 0 <= i < |times| ==> w.eph(a, times[i]).Some?
  }

  /** The samples at the given times, up to the first one at which the ephemeris throws. */
  function Recorded(w: World, a: Args, times: seq<int>): seq<Sample> {
    if times == [] then []
    else match w.eph(a, times[0])
      case None => []
      case Some(state) => [Sample(times[0], state)] + Recorded(w, a, times[1..])
  }

  lemma {:induction false} RecordedIs(w: World, a: Args, times: seq<int>, r: seq<Sample>)
    requires r == Recorded(w, a, times)
    ensures |r| <= |times|
    ensures forall i :: 0 <= i < |r| ==> r[i].time == times[i] && w.eph(a, times[i]) == Some(r[i].state)
    ensures |r| < |times| ==> w.eph(a, times[|r|]) == None
    ensures AllKnown(w, a, times) <==> |r| == |times|
    decreases |times|
  {
    if times != [] && w.eph(a, times[0]).Some? {
      RecordedIs(w, a, times[1..], r[1..]);
      assert AllKnown(w, a, times) <==> AllKnown(w, a, times[1..]);
    }
  }

  lemma KnownTogether(w: World, a: Args, s: seq<int>, t: seq<int>)
    ensures AllKnown(w, a, s + t) <==> AllKnown(w, a, s) && AllKnown(w, a, t)
  {
    assert forall i :: 0 <= i < |s| ==> (s + t)[i] == s[i];
    assert forall i :: 0 <= i < |t| ==> (s + t)[|s| + i] == t[i];
  }

  lemma KnownFirst(w: World, a: Args, s: seq<int>)
    requires s != []
    ensures AllKnown(w, a, s) <==> w.eph(a, s[0]).Some? && AllKnown(w, a, s[1..])
  {
    assert forall i :: 1 <= i < |s| ==> s[1..][i - 1] == s[i];
  }

  lemma Regrouped(x: Sample, s: seq<Sample>, t: seq<Sample>)
    ensures [x] + (s + t) == ([x] + s) + t
  {
  }

  lemma {:induction false} RecordedAfter(w: World, a: Args, s: seq<int>, t: seq<int>)
    ensures Recorded(w, a, s + t)
         == if AllKnown(w, a, s) then Recorded(w, a, s) + Recorded(w, a, t) else Recorded(w, a, s)
    decreases |s|
  {
    if s == [] {
      assert s + t == t;
    } else {
      assert (s + t)[1..] == s[1..] + t && (s + t)[0] == s[0];
      KnownFirst(w, a, s);
      var state := w.eph(a, s[0]);
      if state.Some? {
        RecordedAfter(w, a, s[1..], t);
        Regrouped(Sample(s[0], state.value), Recorded(w, a, s[1..]), Recorded(w, a, t));
      }
    }
  }

  lemma RecordedTogether(w: World, a: Args, s: seq<int>, t: seq<int>)
    ensures AllKnown(w, a, s + t) <==> AllKnown(w, a, s) && AllKnown(w, a, t)
    ensures Recorded(w, a, s + t)
         == if AllKnown(w, a, s) then Recorded(w, a, s) + Recorded(w, a, t) else Recorded(w, a, s)
  {
    KnownTogether(w, a, s, t);
    RecordedAfter(w, a, s, t);
  }

  lemma DropOne(maneuvers: seq<int>, k: nat, t: int)
    requires k < |maneuvers| && maneuvers[k] <= t
    ensures SampleTimes.DropUpTo(maneuvers[k..], t) == SampleTimes.DropUpTo(maneuvers[k + 1..], t)
  {
    assert maneuvers[k..][1..] == maneuvers[k + 1..];
  }

  /** Move to the first maneuver after t. */
  method NextManeuver(maneuvers: seq<int>, k0: nat, t: int) returns (k: nat)
    requires k0 <= |maneuvers|
    ensures k0 <= k <= |maneuvers| && maneuvers[k..] == SampleTimes.DropUpTo(maneuvers[k0..], t)
  {
    k := k0;
    while k < |maneuvers| && maneuvers[k] <= t
      invariant k0 <= k <= |maneuvers|
      invariant SampleTimes.DropUpTo(maneuvers[k..], t) == SampleTimes.DropUpTo(maneuvers[k0..], t)
    {
      DropOne(maneuvers, k, t);
      k := k + 1;
    }
  }

  /** One more node, after those at the times done so far. */
  method RecordNode(w: World, a: Args, t: int, samples0: seq<Sample>, ghost base: seq<Sample>, ghost done: seq<int>)
    returns (ok: bool, samples: seq<Sample>)
    requires AllKnown(w, a, done) && samples0 == base + Recorded(w, a, done)
    ensures ok <==> AllKnown(w, a, done + [t])
    ensures samples == base + Recorded(w, a, done + [t])
  {
    var state := w.eph(a, t);
    RecordedTogether(w, a, done, [t]);
    assert AllKnown(w, a, [t]) <==> state.Some?;
    assert Recorded(w, a, [t][1..]) == [];
    if state.None? {
      return false, samples0;
    }
    ok, samples := true, samples0 + [Sample(t, state.value)];
  }

  /** The nodes a minute before and after a maneuver. */
  method RecordManeuver(w: World, a: Args, next: int, samples0: seq<Sample>)
    returns (ok: bool, samples: seq<Sample>)
    ensures var nodes := [next - SampleTimes.MINUTE, next + SampleTimes.MINUTE];
            && (ok <==> AllKnown(w, a, nodes))
            && samples == samples0 + Recorded(w, a, nodes)
  {
    var before, after := next - SampleTimes.MINUTE, next + SampleTimes.MINUTE;
    RecordedTogether(w, a, [before], [after]);
    assert [] + [before] == [before] && [before] + [after] == [before, after];
    ok, samples := RecordNode(w, a, before, samples0, samples0, []);
    if ok {
      ok, samples := RecordNode(w, a, after, samples, samples0, [before]);
    }
  }

  /** The second half of the loop body: nodes around a maneuver within the step, and the end of the
      step. Fails, with the assertion of the source, if the maneuver is not ahead of the step, and
      throws where the state at one of the nodes is missing, with the nodes before it recorded. */
  method RecordStep(w: World, a: Args, maneuvers: seq<int>, k0: nat, oldTime: int, newTime: int, state: State,
                    samples0: seq<Sample>)
    returns (stop: Option<Outcome>, k: nat, samples: seq<Sample>)
    requires k0 <= |maneuvers| && w.eph(a, newTime) == Some(state)
    ensures stop == if k0 < |maneuvers| && maneuvers[k0] <= oldTime then Some(AssertionFailed)
                    else if AllKnown(w, a, SampleTimes.Nodes(maneuvers[k0..], newTime)) then None
                    else Some(Thrown(Whole))
    ensures stop == None ==> k <= |maneuvers| && maneuvers[k..] == SampleTimes.DropUpTo(maneuvers[k0..], newTime)
    ensures stop != Some(AssertionFailed) ==>
              samples == samples0 + Recorded(w, a, SampleTimes.Nodes(maneuvers[k0..], newTime))
  {
    ghost var nodes := SampleTimes.Nodes(maneuvers[k0..], newTime);
    ghost var done: seq<int> := [];
    var skipNewTime := false;
    k, samples := k0, samples0;
    if k0 < |maneuvers| {
      var next := maneuvers[k0];
      if !(next > oldTime) {
        return Some(AssertionFailed), k, samples;
      }
      if newTime >= next {
        skipNewTime := newTime - next <= 2 * SampleTimes.MINUTE;
        var ok;
        ok, samples := RecordManeuver(w, a, next, samples);
        done := [next - SampleTimes.MINUTE, next + SampleTimes.MINUTE];
        if !ok {
          RecordedTogether(w, a, done, nodes[2..]);
          assert nodes == done + nodes[2..];
          return Some(Thrown(Whole)), k, samples;
        }
        k := NextManeuver(maneuvers, k0, newTime);
      }
    }
    if !skipNewTime {
      assert nodes == done + [newTime];
      RecordedTogether(w, a, done, [newTime]);
      assert Recorded(w, a, [newTime][1..]) == [];
      samples := samples + [Sample(newTime, state)];
    }
    stop := None;
  }

  // ---------------------------------------------------------------------------
  // Propagation
  // ---------------------------------------------------------------------------

  ghost function BodyOf(b: BodyState): Body
    reads b, b.byBody
  {
    Body(b.id, b.Data())
  }

  ghost function BodyIfAny(b: BodyState?): Option<Body>
    reads b, if b == null then [] else b.byBody
  {
    if b == null then None else Some(BodyOf(b))
  }

  function Tracked(b: BodyState?): seq<Influencer>
    reads b
  {
    if b == null then [] else b.byBody
  }

  /** The light body and, if it is known, the other one: either the same object or unrelated ones. */
  ghost predicate Usable(light: BodyState, relative: BodyState?)
    reads light, relative, light.byError, if relative == null then [] else relative.byError
  {
    && light.Agree()
    && (relative != null ==> relative.Agree())
    && (relative == light || forall x <- light.byBody :: x !in Tracked(relative))
  }

  /** How the lists of both bodies are left by a throw. */
  ghost predicate TornAs(light: BodyState, relative: BodyState?, tear: Tear)
    reads light, relative, light.byError, if relative == null then [] else relative.byError
  {
    match tear
    case Whole => light.Agree() && (relative != null ==> relative.Agree())
    case LightTorn(i) => light.Lacks(i) && (relative != null && relative != light ==> relative.Agree())
    case RelativeTorn(i) => relative != null && relative != light && light.Agree() && relative.Lacks(i)
  }

  lemma SecondUpdateSucceeds(e: Estimator, light: int, s: seq<Datum>, t: int, r: seq<Datum>)
    requires EndOfUpdate(e, light, s, t) == Done && r == Updated(e, light, s, t)
    ensures EndOfUpdate(e, light, r, t) == Done
  {
    UpdatedAtOneTime(e, light, s, t, r);
    UpdateSucceedsExactlyWhen(e, light, r, t);
    forall d | d in r
      ensures d.prevTime == t
    {
      var i :| 0 <= i < |r| && r[i] == d;
      assert Evaluated(e, light, s[i], r[i], t);
    }
    assert NotAhead(r, t);
  }

  /** The update of a body that is both the light and the other one. */
  method UpdateTwice(w: World, light: BodyState, t: int) returns (r: UpdateEnd)
    requires light.Agree()
    modifies light, light.byBody
    ensures r == EndOfUpdate(w.estimate, light.id, old(light.Data()), t)
    ensures light.byBody == old(light.byBody)
    ensures r.Done? ==> light.Agree() && light.Data() == Updated(w.estimate, light.id, old(light.Data()), t)
    ensures r.Threw? ==> light.Lacks(r.at)
  {
    ghost var before := light.Data();
    r := light.UpdateInfluencers(w.estimate, t);
    if r.Done? {
      SecondUpdateSucceeds(w.estimate, light.id, before, t, light.Data());
      UpdatedTwice(w.estimate, light.id, before, t);
      r := light.UpdateInfluencers(w.estimate, t);
    }
  }

  ghost function Bodies(light: BodyState, relative: BodyState?): (Body, Option<Body>)
    reads light, relative, light.byBody, Tracked(relative)
  {
    (BodyOf(light), BodyIfAny(relative))
  }

  ghost predicate HaveData(light: BodyState, relative: BodyState?, b: (Body, Option<Body>))
    reads light, relative, light.byBody, Tracked(relative)
  {
    b == Bodies(light, relative)
  }

  function Next(c: Call, b: (Body, Option<Body>), t: int): int
    requires IsWorld(c.w)
  {
    NextStep(c, b.0, b.1, t).to
  }

  function UpdatedBodies(w: World, b: (Body, Option<Body>), t: int): (Body, Option<Body>) {
    (UpdatedBody(w, b.0, t), UpdatedIfAny(w, b.1, t))
  }

  function UpdateFailure(w: World, b: (Body, Option<Body>), t: int): Option<Outcome> {
    EndOfUpdates(w, b.0, b.1, t)
  }

  /** How the first call of propagate fails, if it does. */
  function FirstFailure(c: Call, b: (Body, Option<Body>), t: int): Option<Outcome> {
    match UpdateFailure(c.w, b, t)
    case Some(o) => Some(o)
    case None => if Known(c, t) then None else Some(Thrown(Whole))
  }

  /** Nothing happens to a body when other influencers change. */
  twostate lemma Untouched(b: BodyState)
    requires old(b.Intact()) && b.byError == old(b.byError) && b.byBody == old(b.byBody)
    requires forall x <- b.byBody :: x.Get() == old(x.Get())
    ensures b.Intact() && (b.Agree() <==> old(b.Agree())) && b.Data() == old(b.Data())
  {
    forall x | x in b.byError
      ensures x.key == old(x.key)
    {
      assert x in multiset(b.byError) && x in multiset(b.byBody);
      assert x.Get() == old(x.Get());
    }
    assert |b.Data()| == |old(b.Data())|;
    forall i | 0 <= i < |b.byBody|
      ensures b.Data()[i] == old(b.Data())[i]
    {
      assert b.byBody[i].Get() == old(b.byBody[i].Get());
    }
  }

  method UpdateApart(w: World, light: BodyState, relative: BodyState, t: int) returns (stop: Option<Outcome>)
    requires Usable(light, relative) && light != relative
    modifies light, light.byBody, relative, relative.byBody
    ensures stop == UpdateFailure(w, old(Bodies(light, relative)), t)
    ensures light.byBody == old(light.byBody) && relative.byBody == old(relative.byBody)
    ensures stop == None ==> Usable(light, relative)
    ensures stop == None ==> light.Data() == Updated(w.estimate, light.id, old(light.Data()), t)
    ensures stop == None ==> relative.Data() == Updated(w.estimate, relative.id, old(relative.Data()), t)
    ensures stop.Some? && stop.value.Thrown? ==> TornAs(light, relative, stop.value.tear)
  {
    light.SameMembers();
    relative.SameMembers();
    assert forall x <- relative.byBody :: x !in light.byBody;
    relative.AgreeingIsIntact();
    label Before:
    var r := light.UpdateInfluencers(w.estimate, t);
    Untouched@Before(relative);
    if r.Asserted? {
      return Some(AssertionFailed);
    }
    if r.Threw? {
      return Some(Thrown(LightTorn(r.at)));
    }
    light.SameMembers();
    light.AgreeingIsIntact();
    label Between:
    r := relative.UpdateInfluencers(w.estimate, t);
    Untouched@Between(light);
    stop := if r.Asserted? then Some(AssertionFailed)
            else if r.Threw? then Some(Thrown(RelativeTorn(r.at))) else None;
  }

  method UpdateBoth(w: World, light: BodyState, relative: BodyState?, t: int) returns (stop: Option<Outcome>)
    requires Usable(light, relative)
    modifies light, light.byBody, relative, Tracked(relative)
    ensures stop == UpdateFailure(w, old(Bodies(light, relative)), t)
    ensures light.byBody == old(light.byBody) && Tracked(relative) == old(Tracked(relative))
    ensures stop == None ==> Usable(light, relative)
    ensures stop == None ==> Bodies(light, relative) == UpdatedBodies(w, old(Bodies(light, relative)), t)
    ensures stop.Some? && stop.value.Thrown? ==> TornAs(light, relative, stop.value.tear)
  {
    if relative != null && relative != light {
      stop := UpdateApart(w, light, relative, t);
    } else {
      var r;
      if relative == null {
        r := light.UpdateInfluencers(w.estimate, t);
      } else {
        r := UpdateTwice(w, light, t);
      }
      stop := if r.Asserted? then Some(AssertionFailed)
              else if r.Threw? then Some(Thrown(LightTorn(r.at))) else None;
    }
  }

  method DecodeErrors(w: World, light: BodyState, relative: BodyState?) returns (decoded: real)
    requires IsWorld(w) && Usable(light, relative)
    ensures decoded == DecodedError(w, BodyOf(light), BodyIfAny(relative))
  {
    var encoded := light.ErrPerSec4th();
    decoded := w.decode(encoded);
    if relative != null {
      var second := relative.ErrPerSec4th();
      decoded := decoded + w.decode(second);
    }
  }

  /** The calls of spkez in propagate, once both bodies are updated. */
  method Onward(c: Call, now: int, firstTime: bool, decoded: real, ghost b: (Body, Option<Body>))
    returns (stop: Option<Outcome>, newTime: int, state: State)
    requires IsWorld(c.w) && UpdateFailure(c.w, b, now) == None
    requires var u := UpdatedBodies(c.w, b, now); decoded == DecodedError(c.w, u.0, u.1)
    ensures stop == if firstTime then FirstFailure(c, b, now) else FailureAt(c, b.0, b.1, now)
    ensures stop.Some? ==> stop.value == Thrown(Whole)
    ensures stop == None ==> newTime == (if firstTime then now else Next(c, b, now))
    ensures stop == None ==> c.w.eph(c.args, newTime) == Some(state)
  {
    newTime, state := now, State(0.0, 0.0, 0.0, 0.0, 0.0, 0.0);
    var result := c.w.eph(c.args, now);
    if result.None? {
      return Some(Thrown(Whole)), newTime, state;
    }
    state := result.value;
    if firstTime {
      return None, newTime, state;
    }
    var seconds := Interval(c.w, decoded, c.period, c.w.radius(state));
    newTime := StepEnd(now, seconds, c.planEnd);
    result := c.w.eph(c.args, newTime);
    if result.None? {
      return Some(Thrown(Whole)), newTime, state;
    }
    stop, state := None, result.value;
  }

  /** What follows the updates in propagate. */
  method FromUpdated(c: Call, light: BodyState, relative: BodyState?, now: int, firstTime: bool,
                     ghost b0: (Body, Option<Body>), ghost b: (Body, Option<Body>))
    returns (stop: Option<Outcome>, newTime: int, state: State)
    requires IsWorld(c.w) && Usable(light, relative) && HaveData(light, relative, b)
    requires UpdateFailure(c.w, b0, now) == None && b == UpdatedBodies(c.w, b0, now)
    ensures Usable(light, relative) && HaveData(light, relative, b)
    ensures stop == if firstTime then FirstFailure(c, b0, now) else FailureAt(c, b0.0, b0.1, now)
    ensures stop.Some? ==> stop.value == Thrown(Whole)
    ensures stop == None ==> newTime == if firstTime then now else Next(c, b0, now)
    ensures stop == None ==> c.w.eph(c.args, newTime) == Some(state)
  {
    var decoded := DecodeErrors(c.w, light, relative);
    stop, newTime, state := Onward(c, now, firstTime, decoded, b0);
  }

  /** propagate: the time at the end of the next step and the state at that time; the first call
      only evaluates the state at the start. A throw out of an update leaves that body torn, one out of
      the calls of spkez here leaves both whole. */
  method Propagate(c: Call, light: BodyState, relative: BodyState?, now: int, firstTime: bool)
    returns (stop: Option<Outcome>, newTime: int, state: State, ghost b: (Body, Option<Body>))
    requires IsWorld(c.w) && Usable(light, relative)
    modifies light, light.byBody, relative, Tracked(relative)
    ensures stop == var b0 := old(Bodies(light, relative));
                    if firstTime then FirstFailure(c, b0, now) else FailureAt(c, b0.0, b0.1, now)
    ensures light.byBody == old(light.byBody) && Tracked(relative) == old(Tracked(relative))
    ensures stop == None ==> Usable(light, relative) && HaveData(light, relative, b)
    ensures b == UpdatedBodies(c.w, old(Bodies(light, relative)), now)
    ensures stop == None ==> newTime == if firstTime then now else Next(c, old(Bodies(light, relative)), now)
    ensures stop == None ==> c.w.eph(c.args, newTime) == Some(state)
    ensures stop.Some? && stop.value.Thrown? ==> TornAs(light, relative, stop.value.tear)
  {
    newTime, state := now, State(0.0, 0.0, 0.0, 0.0, 0.0, 0.0);
    ghost var b0 := Bodies(light, relative);
    b := UpdatedBodies(c.w, b0, now);
    stop := UpdateBoth(c.w, light, relative, now);
    if stop == None {
      stop, newTime, state := FromUpdated(c, light, relative, now, firstTime, b0, b);
    }
  }

  // ---------------------------------------------------------------------------
  // The loop
  // ---------------------------------------------------------------------------

  /** The steps of a run from time t, bodies given as values. */
  function RunFrom(c: Call, bodies: (Body, Option<Body>), t: int): Run
    requires IsWorld(c.w)
  {
    StepsFrom(c, bodies.0, bodies.1, t)
  }

  lemma UpdatedBodiesTwice(w: World, b: (Body, Option<Body>), t: int)
    requires UpdateFailure(w, b, t) == None
    ensures UpdatedBodies(w, UpdatedBodies(w, b, t), t) == UpdatedBodies(w, b, t)
    ensures UpdateFailure(w, UpdatedBodies(w, b, t), t) == None
  {
    UpdatedTwice(w.estimate, b.0.id, b.0.data, t);
    SecondUpdateSucceeds(w.estimate, b.0.id, b.0.data, t, UpdatedBodies(w, b, t).0.data);
    if b.1.Some? {
      UpdatedTwice(w.estimate, b.1.value.id, b.1.value.data, t);
      SecondUpdateSucceeds(w.estimate, b.1.value.id, b.1.value.data, t, UpdatedBodies(w, b, t).1.value.data);
    }
  }

  /** The call of propagate before the first step does not change the run. */
  lemma RunAfterUpdate(c: Call, b: (Body, Option<Body>), t: int)
    requires IsWorld(c.w) && UpdateFailure(c.w, b, t) == None
    ensures RunFrom(c, UpdatedBodies(c.w, b, t), t) == RunFrom(c, b, t)
  {
    UpdatedBodiesTwice(c.w, b, t);
  }

  /** What the loop has done when it reaches time t: the points so far, and the rest of the run ahead. */
  ghost predicate Reached(c: Call, run: Run, b: (Body, Option<Body>), points: seq<int>, start: int, t: int)
    requires IsWorld(c.w)
  {
    && t == SampleTimes.LastPoint(start, points)
    && RunFrom(c, b, t).outcome == run.outcome
    && points + Ends(RunFrom(c, b, t).steps) == Ends(run.steps)
  }

  lemma ReachEnd(c: Call, run: Run, b: (Body, Option<Body>), points: seq<int>, start: int, t: int)
    requires IsWorld(c.w) && Reached(c, run, b, points, start, t)
    ensures t >= c.planEnd ==> run.outcome == Completed && points == Ends(run.steps)
    ensures t < c.planEnd && StopAt(c, b.0, b.1, t).Some? ==>
              run.outcome == StopAt(c, b.0, b.1, t).value && points == Ends(run.steps)
  {
    if t >= c.planEnd || StopAt(c, b.0, b.1, t).Some? {
      assert Ends(RunFrom(c, b, t).steps) == [];
    }
  }

  lemma ReachNext(c: Call, run: Run, b: (Body, Option<Body>), points: seq<int>, start: int, t: int, p: int)
    requires IsWorld(c.w) && Reached(c, run, b, points, start, t)
    requires t < c.planEnd && StopAt(c, b.0, b.1, t) == None && p == Next(c, b, t)
    ensures Reached(c, run, UpdatedBodies(c.w, b, t), points + [p], start, p)
  {
    var s := NextStep(c, b.0, b.1, t);
    var rest := StepsFrom(c, s.light, s.relative, s.to);
    EndsOfMore(s, rest.steps);
    assert points + ([p] + Ends(rest.steps)) == (points + [p]) + Ends(rest.steps);
  }

  /** The outcome and the samples of a run that is not stopped by the very first update: the samples end
      before the first time at which the ephemeris throws. */
  function Final(c: Call, run: Run, maneuvers: seq<int>, start: int): (Outcome, seq<Sample>) {
    var times := SampleTimes.Times(maneuvers, start, Ends(run.steps));
    (if AllKnown(c.w, c.args, times) then run.outcome else Thrown(Whole), Recorded(c.w, c.args, times))
  }

  /** How the whole loop ends, and what it has recorded by then. */
  function SampledRun(c: Call, b: (Body, Option<Body>), maneuvers: seq<int>, start: int): (Outcome, seq<Sample>)
    requires IsWorld(c.w)
  {
    var run := RunFrom(c, b, start);
    if start >= c.planEnd || UpdateFailure(c.w, b, start).Some? then (run.outcome, [])
    else Final(c, run, maneuvers, start)
  }

  lemma {:induction false} PrefixAscends(steps: seq<Step>, t: int, n: nat)
    requires forall i :: 0 <= i < |steps| ==> StartOf(steps, i, t) < steps[i].to
    requires n <= |steps|
    ensures SampleTimes.Ascending(t, Ends(steps)[..n])
  {
    if n > 0 {
      PrefixAscends(steps, t, n - 1);
      var points := Ends(steps)[..n];
      assert points[..n - 1] == Ends(steps)[..n - 1];
      assert StartOf(steps, n - 1, t) < steps[n - 1].to;
      assert SampleTimes.LastPoint(t, points[..n - 1]) == StartOf(steps, n - 1, t);
    }
  }

  /** The ends of the steps of every run ascend from its start. */
  lemma EndsAscend(c: Call, b: (Body, Option<Body>), start: int)
    requires IsWorld(c.w)
    ensures SampleTimes.Ascending(start, Ends(RunFrom(c, b, start).steps))
  {
    var steps := RunFrom(c, b, start).steps;
    RunIsChained(c, b.0, b.1, start);
    AllStepsMoveOn(c, steps, b.0, b.1, start);
    PrefixAscends(steps, start, |steps|);
    assert Ends(steps)[..|steps|] == Ends(steps);
  }

  lemma CompletedRecordsAll(c: Call, b: (Body, Option<Body>), maneuvers: seq<int>, start: int, r: seq<Sample>,
                            times: seq<int>)
    requires IsWorld(c.w) && start < c.planEnd && SampledRun(c, b, maneuvers, start) == (Completed, r)
    requires times == SampleTimes.Times(maneuvers, start, Ends(RunFrom(c, b, start).steps))
    ensures RunFrom(c, b, start).outcome == Completed && |r| == |times|
    ensures forall i :: 0 <= i < |r| ==> r[i].time == times[i] && c.w.eph(c.args, r[i].time) == Some(r[i].state)
  {
    RecordedIs(c.w, c.args, times, Recorded(c.w, c.args, times));
  }

  /** What a completed run recorded: states of the ephemeris at times that start with the plan and
      stop within a minute of its end, strictly increasing exactly if the nodes of each step come
      after those before it. */
  lemma SamplesAreSound(c: Call, b: (Body, Option<Body>), maneuvers: seq<int>, start: int, r: seq<Sample>)
    requires IsWorld(c.w) && start < c.planEnd && SampledRun(c, b, maneuvers, start) == (Completed, r)
    ensures forall s <- r :: c.w.eph(c.args, s.time) == Some(s.state)
    ensures r != [] && r[0].time == start
    ensures c.planEnd - SampleTimes.MINUTE <= r[|r| - 1].time <= c.planEnd + SampleTimes.MINUTE
    ensures (forall i :: 0 < i < |r| ==> r[i - 1].time < r[i].time)
            <==> SampleTimes.NodesAreLater(maneuvers, start, Ends(RunFrom(c, b, start).steps))
  {
    var points := Ends(RunFrom(c, b, start).steps);
    var times := SampleTimes.Times(maneuvers, start, points);
    CompletedRecordsAll(c, b, maneuvers, start, r, times);
    RunCoversPlan(c, b.0, b.1, start);
    assert SampleTimes.LastPoint(start, points) == c.planEnd;
    SampleTimes.FirstAndLast(maneuvers, start, points);
    SampleTimes.TimesIncreaseExactlyWhen(maneuvers, start, points);
  }

  /** What is kept when a run throws: of the nodes of its steps those before the first one whose state is
      missing; all of them if it was propagate that threw; none if that was at the very start. */
  lemma ThrownKeepsNodes(c: Call, b: (Body, Option<Body>), maneuvers: seq<int>, start: int, tear: Tear,
                         r: seq<Sample>, times: seq<int>)
    requires IsWorld(c.w) && start < c.planEnd && SampledRun(c, b, maneuvers, start) == (Thrown(tear), r)
    requires times == SampleTimes.Times(maneuvers, start, Ends(RunFrom(c, b, start).steps))
    ensures r == [] <==> FirstFailure(c, b, start).Some?
    ensures |r| <= |times| && forall i :: 0 <= i < |r| ==>
              r[i].time == times[i] && c.w.eph(c.args, times[i]) == Some(r[i].state)
    ensures r != [] && |r| < |times| ==> tear == Whole && c.w.eph(c.args, times[|r|]) == None
    ensures |r| == |times| ==> RunFrom(c, b, start).outcome == Thrown(tear)
  {
    RecordedIs(c.w, c.args, times, Recorded(c.w, c.args, times));
    SampleTimes.FirstAndLast(maneuvers, start, Ends(RunFrom(c, b, start).steps));
  }

  /** An input: the state is known at the start of the plan, but not at the end of the first step. One sample
      is kept. */
  lemma OneSampleKept(c: Call, b: (Body, Option<Body>), maneuvers: seq<int>, start: int, state: State)
    requires IsWorld(c.w) && start < c.planEnd && UpdateFailure(c.w, b, start) == None
    requires c.w.eph(c.args, start) == Some(state) && c.w.eph(c.args, Next(c, b, start)) == None
    ensures SampledRun(c, b, maneuvers, start) == (Thrown(Whole), [Sample(start, state)])
  {
    assert RunFrom(c, b, start) == Run(Thrown(Whole), []);
    assert SampleTimes.Times(maneuvers, start, Ends([])) == [start] && [start][1..] == [];
    assert Recorded(c.w, c.args, [start]) == [Sample(start, state)];
  }

  /** The loop invariant: the samples and the next maneuver are those of the points reached so far. */
  ghost predicate SampledSoFar(c: Call, run: Run, bodies: (Body, Option<Body>), points: seq<int>, start: int, t: int,
                               maneuvers: seq<int>, k: nat, samples: seq<Sample>)
    requires IsWorld(c.w)
  {
    && Reached(c, run, bodies, points, start, t)
    && k <= |maneuvers| && maneuvers[k..] == SampleTimes.Pending(maneuvers, start, points)
    && AllKnown(c.w, c.args, SampleTimes.Times(maneuvers, start, points))
    && samples == Recorded(c.w, c.args, SampleTimes.Times(maneuvers, start, points))
  }

  /** The nodes of one more step, if the state at each of them is known. */
  lemma SampledOneMore(c: Call, run: Run, b: (Body, Option<Body>), points: seq<int>, start: int, t: int, p: int,
                       maneuvers: seq<int>, k0: nat, samples0: seq<Sample>, k: nat, samples: seq<Sample>)
    requires IsWorld(c.w) && SampledSoFar(c, run, b, points, start, t, maneuvers, k0, samples0)
    requires t < c.planEnd && StopAt(c, b.0, b.1, t) == None && p == Next(c, b, t)
    requires k <= |maneuvers| && maneuvers[k..] == SampleTimes.DropUpTo(maneuvers[k0..], p)
    requires AllKnown(c.w, c.args, SampleTimes.Nodes(maneuvers[k0..], p))
    requires samples == samples0 + Recorded(c.w, c.args, SampleTimes.Nodes(maneuvers[k0..], p))
    ensures SampledSoFar(c, run, UpdatedBodies(c.w, b, t), points + [p], start, p, maneuvers, k, samples)
  {
    ReachNext(c, run, b, points, start, t, p);
    SampleTimes.OneMorePoint(maneuvers, start, points, p);
    RecordedTogether(c.w, c.args, SampleTimes.Times(maneuvers, start, points),
                     SampleTimes.Nodes(maneuvers[k0..], p));
  }

  /** If one of them is missing, those before it are the last ones that the run records. */
  lemma SampledBreaks(c: Call, run: Run, b: (Body, Option<Body>), points: seq<int>, start: int, t: int, p: int,
                      maneuvers: seq<int>, k0: nat, samples0: seq<Sample>, samples: seq<Sample>)
    requires IsWorld(c.w) && SampledSoFar(c, run, b, points, start, t, maneuvers, k0, samples0)
    requires t < c.planEnd && StopAt(c, b.0, b.1, t) == None && p == Next(c, b, t)
    requires !AllKnown(c.w, c.args, SampleTimes.Nodes(maneuvers[k0..], p))
    requires samples == samples0 + Recorded(c.w, c.args, SampleTimes.Nodes(maneuvers[k0..], p))
    ensures Final(c, run, maneuvers, start) == (Thrown(Whole), samples)
  {
    ReachNext(c, run, b, points, start, t, p);
    var rest := Ends(RunFrom(c, UpdatedBodies(c.w, b, t), p).steps);
    var more := SampleTimes.TimesExtend(maneuvers, start, points + [p], rest);
    SampleTimes.OneMorePoint(maneuvers, start, points, p);
    RecordedTogether(c.w, c.args, SampleTimes.Times(maneuvers, start, points),
                     SampleTimes.Nodes(maneuvers[k0..], p));
    RecordedTogether(c.w, c.args, SampleTimes.Times(maneuvers, start, points + [p]), more);
  }

  lemma SampledStops(c: Call, run: Run, b: (Body, Option<Body>), points: seq<int>, start: int, t: int,
                     maneuvers: seq<int>, k: nat, samples: seq<Sample>)
    requires IsWorld(c.w) && SampledSoFar(c, run, b, points, start, t, maneuvers, k, samples)
    ensures k < |maneuvers| ==> maneuvers[k] > t
    ensures t >= c.planEnd ==> Final(c, run, maneuvers, start) == (Completed, samples)
    ensures t < c.planEnd && StopAt(c, b.0, b.1, t).Some? ==>
              Final(c, run, maneuvers, start) == (StopAt(c, b.0, b.1, t).value, samples)
  {
    ReachEnd(c, run, b, points, start, t);
    assert k < |maneuvers| ==> maneuvers[k..][0] == maneuvers[k];
  }

  lemma SampledStart(c: Call, b: (Body, Option<Body>), start: int, maneuvers: seq<int>, k: nat, state: State)
    requires IsWorld(c.w) && start < c.planEnd && UpdateFailure(c.w, b, start) == None
    requires k <= |maneuvers| && maneuvers[k..] == SampleTimes.DropUpTo(maneuvers, start)
    requires c.w.eph(c.args, start) == Some(state)
    ensures SampledSoFar(c, RunFrom(c, b, start), UpdatedBodies(c.w, b, start), [], start, start, maneuvers, k,
                         [Sample(start, state)])
  {
    RunAfterUpdate(c, b, start);
    var run := RunFrom(c, b, start);
    assert [] + Ends(run.steps) == Ends(run.steps);
    assert SampleTimes.Times(maneuvers, start, []) == [start] && [start][1..] == [];
    assert Recorded(c.w, c.args, [start]) == [Sample(start, state)];
  }

  lemma NeverStarted(c: Call, b: (Body, Option<Body>), start: int, maneuvers: seq<int>)
    requires IsWorld(c.w) && start < c.planEnd && FirstFailure(c, b, start).Some?
    ensures SampledRun(c, b, maneuvers, start) == (FirstFailure(c, b, start).value, [])
    ensures !FirstFailure(c, b, start).value.Completed?
  {
    assert RunFrom(c, b, start) == Run(FirstFailure(c, b, start).value, []);
    assert SampleTimes.Times(maneuvers, start, Ends([])) == [start];
  }

  /** How a run may leave the two bodies. */
  ghost predicate LeftAs(light: BodyState, relative: BodyState?, outcome: Outcome)
    reads light, relative, light.byError, if relative == null then [] else relative.byError
  {
    && (outcome.Completed? ==> TornAs(light, relative, Whole))
    && (outcome.Thrown? ==> TornAs(light, relative, outcome.tear))
  }

  /** The nodes of a step that propagate made, and what they mean for the run. */
  method RecordNext(c: Call, maneuvers: seq<int>, k0: nat, now: int, newTime: int, state: State,
                    samples0: seq<Sample>, ghost run: Run, ghost b: (Body, Option<Body>),
                    ghost points: seq<int>, ghost start: int)
    returns (stop: Option<Outcome>, k: nat, samples: seq<Sample>)
    requires IsWorld(c.w) && now < c.planEnd && SampledSoFar(c, run, b, points, start, now, maneuvers, k0, samples0)
    requires StopAt(c, b.0, b.1, now) == None && newTime == Next(c, b, now) && c.w.eph(c.args, newTime) == Some(state)
    ensures stop == None ==>
              SampledSoFar(c, run, UpdatedBodies(c.w, b, now), points + [newTime], start, newTime,
                           maneuvers, k, samples)
    ensures stop.Some? ==> stop.value == Thrown(Whole) && Final(c, run, maneuvers, start) == (Thrown(Whole), samples)
  {
    SampledStops(c, run, b, points, start, now, maneuvers, k0, samples0);
    stop, k, samples := RecordStep(c.w, c.args, maneuvers, k0, now, newTime, state, samples0);
    if stop.Some? {
      SampledBreaks(c, run, b, points, start, now, newTime, maneuvers, k0, samples0, samples);
    } else {
      SampledOneMore(c, run, b, points, start, now, newTime, maneuvers, k0, samples0, k, samples);
    }
  }

  /** An outcome, and samples that are kept unless the loop never returns. */
  predicate SameEnding(r: (Outcome, seq<Sample>), outcome: Outcome, samples: seq<Sample>) {
    outcome == r.0 && (outcome.Completed? || outcome.Thrown? ==> samples == r.1)
  }

  /** The call of propagate in the loop. The outcome NoProgress stands for a loop that would add the same
      time for ever. */
  method MoveOn(c: Call, light: BodyState, relative: BodyState?, now: int, ghost b0: (Body, Option<Body>))
    returns (stop: Option<Outcome>, newTime: int, state: State, ghost b: (Body, Option<Body>))
    requires IsWorld(c.w) && Usable(light, relative) && HaveData(light, relative, b0)
    modifies light, light.byBody, relative, Tracked(relative)
    ensures light.byBody == old(light.byBody) && Tracked(relative) == old(Tracked(relative))
    ensures stop == StopAt(c, b0.0, b0.1, now)
    ensures stop.Some? ==> LeftAs(light, relative, stop.value)
    ensures stop == None ==> newTime > now && newTime == Next(c, b0, now) && c.w.eph(c.args, newTime) == Some(state)
    ensures stop == None ==> Usable(light, relative) && HaveData(light, relative, b)
    ensures b == UpdatedBodies(c.w, b0, now)
  {
    stop, newTime, state, b := Propagate(c, light, relative, now, false);
    if stop == None && newTime <= now {
      stop := Some(NoProgress);
    } else if stop.Some? {
      FailureIsNoCompletion(c, b0, now);
    }
  }

  lemma FailureIsNoCompletion(c: Call, b: (Body, Option<Body>), t: int)
    requires IsWorld(c.w) && FailureAt(c, b.0, b.1, t).Some?
    ensures !FailureAt(c, b.0, b.1, t).value.Completed?
  {
  }

  /** The body of the loop; None if it goes on. */
  method SampleStep(c: Call, light: BodyState, relative: BodyState?, maneuvers: seq<int>, k0: nat, now: int,
                    samples0: seq<Sample>, ghost run: Run, ghost b0: (Body, Option<Body>),
                    ghost points: seq<int>, ghost start: int)
    returns (stop: Option<Outcome>, newTime: int, k: nat, samples: seq<Sample>, ghost b: (Body, Option<Body>))
    requires IsWorld(c.w) && Usable(light, relative) && now < c.planEnd
    requires HaveData(light, relative, b0)
    requires SampledSoFar(c, run, b0, points, start, now, maneuvers, k0, samples0)
    modifies light, light.byBody, relative, Tracked(relative)
    ensures light.byBody == old(light.byBody) && Tracked(relative) == old(Tracked(relative))
    ensures stop.Some? ==> LeftAs(light, relative, stop.value)
    ensures stop.Some? ==> SameEnding(Final(c, run, maneuvers, start), stop.value, samples)
    ensures stop == None ==> Usable(light, relative) && newTime > now && HaveData(light, relative, b)
    ensures stop == None ==> SampledSoFar(c, run, b, points + [newTime], start, newTime, maneuvers, k, samples)
  {
    k, samples := k0, samples0;
    var state;
    stop, newTime, state, b := MoveOn(c, light, relative, now, b0);
    if stop.Some? {
      SampledStops(c, run, b0, points, start, now, maneuvers, k0, samples0);
    } else {
      light.AgreeingIsIntact();
      if relative != null {
        relative.AgreeingIsIntact();
      }
      label Moved:
      stop, k, samples := RecordNext(c, maneuvers, k0, now, newTime, state, samples0, run, b0, points, start);
      Untouched@Moved(light);
      if relative != null {
        Untouched@Moved(relative);
      }
    }
  }

  method SampleLoop(c: Call, light: BodyState, relative: BodyState?, maneuvers: seq<int>, k0: nat, start: int,
                    samples0: seq<Sample>, ghost run: Run, ghost b0: (Body, Option<Body>))
    returns (outcome: Outcome, samples: seq<Sample>)
    requires IsWorld(c.w) && Usable(light, relative) && HaveData(light, relative, b0)
    requires SampledSoFar(c, run, b0, [], start, start, maneuvers, k0, samples0)
    modifies light, light.byBody, relative, Tracked(relative)
    ensures light.byBody == old(light.byBody) && Tracked(relative) == old(Tracked(relative))
    ensures SameEnding(Final(c, run, maneuvers, start), outcome, samples) && LeftAs(light, relative, outcome)
  {
    ghost var points: seq<int> := [];
    ghost var b := b0;
    var currentTime, k := start, k0;
    samples := samples0;
    while currentTime < c.planEnd
      invariant light.byBody == old(light.byBody) && Tracked(relative) == old(Tracked(relative))
      invariant Usable(light, relative) && 0 <= k
      invariant HaveData(light, relative, b)
      invariant SampledSoFar(c, run, b, points, start, currentTime, maneuvers, k, samples)
      decreases c.planEnd - currentTime
    {
      var stop, newTime;
      stop, newTime, k, samples, b :=
        SampleStep(c, light, relative, maneuvers, k, currentTime, samples, run, b, points, start);
      if stop.Some? {
        return stop.value, samples;
      }
      points := points + [newTime];
      currentTime := newTime;
    }
    SampledStops(c, run, b, points, start, currentTime, maneuvers, k, samples);
    outcome := Completed;
  }

  lemma FinalIsSampled(c: Call, b: (Body, Option<Body>), maneuvers: seq<int>, start: int)
    requires IsWorld(c.w) && start < c.planEnd && UpdateFailure(c.w, b, start) == None
    ensures SampledRun(c, b, maneuvers, start) == Final(c, RunFrom(c, b, start), maneuvers, start)
  {
  }

  /** The sampling loop of precompute_spkez_data, with the first sample before it. */
  method SampleRun(c: Call, light: BodyState, relative: BodyState?, maneuvers: seq<int>, planStart: int)
    returns (outcome: Outcome, samples: seq<Sample>)
    requires IsWorld(c.w) && Usable(light, relative)
    modifies light, light.byBody, relative, Tracked(relative)
    ensures light.byBody == old(light.byBody) && Tracked(relative) == old(Tracked(relative))
    ensures SameEnding(SampledRun(c, old(Bodies(light, relative)), maneuvers, planStart), outcome, samples)
    ensures LeftAs(light, relative, outcome)
  {
    ghost var b := Bodies(light, relative);
    samples := [];
    var k := NextManeuver(maneuvers, 0, planStart);
    if planStart >= c.planEnd {
      return Completed, samples;
    }
    assert maneuvers[0..] == maneuvers;
    ghost var updated;
    var stop, now, state;
    stop, now, state, updated := Propagate(c, light, relative, planStart, true);
    if stop.Some? {
      NeverStarted(c, b, planStart, maneuvers);
      return stop.value, samples;
    }
    samples := [Sample(now, state)];
    SampledStart(c, b, planStart, maneuvers, k, state);
    FinalIsSampled(c, b, maneuvers, planStart);
    outcome, samples := SampleLoop(c, light, relative, maneuvers, k, now, samples, RunFrom(c, b, planStart),
                                   updated);
  }
}
