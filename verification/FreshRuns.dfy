/** Resets of the light and the other body, and the runs that follow them. */
module FreshRuns {
  import opened Influencers
  import opened Options
  import opened Runs
  import opened Sampler
  import opened Steps
  import SampleTimes

  const NOWHERE := State(0.0, 0.0, 0.0, 0.0, 0.0, 0.0)

  /** A body and the influencers it tracks, which never change after setup. */
  datatype Roster = Roster(id: int, members: seq<Influencer>)

  function RosterOf(b: BodyState): Roster
    reads b
  {
    Roster(b.id, b.byBody)
  }

  function RosterIfAny(b: BodyState?): Option<Roster>
    reads b
  {
    if b == null then None else Some(RosterOf(b))
  }

  /** A body whose influencers were never evaluated. */
  function Blank(r: Roster): Body {
    Body(r.id, seq(|r.members|, i requires 0 <= i < |r.members| => Datum(r.members[i].bodyID, 0, DELUGE, NOWHERE)))
  }

  function Blanks(light: Roster, relative: Option<Roster>): (Body, Option<Body>) {
    (Blank(light), if relative.None? then None else Some(Blank(relative.value)))
  }

  predicate SameBodies(b: (Body, Option<Body>), c: (Body, Option<Body>)) {
    SameBody(b.0, c.0) && SameIfAny(b.1, c.1)
  }

  lemma ResetIsBlank(b: BodyState)
    requires b.Data() == AsReset(b.Data())
    ensures SameBody(BodyOf(b), Blank(RosterOf(b)))
  {
    forall i | 0 <= i < |b.byBody|
      ensures SameDatum(b.Data()[i], Blank(RosterOf(b)).data[i])
    {
      assert b.Data()[i] == AsReset(b.Data())[i];
    }
  }

  lemma ResetTwice(s: seq<Datum>)
    ensures AsReset(AsReset(s)) == AsReset(s)
  {
  }

  /** A reset succeeds: no influencer is missing, or it is the only one. */
  ghost predicate Resets(b: BodyState)
    reads b, b.byError
  {
    b.Agree() || |b.byBody| == 1
  }

  /** Two bodies, or one, whose lists may lack an influencer each. */
  ghost predicate Together(light: BodyState, relative: BodyState?)
    reads light, relative, light.byError, if relative == null then [] else relative.byError
  {
    && light.Intact()
    && (relative != null ==> relative.Intact())
    && (relative == light || forall x <- light.byBody :: x !in Tracked(relative))
  }

  /** Forget all estimates of both bodies. The first reset that throws leaves its body torn, and the other
      one as it is. */
  method ResetBoth(light: BodyState, relative: BodyState?) returns (ok: bool)
    requires Together(light, relative)
    modifies light, light.byBody, relative, Tracked(relative)
    ensures light.byBody == old(light.byBody) && Tracked(relative) == old(Tracked(relative))
    ensures ok <==> old(Resets(light)) && (relative != null ==> old(Resets(relative)))
    ensures light.Intact() && (light.Agree() <==> old(Resets(light)))
    ensures relative != null ==>
              && relative.Intact()
              && (relative.Agree() <==> if old(Resets(light)) then old(Resets(relative)) else old(relative.Agree()))
    ensures ok ==> SameBodies(Bodies(light, relative), Blanks(RosterOf(light), RosterIfAny(relative)))
  {
    if relative != null && relative != light {
      ok := ResetApart(light, relative);
      if ok {
        ResetIsBlank(relative);
      }
    } else {
      ok := ResetSame(light, relative != null);
    }
    if ok {
      ResetIsBlank(light);
    }
  }

  /** The resets of a single body, known to the sampler as the light one or as both. */
  method ResetSame(light: BodyState, twice: bool) returns (ok: bool)
    requires light.Intact()
    modifies light, light.byBody
    ensures light.byBody == old(light.byBody)
    ensures ok <==> old(Resets(light))
    ensures light.Intact() && (light.Agree() <==> old(Resets(light)))
    ensures ok ==> light.Data() == AsReset(light.Data())
  {
    ok := light.Reset();
    ResetTwice(old(light.Data()));
    if ok {
      light.AgreeingIsIntact();
      if twice {
        ok := light.Reset();
        light.AgreeingIsIntact();
      }
    }
  }

  method ResetApart(light: BodyState, relative: BodyState) returns (ok: bool)
    requires Together(light, relative) && light != relative
    modifies light, light.byBody, relative, relative.byBody
    ensures light.byBody == old(light.byBody) && relative.byBody == old(relative.byBody)
    ensures ok <==> old(Resets(light)) && old(Resets(relative))
    ensures light.Intact() && (light.Agree() <==> old(Resets(light)))
    ensures relative.Intact()
    ensures relative.Agree() <==> if old(Resets(light)) then old(Resets(relative)) else old(relative.Agree())
    ensures ok ==> light.Data() == AsReset(light.Data()) && relative.Data() == AsReset(relative.Data())
  {
    assert forall x <- relative.byBody :: x !in light.byBody;
    ResetTwice(light.Data());
    ResetTwice(relative.Data());
    label Before:
    ok := light.Reset();
    Untouched@Before(relative);
    if ok {
      label Between:
      ok := relative.Reset();
      Untouched@Between(light);
    }
  }

  /** The run of two bodies after a reset. */
  function FreshRun(c: Call, light: Roster, relative: Option<Roster>, planStart: int): Run
    requires IsWorld(c.w)
  {
    RunFrom(c, Blanks(light, relative), planStart)
  }

  /** What was computed for other arguments leaves no trace in a run after a reset. */
  lemma RunAfterReset(c: Call, b: (Body, Option<Body>), light: Roster, relative: Option<Roster>,
                      maneuvers: seq<int>, planStart: int)
    requires IsWorld(c.w) && SameBodies(b, Blanks(light, relative))
    ensures SampledRun(c, b, maneuvers, planStart) == SampledRun(c, Blanks(light, relative), maneuvers, planStart)
  {
    var f := Blanks(light, relative);
    SameRun(c, b.0, b.1, f.0, f.1, planStart);
    SameAfterUpdate(c.w, b.0, f.0, planStart);
    if b.1.Some? {
      SameAfterUpdate(c.w, b.1.value, f.1.value, planStart);
    }
  }

  lemma BlankIsReset(r: Roster)
    ensures Blank(r).data == AsReset(Blank(r).data)
  {
  }

  /** After a reset an assertion fails exactly for a plan that starts before the deluge date. */
  lemma FreshRunAsserts(c: Call, light: Roster, relative: Option<Roster>, planStart: int)
    requires IsWorld(c.w) && light.members != []
    ensures FreshRun(c, light, relative, planStart).outcome == AssertionFailed <==>
            planStart < c.planEnd && planStart < DELUGE
  {
    var b := Blanks(light, relative);
    BlankIsReset(light);
    if relative.Some? {
      BlankIsReset(relative.value);
    }
    NoAssertionFires(c, b.0, b.1, planStart);
    AssertedAfterReset(c.w, b.0, b.1, planStart);
  }

  /** All first estimates for the deluge date are zero. */
  predicate AllZeroAtDeluge(w: World, r: Roster) {
    forall x <- r.members :: IsEstimate(w.estimate(r.id, x.bodyID, DELUGE, None), 0)
  }

  lemma BlankIsZeroAtDeluge(w: World, r: Roster)
    ensures ZeroAtDeluge(w, Blank(r)) <==> AllZeroAtDeluge(w, r)
  {
    assert forall i :: 0 <= i < |r.members| ==> Blank(r).data[i].bodyID == r.members[i].bodyID;
  }

  /** Each step is sized from the estimates for its start exactly if the plan starts at another time than
      the deluge date, or the first estimates for that date are all zero. */
  lemma FreshKeysAreEstimatesExactlyWhen(c: Call, light: Roster, relative: Option<Roster>, planStart: int)
    requires IsWorld(c.w) && FreshRun(c, light, relative, planStart).steps != []
    ensures var b := Blanks(light, relative);
            KeysAreEstimates(c, b.0, b.1, FreshRun(c, light, relative, planStart).steps) <==>
            planStart != DELUGE
            || (AllZeroAtDeluge(c.w, light) && (relative.Some? ==> AllZeroAtDeluge(c.w, relative.value)))
  {
    var b := Blanks(light, relative);
    BlankIsReset(light);
    BlankIsZeroAtDeluge(c.w, light);
    if relative.Some? {
      BlankIsReset(relative.value);
      BlankIsZeroAtDeluge(c.w, relative.value);
    }
    KeysAreEstimatesExactlyWhen(c, b.0, b.1, planStart, FreshRun(c, light, relative, planStart).steps);
  }

  /** The pairs of a light body and the heavy ones that it tracks. */
  function PairsOf(r: Roster): set<(int, int)> {
    set x | x in r.members :: (r.id, x.bodyID)
  }

  function AllPairs(light: Roster, relative: Option<Roster>): set<(int, int)> {
    PairsOf(light) + if relative.None? then {} else PairsOf(relative.value)
  }

  lemma BlankIsGood(r: Roster, bs: Bounds, t: int)
    requires bs.key >= 0 && PairsOf(r) <= bs.pairs && DELUGE <= t
    ensures GoodBody(bs, Blank(r)) && NotAhead(Blank(r).data, t)
  {
    forall d | d in Blank(r).data
      ensures (r.id, d.bodyID) in bs.pairs && GoodDatum(bs, r.id, d) && d.prevTime <= t
    {
      var i :| 0 <= i < |r.members| && Blank(r).data[i] == d;
      assert r.members[i] in r.members && (r.id, r.members[i].bodyID) in PairsOf(r);
    }
  }

  /** A run that starts at the deluge date or later completes, with all its samples, if estimates stay good
      for the pairs that are tracked, the bodies stay apart, and states are known within a minute of the plan. */
  lemma FreshRunCompletes(c: Call, bs: Bounds, light: Roster, relative: Option<Roster>, maneuvers: seq<int>,
                          planStart: int)
    requires IsWorld(c.w) && DELUGE <= planStart < c.planEnd
    requires AllPairs(light, relative) <= bs.pairs && Advances(c, bs, Blanks(light, relative).1, planStart)
    requires forall u :: planStart - SampleTimes.MINUTE <= u <= c.planEnd + SampleTimes.MINUTE ==> Known(c, u)
    ensures Fits(|FreshRun(c, light, relative, planStart).steps|, bs.step, c.planEnd - planStart)
    ensures SampledRun(c, Blanks(light, relative), maneuvers, planStart).0 == Completed
  {
    var b := Blanks(light, relative);
    BlankIsGood(light, bs, planStart);
    if relative.Some? {
      BlankIsGood(relative.value, bs, planStart);
    }
    RunCompletes(c, bs, b.0, b.1, planStart);
    BothStayGood(c, bs, b.0, b.1, planStart, NextStep(c, b.0, b.1, planStart));
    RunCoversPlan(c, b.0, b.1, planStart);
    var points := Ends(RunFrom(c, b, planStart).steps);
    EndsAscend(c, b, planStart);
    SampleTimes.TimesWithin(maneuvers, planStart, points);
    var times := SampleTimes.Times(maneuvers, planStart, points);
    forall i | 0 <= i < |times|
      ensures c.w.eph(c.args, times[i]).Some?
    {
      assert times[i] in times && Known(c, times[i]);
    }
  }
}
