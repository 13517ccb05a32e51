/** The samples kept for each combination of spkez arguments (precompute_spkez_data), and what a throw
    leaves behind. */
module SampleCache {
  import opened FreshRuns
  import opened Influencers
  import opened Options
  import opened Sampler
  import opened Steps

  // ---------------------------------------------------------------------------
  // All bodies of interest
  // ---------------------------------------------------------------------------

  function Members(bodies: set<BodyState>): (r: set<Influencer>)
    reads bodies
    ensures forall b, x :: b in bodies && x in b.byBody ==> x in r
  {
    set b, x | b in bodies && x in b.byBody :: x
  }

  function Ranked(bodies: set<BodyState>): (r: set<Influencer>)
    reads bodies
    ensures forall b, x :: b in bodies && x in b.byError ==> x in r
  {
    set b, x | b in bodies && x in b.byError :: x
  }

  /** No body lacks more than one influencer, and different bodies share none. */
  ghost predicate Separate(bodies: set<BodyState>)
    reads bodies, Ranked(bodies)
  {
    && (forall b <- bodies :: b.Intact())
    && (forall b, c, x :: b in bodies && c in bodies && x in b.byBody && x in c.byBody ==> b == c)
  }

  lemma SeparateAreTogether(bodies: set<BodyState>, light: BodyState, relative: BodyState?)
    requires Separate(bodies) && light in bodies && (relative != null ==> relative in bodies)
    ensures Together(light, relative)
    ensures forall b <- bodies :: b != light && b != relative ==> Unshared(b, light, relative)
  {
  }

  ghost predicate Unshared(b: BodyState, light: BodyState, relative: BodyState?)
    reads b, light, relative
  {
    forall x <- b.byBody :: x !in light.byBody && x !in Tracked(relative)
  }

  twostate predicate Unwritten(b: BodyState)
    reads b, b.byBody
  {
    && b.byError == old(b.byError) && b.byBody == old(b.byBody)
    && forall x <- old(b.byBody) :: x.Get() == old(x.Get())
  }

  /** Work on two of the bodies leaves the others as they are. */
  twostate lemma StillSeparate(bodies: set<BodyState>, new light: BodyState, new relative: BodyState?)
    requires old(Separate(bodies)) && light in bodies && (relative != null ==> relative in bodies)
    requires light.Intact() && (relative != null ==> relative.Intact())
    requires forall b <- bodies :: b.byBody == old(b.byBody)
    requires forall b <- bodies :: b != light && b != relative ==> Unwritten(b)
    ensures Separate(bodies)
  {
    forall b | b in bodies
      ensures b.Intact()
    {
      if b != light && b != relative {
        Untouched(b);
      }
    }
  }

  method ResetAmong(bodies: set<BodyState>, light: BodyState, relative: BodyState?) returns (ok: bool)
    requires Separate(bodies) && light in bodies && (relative != null ==> relative in bodies)
    modifies bodies, Members(bodies)
    ensures forall b <- bodies :: b.byBody == old(b.byBody)
    ensures Separate(bodies) && forall b <- bodies :: b != light && b != relative ==> b.byError == old(b.byError)
    ensures ok <==> old(Resets(light)) && (relative != null ==> old(Resets(relative)))
    ensures light.Agree() <==> old(Resets(light))
    ensures relative != null ==>
              (relative.Agree() <==> if old(Resets(light)) then old(Resets(relative)) else old(relative.Agree()))
    ensures ok ==> SameBodies(Bodies(light, relative), Blanks(RosterOf(light), RosterIfAny(relative)))
  {
    SeparateAreTogether(bodies, light, relative);
    ok := ResetBoth(light, relative);
    forall b | b in bodies && b != light && b != relative
      ensures Unwritten(b)
    {
      assert old(Unshared(b, light, relative));
    }
    StillSeparate(bodies, light, relative);
  }

  /** The lists of the bodies that a throw tears no longer agree; all others do. */
  ghost predicate TornBy(light: BodyState, relative: BodyState?, tear: Tear)
    reads light, relative, light.byError, if relative == null then [] else relative.byError
  {
    && (light.Agree() <==> !tear.LightTorn?)
    && (relative != null && relative != light ==> (relative.Agree() <==> !tear.RelativeTorn?))
    && (tear.RelativeTorn? ==> relative != null && relative != light)
  }

  lemma TornAsTornBy(light: BodyState, relative: BodyState?, tear: Tear)
    requires TornAs(light, relative, tear)
    ensures light.Intact() && (relative != null ==> relative.Intact()) && TornBy(light, relative, tear)
  {
    if tear.LightTorn? {
      light.LackingDisagrees(tear.at);
      light.HeldIsIntact(tear.at);
    } else {
      light.AgreeingIsIntact();
    }
    if relative != null && relative != light {
      if tear.RelativeTorn? {
        relative.LackingDisagrees(tear.at);
        relative.HeldIsIntact(tear.at);
      } else {
        relative.AgreeingIsIntact();
      }
    }
  }

  function TearOf(o: Outcome): Tear {
    if o.Thrown? then o.tear else Whole
  }

  /** Sample with two of the bodies; the others stay as they are. */
  method SampleAmong(bodies: set<BodyState>, c: Call, light: BodyState, relative: BodyState?,
                     maneuvers: seq<int>, planStart: int)
    returns (outcome: Outcome, samples: seq<Sample>)
    requires IsWorld(c.w) && Separate(bodies) && light in bodies && (relative != null ==> relative in bodies)
    requires light.Agree() && (relative != null ==> relative.Agree())
    modifies bodies, Members(bodies)
    ensures forall b <- bodies :: b.byBody == old(b.byBody)
    ensures forall b <- bodies :: b != light && b != relative ==> b.byError == old(b.byError)
    ensures SameEnding(SampledRun(c, old(Bodies(light, relative)), maneuvers, planStart), outcome, samples)
    ensures outcome.Completed? || outcome.Thrown? ==> Separate(bodies) && TornBy(light, relative, TearOf(outcome))
  {
    SeparateAreTogether(bodies, light, relative);
    outcome, samples := SampleRun(c, light, relative, maneuvers, planStart);
    forall b | b in bodies && b != light && b != relative
      ensures Unwritten(b)
    {
      assert old(Unshared(b, light, relative));
    }
    if outcome.Completed? || outcome.Thrown? {
      TornAsTornBy(light, relative, TearOf(outcome));
      StillSeparate(bodies, light, relative);
    }
  }

  // ---------------------------------------------------------------------------
  // The cache
  // ---------------------------------------------------------------------------

  /** cached_spkez_data */
  datatype Entry = Entry(args: Args, samples: seq<Sample>)

  /** The Sun, origin of the system and the one body that need not be of interest. */
  const SUN := 10

  /** What stays the same for all requests: the outside world, the rotation periods (in hours) of
      the frames that are known, the light and the relative body of a target and an observer unless
      the mass of the relative one is unknown, and the plan with its maneuvers. */
  datatype Setting = Setting(
    w: World,
    framePeriod: string -> Option<real>,
    geometry: (int, int) -> Option<(int, int)>,
    maneuvers: seq<int>,
    planStart: int,
    planEnd: int)

  function Find(rosters: map<int, Roster>, id: int): Option<Roster> {
    if id in rosters then Some(rosters[id]) else None
  }

  /** The length of the list by error. */
  function Listed(rosters: map<int, Roster>, torn: set<int>, id: int): int
    requires id in rosters
  {
    |rosters[id].members| - if id in torn then 1 else 0
  }

  /** A reset does not throw. */
  predicate CanReset(rosters: map<int, Roster>, torn: set<int>, id: int) {
    id in rosters ==> id !in torn || |rosters[id].members| == 1
  }

  /** The outcome and the samples once both bodies are reset: an unknown frame throws, and an unknown relative
      body other than the Sun fails an assertion. */
  function AnswerAfterResets(s: Setting, rosters: map<int, Roster>, a: Args, light: int, relative: int)
    : (Outcome, seq<Sample>)
    requires IsWorld(s.w) && light in rosters
  {
    match s.framePeriod(a.frame)
    case None => (Thrown(Whole), [])
    case Some(period) =>
      if relative !in rosters && relative != SUN then (AssertionFailed, [])
      else SampledRun(Call(s.w, a, period, s.planEnd), Blanks(rosters[light], Find(rosters, relative)),
                      s.maneuvers, s.planStart)
  }

  /** The outcome and the samples for the arguments, given which bodies are torn: an unknown mass throws, a
      light body whose list has not the usual length fails an assertion, and resetting a torn body that
      tracks others throws. */
  function Answer(s: Setting, rosters: map<int, Roster>, torn: set<int>, a: Args): (Outcome, seq<Sample>)
    requires IsWorld(s.w)
  {
    match s.geometry(a.target, a.observer)
    case None => (Thrown(Whole), [])
    case Some((light, relative)) =>
      if light !in rosters || Listed(rosters, torn, light) !in {1, 11} then (AssertionFailed, [])
      else if !CanReset(rosters, torn, light) || !CanReset(rosters, torn, relative) then (Thrown(Whole), [])
      else AnswerAfterResets(s, rosters, a, light, relative)
  }

  /** What a completed computation records for some arguments: the states that spkez gives for them at the nodes
      of a run of both bodies after a reset, with the period of their frame, to the end of the plan. */
  lemma AnswerFollowsRun(s: Setting, rosters: map<int, Roster>, torn: set<int>, a: Args, light: int, relative: int,
                         c: Call, r: seq<Sample>, points: seq<int>)
    requires IsWorld(s.w) && s.geometry(a.target, a.observer) == Some((light, relative))
    requires Answer(s, rosters, torn, a) == (Completed, r) && s.planStart < s.planEnd
    requires s.framePeriod(a.frame).Some? && c == Call(s.w, a, s.framePeriod(a.frame).value, s.planEnd)
    requires light in rosters ==>
               points == Ends(FreshRun(c, rosters[light], Find(rosters, relative), s.planStart).steps)
    ensures light in rosters && (relative in rosters || relative == 10)
    ensures SampleTimes.LastPoint(s.planStart, points) == s.planEnd
    ensures var times := SampleTimes.Times(s.maneuvers, s.planStart, points);
            && |r| == |times|
            && forall i :: 0 <= i < |r| ==> r[i].time == times[i] && s.w.eph(a, times[i]) == Some(r[i].state)
  {
    var b := Blanks(rosters[light], Find(rosters, relative));
    CompletedRecordsAll(c, b, s.maneuvers, s.planStart, r, SampleTimes.Times(s.maneuvers, s.planStart, points));
    RunCoversPlan(c, b.0, b.1, s.planStart);
  }

  /** The torn bodies, with those of a light and another body known anew. */
  function WithTwo(torn: set<int>, light: int, relative: int, lightTorn: bool, relativeTorn: bool): set<int> {
    torn - {light, relative} + (if lightTorn then {light} else {}) + if relativeTorn then {relative} else {}
  }

  /** The torn bodies after two resets, the second of which is made if the first one succeeds. */
  function TornAfterResets(rosters: map<int, Roster>, torn: set<int>, light: int, relative: int): set<int> {
    if !CanReset(rosters, torn, light) then torn
    else if !CanReset(rosters, torn, relative) then torn - {light}
    else torn - {light, relative}
  }

  lemma TornTwoAfterResets(rosters: map<int, Roster>, torn: set<int>, light: int, relative: int,
                           lightTorn: bool, relativeTorn: bool)
    requires light in rosters && torn <= rosters.Keys && lightTorn == !CanReset(rosters, torn, light)
    requires relativeTorn == (relative in rosters &&
               if lightTorn then relative in torn else !CanReset(rosters, torn, relative))
    ensures WithTwo(torn, light, relative, lightTorn, relativeTorn) == TornAfterResets(rosters, torn, light, relative)
  {
  }

  /** Which bodies are torn after a computation that completed or threw. */
  function TornAfter(s: Setting, rosters: map<int, Roster>, torn: set<int>, a: Args): set<int>
    requires IsWorld(s.w)
  {
    match s.geometry(a.target, a.observer)
    case None => torn
    case Some((light, relative)) =>
      var reset := TornAfterResets(rosters, torn, light, relative);
      if light !in rosters || !CanReset(rosters, torn, light) || !CanReset(rosters, torn, relative) then reset
      else
        var tear := TearOf(Answer(s, rosters, torn, a).0);
        WithTwo(reset, light, relative, tear.LightTorn?, tear.RelativeTorn?)
  }

  lemma AnswerWithoutReset(s: Setting, rosters: map<int, Roster>, torn: set<int>, a: Args, light: int, relative: int)
    requires IsWorld(s.w) && s.geometry(a.target, a.observer) == Some((light, relative))
    requires light in rosters && Listed(rosters, torn, light) in {1, 11}
    requires !(CanReset(rosters, torn, light) && CanReset(rosters, torn, relative))
    ensures Answer(s, rosters, torn, a) == (Thrown(Whole), [])
    ensures TornAfter(s, rosters, torn, a) == TornAfterResets(rosters, torn, light, relative)
  {
  }

  lemma AnswerWithResets(s: Setting, rosters: map<int, Roster>, torn: set<int>, a: Args, light: int, relative: int)
    requires IsWorld(s.w) && s.geometry(a.target, a.observer) == Some((light, relative))
    requires light in rosters && Listed(rosters, torn, light) in {1, 11}
    requires CanReset(rosters, torn, light) && CanReset(rosters, torn, relative)
    ensures Answer(s, rosters, torn, a) == AnswerAfterResets(s, rosters, a, light, relative)
    ensures TornAfter(s, rosters, torn, a)
         == var tear := TearOf(AnswerAfterResets(s, rosters, a, light, relative).0);
            WithTwo(TornAfterResets(rosters, torn, light, relative), light, relative,
                    tear.LightTorn?, tear.RelativeTorn?)
  {
  }

  /** What is kept of arguments is what a computation with no torn body gives, or nothing. */
  lemma AnswerWhenTorn(s: Setting, rosters: map<int, Roster>, torn: set<int>, a: Args)
    requires IsWorld(s.w)
    ensures var r := Answer(s, rosters, torn, a).1; r == Answer(s, rosters, {}, a).1 || r == []
  {
  }

  /** After a throw out of the update of a light body with the usual number of influencers, every computation
      for that light body fails the assertion on that number. */
  lemma TornLightAsserts(s: Setting, rosters: map<int, Roster>, torn: set<int>, a: Args, light: int, relative: int)
    requires IsWorld(s.w) && s.geometry(a.target, a.observer) == Some((light, relative))
    requires light in rosters && light in torn && |rosters[light].members| in {1, 11}
    ensures Answer(s, rosters, torn, a).0 == AssertionFailed
  {
  }

  /** And a torn body that tracks more than one influencer stays torn, whatever is asked for next. */
  lemma TornStaysTorn(s: Setting, rosters: map<int, Roster>, torn: set<int>, a: Args, id: int)
    requires IsWorld(s.w) && id in rosters && id in torn && |rosters[id].members| != 1
    ensures id in TornAfter(s, rosters, torn, a)
  {
  }

  /** The torn bodies after computations for several arguments. */
  function TornThrough(s: Setting, rosters: map<int, Roster>, torn: set<int>, requests: seq<Args>): set<int>
    requires IsWorld(s.w)
    decreases |requests|
  {
    if requests == [] then torn
    else TornThrough(s, rosters, TornAfter(s, rosters, torn, requests[0]), requests[1..])
  }

  /** So every later computation for a light body with eleven influencers fails, after any requests. */
  lemma {:induction false} AssertsForGood(s: Setting, rosters: map<int, Roster>, torn: set<int>, requests: seq<Args>,
                                          a: Args, light: int, relative: int)
    requires IsWorld(s.w) && s.geometry(a.target, a.observer) == Some((light, relative))
    requires light in rosters && light in torn && |rosters[light].members| == 11
    ensures light in TornThrough(s, rosters, torn, requests)
    ensures Answer(s, rosters, TornThrough(s, rosters, torn, requests), a).0 == AssertionFailed
    decreases |requests|
  {
    if requests == [] {
      TornLightAsserts(s, rosters, torn, a, light, relative);
    } else {
      TornStaysTorn(s, rosters, torn, requests[0], light);
      AssertsForGood(s, rosters, TornAfter(s, rosters, torn, requests[0]), requests[1..], a, light, relative);
    }
  }

  /** One that tracks a single influencer is whole again after the next computation that resets it as the
      relative body, unless that tears it again. */
  lemma HealedAsRelative(s: Setting, rosters: map<int, Roster>, torn: set<int>, a: Args, light: int, relative: int)
    requires IsWorld(s.w) && s.geometry(a.target, a.observer) == Some((light, relative)) && light != relative
    requires light in rosters && light !in torn && relative in rosters && |rosters[relative].members| == 1
    ensures relative in TornAfter(s, rosters, torn, a) <==> TearOf(Answer(s, rosters, torn, a).0).RelativeTorn?
  {
  }

  lemma FirstMissing(w: World, light: Roster, relative: Option<Roster>, t: int)
    requires light.members != [] && t > DELUGE && w.estimate(light.id, light.members[0].bodyID, t, None) == None
    ensures UpdateFailure(w, Blanks(light, relative), t) == Some(Thrown(LightTorn(0)))
  {
    var data := Blank(light).data;
    assert Blocked(w.estimate, light.id, data[0], t);
    assert StopOf(w.estimate, light.id, data, t) == 0;
  }

  /** An input: the first estimate for the light body is missing at the start of the plan. Nothing is kept,
      and the next computation for that body fails an assertion. */
  lemma MissingEstimateTears(s: Setting, rosters: map<int, Roster>, a: Args, a': Args, light: int, relative: int,
                             relative': int, torn: set<int>)
    requires IsWorld(s.w) && DELUGE < s.planStart < s.planEnd
    requires s.geometry(a.target, a.observer) == Some((light, relative)) && s.framePeriod(a.frame).Some?
    requires light in rosters && |rosters[light].members| in {1, 11} && (relative in rosters || relative == SUN)
    requires var r := rosters[light]; s.w.estimate(r.id, r.members[0].bodyID, s.planStart, None) == None
    requires torn == TornAfter(s, rosters, {}, a) && s.geometry(a'.target, a'.observer) == Some((light, relative'))
    ensures Answer(s, rosters, {}, a) == (Thrown(LightTorn(0)), [])
    ensures light in torn && Answer(s, rosters, torn, a').0 == AssertionFailed
  {
    FirstMissing(s.w, rosters[light], Find(rosters, relative), s.planStart);
    NeverStarted(Call(s.w, a, s.framePeriod(a.frame).value, s.planEnd), Blanks(rosters[light], Find(rosters, relative)),
                 s.planStart, s.maneuvers);
    TornLightAsserts(s, rosters, torn, a', light, relative');
  }

  /** The map and the vector are in one-to-one correspondence. */
  predicate Indexed(argMap: map<Args, nat>, entries: seq<Entry>) {
    && (forall a :: a in argMap ==> argMap[a] < |entries| && entries[argMap[a]].args == a)
    && (forall k :: 0 <= k < |entries| ==> entries[k].args in argMap && argMap[entries[k].args] == k)
  }

  /** Every entry holds what a computation on its own gives, or nothing; that of a computation that threw
      holds the nodes before the throw. */
  predicate Coherent(s: Setting, rosters: map<int, Roster>, entries: seq<Entry>)
    requires IsWorld(s.w)
  {
    forall e <- entries :: e.samples == Answer(s, rosters, {}, e.args).1 || e.samples == []
  }

  lemma OneMoreIndexed(argMap: map<Args, nat>, entries: seq<Entry>, e: Entry)
    requires Indexed(argMap, entries) && e.args !in argMap
    ensures Indexed(argMap[e.args := |entries|], entries + [e])
  {
  }

  lemma OneMoreCoherent(s: Setting, rosters: map<int, Roster>, torn: set<int>, entries: seq<Entry>, e: Entry)
    requires IsWorld(s.w) && Coherent(s, rosters, entries) && e.samples == Answer(s, rosters, torn, e.args).1
    ensures Coherent(s, rosters, entries + [e])
  {
    AnswerWhenTorn(s, rosters, torn, e.args);
  }

  /** The last entry gets its samples. */
  lemma LastFilled(s: Setting, rosters: map<int, Roster>, torn: set<int>, argMap: map<Args, nat>, before: seq<Entry>,
                   a: Args, samples: seq<Sample>, after: seq<Entry>)
    requires IsWorld(s.w) && Indexed(argMap, before) && a !in argMap && Coherent(s, rosters, before)
    requires samples == Answer(s, rosters, torn, a).1
    requires after == (before + [Entry(a, [])])[|before| := Entry(a, samples)]
    ensures after == before + [Entry(a, samples)]
    ensures Indexed(argMap[a := |before|], after) && Coherent(s, rosters, after)
  {
    assert after == before + [Entry(a, samples)];
    OneMoreIndexed(argMap, before, Entry(a, samples));
    OneMoreCoherent(s, rosters, torn, before, Entry(a, samples));
  }

  function RostersOf(bodies: map<int, BodyState>): map<int, Roster>
    reads bodies.Values
  {
    map id | id in bodies :: RosterOf(bodies[id])
  }

  /** The bodies that lack an influencer in the list by error. */
  function TornOf(bodies: map<int, BodyState>): set<int>
    reads bodies.Values
  {
    set id | id in bodies && |bodies[id].byError| < |bodies[id].byBody|
  }

  /** Bodies are listed under their own numbers. */
  predicate Numbered(bodies: map<int, BodyState>) {
    forall id :: id in bodies ==> bodies[id].id == id
  }

  twostate lemma SameRosters(bodies: map<int, BodyState>)
    requires forall b <- bodies.Values :: b.byBody == old(b.byBody)
    ensures RostersOf(bodies) == old(RostersOf(bodies))
  {
    forall id | id in bodies
      ensures RosterOf(bodies[id]) == old(RosterOf(bodies[id]))
    {
      assert bodies[id] in bodies.Values;
    }
  }

  lemma TornIsTorn(bodies: map<int, BodyState>, id: int)
    requires Separate(bodies.Values) && id in bodies
    ensures id in TornOf(bodies) <==> !bodies[id].Agree()
    ensures |bodies[id].byError| == Listed(RostersOf(bodies), TornOf(bodies), id)
    ensures Resets(bodies[id]) <==> CanReset(RostersOf(bodies), TornOf(bodies), id)
  {
    assert bodies[id] in bodies.Values;
    bodies[id].LengthTells();
  }

  function FindBody(bodies: map<int, BodyState>, id: int): BodyState? {
    if id in bodies then bodies[id] else null
  }

  /** In terms of numbers, too, only two bodies have changed. */
  twostate lemma OthersById(bodies: map<int, BodyState>, new light: int, new relative: int)
    requires Numbered(bodies) && light in bodies
    requires forall b <- bodies.Values :: b.byBody == old(b.byBody)
    requires forall b <- bodies.Values :: b != bodies[light] && b != FindBody(bodies, relative) ==>
               b.byError == old(b.byError)
    ensures forall id :: id in bodies && id != light && id != relative ==>
              bodies[id].byError == old(bodies[id].byError) && bodies[id].byBody == old(bodies[id].byBody)
  {
    forall id | id in bodies && id != light && id != relative
      ensures bodies[id].byError == old(bodies[id].byError) && bodies[id].byBody == old(bodies[id].byBody)
    {
      assert bodies[id] in bodies.Values && bodies[id].id == id && bodies[light].id == light;
      assert relative in bodies ==> bodies[relative].id == relative;
    }
  }

  twostate lemma SameInfluencers(bodies: set<BodyState>)
    requires forall b <- bodies :: b.byBody == old(b.byBody)
    ensures Members(bodies) == old(Members(bodies))
  {
  }

  /** Nothing that is said of the bodies changes while nothing is written to them. */
  twostate lemma SameState(bodies: map<int, BodyState>)
    requires old(Separate(bodies.Values))
    requires forall b <- bodies.Values :: b.byError == old(b.byError) && b.byBody == old(b.byBody)
    requires forall b <- bodies.Values :: forall x <- b.byBody :: x.Get() == old(x.Get())
    ensures Separate(bodies.Values)
    ensures RostersOf(bodies) == old(RostersOf(bodies)) && TornOf(bodies) == old(TornOf(bodies))
  {
    forall b | b in bodies.Values
      ensures b.Intact()
    {
      Untouched(b);
    }
    SameRosters(bodies);
    assert forall id :: id in bodies ==> bodies[id] in bodies.Values;
  }

  /** Only the lists of two bodies have changed. */
  twostate lemma TornOfTwo(bodies: map<int, BodyState>, new light: int, new relative: int)
    requires Separate(bodies.Values) && Numbered(bodies) && light in bodies
    requires forall id :: id in bodies && id != light && id != relative ==>
               bodies[id].byError == old(bodies[id].byError) && bodies[id].byBody == old(bodies[id].byBody)
    ensures TornOf(bodies) == WithTwo(old(TornOf(bodies)), light, relative, !bodies[light].Agree(),
                                      relative in bodies && !bodies[relative].Agree())
  {
    forall id
      ensures id in TornOf(bodies) <==>
              id in WithTwo(old(TornOf(bodies)), light, relative, !bodies[light].Agree(),
                            relative in bodies && !bodies[relative].Agree())
    {
      if id == light || (id == relative && relative in bodies) {
        TornIsTorn(bodies, id);
      }
    }
  }

  /** A run tears what its outcome says. */
  twostate lemma TornByTwo(bodies: map<int, BodyState>, new light: int, new relative: int, new tear: Tear)
    requires Separate(bodies.Values) && Numbered(bodies) && light in bodies
    requires forall b <- bodies.Values :: b.byBody == old(b.byBody)
    requires forall b <- bodies.Values :: b != bodies[light] && b != FindBody(bodies, relative) ==>
               b.byError == old(b.byError)
    requires TornBy(bodies[light], FindBody(bodies, relative), tear)
    ensures TornOf(bodies) == WithTwo(old(TornOf(bodies)), light, relative, tear.LightTorn?, tear.RelativeTorn?)
  {
    OthersById(bodies, light, relative);
    TornOfTwo(bodies, light, relative);
    if relative in bodies && relative != light {
      assert bodies[relative].id == relative && bodies[light].id == light;
    }
  }

  class Precomputer {
    const setting: Setting
    /** init_bodies_of_interest */
    const bodies: map<int, BodyState>
    /** cached_arg_map and cached_data_vector */
    var argMap: map<Args, nat>
    var entries: seq<Entry>

    constructor (setting: Setting, bodies: map<int, BodyState>)
      requires IsWorld(setting.w) && Separate(bodies.Values) && Numbered(bodies)
      ensures this.setting == setting && this.bodies == bodies && entries == [] && Valid()
    {
      this.setting, this.bodies := setting, bodies;
      argMap, entries := map[], [];
    }

    ghost predicate Valid()
      reads this, bodies.Values, Ranked(bodies.Values)
    {
      && IsWorld(setting.w) && Separate(bodies.Values) && Numbered(bodies)
      && Indexed(argMap, entries) && Coherent(setting, RostersOf(bodies), entries)
    }

    /** The resets of a light body and the other one, if that is of interest. */
    method ResetTwo(light: int, relative: int) returns (ok: bool)
      requires Separate(bodies.Values) && Numbered(bodies) && light in bodies
      modifies bodies.Values, Members(bodies.Values)
      ensures forall b <- bodies.Values :: b.byBody == old(b.byBody)
      ensures RostersOf(bodies) == old(RostersOf(bodies)) && Separate(bodies.Values)
      ensures var rosters, torn := RostersOf(bodies), old(TornOf(bodies));
              && (ok <==> CanReset(rosters, torn, light) && CanReset(rosters, torn, relative))
              && TornOf(bodies) == TornAfterResets(rosters, torn, light, relative)
      ensures ok ==> SameBodies(Bodies(bodies[light], FindBody(bodies, relative)),
                                Blanks(RostersOf(bodies)[light], Find(RostersOf(bodies), relative)))
    {
      ghost var torn := TornOf(bodies);
      TornIsTorn(bodies, light);
      if relative in bodies {
        TornIsTorn(bodies, relative);
      }
      ok := ResetAmong(bodies.Values, bodies[light], FindBody(bodies, relative));
      SameRosters(bodies);
      OthersById(bodies, light, relative);
      TornOfTwo(bodies, light, relative);
      TornTwoAfterResets(RostersOf(bodies), torn, light, relative, !bodies[light].Agree(),
                         relative in bodies && !bodies[relative].Agree());
    }

    /** The sampling loop with two bodies that were reset. */
    method SampleTwo(c: Call, light: int, relative: int) returns (outcome: Outcome, samples: seq<Sample>)
      requires IsWorld(c.w) && Separate(bodies.Values) && Numbered(bodies) && light in bodies
      requires light !in TornOf(bodies) && relative !in TornOf(bodies)
      requires SameBodies(Bodies(bodies[light], FindBody(bodies, relative)),
                          Blanks(RostersOf(bodies)[light], Find(RostersOf(bodies), relative)))
      modifies bodies.Values, Members(bodies.Values)
      ensures RostersOf(bodies) == old(RostersOf(bodies))
      ensures SameEnding(SampledRun(c, Blanks(RostersOf(bodies)[light], Find(RostersOf(bodies), relative)),
                                    setting.maneuvers, setting.planStart), outcome, samples)
      ensures outcome.Completed? || outcome.Thrown? ==>
                && Separate(bodies.Values)
                && TornOf(bodies) == WithTwo(old(TornOf(bodies)), light, relative,
                                             TearOf(outcome).LightTorn?, TearOf(outcome).RelativeTorn?)
    {
      TornIsTorn(bodies, light);
      if relative in bodies {
        TornIsTorn(bodies, relative);
      }
      RunAfterReset(c, Bodies(bodies[light], FindBody(bodies, relative)), RostersOf(bodies)[light],
                    Find(RostersOf(bodies), relative), setting.maneuvers, setting.planStart);
      outcome, samples :=
        SampleAmong(bodies.Values, c, bodies[light], FindBody(bodies, relative), setting.maneuvers, setting.planStart);
      SameRosters(bodies);
      if outcome.Completed? || outcome.Thrown? {
        TornByTwo(bodies, light, relative, TearOf(outcome));
      }
    }

    /** The computation behind a new entry, once both bodies are reset: frame information, and the loop. */
    method ComputeReset(a: Args, light: int, relative: int) returns (outcome: Outcome, samples: seq<Sample>)
      requires IsWorld(setting.w) && Separate(bodies.Values) && Numbered(bodies) && light in bodies
      requires light !in TornOf(bodies) && relative !in TornOf(bodies)
      requires SameBodies(Bodies(bodies[light], FindBody(bodies, relative)),
                          Blanks(RostersOf(bodies)[light], Find(RostersOf(bodies), relative)))
      modifies bodies.Values, Members(bodies.Values)
      ensures RostersOf(bodies) == old(RostersOf(bodies))
      ensures SameEnding(AnswerAfterResets(setting, RostersOf(bodies), a, light, relative), outcome, samples)
      ensures outcome.Completed? || outcome.Thrown? ==>
                && Separate(bodies.Values)
                && TornOf(bodies) == WithTwo(old(TornOf(bodies)), light, relative,
                                             TearOf(outcome).LightTorn?, TearOf(outcome).RelativeTorn?)
    {
      samples := [];
      var period := setting.framePeriod(a.frame);
      if period.None? {
        return Thrown(Whole), samples;
      }
      if FindBody(bodies, relative) == null && relative != SUN {
        return AssertionFailed, samples;
      }
      outcome, samples := SampleTwo(Call(setting.w, a, period.value, setting.planEnd), light, relative);
    }

    /** The computation behind a new entry: geometry and resets, and what follows them. */
    method Compute(a: Args) returns (outcome: Outcome, samples: seq<Sample>)
      requires IsWorld(setting.w) && Separate(bodies.Values) && Numbered(bodies)
      modifies bodies.Values, Members(bodies.Values)
      ensures RostersOf(bodies) == old(RostersOf(bodies))
      ensures SameEnding(Answer(setting, RostersOf(bodies), old(TornOf(bodies)), a), outcome, samples)
      ensures outcome.Completed? || outcome.Thrown? ==> Separate(bodies.Values)
      ensures outcome.Completed? || outcome.Thrown? ==>
                TornOf(bodies) == TornAfter(setting, RostersOf(bodies), old(TornOf(bodies)), a)
    {
      samples := [];
      var ends := setting.geometry(a.target, a.observer);
      if ends.None? {
        return Thrown(Whole), samples;
      }
      var light, relative := ends.value.0, ends.value.1;
      if light !in bodies {
        return AssertionFailed, samples;
      }
      ghost var rosters, torn := RostersOf(bodies), TornOf(bodies);
      TornIsTorn(bodies, light);
      if |bodies[light].byError| !in {1, 11} {
        return AssertionFailed, samples;
      }
      var ok := ResetTwo(light, relative);
      SameInfluencers(bodies.Values);
      if !ok {
        AnswerWithoutReset(setting, rosters, torn, a, light, relative);
        return Thrown(Whole), samples;
      }
      AnswerWithResets(setting, rosters, torn, a, light, relative);
      outcome, samples := ComputeReset(a, light, relative);
    }

    /** The entry as it is before the computation starts. */
    method Reserve(a: Args)
      requires Separate(bodies.Values)
      modifies this`argMap, this`entries
      ensures argMap == old(argMap)[a := |old(entries)|] && entries == old(entries) + [Entry(a, [])]
      ensures Separate(bodies.Values)
      ensures RostersOf(bodies) == old(RostersOf(bodies)) && TornOf(bodies) == old(TornOf(bodies))
    {
      argMap := argMap[a := |entries|];
      entries := entries + [Entry(a, [])];
      SameState(bodies);
    }

    method Store(samples: seq<Sample>)
      requires entries != []
      modifies this`entries
      ensures entries == old(entries)[|old(entries)| - 1 := old(entries)[|old(entries)| - 1].(samples := samples)]
      ensures old(Separate(bodies.Values)) ==> Separate(bodies.Values)
      ensures RostersOf(bodies) == old(RostersOf(bodies)) && TornOf(bodies) == old(TornOf(bodies))
    {
      entries := entries[|entries| - 1 := entries[|entries| - 1].(samples := samples)];
    }

    /** A new entry: it is there before the computation starts, and keeps what was recorded when that throws. */
    method AddEntry(a: Args) returns (outcome: Outcome)
      requires Valid() && a !in argMap
      modifies this, bodies.Values, Members(bodies.Values)
      ensures RostersOf(bodies) == old(RostersOf(bodies))
      ensures argMap == old(argMap)[a := |old(entries)|]
      ensures outcome == Answer(setting, RostersOf(bodies), old(TornOf(bodies)), a).0
      ensures outcome.Completed? || outcome.Thrown? ==>
                && Valid()
                && entries == old(entries) + [Entry(a, Answer(setting, RostersOf(bodies), old(TornOf(bodies)), a).1)]
                && TornOf(bodies) == TornAfter(setting, RostersOf(bodies), old(TornOf(bodies)), a)
    {
      ghost var entries0, rosters, torn := entries, RostersOf(bodies), TornOf(bodies);
      Reserve(a);
      var samples;
      outcome, samples := Compute(a);
      Store(samples);
      if outcome.Completed? || outcome.Thrown? {
        LastFilled(setting, rosters, torn, old(argMap), entries0, a, samples, entries);
      }
    }

    /** The entry for the arguments, computed on the first call. */
    method Precompute(a: Args) returns (outcome: Outcome, index: nat)
      requires Valid()
      modifies this, bodies.Values, Members(bodies.Values)
      ensures RostersOf(bodies) == old(RostersOf(bodies))
      ensures a in old(argMap) ==>
                && outcome == Completed && index == old(argMap[a])
                && argMap == old(argMap) && entries == old(entries) && TornOf(bodies) == old(TornOf(bodies))
      ensures a !in old(argMap) ==>
                && outcome == Answer(setting, RostersOf(bodies), old(TornOf(bodies)), a).0 && index == |old(entries)|
                && argMap == old(argMap)[a := index]
      ensures a !in old(argMap) && (outcome.Completed? || outcome.Thrown?) ==>
                && entries == old(entries) + [Entry(a, Answer(setting, RostersOf(bodies), old(TornOf(bodies)), a).1)]
                && TornOf(bodies) == TornAfter(setting, RostersOf(bodies), old(TornOf(bodies)), a)
      ensures outcome.Completed? || outcome.Thrown? ==> Valid()
    {
      if a in argMap {
        return Completed, argMap[a];
      }
      index := |entries|;
      outcome := AddEntry(a);
    }
  }
}
