/** The heavy bodies that disturb a light one, kept in two lists: one in the
    order of their error estimates, one with a single entry for each body. */
module Influencers {
  import opened Options

  /** Position and velocity of one body relative to another. */
  datatype State = State(x: real, y: real, z: real, vx: real, vy: real, vz: real)

  /** Times are in milliseconds; this one is 2000-001T00:00:00. */
  const DELUGE := 0

  /** infl_data and the key of its node, which is the encoded error estimate. */
  datatype Datum = Datum(bodyID: int, key: int, prevTime: int, prevState: State)

  /** compute_abs_err_sec_4th: the encoded error of a light body under a heavy one at some time, and
      the state that is remembered, given the previous time and state if there are any; None where
      the ephemeris throws. */
  type Estimator = (int, int, int, Option<(int, State)>) -> Option<(int, State)>

  function Previous(d: Datum): Option<(int, State)> {
    if d.prevTime > DELUGE then Some((d.prevTime, d.prevState)) else None
  }

  /** An update at time t needs no estimate for the influencer, or there is one. */
  predicate Estimable(e: Estimator, light: int, d: Datum, t: int) {
    d.prevTime == t || e(light, d.bodyID, t, Previous(d)).Some?
  }

  /** The influencer after its turn in an update at time t; without an estimate it stays as it is. */
  function Evaluate(e: Estimator, light: int, d: Datum, t: int): Datum {
    if d.prevTime == t then d
    else match e(light, d.bodyID, t, Previous(d))
      case None => d
      case Some((key, state)) => Datum(d.bodyID, key, t, state)
  }

  /** All influencers after an update at time t. */
  function Updated(e: Estimator, light: int, s: seq<Datum>, t: int): seq<Datum> {
    seq(|s|, i requires 0 <= i < |s| => Evaluate(e, light, s[i], t))
  }

  /** No influencer was evaluated after t. */
  predicate NotAhead(s: seq<Datum>, t: int) {
    forall d <- s :: d.prevTime <= t
  }

  function AsReset(s: seq<Datum>): seq<Datum> {
    seq(|s|, i requires 0 <= i < |s| => s[i].(key := 0, prevTime := DELUGE))
  }

  /** How an update ends: all influencers are evaluated, or the assertion on evaluation times fails,
      or the estimate for the influencer at some place throws. */
  datatype UpdateEnd = Done | Asserted | Threw(at: nat)

  predicate Blocked(e: Estimator, light: int, d: Datum, t: int) {
    d.prevTime > t || !Estimable(e, light, d, t)
  }

  /** The first influencer that an update cannot pass, or the number of them. */
  function StopOf(e: Estimator, light: int, s: seq<Datum>, t: int): (i: nat)
    ensures i <= |s| && forall j :: 0 <= j < i ==> !Blocked(e, light, s[j], t)
    ensures i < |s| ==> Blocked(e, light, s[i], t)
  {
    if s == [] then 0
    else
      var i := StopOf(e, light, s[..|s| - 1], t);
      if i < |s| - 1 || Blocked(e, light, s[|s| - 1], t) then i else |s|
  }

  function EndOfUpdate(e: Estimator, light: int, s: seq<Datum>, t: int): UpdateEnd {
    var i := StopOf(e, light, s, t);
    if i == |s| then Done else if s[i].prevTime > t then Asserted else Threw(i)
  }

  /** The influencers when the first n have had their turn. */
  function UpdatedUpTo(e: Estimator, light: int, s: seq<Datum>, t: int, n: nat): seq<Datum> {
    seq(|s|, i requires 0 <= i < |s| => if i < n then Evaluate(e, light, s[i], t) else s[i])
  }

  /** An update succeeds if and only if no influencer was evaluated later and no needed estimate throws. */
  lemma UpdateSucceedsExactlyWhen(e: Estimator, light: int, s: seq<Datum>, t: int)
    ensures EndOfUpdate(e, light, s, t) == Done <==> NotAhead(s, t) && forall d <- s :: Estimable(e, light, d, t)
  {
    var i := StopOf(e, light, s, t);
    if i < |s| {
      assert s[i] in s;
    }
  }

  /** It throws at the first influencer that has no estimate, if none up to there was evaluated later. */
  lemma UpdateThrowsExactlyWhen(e: Estimator, light: int, s: seq<Datum>, t: int, i: nat)
    ensures EndOfUpdate(e, light, s, t) == Threw(i) <==>
            && i < |s| && !Estimable(e, light, s[i], t)
            && forall j :: 0 <= j <= i ==> s[j].prevTime <= t && (j < i ==> Estimable(e, light, s[j], t))
  {
    var k := StopOf(e, light, s, t);
    assert forall j :: 0 <= j < k ==> !Blocked(e, light, s[j], t);
  }

  /** The largest key, or zero if there is none. */
  function MaxKey(s: seq<Datum>): int {
    if s == [] then 0
    else if |s| == 1 || s[|s| - 1].key >= MaxKey(s[..|s| - 1]) then s[|s| - 1].key
    else MaxKey(s[..|s| - 1])
  }

  lemma {:induction false} MaxKeyIsMax(s: seq<Datum>)
    requires s != []
    ensures exists d <- s :: d.key == MaxKey(s)
    ensures forall d <- s :: d.key <= MaxKey(s)
  {
    var front, last := s[..|s| - 1], s[|s| - 1];
    assert s == front + [last];
    if front != [] {
      MaxKeyIsMax(front);
      var d :| d in front && d.key == MaxKey(front);
      assert d in s && last in s;
    } else {
      assert last in s;
    }
  }

  lemma {:induction false} ResetHasNoError(s: seq<Datum>)
    ensures MaxKey(AsReset(s)) == 0
  {
    if s != [] {
      ResetHasNoError(s[..|s| - 1]);
      assert AsReset(s)[..|s| - 1] == AsReset(s[..|s| - 1]);
    }
  }

  /** A second update at the same time changes nothing. */
  lemma UpdatedTwice(e: Estimator, light: int, s: seq<Datum>, t: int)
    ensures Updated(e, light, Updated(e, light, s, t), t) == Updated(e, light, s, t)
  {
  }

  /** Key and state of an influencer are the estimate for time t, given its state at the time u of the last
      evaluation, or nothing if it was not evaluated after the deluge date. */
  predicate EstimatedFrom(e: Estimator, light: int, before: Datum, after: Datum, u: int, t: int) {
    && (u > DELUGE ==> e(light, before.bodyID, t, Some((u, before.prevState))) == Some((after.key, after.prevState)))
    && (u <= DELUGE ==> e(light, before.bodyID, t, None) == Some((after.key, after.prevState)))
  }

  /** What an update at time t makes of an influencer: one that carries another time gets the estimate
      for t, given what was remembered of it; one that carries t is passed over. */
  predicate Evaluated(e: Estimator, light: int, before: Datum, after: Datum, t: int) {
    && after.bodyID == before.bodyID && after.prevTime == t
    && (before.prevTime != t ==> EstimatedFrom(e, light, before, after, before.prevTime, t))
    && (before.prevTime == t ==> after == before)
  }

  /** After an update that succeeds every influencer carries its time, and its key is the estimate for
      that time unless it carried the time before. No time later than that is ahead. */
  lemma UpdatedAtOneTime(e: Estimator, light: int, s: seq<Datum>, t: int, r: seq<Datum>)
    requires EndOfUpdate(e, light, s, t) == Done && r == Updated(e, light, s, t)
    ensures |r| == |s| && forall i :: 0 <= i < |s| ==> Evaluated(e, light, s[i], r[i], t)
    ensures forall u :: NotAhead(r, u) <==> s == [] || t <= u
  {
    UpdateSucceedsExactlyWhen(e, light, s, t);
    forall i | 0 <= i < |s|
      ensures Evaluated(e, light, s[i], r[i], t)
    {
      assert s[i] in s;
    }
    forall u
      ensures NotAhead(r, u) <==> s == [] || t <= u
    {
      if s != [] {
        assert r[0] in r;
      }
    }
  }

  /** After updates at two times the second estimate is made from the state that the first one gave. */
  lemma SecondUpdateRemembers(e: Estimator, light: int, s: seq<Datum>, t: int, first: seq<Datum>, u: int,
                              second: seq<Datum>, i: nat)
    requires EndOfUpdate(e, light, s, t) == Done && first == Updated(e, light, s, t)
    requires EndOfUpdate(e, light, first, u) == Done && second == Updated(e, light, first, u)
    requires i < |s| && s[i].prevTime != t && t > DELUGE && u != t
    ensures exists p :: e(light, s[i].bodyID, t, p) == Some((first[i].key, first[i].prevState))
    ensures e(light, s[i].bodyID, u, Some((t, first[i].prevState))) == Some((second[i].key, second[i].prevState))
  {
    UpdatedAtOneTime(e, light, s, t, first);
    UpdatedAtOneTime(e, light, first, u, second);
    assert Evaluated(e, light, s[i], first[i], t) && Evaluated(e, light, first[i], second[i], u);
    assert e(light, s[i].bodyID, t, if s[i].prevTime > DELUGE then Some((s[i].prevTime, s[i].prevState)) else None)
        == Some((first[i].key, first[i].prevState));
  }

  /** An influencer that was reset or never evaluated is taken for evaluated at the deluge date. */
  lemma DelugeIsPassedOver(e: Estimator, light: int, s: seq<Datum>)
    ensures Updated(e, light, AsReset(s), DELUGE) == AsReset(s)
    ensures EndOfUpdate(e, light, AsReset(s), DELUGE) == Done
    ensures MaxKey(AsReset(s)) == 0
  {
    ResetHasNoError(s);
  }

  class Influencer {
    const bodyID: int
    var key: int
    var prevTime: int
    var prevState: State

    constructor (key: int, bodyID: int)
      ensures this.bodyID == bodyID && this.key == key
      ensures prevTime == DELUGE
    {
      this.bodyID, this.key := bodyID, key;
      prevTime, prevState := DELUGE, State(0.0, 0.0, 0.0, 0.0, 0.0, 0.0);
    }

    function Get(): Datum
      reads this
    {
      Datum(bodyID, key, prevTime, prevState)
    }
  }

  predicate Sorted(s: seq<Influencer>)
    reads s
  {
    forall i, j :: 0 <= i < j < |s| ==> s[i].key <= s[j].key
  }

  /** No body occurs twice. */
  predicate OneEach(s: seq<Influencer>) {
    forall i, j :: 0 <= i < j < |s| ==> s[i].bodyID != s[j].bodyID
  }

  lemma {:induction false} OccursOnce(s: seq<Influencer>, i: nat)
    requires OneEach(s) && i < |s|
    ensures multiset(s)[s[i]] == 1
  {
    var front, last := s[..|s| - 1], s[|s| - 1];
    assert s == front + [last];
    forall j | 0 <= j < |front|
      ensures front[j] != last
    {
      assert front[j] == s[j];
    }
    if i < |front| {
      OccursOnce(front, i);
    }
  }

  function AfterInsert(s: seq<Influencer>, x: Influencer, i: nat, j: nat): Influencer
    requires i <= |s| && j <= |s|
  {
    if j < i then s[j] else if j == i then x else s[j - 1]
  }

  lemma InsertedAt(s: seq<Influencer>, x: Influencer, i: nat, r: seq<Influencer>)
    requires i <= |s| && r == s[..i] + [x] + s[i..]
    ensures |r| == |s| + 1
    ensures forall j :: 0 <= j < |r| ==> r[j] == AfterInsert(s, x, i, j)
    ensures multiset(r) == multiset(s) + multiset{x}
  {
    assert s == s[..i] + s[i..];
  }

  lemma SortedAfterInsert(s: seq<Influencer>, x: Influencer, i: nat, r: seq<Influencer>)
    requires Sorted(s) && i <= |s|
    requires forall j :: 0 <= j < i ==> s[j].key <= x.key
    requires i < |s| ==> x.key < s[i].key
    requires |r| == |s| + 1 && forall j :: 0 <= j < |r| ==> r[j] == AfterInsert(s, x, i, j)
    ensures Sorted(r)
  {
    forall j, k | 0 <= j < k < |r|
      ensures r[j].key <= r[k].key
    {
      if k == i + 1 || k == i {
      } else if j <= i < k {
        assert s[i].key <= s[k - 1].key;
      }
    }
  }

  lemma SortedAfterRemove(s: seq<Influencer>, i: nat)
    requires Sorted(s) && i < |s|
    ensures Sorted(s[..i] + s[i + 1..])
    ensures multiset(s[..i] + s[i + 1..]) == multiset(s) - multiset{s[i]}
  {
    var r := s[..i] + s[i + 1..];
    assert s == s[..i] + [s[i]] + s[i + 1..];
    forall j, k | 0 <= j < k < |r|
      ensures r[j].key <= r[k].key
    {
      assert r[j] == (if j < i then s[j] else s[j + 1]) && r[k] == (if k < i then s[k] else s[k + 1]);
    }
  }

  lemma RestHasAtMostOne(all: multiset<Influencer>, some: multiset<Influencer>, rest: multiset<Influencer>)
    requires some <= all && |all| <= |some| + 1 && rest == all - some
    ensures all == some + rest
    ensures forall x <- rest :: rest == multiset{x}
  {
    assert all == some + rest;
    assert |all| == |some| + |rest|;
    forall x | x in rest
      ensures rest == multiset{x}
    {
      assert |rest - multiset{x}| == 0;
    }
  }

  /** A body of interest (body_state) with the influencers it tracks. */
  class BodyState {
    const id: int
    /** infl_in_incr_abs_err_order, a list kept sorted by key */
    var byError: seq<Influencer>
    /** infl_in_incr_body_id_order */
    var byBody: seq<Influencer>

    constructor (id: int)
      ensures this.id == id && Agree() && byError == byBody == []
    {
      this.id, byError, byBody := id, [], [];
    }

    /** Both lists hold the same influencers, none of them twice, the first in the order of the keys. */
    ghost predicate Agree()
      reads this, byError
    {
      multiset(byError) == multiset(byBody) && OneEach(byBody) && Sorted(byError)
    }

    /** The list by error lacks one influencer. */
    ghost predicate Lacks(m: nat)
      reads this, byError
    {
      && m < |byBody| && multiset(byError) + multiset{byBody[m]} == multiset(byBody)
      && OneEach(byBody) && Sorted(byError)
    }

    ghost predicate Holds(m: nat)
      reads this, byError
    {
      if m < |byBody| then Lacks(m) else Agree()
    }

    /** The lists agree but for one influencer at most, which the list by error lacks. */
    ghost predicate Intact()
      reads this, byError
    {
      && multiset(byError) <= multiset(byBody) && |byBody| <= |byError| + 1
      && OneEach(byBody) && Sorted(byError)
    }

    lemma LackingDisagrees(m: nat)
      requires Lacks(m)
      ensures !Agree()
    {
      assert |multiset(byError)| < |multiset(byBody)|;
    }

    lemma HeldIsIntact(m: nat)
      requires Holds(m)
      ensures Intact()
    {
      assert |byError| == |multiset(byError)| && |byBody| == |multiset(byBody)|;
      if m < |byBody| {
        assert |multiset(byError) + multiset{byBody[m]}| == |multiset(byError)| + 1;
      }
    }

    lemma AgreeingIsIntact()
      requires Agree()
      ensures Intact()
    {
      HeldIsIntact(|byBody|);
    }

    /** The index of the influencer that is missing, or the number of them. */
    lemma FindMissing() returns (m: nat)
      requires Intact()
      ensures Holds(m) && (m < |byBody| <==> !Agree())
    {
      var rest := multiset(byBody) - multiset(byError);
      RestHasAtMostOne(multiset(byBody), multiset(byError), rest);
      if rest == multiset{} {
        m := |byBody|;
      } else {
        var x :| x in rest;
        assert rest == multiset{x} && x in multiset(byBody);
        m :| m < |byBody| && byBody[m] == x;
        LackingDisagrees(m);
      }
    }

    lemma LengthTells()
      requires Intact()
      ensures |byError| == if Agree() then |byBody| else |byBody| - 1
    {
      var m := FindMissing();
      assert |byError| == |multiset(byError)| && |byBody| == |multiset(byBody)|;
      if m < |byBody| {
        assert |multiset(byError) + multiset{byBody[m]}| == |multiset(byError)| + 1;
      }
    }

    lemma SameMembers()
      requires Agree()
      ensures forall x: Influencer :: x in byError <==> x in byBody
    {
      forall x: Influencer
        ensures x in byError <==> x in byBody
      {
        assert x in byError <==> x in multiset(byError);
        assert x in byBody <==> x in multiset(byBody);
      }
    }

    function Data(): (s: seq<Datum>)
      reads this, byBody
      ensures |s| == |byBody|
    {
      seq(|byBody|, i requires 0 <= i < |byBody| reads this, byBody => byBody[i].Get())
    }

    predicate Tracks(bodyID: int)
      reads this
    {
      exists x <- byBody :: x.bodyID == bodyID
    }

    /** remove_node throws for a node that is not in the list, unless the list is empty. */
    method Remove(x: Influencer) returns (ok: bool)
      requires Sorted(byError)
      modifies this`byError
      ensures ok <==> old(x in byError || byError == [])
      ensures old(x in byError) ==> multiset(byError) == old(multiset(byError)) - multiset{x}
      ensures old(x !in byError) ==> byError == old(byError)
      ensures Sorted(byError)
    {
      var i := 0;
      while i < |byError| && byError[i] != x
        invariant 0 <= i <= |byError| && x !in byError[..i]
      {
        i := i + 1;
      }
      if i == |byError| {
        assert byError[..i] == byError;
        return byError == [];
      }
      SortedAfterRemove(byError, i);
      byError := byError[..i] + byError[i + 1..];
      ok := true;
    }

    /** Insertion behind all influencers with the same or a smaller key. */
    method Insert(x: Influencer) returns (i: nat)
      requires Sorted(byError)
      modifies this`byError
      ensures multiset(byError) == old(multiset(byError)) + multiset{x}
      ensures Sorted(byError)
      ensures i <= |old(byError)| && byError == old(byError)[..i] + [x] + old(byError)[i..]
      ensures forall j :: 0 <= j < i ==> old(byError)[j].key <= x.key
      ensures i < |old(byError)| ==> x.key < old(byError)[i].key
    {
      i := 0;
      while i < |byError| && byError[i].key <= x.key
        invariant 0 <= i <= |byError|
        invariant forall j :: 0 <= j < i ==> byError[j].key <= x.key
      {
        i := i + 1;
      }
      ghost var s := byError;
      byError := byError[..i] + [x] + byError[i..];
      InsertedAt(s, x, i, byError);
      SortedAfterInsert(s, x, i, byError);
    }

    /** The operator <<: the second list gets an entry for bodies it does not hold yet. */
    method Push(x: Influencer)
      requires Sorted(byError)
      modifies this
      ensures Sorted(byError)
      ensures multiset(byError) == old(multiset(byError)) + multiset{x}
      ensures byBody == if old(Tracks(x.bodyID)) then old(byBody) else old(byBody) + [x]
    {
      var _ := Insert(x);
      if !Tracks(x.bodyID) {
        byBody := byBody + [x];
      }
    }

    /** Adding an influencer during set-up: the lists go on agreeing exactly if its body is new. */
    method Add(key: int, bodyID: int) returns (x: Influencer)
      requires Agree()
      modifies this
      ensures fresh(x) && x.Get().bodyID == bodyID && x.key == key && x.prevTime == DELUGE
      ensures Agree() <==> !old(Tracks(bodyID))
      ensures byBody == if old(Tracks(bodyID)) then old(byBody) else old(byBody) + [x]
    {
      ghost var bodies: seq<Influencer> := byBody;
      ghost var held: multiset<Influencer> := multiset(bodies);
      x := new Influencer(key, bodyID);
      Push(x);
      assert multiset(bodies + [x]) == held + multiset{x};
      assert (held + multiset{x})[x] == held[x] + 1;
    }

    /** err_per_sec_4th */
    method ErrPerSec4th() returns (k: int)
      requires Agree()
      ensures k == MaxKey(Data())
    {
      if byError == [] {
        assert multiset(byBody) == multiset{};
        return 0;
      }
      k := byError[|byError| - 1].key;
      LastIsMax();
    }

    lemma LastIsMax()
      requires Agree() && byError != []
      ensures byError[|byError| - 1].key == MaxKey(Data())
    {
      var s, last := Data(), byError[|byError| - 1];
      assert last in multiset(byBody);
      var i :| 0 <= i < |byBody| && byBody[i] == last;
      assert s[i].key == last.key && s[i] in s;
      MaxKeyIsMax(s);
      var d :| d in s && d.key == MaxKey(s);
      var j :| 0 <= j < |s| && s[j] == d;
      assert byBody[j] in multiset(byError);
    }

    /** What an influencer keeps from one evaluation to the next, and its key. */
    static method Store(x: Influencer, d: Datum)
      requires x.bodyID == d.bodyID
      modifies x
      ensures x.Get() == d
    {
      x.key, x.prevTime, x.prevState := d.key, d.prevTime, d.prevState;
    }

    lemma ListedExactlyWhen(i: nat, m: nat)
      requires Holds(m) && i < |byBody|
      ensures byBody[i] in byError <==> i != m
      ensures multiset(byError)[byBody[i]] <= 1
      ensures i == m ==> (byError == [] <==> |byBody| == 1)
    {
      OccursOnce(byBody, i);
      assert |byError| == |multiset(byError)| && |byBody| == |multiset(byBody)|;
      assert byBody[i] in byError <==> multiset(byError)[byBody[i]] > 0;
      if m < |byBody| {
        assert m != i ==> byBody[m].bodyID != byBody[i].bodyID;
        assert |multiset(byError) + multiset{byBody[m]}| == |byError| + 1;
      }
    }

    /** Take the i-th influencer out of its place by error before its key changes. If it is the one that
        is missing, that throws, unless the list is empty. */
    method TakeOut(i: nat, ghost m: nat) returns (ok: bool, x: Influencer)
      requires Holds(m) && i < |byBody|
      modifies this`byError
      ensures ok <==> i != m || |byBody| == 1
      ensures x == byBody[i] && Sorted(byError)
      ensures !ok ==> byError == old(byError)
      ensures ok ==> x !in byError
      ensures ok && m < |byBody| && m != i ==>
                multiset(byError) + multiset{byBody[m]} + multiset{x} == multiset(byBody)
      ensures ok && (m >= |byBody| || m == i) ==> multiset(byError) + multiset{x} == multiset(byBody)
    {
      x := byBody[i];
      ListedExactlyWhen(i, m);
      ok := Remove(x);
      assert ok ==> multiset(byError)[x] == 0;
    }

    lemma OthersDiffer(i: nat)
      requires OneEach(byBody) && i < |byBody|
      ensures forall j :: 0 <= j < |byBody| && j != i ==> byBody[j] != byBody[i]
    {
    }

    method ResetOne(i: nat, ghost m: nat) returns (ok: bool)
      requires Holds(m) && i < |byBody|
      modifies this`byError, byBody[i]
      ensures byBody == old(byBody)
      ensures ok <==> i != m || |byBody| == 1
      ensures !ok ==> Lacks(m) && byBody[i].Get() == old(byBody[i].Get())
      ensures ok ==> Holds(if i == m then |byBody| else m)
      ensures ok ==> byBody[i].Get() == old(byBody[i].Get()).(key := 0, prevTime := DELUGE)
      ensures forall j :: 0 <= j < |byBody| && j != i ==> byBody[j].Get() == old(byBody[j].Get())
    {
      OthersDiffer(i);
      var x;
      ok, x := TakeOut(i, m);
      if ok {
        Store(x, x.Get().(key := 0, prevTime := DELUGE));
        var _ := Insert(x);
      }
    }

    method ResetAll(ghost m: nat) returns (ok: bool)
      requires Holds(m)
      modifies this`byError, byBody
      ensures byBody == old(byBody)
      ensures ok <==> m >= |byBody| || |byBody| == 1
      ensures ok ==> Agree() && Data() == AsReset(old(Data()))
      ensures !ok ==> Lacks(m)
    {
      ghost var s := Data();
      ghost var missing: nat := m;
      for i := 0 to |byBody|
        invariant byBody == old(byBody) && Holds(missing)
        invariant missing < i ==> missing >= |byBody|
        invariant missing == m || (|byBody| == 1 && missing == 1)
        invariant forall j :: 0 <= j < i ==> byBody[j].Get() == s[j].(key := 0, prevTime := DELUGE)
        invariant forall j :: i <= j < |byBody| ==> byBody[j].Get() == s[j]
      {
        ok := ResetOne(i, missing);
        if !ok {
          return;
        }
        missing := if i == missing then |byBody| else missing;
      }
      ok := true;
    }

    /** Forget all estimates. The lists agree afterwards, unless an influencer is missing in one of them
        and there are others; then that throws, and it stays missing. */
    method Reset() returns (ok: bool)
      requires Intact()
      modifies this`byError, byBody
      ensures byBody == old(byBody)
      ensures ok <==> old(Agree()) || |byBody| == 1
      ensures ok ==> Agree() && Data() == AsReset(old(Data()))
      ensures !ok ==> Intact() && !Agree()
    {
      ghost var m := FindMissing();
      ok := ResetAll(m);
      if !ok {
        LackingDisagrees(m);
      }
      HeldIsIntact(if ok then |byBody| else m);
    }

    /** Evaluate one influencer, which may move it to another place by error. If the estimate throws it
        is missing from that list afterwards. */
    method UpdateOne(e: Estimator, t: int, i: nat) returns (r: UpdateEnd)
      requires Agree() && i < |byBody|
      modifies this, byBody[i]
      ensures r == if !old(Blocked(e, id, byBody[i].Get(), t)) then Done
                   else if old(byBody[i].prevTime) > t then Asserted else Threw(i)
      ensures byBody == old(byBody)
      ensures r.Done? ==> Agree() && byBody[i].Get() == Evaluate(e, id, old(byBody[i].Get()), t)
      ensures !r.Done? ==> Lacks(i) && byBody[i].Get() == old(byBody[i].Get())
      ensures forall j :: 0 <= j < |byBody| && j != i ==> byBody[j].Get() == old(byBody[j].Get())
    {
      OthersDiffer(i);
      if byBody[i].prevTime == t {
        return Done;
      }
      var _, x := TakeOut(i, |byBody|);
      if !(t > x.prevTime) {
        return Asserted;
      }
      var estimate := e(id, x.bodyID, t, Previous(x.Get()));
      if estimate.None? {
        return Threw(i);
      }
      Store(x, Datum(x.bodyID, estimate.value.0, t, estimate.value.1));
      Push(x);
      r := Done;
    }

    /** Evaluate every influencer at time t, unless that was done already. The lists agree afterwards
        exactly if that succeeds; otherwise the list by error lacks the influencer at which it stopped,
        those before it are evaluated, and it and those behind are as they were. */
    method UpdateInfluencers(e: Estimator, t: int) returns (r: UpdateEnd)
      requires Agree()
      modifies this, byBody
      ensures r == EndOfUpdate(e, id, old(Data()), t)
      ensures byBody == old(byBody)
      ensures Agree() <==> r.Done?
      ensures r.Done? ==> Data() == Updated(e, id, old(Data()), t)
      ensures r.Threw? ==> Lacks(r.at) && Data() == UpdatedUpTo(e, id, old(Data()), t, r.at)
    {
      ghost var s := Data();
      for i := 0 to |byBody|
        invariant Agree() && byBody == old(byBody)
        invariant forall j :: 0 <= j < i ==> byBody[j].Get() == Evaluate(e, id, s[j], t)
        invariant forall j :: 0 <= j < i ==> !Blocked(e, id, s[j], t)
        invariant forall j :: i <= j < |byBody| ==> byBody[j].Get() == s[j]
      {
        assert byBody[i].Get() == s[i];
        r := UpdateOne(e, t, i);
        if !r.Done? {
          assert StopOf(e, id, s, t) == i;
          LackingDisagrees(i);
          return;
        }
      }
      r := Done;
    }
  }
}
