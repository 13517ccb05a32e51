/** The times that the sampler records, given the ends of its steps and the
    maneuvers: around a maneuver it adds one node a minute before and one a
    minute after, and it may leave out the end of the step. Milliseconds throughout. */
module SampleTimes {

  const MINUTE := 60000

  /** The maneuvers left once those up to time t are passed. */
  function DropUpTo(maneuvers: seq<int>, t: int): (rest: seq<int>)
    ensures rest != [] ==> rest[0] > t
    ensures |rest| <= |maneuvers|
  {
    if maneuvers == [] || maneuvers[0] > t then maneuvers else DropUpTo(maneuvers[1..], t)
  }

  /** Whether the next maneuver falls into the step that ends at p. */
  predicate Hit(pending: seq<int>, p: int) {
    pending != [] && p >= pending[0]
  }

  /** Whether the end of the step is left out because it is close behind the maneuver. */
  predicate Skipped(pending: seq<int>, p: int) {
    Hit(pending, p) && p - pending[0] <= 2 * MINUTE
  }

  /** The times recorded for a step that ends at p. */
  function Nodes(pending: seq<int>, p: int): (r: seq<int>)
    ensures r != []
  {
    if !Hit(pending, p) then [p]
    else if Skipped(pending, p) then [pending[0] - MINUTE, pending[0] + MINUTE]
    else [pending[0] - MINUTE, pending[0] + MINUTE, p]
  }

  /** The maneuvers still ahead after steps to all the points. */
  function Pending(maneuvers: seq<int>, start: int, points: seq<int>): (rest: seq<int>)
    ensures rest != [] ==> rest[0] > if points == [] then start else points[|points| - 1]
  {
    if points == [] then DropUpTo(maneuvers, start)
    else DropUpTo(Pending(maneuvers, start, points[..|points| - 1]), points[|points| - 1])
  }

  /** All times recorded for a run that starts at start and steps to the points. */
  function Times(maneuvers: seq<int>, start: int, points: seq<int>): (r: seq<int>)
    ensures r != []
  {
    if points == [] then [start]
    else
      var front := points[..|points| - 1];
      Times(maneuvers, start, front) + Nodes(Pending(maneuvers, start, front), points[|points| - 1])
  }

  lemma OneMorePoint(maneuvers: seq<int>, start: int, points: seq<int>, p: int)
    ensures Times(maneuvers, start, points + [p])
         == Times(maneuvers, start, points) + Nodes(Pending(maneuvers, start, points), p)
    ensures Pending(maneuvers, start, points + [p]) == DropUpTo(Pending(maneuvers, start, points), p)
  {
    assert (points + [p])[..|points|] == points;
  }

  lemma Regrouped(a: seq<int>, b: seq<int>, c: seq<int>, ab: seq<int>)
    requires ab == a + b
    ensures ab + c == a + (b + c)
  {
  }

  lemma NothingMore(a: seq<int>, b: seq<int>)
    requires b == []
    ensures a + b == a
  {
  }

  lemma OneMoreTime(maneuvers: seq<int>, start: int, points: seq<int>, q: seq<int>, most: seq<int>, p: int)
    returns (more: seq<int>)
    requires Times(maneuvers, start, q) == Times(maneuvers, start, points) + most
    ensures Times(maneuvers, start, q + [p]) == Times(maneuvers, start, points) + more
  {
    var nodes := Nodes(Pending(maneuvers, start, q), p);
    more := most + nodes;
    OneMorePoint(maneuvers, start, q, p);
    Regrouped(Times(maneuvers, start, points), most, nodes, Times(maneuvers, start, q));
  }

  /** More points only add times. */
  lemma {:induction false} TimesExtend(maneuvers: seq<int>, start: int, points: seq<int>, rest: seq<int>)
    returns (more: seq<int>)
    ensures Times(maneuvers, start, points + rest) == Times(maneuvers, start, points) + more
    decreases |rest|
  {
    if rest == [] {
      more := [];
      NothingMore(points, rest);
      NothingMore(Times(maneuvers, start, points), more);
    } else {
      var front, p := rest[..|rest| - 1], rest[|rest| - 1];
      assert front + [p] == rest;
      Regrouped(points, front, [p], points + front);
      var most := TimesExtend(maneuvers, start, points, front);
      more := OneMoreTime(maneuvers, start, points, points + front, most, p);
    }
  }

  function Last(s: seq<int>): int
    requires s != []
  {
    s[|s| - 1]
  }

  function LastPoint(start: int, points: seq<int>): int {
    if points == [] then start else Last(points)
  }

  predicate Increasing(s: seq<int>) {
    forall i :: 0 < i < |s| ==> s[i - 1] < s[i]
  }

  // ---------------------------------------------------------------------------
  // First and last time
  // ---------------------------------------------------------------------------

  /** The first time is the start, and the last time is the end of the last step or within a
      minute of it. */
  lemma {:induction false} FirstAndLast(maneuvers: seq<int>, start: int, points: seq<int>)
    ensures Times(maneuvers, start, points)[0] == start
    ensures LastPoint(start, points) - MINUTE <= Last(Times(maneuvers, start, points))
                                              <= LastPoint(start, points) + MINUTE
  {
    if points != [] {
      FirstAndLast(maneuvers, start, points[..|points| - 1]);
    }
  }

  // ---------------------------------------------------------------------------
  // Order
  // ---------------------------------------------------------------------------

  /** The last time recorded so far: the end of the last step, unless the sampler left that out
      because a maneuver came close before it. */
  function LastRecorded(maneuvers: seq<int>, start: int, points: seq<int>): int {
    if points != [] && Skipped(Pending(maneuvers, start, points[..|points| - 1]), Last(points))
    then Pending(maneuvers, start, points[..|points| - 1])[0] + MINUTE
    else LastPoint(start, points)
  }

  lemma LastTime(maneuvers: seq<int>, start: int, points: seq<int>)
    ensures Last(Times(maneuvers, start, points)) == LastRecorded(maneuvers, start, points)
  {
  }

  /** Whether the first node of a step to p comes after the last time recorded before. */
  predicate NodeIsLater(maneuvers: seq<int>, start: int, points: seq<int>, p: int) {
    var m := Pending(maneuvers, start, points);
    LastRecorded(maneuvers, start, points) < if Hit(m, p) then m[0] - MINUTE else p
  }

  predicate NodesAreLater(maneuvers: seq<int>, start: int, points: seq<int>) {
    points != [] ==>
      var front := points[..|points| - 1];
      NodesAreLater(maneuvers, start, front) && NodeIsLater(maneuvers, start, front, Last(points))
  }

  lemma IncreasingConcat(a: seq<int>, b: seq<int>)
    requires a != [] && b != [] && Increasing(b)
    ensures Increasing(a + b) <==> Increasing(a) && Last(a) < b[0]
  {
    var c := a + b;
    if Increasing(c) {
      assert c[|a| - 1] < c[|a|];
      forall i | 0 < i < |a|
        ensures a[i - 1] < a[i]
      {
        assert c[i - 1] < c[i];
      }
    }
    if Increasing(a) && Last(a) < b[0] {
      forall i | 0 < i < |c|
        ensures c[i - 1] < c[i]
      {
        if i > |a| {
          assert b[i - |a| - 1] < b[i - |a|];
        }
      }
    }
  }

  lemma NodesIncrease(pending: seq<int>, p: int)
    ensures Increasing(Nodes(pending, p))
    ensures Nodes(pending, p)[0] == if Hit(pending, p) then pending[0] - MINUTE else p
  {
  }

  /** The recorded times increase strictly exactly if each step starts its nodes after the last node. */
  lemma {:induction false} TimesIncreaseExactlyWhen(maneuvers: seq<int>, start: int, points: seq<int>)
    ensures Increasing(Times(maneuvers, start, points)) <==> NodesAreLater(maneuvers, start, points)
  {
    if points != [] {
      var front, p := points[..|points| - 1], Last(points);
      var m := Pending(maneuvers, start, front);
      TimesIncreaseExactlyWhen(maneuvers, start, front);
      NodesIncrease(m, p);
      LastTime(maneuvers, start, front);
      IncreasingConcat(Times(maneuvers, start, front), Nodes(m, p));
    }
  }

  /** Maneuvers that lie more than two minutes apart, in the order of their times. */
  predicate Apart(maneuvers: seq<int>) {
    forall i, j :: 0 <= i < j < |maneuvers| ==> maneuvers[j] - maneuvers[i] > 2 * MINUTE
  }

  lemma {:induction false} DropIsSuffix(maneuvers: seq<int>, t: int)
    ensures DropUpTo(maneuvers, t) == maneuvers[|maneuvers| - |DropUpTo(maneuvers, t)|..]
  {
    if maneuvers != [] && maneuvers[0] <= t {
      DropIsSuffix(maneuvers[1..], t);
    }
  }

  lemma {:induction false} PendingIsSuffix(maneuvers: seq<int>, start: int, points: seq<int>)
    ensures var rest := Pending(maneuvers, start, points);
            |rest| <= |maneuvers| && rest == maneuvers[|maneuvers| - |rest|..]
  {
    if points == [] {
      DropIsSuffix(maneuvers, start);
    } else {
      PendingIsSuffix(maneuvers, start, points[..|points| - 1]);
      DropIsSuffix(Pending(maneuvers, start, points[..|points| - 1]), Last(points));
    }
  }

  /** Every recorded end of a step is more than a minute before the maneuver that comes next. */
  predicate ClearOfManeuvers(maneuvers: seq<int>, start: int, points: seq<int>) {
    ClearAt(maneuvers, start, points) && (points != [] ==> ClearOfManeuvers(maneuvers, start, points[..|points| - 1]))
  }

  /** The same for the end of the last step, if it is recorded. */
  predicate ClearAt(maneuvers: seq<int>, start: int, points: seq<int>) {
    var skipped := points != [] && Skipped(Pending(maneuvers, start, points[..|points| - 1]), Last(points));
    var ahead := Pending(maneuvers, start, points);
    !skipped && ahead != [] ==> ahead[0] - LastPoint(start, points) > MINUTE
  }

  predicate LongSteps(start: int, points: seq<int>) {
    points != [] ==>
      Last(points) - LastPoint(start, points[..|points| - 1]) > MINUTE && LongSteps(start, points[..|points| - 1])
  }

  lemma NextNodeIsLater(maneuvers: seq<int>, start: int, points: seq<int>, p: int)
    requires Apart(maneuvers)
    requires p - LastPoint(start, points) > MINUTE
    requires ClearAt(maneuvers, start, points)
    ensures NodeIsLater(maneuvers, start, points, p)
  {
    var ahead := Pending(maneuvers, start, points);
    PendingIsSuffix(maneuvers, start, points);
    if points != [] {
      var front := points[..|points| - 1];
      var before := Pending(maneuvers, start, front);
      PendingIsSuffix(maneuvers, start, front);
      if Skipped(before, Last(points)) && ahead != [] {
        TwoPending(maneuvers, before, ahead);
      }
    }
  }

  /** Of two suffixes the later one starts more than two minutes behind the earlier one. */
  lemma TwoPending(maneuvers: seq<int>, before: seq<int>, ahead: seq<int>)
    requires Apart(maneuvers)
    requires |before| <= |maneuvers| && before == maneuvers[|maneuvers| - |before|..]
    requires |ahead| <= |maneuvers| && ahead == maneuvers[|maneuvers| - |ahead|..]
    requires before != [] && ahead != [] && before[0] < ahead[0]
    ensures ahead[0] - before[0] > 2 * MINUTE
  {
    var i, j := |maneuvers| - |before|, |maneuvers| - |ahead|;
    assert before[0] == maneuvers[i] && ahead[0] == maneuvers[j];
  }

  /** Maneuvers more than two minutes apart, steps longer than a minute and recorded ends of
      steps clear of the next maneuver together make the times increase. */
  lemma {:induction false} TimesIncrease(maneuvers: seq<int>, start: int, points: seq<int>)
    requires Apart(maneuvers) && LongSteps(start, points) && ClearOfManeuvers(maneuvers, start, points)
    ensures Increasing(Times(maneuvers, start, points))
  {
    if points != [] {
      var front := points[..|points| - 1];
      TimesIncrease(maneuvers, start, front);
      TimesIncreaseExactlyWhen(maneuvers, start, front);
      NextNodeIsLater(maneuvers, start, front, Last(points));
      TimesIncreaseExactlyWhen(maneuvers, start, points);
    }
  }

  /** Without these conditions they need not: a maneuver half a minute after the start gets a node
      half a minute before it. */
  lemma TimesMayGoBack()
    ensures Times([30000], 0, [100000]) == [0, -30000, 90000]
    ensures !Increasing(Times([30000], 0, [100000]))
  {
    var points := [100000];
    assert points[..0] == [];
    assert DropUpTo([30000], 0) == [30000];
    assert Pending([30000], 0, []) == [30000];
    var r := Times([30000], 0, points);
    assert r == [0] + [-30000, 90000];
    assert r[0] == 0 && r[1] == -30000;
  }

  // ---------------------------------------------------------------------------
  // Coverage
  // ---------------------------------------------------------------------------

  predicate Ordered(maneuvers: seq<int>) {
    forall i, j :: 0 <= i < j < |maneuvers| ==> maneuvers[i] <= maneuvers[j]
  }

  predicate Ascending(start: int, points: seq<int>) {
    points != [] ==>
      LastPoint(start, points[..|points| - 1]) < Last(points) && Ascending(start, points[..|points| - 1])
  }

  lemma NodesWithin(pending: seq<int>, from: int, p: int, low: int, high: int)
    requires (pending != [] ==> pending[0] > from) && low <= from && from < p <= high
    ensures forall t <- Nodes(pending, p) :: low - MINUTE <= t <= high + MINUTE
  {
  }

  /** All times lie within a minute of the start and the last point. */
  lemma {:induction false} TimesWithin(maneuvers: seq<int>, start: int, points: seq<int>)
    requires Ascending(start, points)
    ensures start <= LastPoint(start, points)
    ensures forall t <- Times(maneuvers, start, points) :: start - MINUTE <= t <= LastPoint(start, points) + MINUTE
  {
    if points != [] {
      var front := points[..|points| - 1];
      TimesWithin(maneuvers, start, front);
      NodesWithin(Pending(maneuvers, start, front), LastPoint(start, front), Last(points), start, Last(points));
    }
  }

  lemma {:induction false} DropKeepsLater(maneuvers: seq<int>, t: int, m: int)
    requires Ordered(maneuvers)
    ensures Ordered(DropUpTo(maneuvers, t))
    ensures m in DropUpTo(maneuvers, t) <==> m in maneuvers && m > t
  {
    if maneuvers != [] {
      assert maneuvers == [maneuvers[0]] + maneuvers[1..];
      if maneuvers[0] <= t {
        DropKeepsLater(maneuvers[1..], t, m);
      } else if m in maneuvers {
        var i :| 0 <= i < |maneuvers| && maneuvers[i] == m;
        assert m >= maneuvers[0];
      }
    }
  }

  /** The maneuvers that are pending are those behind the last step. */
  lemma {:induction false} PendingAreLater(maneuvers: seq<int>, start: int, points: seq<int>, m: int)
    requires Ordered(maneuvers) && Ascending(start, points)
    ensures Ordered(Pending(maneuvers, start, points))
    ensures m in Pending(maneuvers, start, points) <==> m in maneuvers && m > LastPoint(start, points)
  {
    if points == [] {
      DropKeepsLater(maneuvers, start, m);
    } else {
      var front := points[..|points| - 1];
      PendingAreLater(maneuvers, start, front, m);
      DropKeepsLater(Pending(maneuvers, start, front), Last(points), m);
    }
  }

  lemma LeastIsFirst(pending: seq<int>, m: int)
    requires Ordered(pending) && m in pending
    ensures pending[0] <= m
  {
    var i :| 0 <= i < |pending| && pending[i] == m;
  }

  lemma NextManeuver(maneuvers: seq<int>, start: int, points: seq<int>, m: int, pending: seq<int>)
    requires Ordered(maneuvers) && Ascending(start, points) && pending == Pending(maneuvers, start, points)
    requires m in maneuvers && LastPoint(start, points) < m
    requires forall k :: k in maneuvers && LastPoint(start, points) < k ==> m <= k
    ensures pending != [] && pending[0] == m
  {
    PendingAreLater(maneuvers, start, points, m);
    LeastIsFirst(pending, m);
    PendingAreLater(maneuvers, start, points, pending[0]);
  }

  lemma NodesAtManeuver(pending: seq<int>, p: int, m: int)
    requires pending != [] && pending[0] == m <= p
    ensures Nodes(pending, p) == [m - MINUTE, m + MINUTE] + if p - m <= 2 * MINUTE then [] else [p]
  {
  }

  /** The earliest maneuver within a step gets its two nodes, and no other one does. */
  lemma FirstManeuverGetsNodes(maneuvers: seq<int>, start: int, points: seq<int>, p: int, m: int)
    requires Ordered(maneuvers) && Ascending(start, points)
    requires m in maneuvers && LastPoint(start, points) < m <= p
    requires forall k :: k in maneuvers && LastPoint(start, points) < k ==> m <= k
    ensures Nodes(Pending(maneuvers, start, points), p)
         == [m - MINUTE, m + MINUTE] + if p - m <= 2 * MINUTE then [] else [p]
  {
    NextManeuver(maneuvers, start, points, m, Pending(maneuvers, start, points));
    NodesAtManeuver(Pending(maneuvers, start, points), p, m);
  }

  lemma NextIsBehind(maneuvers: seq<int>, start: int, points: seq<int>, p: int, pending: seq<int>)
    requires Ordered(maneuvers) && Ascending(start, points) && pending == Pending(maneuvers, start, points)
    requires forall k :: k in maneuvers && LastPoint(start, points) < k ==> p < k
    ensures !Hit(pending, p)
  {
    if pending != [] {
      PendingAreLater(maneuvers, start, points, pending[0]);
    }
  }

  /** A step without a maneuver gets one node, at its end. */
  lemma QuietStep(maneuvers: seq<int>, start: int, points: seq<int>, p: int)
    requires Ordered(maneuvers) && Ascending(start, points)
    requires forall k :: k in maneuvers && LastPoint(start, points) < k ==> p < k
    ensures Nodes(Pending(maneuvers, start, points), p) == [p]
  {
    NextIsBehind(maneuvers, start, points, p, Pending(maneuvers, start, points));
  }

  predicate GapsWithin(s: seq<int>, gap: int) {
    forall i :: 0 < i < |s| ==> s[i] - s[i - 1] <= gap
  }

  predicate StepsWithin(start: int, points: seq<int>, limit: int) {
    points != [] ==>
      Last(points) - LastPoint(start, points[..|points| - 1]) <= limit
      && StepsWithin(start, points[..|points| - 1], limit)
  }

  lemma GapsConcat(a: seq<int>, b: seq<int>, gap: int)
    requires a != [] && b != [] && GapsWithin(a, gap) && GapsWithin(b, gap) && b[0] - Last(a) <= gap
    ensures GapsWithin(a + b, gap)
  {
    var c := a + b;
    forall i | 0 < i < |c|
      ensures c[i] - c[i - 1] <= gap
    {
      if i > |a| {
        assert b[i - |a|] - b[i - |a| - 1] <= gap;
      }
    }
  }

  lemma NodeGaps(pending: seq<int>, from: int, p: int, limit: int)
    requires pending != [] ==> pending[0] > from
    requires limit >= MINUTE && p - from <= limit
    ensures GapsWithin(Nodes(pending, p), limit + MINUTE)
    ensures Nodes(pending, p)[0] <= p
  {
  }

  /** Leaving out the end of a step lengthens a gap by a minute at most: with steps of at most
      limit, at least a minute, no two neighbouring times are further apart than limit and a minute. */
  lemma {:induction false} GapsAreBounded(maneuvers: seq<int>, start: int, points: seq<int>, limit: int)
    requires limit >= MINUTE && StepsWithin(start, points, limit)
    ensures GapsWithin(Times(maneuvers, start, points), limit + MINUTE)
  {
    if points != [] {
      var front, p := points[..|points| - 1], Last(points);
      GapsAreBounded(maneuvers, start, front, limit);
      FirstAndLast(maneuvers, start, front);
      var m := Pending(maneuvers, start, front);
      NodeGaps(m, LastPoint(start, front), p, limit);
      GapsConcat(Times(maneuvers, start, front), Nodes(m, p), limit + MINUTE);
    }
  }
}
