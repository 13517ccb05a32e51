/** The wrapper around spkez that remembers the last call for each combination of
    arguments, and the switches that control it. */
module SpkezMemo {
  import opened Influencers
  import opened Options
  import opened Steps

  /** The value of a default-constructed time, which clear_cache stores. */
  const ZERO_TIME := 0

  datatype Answer = Success(state: State) | Fail

  function Direct(eph: Ephemeris, a: Args, now: int): Answer {
    match eph(a, now)
    case Some(s) => if a.target == a.observer then Fail else Success(s)
    case None => Fail
  }

  // ---------------------------------------------------------------------------
  // The memo as a value
  // ---------------------------------------------------------------------------

  /** The time and the result of the last call that succeeded. */
  datatype Saved = Saved(time: int, state: State)

  /** The two switches that matter, and the memo itself; unset is what the state of an entry holds
      before any call has succeeded. */
  datatype Memo = Memo(caching: bool, repeatCallsOnly: bool, saved: map<Args, Saved>, unset: State)

  datatype Op =
    | Query(args: Args, now: int)
    | Clear
    | Control(enabled: bool, checkErrors: bool, repeatOnly: bool)

  function Cleared(saved: map<Args, Saved>): map<Args, Saved> {
    map a | a in saved :: Saved(ZERO_TIME, saved[a].state)
  }

  /** Whether the wrapper returns what it has saved. */
  predicate Hit(m: Memo, a: Args, now: int) {
    m.caching && a.target != a.observer && a in m.saved && m.saved[a].time == now
  }

  function Asked(eph: Ephemeris, m: Memo, a: Args, now: int): (Memo, Answer) {
    if a.target == a.observer then (m, Fail)
    else if !m.caching then (m, Direct(eph, a, now))
    else if Hit(m, a, now) then (m, Success(m.saved[a].state))
    else
      var known := if a in m.saved then m else m.(saved := m.saved[a := Saved(ZERO_TIME, m.unset)]);
      if !m.repeatCallsOnly then (known, Fail)
      else match eph(a, now)
        case None => (known, Fail)
        case Some(s) => (known.(saved := known.saved[a := Saved(now, s)]), Success(s))
  }

  /** Setting the switches clears the memo, except for a combination that is refused. */
  function Controlled(m: Memo, enabled: bool, checkErrors: bool, repeatOnly: bool): Memo {
    m.(caching := enabled, repeatCallsOnly := repeatOnly,
       saved := if checkErrors && repeatOnly then m.saved else Cleared(m.saved))
  }

  function Applied(eph: Ephemeris, m: Memo, op: Op): Memo {
    match op
    case Query(a, now) => Asked(eph, m, a, now).0
    case Clear => m.(saved := Cleared(m.saved))
    case Control(enabled, checkErrors, repeatOnly) => Controlled(m, enabled, checkErrors, repeatOnly)
  }

  /** The memo after a history, the latest operation last. */
  function After(eph: Ephemeris, m: Memo, ops: seq<Op>): Memo {
    if ops == [] then m else Applied(eph, After(eph, m, ops[..|ops| - 1]), ops[|ops| - 1])
  }

  /** What is saved under a time other than the default one is what spkez returns for that time. */
  predicate Truthful(eph: Ephemeris, m: Memo) {
    forall a :: a in m.saved && m.saved[a].time != ZERO_TIME ==>
      a.target != a.observer && eph(a, m.saved[a].time) == Some(m.saved[a].state)
  }

  lemma StepKeepsTruth(eph: Ephemeris, m: Memo, op: Op)
    requires Truthful(eph, m)
    ensures Truthful(eph, Applied(eph, m, op))
  {
  }

  lemma {:induction false} HistoryKeepsTruth(eph: Ephemeris, m: Memo, ops: seq<Op>)
    requires m.saved == map[]
    ensures Truthful(eph, After(eph, m, ops))
  {
    if ops != [] {
      HistoryKeepsTruth(eph, m, ops[..|ops| - 1]);
      StepKeepsTruth(eph, After(eph, m, ops[..|ops| - 1]), ops[|ops| - 1]);
    }
  }

  /** After any history of queries, failures, clearings and switches a query for another time than
      the default one is answered as spkez would answer it; with caching on but the mode without
      support, it fails unless it repeats the last call. */
  lemma AnswersAreDirect(eph: Ephemeris, m: Memo, ops: seq<Op>, a: Args, now: int)
    requires m.saved == map[] && now != ZERO_TIME
    ensures var n := After(eph, m, ops);
            Asked(eph, n, a, now).1 ==
              if n.caching && !n.repeatCallsOnly && !Hit(n, a, now) then Fail else Direct(eph, a, now)
  {
    HistoryKeepsTruth(eph, m, ops);
  }

  /** The switches are as the last spkez_control set them, or as they were if there was none. */
  lemma {:induction false} LastControlDecides(eph: Ephemeris, m: Memo, ops: seq<Op>, j: nat)
    requires j < |ops| ==> ops[j].Control?
    requires j <= |ops| && forall k :: (if j < |ops| then j + 1 else 0) <= k < |ops| ==> !ops[k].Control?
    ensures var n := After(eph, m, ops);
            if j < |ops| then n.caching == ops[j].enabled && n.repeatCallsOnly == ops[j].repeatOnly
            else n.caching == m.caching && n.repeatCallsOnly == m.repeatCallsOnly
  {
    if ops != [] && j != |ops| - 1 {
      LastControlDecides(eph, m, ops[..|ops| - 1], if j < |ops| then j else |ops| - 1);
    }
  }

  // ---------------------------------------------------------------------------
  // The default time
  // ---------------------------------------------------------------------------

  predicate IsQuery(op: Op, a: Args) {
    op.Query? && op.args == a && a.target != a.observer
  }

  /** The j-th operation of a history makes an entry for a if there is none. */
  predicate AsksAt(eph: Ephemeris, m: Memo, ops: seq<Op>, j: nat, a: Args)
    requires j < |ops|
  {
    IsQuery(ops[j], a) && After(eph, m, ops[..j]).caching
  }

  /** The j-th operation of a history calls spkez for a, which succeeds. */
  predicate SavesAt(eph: Ephemeris, m: Memo, ops: seq<Op>, j: nat, a: Args)
    requires j < |ops|
  {
    var n := After(eph, m, ops[..j]);
    && IsQuery(ops[j], a) && n.caching && n.repeatCallsOnly
    && !Hit(n, a, ops[j].now) && eph(a, ops[j].now).Some?
  }

  predicate Clears(op: Op) {
    op.Clear? || (op.Control? && !(op.checkErrors && op.repeatOnly))
  }

  predicate LastSave(eph: Ephemeris, m: Memo, ops: seq<Op>, j: nat, a: Args) {
    j < |ops| && SavesAt(eph, m, ops, j, a) && forall k :: j < k < |ops| ==> !SavesAt(eph, m, ops, k, a)
  }

  predicate ClearedSince(ops: seq<Op>, j: nat) {
    exists k :: j < k < |ops| && Clears(ops[k])
  }

  /** Operations before the last one are the same in the shorter history. */
  lemma InFront(eph: Ephemeris, m: Memo, ops: seq<Op>, j: nat, a: Args)
    requires j < |ops| - 1
    ensures SavesAt(eph, m, ops[..|ops| - 1], j, a) <==> SavesAt(eph, m, ops, j, a)
    ensures AsksAt(eph, m, ops[..|ops| - 1], j, a) <==> AsksAt(eph, m, ops, j, a)
  {
    assert ops[..|ops| - 1][..j] == ops[..j];
  }

  /** What an operation does to the entry for a. */
  lemma EntryAfter(eph: Ephemeris, m: Memo, op: Op, a: Args)
    ensures var n := Applied(eph, m, op);
            var saves := IsQuery(op, a) && m.caching && m.repeatCallsOnly && !Hit(m, a, op.now) && eph(a, op.now).Some?;
            && n.unset == m.unset
            && (a in n.saved <==> a in m.saved || (IsQuery(op, a) && m.caching))
            && (saves ==> n.saved[a] == Saved(op.now, eph(a, op.now).value))
            && (!saves && a in n.saved ==>
                  var old' := if a in m.saved then m.saved[a] else Saved(ZERO_TIME, m.unset);
                  n.saved[a] == if Clears(op) then old'.(time := ZERO_TIME) else old')
  {
  }

  /** The entry for a holds the state of the last successful call, under its time, or under the default
      time if the memo was cleared since. */
  lemma {:induction false} LastSaveIsKept(eph: Ephemeris, m: Memo, ops: seq<Op>, j: nat, a: Args)
    requires LastSave(eph, m, ops, j, a)
    ensures var n := After(eph, m, ops);
            && a in n.saved && n.saved[a].state == eph(a, ops[j].now).value
            && n.saved[a].time == if ClearedSince(ops, j) then ZERO_TIME else ops[j].now
  {
    var last := |ops| - 1;
    var front := ops[..last];
    EntryAfter(eph, After(eph, m, front), ops[last], a);
    if j < last {
      InFront(eph, m, ops, j, a);
      forall k | j < k < last
        ensures !SavesAt(eph, m, front, k, a)
      {
        InFront(eph, m, ops, k, a);
      }
      LastSaveIsKept(eph, m, front, j, a);
      assert !SavesAt(eph, m, ops, last, a);
      assert ClearedSince(ops, j) <==> ClearedSince(front, j) || Clears(ops[last]) by {
        assert forall k :: j < k < last ==> front[k] == ops[k];
      }
    }
  }

  predicate NoSave(eph: Ephemeris, m: Memo, ops: seq<Op>, a: Args) {
    forall j :: 0 <= j < |ops| ==> !SavesAt(eph, m, ops, j, a)
  }

  predicate EverAsked(eph: Ephemeris, m: Memo, ops: seq<Op>, a: Args) {
    exists j :: 0 <= j < |ops| && AsksAt(eph, m, ops, j, a)
  }

  lemma InFrontOfLast(eph: Ephemeris, m: Memo, ops: seq<Op>, front: seq<Op>, a: Args)
    requires ops != [] && front == ops[..|ops| - 1]
    ensures NoSave(eph, m, ops, a) ==> NoSave(eph, m, front, a) && !SavesAt(eph, m, ops, |ops| - 1, a)
    ensures EverAsked(eph, m, ops, a) <==> EverAsked(eph, m, front, a) || AsksAt(eph, m, ops, |ops| - 1, a)
  {
    forall k | 0 <= k < |front|
      ensures SavesAt(eph, m, front, k, a) <==> SavesAt(eph, m, ops, k, a)
      ensures AsksAt(eph, m, front, k, a) <==> AsksAt(eph, m, ops, k, a)
    {
      InFront(eph, m, ops, k, a);
    }
    if EverAsked(eph, m, front, a) {
      var k :| 0 <= k < |front| && AsksAt(eph, m, front, k, a);
      assert AsksAt(eph, m, ops, k, a);
    }
    if EverAsked(eph, m, ops, a) && !AsksAt(eph, m, ops, |ops| - 1, a) {
      var k :| 0 <= k < |ops| && AsksAt(eph, m, ops, k, a);
      assert AsksAt(eph, m, front, k, a);
    }
  }

  /** Without one there is an entry for a exactly if a was asked for, with no state in it. */
  lemma {:induction false} NeverSaved(eph: Ephemeris, m: Memo, ops: seq<Op>, a: Args)
    requires m.saved == map[] && NoSave(eph, m, ops, a)
    ensures var n := After(eph, m, ops);
            && n.unset == m.unset
            && (a in n.saved <==> EverAsked(eph, m, ops, a))
            && (a in n.saved ==> n.saved[a] == Saved(ZERO_TIME, m.unset))
  {
    if ops != [] {
      var front, last := ops[..|ops| - 1], ops[|ops| - 1];
      InFrontOfLast(eph, m, ops, front, a);
      NeverSaved(eph, m, front, a);
      EntryAfter(eph, After(eph, m, front), last, a);
    }
  }

  /** After any history with a successful call for a, the answer at the default time is direct exactly
      if the memo was not cleared since the last one, or that gave the state of the default time. */
  lemma AnswerAtDefaultTime(eph: Ephemeris, m: Memo, ops: seq<Op>, j: nat, a: Args)
    requires After(eph, m, ops).caching && After(eph, m, ops).repeatCallsOnly && LastSave(eph, m, ops, j, a)
    ensures Asked(eph, After(eph, m, ops), a, ZERO_TIME).1 == Direct(eph, a, ZERO_TIME) <==>
            !ClearedSince(ops, j) || eph(a, ops[j].now) == eph(a, ZERO_TIME)
  {
    LastSaveIsKept(eph, m, ops, j, a);
  }

  /** After one without, exactly if a was never asked for, or the state of the default time is what an
      entry holds before any call. */
  lemma AnswerWithoutCall(eph: Ephemeris, m: Memo, ops: seq<Op>, a: Args)
    requires m.saved == map[] && a.target != a.observer && NoSave(eph, m, ops, a)
    requires After(eph, m, ops).caching && After(eph, m, ops).repeatCallsOnly
    ensures Asked(eph, After(eph, m, ops), a, ZERO_TIME).1 == Direct(eph, a, ZERO_TIME) <==>
            !EverAsked(eph, m, ops, a) || eph(a, ZERO_TIME) == Some(m.unset)
  {
    NeverSaved(eph, m, ops, a);
  }

  /** Clearing makes the default time answer with the last state of any other time. */
  lemma StaleAfterClear(eph: Ephemeris, m: Memo, a: Args, t: int)
    requires m.saved == map[] && m.caching && m.repeatCallsOnly && a.target != a.observer
    requires t != ZERO_TIME && eph(a, t).Some? && eph(a, t) != eph(a, ZERO_TIME)
    ensures Asked(eph, After(eph, m, [Query(a, t), Clear]), a, ZERO_TIME).1 == Success(eph(a, t).value)
    ensures Asked(eph, After(eph, m, [Query(a, t), Clear]), a, ZERO_TIME).1 != Direct(eph, a, ZERO_TIME)
  {
    var ops := [Query(a, t), Clear];
    assert ops[..1] == [Query(a, t)] && ops[..1][..0] == [];
    assert After(eph, m, ops[..1]) == Asked(eph, m, a, t).0;
  }

  /** A failed first call leaves an entry under the default time, with no state in it. */
  lemma UnsetAfterFailure(eph: Ephemeris, m: Memo, a: Args, t: int)
    requires m.saved == map[] && m.caching && m.repeatCallsOnly && a.target != a.observer
    requires eph(a, t).None?
    ensures Asked(eph, After(eph, m, [Query(a, t)]), a, ZERO_TIME).1 == Success(m.unset)
  {
    var ops := [Query(a, t)];
    assert ops[..0] == [];
    assert After(eph, m, ops) == Asked(eph, m, a, t).0;
  }

  // ---------------------------------------------------------------------------
  // The memo as it is stored
  // ---------------------------------------------------------------------------

  /** call_data, as far as repeated calls are concerned. */
  class CallData {
    const args: Args
    var ptime: int
    var presult: State

    constructor (args: Args, unset: State)
      ensures this.args == args && ptime == ZERO_TIME && presult == unset
    {
      this.args, ptime, presult := args, ZERO_TIME, unset;
    }

    function Get(): Saved
      reads this
    {
      Saved(ptime, presult)
    }

    method CallSpkez(eph: Ephemeris, now: int) returns (r: Answer)
      modifies this
      ensures eph(args, now).None? ==> r == Fail && Get() == old(Get())
      ensures eph(args, now).Some? ==>
                r == Success(eph(args, now).value) && Get() == Saved(now, eph(args, now).value)
    {
      var s := eph(args, now);
      if s.None? {
        return Fail;
      }
      r := Success(s.value);
      ptime := now;
      presult := s.value;
    }
  }

  /** Map, argument vector and call vector are in one-to-one correspondence. */
  predicate Indexed(argMap: map<Args, nat>, args: seq<Args>, calls: seq<CallData>) {
    && |args| == |calls|
    && (forall a :: a in argMap ==> argMap[a] < |args| && args[argMap[a]] == a)
    && (forall k :: 0 <= k < |args| ==> args[k] in argMap && argMap[args[k]] == k && calls[k].args == args[k])
  }

  ghost function SavedIn(argMap: map<Args, nat>, args: seq<Args>, calls: seq<CallData>): map<Args, Saved>
    requires Indexed(argMap, args, calls)
    reads calls
  {
    map a | a in argMap :: calls[argMap[a]].Get()
  }

  lemma CallsDiffer(argMap: map<Args, nat>, args: seq<Args>, calls: seq<CallData>)
    requires Indexed(argMap, args, calls)
    ensures forall j, k :: 0 <= j < |calls| && 0 <= k < |calls| && j != k ==> calls[j] != calls[k]
  {
  }

  /** Only one call changed. */
  twostate lemma SavedOneCall(new argMap: map<Args, nat>, new args: seq<Args>, calls: seq<CallData>, new a: Args)
    requires Indexed(argMap, args, calls) && a in argMap
    requires forall k :: 0 <= k < |calls| && k != argMap[a] ==> calls[k].Get() == old(calls[k].Get())
    ensures SavedIn(argMap, args, calls) == old(SavedIn(argMap, args, calls))[a := calls[argMap[a]].Get()]
  {
    forall b | b in argMap && b != a
      ensures calls[argMap[b]].Get() == old(calls[argMap[b]].Get())
    {
      assert args[argMap[b]] == b && args[argMap[a]] == a;
    }
  }

  lemma IndexedOneMore(argMap: map<Args, nat>, args: seq<Args>, calls: seq<CallData>, a: Args, c: CallData)
    requires Indexed(argMap, args, calls) && a !in argMap && c.args == a
    ensures Indexed(argMap[a := |args|], args + [a], calls + [c])
    ensures SavedIn(argMap[a := |args|], args + [a], calls + [c]) == SavedIn(argMap, args, calls)[a := c.Get()]
  {
  }

  class Spkez {
    const eph: Ephemeris
    const unset: State
    var caching: bool
    var repeatCallsOnly: bool
    /** spkez_arg_map, spkez_args and prev_spkez_call */
    var argMap: map<Args, nat>
    var args: seq<Args>
    var calls: seq<CallData>

    constructor (eph: Ephemeris, unset: State)
      ensures Valid() && View() == Memo(true, true, map[], unset) && this.eph == eph
    {
      this.eph, this.unset := eph, unset;
      caching, repeatCallsOnly := true, true;
      argMap, args, calls := map[], [], [];
    }

    predicate Valid()
      reads this
    {
      Indexed(argMap, args, calls)
    }

    ghost function View(): Memo
      requires Valid()
      reads this, calls
    {
      Memo(caching, repeatCallsOnly, SavedIn(argMap, args, calls), unset)
    }

    /** The entry for new arguments. */
    method AddCall(a: Args)
      requires Valid() && a !in argMap
      modifies this`argMap, this`args, this`calls
      ensures Valid() && a in argMap && fresh(calls[argMap[a]])
      ensures forall c <- calls :: c in old(calls) || fresh(c)
      ensures View() == old(View()).(saved := old(View()).saved[a := Saved(ZERO_TIME, unset)])
    {
      ghost var before := View().saved;
      var index := |args|;
      var c := new CallData(a, unset);
      IndexedOneMore(argMap, args, calls, a, c);
      assert SavedIn(argMap, args, calls) == before;
      argMap := argMap[a := index];
      args := args + [a];
      calls := calls + [c];
    }

    method Query(a: Args, now: int) returns (r: Answer)
      requires Valid()
      modifies this, calls
      ensures Valid() && forall c <- calls :: c in old(calls) || fresh(c)
      ensures View() == Asked(eph, old(View()), a, now).0 && r == Asked(eph, old(View()), a, now).1
    {
      if a.observer == a.target {
        return Fail;
      }
      if !caching {
        var s := eph(a, now);
        return if s.None? then Fail else Success(s.value);
      }
      var validDataExist := a in argMap;
      if !validDataExist {
        AddCall(a);
      }
      var previous := calls[argMap[a]];
      if validDataExist && now - previous.ptime == 0 {
        return Success(previous.presult);
      }
      if !repeatCallsOnly {
        return Fail;
      }
      r := Call(a, now);
    }

    /** Call spkez and save the result. */
    method Call(a: Args, now: int) returns (r: Answer)
      requires Valid() && a in argMap
      modifies calls[argMap[a]]
      ensures r == if eph(a, now).None? then Fail else Success(eph(a, now).value)
      ensures View() == if eph(a, now).None? then old(View())
                        else old(View()).(saved := old(View()).saved[a := Saved(now, eph(a, now).value)])
    {
      CallsDiffer(argMap, args, calls);
      r := calls[argMap[a]].CallSpkez(eph, now);
      SavedOneCall(argMap, args, calls, a);
    }

    /** The part of clear_cache that resets the memo. */
    method ClearCache()
      requires Valid()
      modifies calls
      ensures Valid() && View() == Applied(eph, old(View()), Clear)
    {
      CallsDiffer(argMap, args, calls);
      for i := 0 to |calls|
        invariant Valid()
        invariant forall k :: 0 <= k < i ==> calls[k].Get() == Saved(ZERO_TIME, old(calls[k].presult))
        invariant forall k :: i <= k < |calls| ==> calls[k].Get() == old(calls[k].Get())
      {
        calls[i].ptime := ZERO_TIME;
      }
    }

    /** spkez_control */
    method SetSwitches(enabled: bool, checkErrors: bool, repeatOnly: bool) returns (ok: bool)
      requires Valid()
      modifies this`caching, this`repeatCallsOnly, calls
      ensures Valid() && View() == Applied(eph, old(View()), Control(enabled, checkErrors, repeatOnly))
      ensures ok <==> !(checkErrors && repeatOnly)
    {
      ghost var before := View();
      caching := enabled;
      repeatCallsOnly := repeatOnly;
      assert View() == before.(caching := enabled, repeatCallsOnly := repeatOnly);
      if checkErrors && repeatCallsOnly {
        return false;
      }
      ClearCache();
      ok := true;
    }
  }
}
