/** Which waiting check a freed slot goes to: over every run they are served in the order of arrival. */
module Fairness {
  import opened Seqs
  import opened Scheduler

  /** The keys of the checks that nobody was asked to start, in list order. */
  function WaitingKeys(checks: seq<Check>): seq<Key> {
    if checks == [] then []
    else (if checks[0].thread == NOT_ASSIGNED then [checks[0].key] else []) + WaitingKeys(checks[1..])
  }

  lemma {:induction false} WaitingConcat(a: seq<Check>, b: seq<Check>)
    ensures WaitingKeys(a + b) == WaitingKeys(a) + WaitingKeys(b)
  {
    if a == [] {
      assert a + b == b;
    } else {
      assert (a + b)[1..] == a[1..] + b;
      WaitingConcat(a[1..], b);
    }
  }

  lemma WaitingOne(c: Check)
    ensures WaitingKeys([c]) == if c.thread == NOT_ASSIGNED then [c.key] else []
  {
    assert [c][1..] == [];
  }

  lemma WaitingSplit(checks: seq<Check>, i: nat)
    requires i < |checks|
    ensures WaitingKeys(checks) == WaitingKeys(checks[..i]) + WaitingKeys([checks[i]]) + WaitingKeys(checks[i + 1..])
  {
    CutAt(checks, i);
    WaitingConcat(checks[..i] + [checks[i]], checks[i + 1..]);
    WaitingConcat(checks[..i], [checks[i]]);
  }

  lemma CutAt(checks: seq<Check>, i: nat)
    requires i < |checks|
    ensures checks == (checks[..i] + [checks[i]]) + checks[i + 1..]
  {
  }

  lemma WaitingUpdate(checks: seq<Check>, i: nat, c: Check)
    requires i < |checks|
    ensures WaitingKeys(checks[i := c]) == WaitingKeys(checks[..i]) + WaitingKeys([c]) + WaitingKeys(checks[i + 1..])
  {
    WaitingSplit(checks[i := c], i);
    assert checks[i := c][..i] == checks[..i] && checks[i := c][i + 1..] == checks[i + 1..];
  }

  lemma {:induction false} NoneWaits(checks: seq<Check>)
    requires forall i :: 0 <= i < |checks| ==> checks[i].thread != NOT_ASSIGNED
    ensures WaitingKeys(checks) == []
  {
    if checks != [] {
      NoneWaits(checks[1..]);
    }
  }

  /** Who waits is listed as waiting, and nobody else. */
  lemma {:induction false} WaitingIff(checks: seq<Check>, key: Key)
    requires DistinctKeys(checks)
    ensures key in WaitingKeys(checks) <==> ThreadOf(checks, key) == NOT_ASSIGNED
  {
    if checks != [] {
      WaitingIff(checks[1..], key);
      assert forall k :: 0 <= k < |checks[1..]| ==> checks[1..][k] == checks[k + 1];
    }
  }

  // ------------------------------------------------------------------------------------------
  // One result

  /**
   After a result, with room, the check at the least waiting position gets the selected runner, and no
   other check changes.
   */
  lemma RefillServesFirst(s: State, i: nat)
    requires |s.loads| > 0 && s.checking < |s.loads| * s.maxChecks && i < |s.checks|
    requires s.checks[i].thread == -1 && forall k :: 0 <= k < i ==> s.checks[k].thread != -1
    ensures var t := Refill(s); var r := t.checks[i].thread;
      && |t.checks| == |s.checks| && (forall k :: 0 <= k < |s.checks| && k != i ==> t.checks[k] == s.checks[k])
      && 0 <= r < |s.loads| && IsSelected(s.loads, s.maxChecks, r) && t.checks[i] == s.checks[i].(thread := r)
      && t == s.(checks := t.checks, checking := s.checking + 1, loads := s.loads[r := s.loads[r] + 1])
  {
    assert FirstWaiting(s.checks) <= i;
  }

  /** With no room, or nobody waiting, nothing is started. */
  lemma RefillNothing(s: State)
    requires |s.loads| > 0
    requires s.checking >= |s.loads| * s.maxChecks || forall i :: 0 <= i < |s.checks| ==> s.checks[i].thread != -1
    ensures Refill(s) == s
  {
  }

  /** The waiting checks that a step takes up. */
  function TakenUp(before: seq<Key>, after: seq<Check>): seq<Key> {
    if before == [] then []
    else (if ThreadOf(after, before[0]) != NOT_ASSIGNED then [before[0]] else []) + TakenUp(before[1..], after)
  }

  lemma {:induction false} NoneTakenUp(before: seq<Key>, after: seq<Check>)
    requires DistinctKeys(after) && forall key :: key in before ==> key in WaitingKeys(after)
    ensures TakenUp(before, after) == []
  {
    if before != [] {
      WaitingIff(after, before[0]);
      assert before[0] in before;
      NoneTakenUp(before[1..], after);
    }
  }

  lemma {:induction false} WaitingDistinct(checks: seq<Check>)
    requires DistinctKeys(checks)
    ensures Distinct(WaitingKeys(checks))
    ensures forall key :: key in WaitingKeys(checks) ==> exists i :: 0 <= i < |checks| && checks[i].key == key
  {
    if checks != [] {
      WaitingDistinct(checks[1..]);
      var rest := WaitingKeys(checks[1..]);
      forall key | key in rest ensures key != checks[0].key {
        var i :| 0 <= i < |checks[1..]| && checks[1..][i].key == key;
        assert checks[i + 1].key == key;
      }
      if checks[0].thread == NOT_ASSIGNED {
        DistinctCons(checks[0].key, rest);
      }
      forall key | key in WaitingKeys(checks) ensures exists i :: 0 <= i < |checks| && checks[i].key == key {
        if key in rest {
          var i :| 0 <= i < |checks[1..]| && checks[1..][i].key == key;
          assert checks[i + 1].key == key;
        } else {
          assert checks[0].key == key;
        }
      }
    }
  }

  /** A check that is no longer listed as waiting is at the front; then exactly that one was taken up. */
  lemma FrontTakenUp(before: seq<Key>, after: seq<Check>)
    requires before != [] && Distinct(before) && DistinctKeys(after) && WaitingKeys(after) == before[1..]
    ensures TakenUp(before, after) == [before[0]]
  {
    WaitingIff(after, before[0]);
    assert before[0] !in before[1..];
    NoneTakenUp(before[1..], after);
  }

  /** Giving the first waiting check a runner takes exactly its key off the front. */
  lemma FirstTaken(checks: seq<Check>, c: Check)
    requires FirstWaiting(checks) < |checks| && c.thread != NOT_ASSIGNED
    ensures WaitingKeys(checks) != [] && WaitingKeys(checks[FirstWaiting(checks) := c]) == WaitingKeys(checks)[1..]
  {
    var i := FirstWaiting(checks);
    NoneWaits(checks[..i]);
    WaitingSplit(checks, i);
    WaitingOne(checks[i]);
    WaitingUpdate(checks, i, c);
    WaitingOne(c);
  }

  lemma RefillWaiting(s: State)
    requires |s.loads| > 0 && DistinctKeys(s.checks)
    ensures var w := WaitingKeys(s.checks); var t := Refill(s);
      && DistinctKeys(t.checks)
      && WaitingKeys(t.checks) == if s.checking < |s.loads| * s.maxChecks && w != [] then w[1..] else w
  {
    var i := FirstWaiting(s.checks);
    if i < |s.checks| {
      FirstTaken(s.checks, s.checks[i].(thread := Select(s.loads, s.maxChecks)));
    } else {
      NoneWaits(s.checks);
    }
  }

  lemma RetireWaiting(s: State, thread: nat, result: Result)
    requires DistinctKeys(s.checks) && thread < |s.loads| && RightRunner(s.checks, thread, result.key)
    ensures var t := Retire(s, thread, result);
      DistinctKeys(t.checks) && WaitingKeys(t.checks) == WaitingKeys(s.checks)
  {
    var i := IndexOf(s.checks, result.key);
    if i < |s.checks| {
      WithoutDistinct(s.checks, i);
      WaitingSplit(s.checks, i);
      WaitingOne(s.checks[i]);
      WaitingConcat(s.checks[..i], s.checks[i + 1..]);
    }
  }

  /** A result takes up the front of the waiting checks, if anything. */
  lemma FinishWaiting(s: State, thread: nat, result: Result)
    requires Accounted(s) && thread < |s.loads| && RightRunner(s.checks, thread, result.key)
    ensures var w := WaitingKeys(s.checks); var t := Finish(s, thread, result);
      w == TakenUp(w, t.checks) + WaitingKeys(t.checks)
  {
    RetireWaiting(s, thread, result);
    RefillWaiting(Retire(s, thread, result));
    WaitingDistinct(s.checks);
    FrontOrNone(WaitingKeys(s.checks), Finish(s, thread, result).checks);
  }

  lemma FrontOrNone(w: seq<Key>, after: seq<Check>)
    requires Distinct(w) && DistinctKeys(after)
    requires WaitingKeys(after) == w || (w != [] && WaitingKeys(after) == w[1..])
    ensures w == TakenUp(w, after) + WaitingKeys(after)
  {
    if WaitingKeys(after) == w {
      NoneTakenUp(w, after);
    } else {
      FrontTakenUp(w, after);
    }
  }

  lemma DeliverWaiting(s: State)
    requires Accounted(s) && s.pending != []
    ensures IndexOf(s.checks, s.pending[0]) < |s.checks|
    ensures WaitingKeys(Deliver(s).checks) == WaitingKeys(s.checks)
  {
    DeliverAccounted(s);
    var i := IndexOf(s.checks, s.pending[0]);
    assert s.pending[0] in s.pending;
    WaitingSplit(s.checks, i);
    WaitingOne(s.checks[i]);
    WaitingUpdate(s.checks, i, Deliver(s).checks[i]);
    WaitingOne(Deliver(s).checks[i]);
  }

  // ------------------------------------------------------------------------------------------
  // Arrivals

  /** The keys of a burst that have to wait: not listed when they come, and all slots are taken. */
  function Joining(s: State, requests: seq<Request>): seq<Key>
    decreases |requests|
  {
    if requests == [] then []
    else
      var front, r := requests[..|requests| - 1], requests[|requests| - 1];
      var u := AddChecks(s, front);
      Joining(s, front)
      + (if (forall k :: 0 <= k < |u.checks| ==> u.checks[k].key != r.key) && u.checking >= |u.loads| * u.maxChecks
         then [r.key] else [])
  }

  lemma {:induction false} AddChecksWaiting(s: State, requests: seq<Request>)
    requires Accounted(s)
    ensures WaitingKeys(AddChecks(s, requests).checks) == WaitingKeys(s.checks) + Joining(s, requests)
    decreases |requests|
  {
    if requests != [] {
      var front, r := requests[..|requests| - 1], requests[|requests| - 1];
      AddChecksWaiting(s, front);
      AddCheckWaiting(AddChecks(s, front), r);
      KeysJoin(WaitingKeys(s.checks), Joining(s, front), Joining(s, requests)[|Joining(s, front)|..]);
    }
  }

  lemma KeysJoin(a: seq<Key>, b: seq<Key>, c: seq<Key>)
    ensures (a + b) + c == a + (b + c)
  {
  }

  lemma AddCheckWaiting(u: State, r: Request)
    ensures WaitingKeys(AddCheck(u, r).checks)
         == WaitingKeys(u.checks)
          + (if (forall k :: 0 <= k < |u.checks| ==> u.checks[k].key != r.key) && u.checking >= |u.loads| * u.maxChecks
             then [r.key] else [])
  {
    var t := AddCheck(u, r);
    var i := IndexOf(u.checks, r.key);
    if i == |u.checks| {
      WaitingConcat(u.checks, [t.checks[|u.checks|]]);
      WaitingOne(t.checks[|u.checks|]);
    } else {
      assert u.checks[i].key == r.key;
    }
  }

  ghost function JoiningIn(s: State, e: Event): seq<Key> {
    if e.Add? then Joining(s, e.requests) else []
  }

  // ------------------------------------------------------------------------------------------
  // Runs

  /** The checks that had to wait in a run, in the order in which they came. */
  ghost function Joined(s: State, es: seq<Event>): seq<Key>
    requires Accounted(s) && IsRun(s, es)
    decreases |es|
  {
    if es == [] then [] else JoiningIn(s, es[0]) + Joined(Step(s, es[0]), es[1..])
  }

  /** The checks that were taken up from waiting, in the order in which that happened. */
  ghost function Served(s: State, es: seq<Event>): seq<Key>
    requires Accounted(s) && IsRun(s, es)
    decreases |es|
  {
    if es == [] then []
    else TakenUp(WaitingKeys(s.checks), Step(s, es[0]).checks) + Served(Step(s, es[0]), es[1..])
  }

  lemma StepWaiting(s: State, e: Event)
    requires Accounted(s) && Enabled(s, e)
    ensures var w := WaitingKeys(s.checks); var t := Step(s, e);
      w + JoiningIn(s, e) == TakenUp(w, t.checks) + WaitingKeys(t.checks)
  {
    var w, t := WaitingKeys(s.checks), Step(s, e);
    if e.Finished? {
      FinishWaiting(s, e.thread, e.result);
    } else {
      OtherWaiting(s, e);
      NoneTakenUp(w, t.checks);
    }
  }

  lemma OtherWaiting(s: State, e: Event)
    requires Accounted(s) && Enabled(s, e) && !e.Finished?
    ensures WaitingKeys(Step(s, e).checks) == WaitingKeys(s.checks) + JoiningIn(s, e)
  {
    match e
    case Add(requests) => AddChecksWaiting(s, requests);
    case DeliverStart => DeliverWaiting(s);
    case Ticked =>
  }

  /**
   First come, first served, over every run: those who waited at the start and those who had to wait since,
   in the order of arrival, are those who were served, in the order of service, and then those who still
   wait.  So nobody is served before one who came earlier.
   */
  lemma {:induction false} ServedInOrder(s: State, es: seq<Event>)
    requires Accounted(s) && IsRun(s, es)
    ensures WaitingKeys(s.checks) + Joined(s, es) == Served(s, es) + WaitingKeys(Run(s, es).checks)
    decreases |es|
  {
    var w := WaitingKeys(s.checks);
    if es != [] {
      var t := Step(s, es[0]);
      StepWaiting(s, es[0]);
      ServedInOrder(t, es[1..]);
      Regroup(w, JoiningIn(s, es[0]), TakenUp(w, t.checks), WaitingKeys(t.checks), Joined(t, es[1..]),
              Served(t, es[1..]), WaitingKeys(Run(t, es[1..]).checks));
    }
  }

  lemma Regroup(w: seq<Key>, j: seq<Key>, u: seq<Key>, v: seq<Key>, more: seq<Key>, served: seq<Key>, last: seq<Key>)
    requires w + j == u + v && v + more == served + last
    ensures w + (j + more) == (u + served) + last
  {
    assert w + (j + more) == (w + j) + more;
    assert (u + v) + more == u + (v + more);
    assert u + (served + last) == (u + served) + last;
  }

  /** Of two checks that wait, the one listed behind is not taken up before the other. */
  lemma NoOvertaking(s: State, es: seq<Event>, i: nat, j: nat)
    requires Accounted(s) && IsRun(s, es) && i < j < |WaitingKeys(s.checks)|
    requires WaitingKeys(s.checks)[j] in Served(s, es)
    ensures WaitingKeys(s.checks)[i] in Served(s, es)
  {
    var w, served := WaitingKeys(s.checks), Served(s, es);
    ServedInOrder(s, es);
    WaitingDistinct(s.checks);
    var all := w + Joined(s, es);
    var k :| 0 <= k < |served| && served[k] == w[j];
    assert all[k] == w[j];
    assert k < |w| ==> k == j;
    assert served[i] == all[i] == w[i];
  }

  /** A run that has drained has served everyone who had to wait, in the order of arrival. */
  lemma DrainedServesAll(s: State, es: seq<Event>)
    requires Accounted(s) && IsRun(s, es) && Run(s, es).checks == []
    ensures Served(s, es) == WaitingKeys(s.checks) + Joined(s, es)
  {
    ServedInOrder(s, es);
  }
}
