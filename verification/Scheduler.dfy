/**
 The veriflier's check scheduler as a state machine on values: the checks it knows, the load of
 every runner, the start signals that are queued for its own thread, and the results it still owes
 each Jetmon server.  `CheckController` is the class that works on these steps in place.
 */
module Scheduler {
  import opened Seqs

  const NOT_ASSIGNED := -1
  const PRE_ASSIGNED := -2

  datatype Key = Key(blogId: int, monitorUrl: string)

  datatype Request = Request(key: Key, server: string)

  /** `thread` is NOT_ASSIGNED, PRE_ASSIGNED or the index of the runner that works on the check. */
  datatype Check = Check(key: Key, server: string, thread: int)

  datatype Result = Result(key: Key, status: int, code: int, rtt: int)

  /**
   `accepted`, `finished` and `delivered` are histories: the requests taken into `checks`, the
   results in the order in which the checks finished, and what was handed to sending for each server.
   */
  datatype State = State(
    maxChecks: int,
    checks: seq<Check>,
    loads: seq<int>,
    checking: int,
    pending: seq<Key>,
    results: map<string, seq<Result>>,
    accepted: seq<Request>,
    finished: seq<(string, Result)>,
    delivered: map<string, seq<Result>>)
  {
    function Capacity(): int { |loads| * maxChecks }
  }

  function Initial(runners: nat, maxChecks: int): State {
    State(maxChecks, [], seq(runners, i => 0), 0, [], map[], [], [], map[])
  }

  /** The position of the first check with this key, or the length of the list. */
  function IndexOf(checks: seq<Check>, key: Key): (i: nat)
    ensures i <= |checks|
    ensures i < |checks| ==> checks[i].key == key
    ensures forall k :: 0 <= k < i ==> checks[k].key != key
  {
    if checks == [] || checks[0].key == key then 0 else 1 + IndexOf(checks[1..], key)
  }

  /** The position of the first check nobody was asked to start, or the length of the list. */
  function FirstWaiting(checks: seq<Check>): (i: nat)
    ensures i <= |checks|
    ensures i < |checks| ==> checks[i].thread == NOT_ASSIGNED
    ensures forall k :: 0 <= k < i ==> checks[k].thread != NOT_ASSIGNED
  {
    if checks == [] || checks[0].thread == NOT_ASSIGNED then 0 else 1 + FirstWaiting(checks[1..])
  }

  /** What runner selection promises: the first least-loaded runner below the cap, or runner 0. */
  ghost predicate IsSelected(loads: seq<int>, maxChecks: int, r: nat)
    requires r < |loads|
  {
    if exists i :: 0 <= i < |loads| && loads[i] < maxChecks then
      && loads[r] < maxChecks
      && (forall i :: 0 <= i < |loads| ==> loads[r] <= loads[i])
      && (forall i :: 0 <= i < r ==> loads[r] < loads[i])
    else r == 0
  }

  function LeastIndex(loads: seq<int>): (r: nat)
    requires |loads| > 0
    ensures r < |loads|
    ensures forall i :: 0 <= i < |loads| ==> loads[r] <= loads[i]
    ensures forall i :: 0 <= i < r ==> loads[r] < loads[i]
  {
    if |loads| == 1 then 0
    else
      var t := LeastIndex(loads[1..]);
      if loads[0] <= loads[1..][t] then 0 else t + 1
  }

  function Select(loads: seq<int>, maxChecks: int): (r: nat)
    requires |loads| > 0
    ensures r < |loads|
    ensures IsSelected(loads, maxChecks, r)
  {
    var r := LeastIndex(loads);
    if loads[r] < maxChecks then r else 0
  }

  function AddCheck(s: State, request: Request): State {
    if IndexOf(s.checks, request.key) < |s.checks| then s
    else if s.checking < s.Capacity() then
      s.(checks := s.checks + [Check(request.key, request.server, PRE_ASSIGNED)],
         pending := s.pending + [request.key],
         accepted := s.accepted + [request])
    else
      s.(checks := s.checks + [Check(request.key, request.server, NOT_ASSIGNED)],
         accepted := s.accepted + [request])
  }

  function AddChecks(s: State, requests: seq<Request>): State
    decreases |requests|
  {
    if requests == [] then s
    else AddCheck(AddChecks(s, requests[..|requests| - 1]), requests[|requests| - 1])
  }

  /** Starting the check at position i on the runner that selection picks. */
  function StartAt(s: State, i: nat): State
    requires i < |s.checks| && |s.loads| > 0
  {
    var r := Select(s.loads, s.maxChecks);
    s.(checking := s.checking + 1,
       loads := s.loads[r := s.loads[r] + 1],
       checks := s.checks[i := s.checks[i].(thread := r)])
  }

  /** The controller's thread receives the oldest queued start signal. */
  function Deliver(s: State): State
    requires s.pending != [] && |s.loads| > 0
    requires IndexOf(s.checks, s.pending[0]) < |s.checks|
  {
    StartAt(s.(pending := s.pending[1..]), IndexOf(s.checks, s.pending[0]))
  }

  function Get(m: map<string, seq<Result>>, server: string): seq<Result> {
    if server in m then m[server] else []
  }

  /** The finished check leaves the list and its result joins the batch of the server that asked. */
  function Retire(s: State, thread: nat, result: Result): State
    requires thread < |s.loads|
  {
    var i := IndexOf(s.checks, result.key);
    if i == |s.checks| then s
    else
      var server := s.checks[i].server;
      s.(checks := Without(s.checks, i),
         loads := s.loads[thread := s.loads[thread] - 1],
         checking := s.checking - 1,
         results := s.results[server := Get(s.results, server) + [result]],
         finished := s.finished + [(server, result)])
  }

  /** A freed slot goes to the first waiting check; the controller's own signal is a direct call. */
  function Refill(s: State): State
    requires |s.loads| > 0
  {
    var i := FirstWaiting(s.checks);
    if s.checking < s.Capacity() && i < |s.checks| then StartAt(s, i) else s
  }

  function Finish(s: State, thread: nat, result: Result): State
    requires thread < |s.loads|
  {
    Refill(Retire(s, thread, result))
  }

  function Merge(a: map<string, seq<Result>>, b: map<string, seq<Result>>): (m: map<string, seq<Result>>)
    ensures forall server :: Get(m, server) == Get(a, server) + Get(b, server)
  {
    map server | server in a.Keys + b.Keys :: Get(a, server) + Get(b, server)
  }

  function Tick(s: State): State {
    s.(results := map[], delivered := Merge(s.delivered, s.results))
  }

  // ------------------------------------------------------------------------------------------
  // Accounting

  /** How many checks runner r works on. */
  function OnRunner(checks: seq<Check>, r: int): nat {
    if checks == [] then 0 else (if checks[0].thread == r then 1 else 0) + OnRunner(checks[1..], r)
  }

  ghost predicate DistinctKeys(checks: seq<Check>) {
    forall i, j :: 0 <= i < j < |checks| ==> checks[i].key != checks[j].key
  }

  ghost predicate ThreadsInRange(s: State) {
    forall i :: 0 <= i < |s.checks| ==> PRE_ASSIGNED <= s.checks[i].thread < |s.loads|
  }

  ghost predicate LoadsExact(s: State) {
    && (forall r :: 0 <= r < |s.loads| ==> s.loads[r] == OnRunner(s.checks, r))
    && s.checking == Sum(s.loads)
  }

  const ABSENT := -3

  /** The thread field of the check with this key; ABSENT when there is none. */
  function ThreadOf(checks: seq<Check>, key: Key): int {
    var i := IndexOf(checks, key);
    if i < |checks| then checks[i].thread else ABSENT
  }

  /** The queued start signals are exactly the pre-assigned checks: none is lost, doubled or dangling. */
  ghost predicate SignalsExact(s: State) {
    && Distinct(s.pending)
    && (forall key :: key in s.pending <==> ThreadOf(s.checks, key) == PRE_ASSIGNED)
    && (s.pending != [] ==> |s.loads| > 0)
  }

  /** A check waits unasked only while every slot is taken. */
  ghost predicate WorkConserving(s: State) {
    FirstWaiting(s.checks) < |s.checks| ==> s.checking >= s.Capacity()
  }

  ghost predicate Accounted(s: State) {
    DistinctKeys(s.checks) && ThreadsInRange(s) && LoadsExact(s) && SignalsExact(s) && WorkConserving(s)
  }

  lemma {:induction false} OnRunnerUpdate(checks: seq<Check>, i: nat, c: Check, r: int)
    requires i < |checks|
    ensures OnRunner(checks[i := c], r)
         == OnRunner(checks, r) - (if checks[i].thread == r then 1 else 0) + (if c.thread == r then 1 else 0)
  {
    if i == 0 {
      assert checks[0 := c][1..] == checks[1..];
    } else {
      assert checks[i := c][1..] == checks[1..][i - 1 := c];
      OnRunnerUpdate(checks[1..], i - 1, c, r);
    }
  }

  lemma {:induction false} OnRunnerAppend(checks: seq<Check>, c: Check, r: int)
    ensures OnRunner(checks + [c], r) == OnRunner(checks, r) + (if c.thread == r then 1 else 0)
  {
    if checks == [] {
      assert checks + [c] == [c];
    } else {
      assert (checks + [c])[1..] == checks[1..] + [c];
      OnRunnerAppend(checks[1..], c, r);
    }
  }

  lemma {:induction false} OnRunnerWithout(checks: seq<Check>, i: nat, r: int)
    requires i < |checks|
    ensures OnRunner(Without(checks, i), r) == OnRunner(checks, r) - (if checks[i].thread == r then 1 else 0)
  {
    if i == 0 {
      assert Without(checks, 0) == checks[1..];
    } else {
      assert Without(checks, i)[1..] == Without(checks[1..], i - 1);
      OnRunnerWithout(checks[1..], i - 1, r);
    }
  }

  lemma {:induction false} OnRunnerNone(checks: seq<Check>, r: int)
    requires forall i :: 0 <= i < |checks| ==> checks[i].thread != r
    ensures OnRunner(checks, r) == 0
  {
    if checks != [] {
      OnRunnerNone(checks[1..], r);
    }
  }

  lemma {:induction false} ZeroSum(xs: seq<int>)
    requires forall i :: 0 <= i < |xs| ==> xs[i] == 0
    ensures Sum(xs) == 0
  {
    SumAtLeast(xs, 0);
    SumAtMost(xs, 0);
  }

  lemma {:induction false} ThreadOfAppend(checks: seq<Check>, c: Check, key: Key)
    requires IndexOf(checks, c.key) == |checks|
    ensures ThreadOf(checks + [c], key) == if key == c.key then c.thread else ThreadOf(checks, key)
  {
    if checks == [] {
      assert checks + [c] == [c];
    } else {
      assert (checks + [c])[1..] == checks[1..] + [c];
      ThreadOfAppend(checks[1..], c, key);
    }
  }

  lemma ThreadOfUpdate(checks: seq<Check>, i: nat, thread: int, key: Key)
    requires DistinctKeys(checks) && i < |checks|
    ensures ThreadOf(checks[i := checks[i].(thread := thread)], key)
         == if key == checks[i].key then thread else ThreadOf(checks, key)
  {
    var after := checks[i := checks[i].(thread := thread)];
    assert forall k :: 0 <= k < |checks| ==> after[k].key == checks[k].key;
    assert IndexOf(after, key) == IndexOf(checks, key);
  }

  lemma {:induction false} ThreadOfWithout(checks: seq<Check>, i: nat, key: Key)
    requires DistinctKeys(checks) && i < |checks|
    ensures ThreadOf(Without(checks, i), key) == if key == checks[i].key then ABSENT else ThreadOf(checks, key)
  {
    var after := Without(checks, i);
    var k := IndexOf(checks, key);
    if key != checks[i].key && k < |checks| {
      assert after[if k < i then k else k - 1].key == key;
    }
  }

  lemma {:induction false} FirstWaitingAppend(checks: seq<Check>, c: Check)
    requires c.thread != NOT_ASSIGNED && FirstWaiting(checks) == |checks|
    ensures FirstWaiting(checks + [c]) == |checks| + 1
  {
    if checks == [] {
      assert checks + [c] == [c];
    } else {
      assert (checks + [c])[1..] == checks[1..] + [c];
      FirstWaitingAppend(checks[1..], c);
    }
  }

  lemma InitialAccounted(runners: nat, maxChecks: int)
    ensures Accounted(Initial(runners, maxChecks))
  {
    ZeroSum(Initial(runners, maxChecks).loads);
  }

  lemma AddCheckLoads(s: State, request: Request)
    requires LoadsExact(s)
    ensures LoadsExact(AddCheck(s, request))
  {
    var t := AddCheck(s, request);
    if t != s {
      forall r | 0 <= r < |s.loads| ensures t.loads[r] == OnRunner(t.checks, r) {
        OnRunnerAppend(s.checks, t.checks[|s.checks|], r);
      }
    }
  }

  lemma AddCheckSignals(s: State, request: Request)
    requires LoadsExact(s) && SignalsExact(s)
    ensures SignalsExact(AddCheck(s, request))
  {
    var t := AddCheck(s, request);
    if t != s {
      if s.loads == [] {
        assert s.Capacity() == 0 && s.checking == 0;
      }
      var c := t.checks[|s.checks|];
      forall key ensures key in t.pending <==> ThreadOf(t.checks, key) == PRE_ASSIGNED {
        ThreadOfAppend(s.checks, c, key);
      }
      assert ThreadOf(s.checks, request.key) == ABSENT;
    }
  }

  lemma AddCheckAccounted(s: State, request: Request)
    requires Accounted(s)
    ensures Accounted(AddCheck(s, request))
  {
    AddCheckLoads(s, request);
    AddCheckSignals(s, request);
    var t := AddCheck(s, request);
    if s.checking < s.Capacity() && t != s {
      FirstWaitingAppend(s.checks, t.checks[|s.checks|]);
    }
  }

  lemma {:induction false} AddChecksAccounted(s: State, requests: seq<Request>)
    requires Accounted(s)
    ensures Accounted(AddChecks(s, requests))
    decreases |requests|
  {
    if requests != [] {
      AddChecksAccounted(s, requests[..|requests| - 1]);
      AddCheckAccounted(AddChecks(s, requests[..|requests| - 1]), requests[|requests| - 1]);
    }
  }

  /** Moving a check that no runner has onto the selected runner keeps every load and the total exact. */
  lemma StartAtLoads(s: State, i: nat)
    requires i < |s.checks| && |s.loads| > 0 && LoadsExact(s) && s.checks[i].thread < 0
    ensures LoadsExact(StartAt(s, i))
  {
    var t := StartAt(s, i);
    var r := Select(s.loads, s.maxChecks);
    SumUpdate(s.loads, r, s.loads[r] + 1);
    forall q | 0 <= q < |t.loads| ensures t.loads[q] == OnRunner(t.checks, q) {
      OnRunnerUpdate(s.checks, i, t.checks[i], q);
    }
  }

  lemma StartAtWaiting(s: State, i: nat)
    requires i < |s.checks| && |s.loads| > 0
    ensures var t := StartAt(s, i); FirstWaiting(t.checks) < |t.checks| ==> FirstWaiting(s.checks) < |s.checks|
  {
    var t := StartAt(s, i);
    var k := FirstWaiting(t.checks);
    if k < |t.checks| {
      assert s.checks[k].thread == NOT_ASSIGNED;
    }
  }

  lemma DeliverAccounted(s: State)
    requires Accounted(s) && s.pending != []
    ensures IndexOf(s.checks, s.pending[0]) < |s.checks|
    ensures Accounted(Deliver(s))
  {
    assert s.pending[0] in s.pending;
    var i := IndexOf(s.checks, s.pending[0]);
    var u := s.(pending := s.pending[1..]);
    var t := Deliver(s);
    StartAtLoads(u, i);
    StartAtWaiting(u, i);
    DeliverSignals(s);
  }

  lemma DeliverSignals(s: State)
    requires DistinctKeys(s.checks) && SignalsExact(s) && s.pending != []
    requires IndexOf(s.checks, s.pending[0]) < |s.checks|
    ensures SignalsExact(Deliver(s))
  {
    var i := IndexOf(s.checks, s.pending[0]);
    var t := Deliver(s);
    forall key ensures key in t.pending <==> ThreadOf(t.checks, key) == PRE_ASSIGNED {
      ThreadOfUpdate(s.checks, i, t.checks[i].thread, key);
      assert s.pending == [s.pending[0]] + t.pending;
    }
  }

  lemma WithoutDistinct(checks: seq<Check>, i: nat)
    requires DistinctKeys(checks) && i < |checks|
    ensures DistinctKeys(Without(checks, i))
  {
  }

  lemma WaitingAmong(some: seq<Check>, checks: seq<Check>)
    requires forall c :: c in some ==> c in checks
    ensures FirstWaiting(some) < |some| ==> FirstWaiting(checks) < |checks|
  {
    var k := FirstWaiting(some);
    if k < |some| {
      assert some[k] in checks;
    }
  }

  lemma WithoutWaiting(checks: seq<Check>, i: nat)
    requires i < |checks|
    ensures FirstWaiting(Without(checks, i)) < |checks| - 1 ==> FirstWaiting(checks) < |checks|
  {
    WithoutAmong(checks, i);
    WaitingAmong(Without(checks, i), checks);
  }

  /** The check with this key, if it is listed, is on runner `thread`. */
  ghost predicate RightRunner(checks: seq<Check>, thread: nat, key: Key) {
    var i := IndexOf(checks, key);
    i < |checks| ==> checks[i].thread == thread
  }

  lemma RetireLoads(s: State, thread: nat, result: Result)
    requires LoadsExact(s) && thread < |s.loads|
    requires RightRunner(s.checks, thread, result.key)
    ensures LoadsExact(Retire(s, thread, result))
  {
    var i := IndexOf(s.checks, result.key);
    if i < |s.checks| {
      var t := Retire(s, thread, result);
      SumUpdate(s.loads, thread, s.loads[thread] - 1);
      forall r | 0 <= r < |t.loads| ensures t.loads[r] == OnRunner(t.checks, r) {
        OnRunnerWithout(s.checks, i, r);
      }
    }
  }

  lemma RetireSignals(s: State, thread: nat, result: Result)
    requires DistinctKeys(s.checks) && SignalsExact(s) && thread < |s.loads|
    requires RightRunner(s.checks, thread, result.key)
    ensures SignalsExact(Retire(s, thread, result))
  {
    var i := IndexOf(s.checks, result.key);
    if i < |s.checks| {
      var t := Retire(s, thread, result);
      forall key ensures key in t.pending <==> ThreadOf(t.checks, key) == PRE_ASSIGNED {
        ThreadOfWithout(s.checks, i, key);
      }
    }
  }

  lemma RefillAccounted(s: State)
    requires |s.loads| > 0
    requires DistinctKeys(s.checks) && ThreadsInRange(s) && LoadsExact(s) && SignalsExact(s)
    requires FirstWaiting(s.checks) < |s.checks| ==> s.checking >= s.Capacity() - 1
    ensures Accounted(Refill(s))
  {
    var i := FirstWaiting(s.checks);
    if s.checking < s.Capacity() && i < |s.checks| {
      var t := StartAt(s, i);
      StartAtLoads(s, i);
      forall key ensures key in t.pending <==> ThreadOf(t.checks, key) == PRE_ASSIGNED {
        ThreadOfUpdate(s.checks, i, t.checks[i].thread, key);
        assert IndexOf(s.checks, s.checks[i].key) == i;
      }
    }
  }

  lemma RetireAccounted(s: State, thread: nat, result: Result)
    requires Accounted(s) && thread < |s.loads|
    requires RightRunner(s.checks, thread, result.key)
    ensures var t := Retire(s, thread, result);
      && DistinctKeys(t.checks) && ThreadsInRange(t) && LoadsExact(t) && SignalsExact(t)
      && (FirstWaiting(t.checks) < |t.checks| ==> t.checking >= t.Capacity() - 1)
  {
    RetireLoads(s, thread, result);
    RetireSignals(s, thread, result);
    var i := IndexOf(s.checks, result.key);
    if i < |s.checks| {
      WithoutDistinct(s.checks, i);
      WithoutWaiting(s.checks, i);
    }
  }

  /** A result keeps every account when it names the runner its check is on, or no check at all. */
  lemma FinishAccounted(s: State, thread: nat, result: Result)
    requires Accounted(s) && thread < |s.loads|
    requires RightRunner(s.checks, thread, result.key)
    ensures Accounted(Finish(s, thread, result))
  {
    RetireAccounted(s, thread, result);
    RefillAccounted(Retire(s, thread, result));
  }

  /**
   The controller only logs a result that names another runner than its check is on, and goes on.
   The accounts survive a result for a listed check if and only if the runner is the right one.
   */
  lemma FinishAccountedIff(s: State, thread: nat, result: Result)
    requires Accounted(s) && thread < |s.loads|
    requires IndexOf(s.checks, result.key) < |s.checks|
    ensures Accounted(Finish(s, thread, result)) <==> ThreadOf(s.checks, result.key) == thread
  {
    if ThreadOf(s.checks, result.key) == thread {
      FinishAccounted(s, thread, result);
    } else {
      var u := Retire(s, thread, result);
      OnRunnerWithout(s.checks, IndexOf(s.checks, result.key), thread);
      assert u.loads[thread] == OnRunner(u.checks, thread) - 1;
      var i := FirstWaiting(u.checks);
      if u.checking < u.Capacity() && i < |u.checks| {
        OnRunnerUpdate(u.checks, i, Refill(u).checks[i], thread);
      }
      assert !LoadsExact(Finish(s, thread, result));
    }
  }

  // ------------------------------------------------------------------------------------------
  // Runs

  /**
   What can happen next: a client thread adds checks, a queued start signal reaches the controller,
   a runner reports a check it works on, or the five-second ticker fires.
   */
  datatype Event = Add(requests: seq<Request>) | DeliverStart | Finished(thread: nat, result: Result) | Ticked

  ghost predicate Enabled(s: State, e: Event) {
    match e
    case Add(_) => true
    case DeliverStart => s.pending != []
    case Finished(thread, result) => thread < |s.loads| && ThreadOf(s.checks, result.key) == thread
    case Ticked => true
  }

  ghost function Step(s: State, e: Event): (t: State)
    requires Accounted(s) && Enabled(s, e)
    ensures Accounted(t)
  {
    match e
    case Add(requests) => AddChecksAccounted(s, requests); AddChecks(s, requests)
    case DeliverStart => DeliverAccounted(s); Deliver(s)
    case Finished(thread, result) => FinishAccounted(s, thread, result); Finish(s, thread, result)
    case Ticked => Tick(s)
  }

  ghost predicate IsRun(s: State, es: seq<Event>)
    requires Accounted(s)
    decreases |es|
  {
    es == [] || (Enabled(s, es[0]) && IsRun(Step(s, es[0]), es[1..]))
  }

  /** Every state of every interleaving is accounted for; that is the contract of this function. */
  ghost function Run(s: State, es: seq<Event>): (t: State)
    requires Accounted(s) && IsRun(s, es)
    ensures Accounted(t)
    decreases |es|
  {
    if es == [] then s else Run(Step(s, es[0]), es[1..])
  }

  // ------------------------------------------------------------------------------------------
  // Drain

  function Work(s: State): nat { |s.checks| + |s.pending| }

  function Moves(es: seq<Event>): nat {
    if es == [] then 0 else (if es[0].Ticked? then 0 else 1) + Moves(es[1..])
  }

  /** No signal can be delivered and no runner can report. */
  ghost predicate Stuck(s: State) {
    forall e: Event :: !e.Add? && !e.Ticked? ==> !Enabled(s, e)
  }

  ghost predicate Empty(s: State) {
    s.checks == [] && s.pending == [] && s.checking == 0 && (forall r :: 0 <= r < |s.loads| ==> s.loads[r] == 0)
  }

  lemma StepLowersWork(s: State, e: Event)
    requires Accounted(s) && Enabled(s, e) && !e.Add?
    ensures Work(Step(s, e)) == Work(s) - (if e.Ticked? then 0 else 1)
  {
    match e
    case DeliverStart => DeliverAccounted(s);
    case Finished(thread, result) => FinishAccounted(s, thread, result);
    case Ticked =>
  }

  /** With positive capacity, something can move while a check is listed. */
  lemma SomeMoveEnabled(s: State) returns (e: Event)
    requires Accounted(s) && |s.loads| > 0 && s.maxChecks > 0 && s.checks != []
    ensures Enabled(s, e) && !e.Add? && !e.Ticked?
  {
    if s.pending != [] {
      return DeliverStart;
    }
    if i :| 0 <= i < |s.checks| && s.checks[i].thread >= 0 {
      assert IndexOf(s.checks, s.checks[i].key) == i;
      return Finished(s.checks[i].thread, Result(s.checks[i].key, 0, 0, 0));
    }
    assert ThreadOf(s.checks, s.checks[0].key) == s.checks[0].thread;
    assert s.Capacity() > 0;
    IdleWithoutRunning(s);
    assert false;
  }

  lemma IdleWithoutRunning(s: State)
    requires LoadsExact(s) && forall i :: 0 <= i < |s.checks| ==> s.checks[i].thread < 0
    ensures s.checking == 0 && forall r :: 0 <= r < |s.loads| ==> s.loads[r] == 0
  {
    forall r | 0 <= r < |s.loads| ensures s.loads[r] == 0 {
      OnRunnerNone(s.checks, r);
    }
    ZeroSum(s.loads);
  }

  /**
   Without new arrivals every move takes the work down by exactly one, so no run has more than
   Work(s) moves; and a run that cannot move any further has emptied the list and all counters.
   */
  lemma {:induction false} Drains(s: State, es: seq<Event>)
    requires Accounted(s) && IsRun(s, es)
    requires forall i :: 0 <= i < |es| ==> !es[i].Add?
    ensures Moves(es) + Work(Run(s, es)) == Work(s)
    ensures |s.loads| > 0 && s.maxChecks > 0 && Stuck(Run(s, es)) ==> Empty(Run(s, es))
    decreases |es|
  {
    if es == [] {
      if |s.loads| > 0 && s.maxChecks > 0 {
        if s.checks != [] {
          var e := SomeMoveEnabled(s);
        } else {
          IdleWithoutRunning(s);
          assert s.pending != [] ==> Enabled(s, DeliverStart);
        }
      }
    } else {
      StepLowersWork(s, es[0]);
      StepKeepsShape(s, es[0]);
      Drains(Step(s, es[0]), es[1..]);
    }
  }

  lemma {:induction false} AddChecksShape(s: State, requests: seq<Request>)
    ensures var t := AddChecks(s, requests); |t.loads| == |s.loads| && t.maxChecks == s.maxChecks
    decreases |requests|
  {
    if requests != [] {
      AddChecksShape(s, requests[..|requests| - 1]);
    }
  }

  lemma StepKeepsShape(s: State, e: Event)
    requires Accounted(s) && Enabled(s, e)
    ensures |Step(s, e).loads| == |s.loads| && Step(s, e).maxChecks == s.maxChecks
  {
    match e
    case Add(requests) => AddChecksShape(s, requests);
    case DeliverStart => DeliverAccounted(s);
    case Finished(thread, result) =>
    case Ticked =>
  }

  // ------------------------------------------------------------------------------------------
  // Balance and caps

  ghost predicate WithinCaps(s: State) {
    forall r :: 0 <= r < |s.loads| ==> s.loads[r] <= s.maxChecks
  }

  ghost predicate SpreadWithin(loads: seq<int>, d: int) {
    forall i, j :: 0 <= i < |loads| && 0 <= j < |loads| ==> loads[i] - loads[j] <= d
  }

  /** If the total is below capacity, some runner is below its cap. */
  lemma RoomSomewhere(s: State)
    requires s.checking == Sum(s.loads) && s.checking < s.Capacity()
    ensures exists i :: 0 <= i < |s.loads| && s.loads[i] < s.maxChecks
  {
    if forall i :: 0 <= i < |s.loads| ==> s.loads[i] >= s.maxChecks {
      SumAtLeast(s.loads, s.maxChecks);
    }
  }

  /**
   Started while there is room, a check goes to a least-loaded runner strictly below its cap: all
   caps stay respected and the gap between two loads never grows beyond what it was, or one.
   */
  lemma StartBalanced(s: State, i: nat, d: int)
    requires i < |s.checks| && |s.loads| > 0
    requires s.checking == Sum(s.loads) && s.checking < s.Capacity()
    requires d >= 1 && SpreadWithin(s.loads, d)
    ensures var t := StartAt(s, i); var r := Select(s.loads, s.maxChecks);
      && s.loads[r] < s.maxChecks
      && t.checks[i].thread == r
      && (forall q :: 0 <= q < |s.loads| ==> s.loads[r] <= s.loads[q])
      && (WithinCaps(s) ==> WithinCaps(t))
      && SpreadWithin(t.loads, d)
  {
    RoomSomewhere(s);
  }

  /** Delivers every queued signal. */
  ghost function DeliverAll(s: State): (t: State)
    requires Accounted(s)
    ensures Accounted(t)
    decreases |s.pending|
  {
    if s.pending == [] then s else DeliverAccounted(s); DeliverAll(Deliver(s))
  }

  lemma {:induction false} DeliverAllTotals(s: State)
    requires Accounted(s)
    ensures var t := DeliverAll(s);
      t.checking == s.checking + |s.pending| && |t.loads| == |s.loads| && t.maxChecks == s.maxChecks
    decreases |s.pending|
  {
    if s.pending != [] {
      DeliverAccounted(s);
      DeliverAllTotals(Deliver(s));
    }
  }

  lemma {:induction false} DeliverAllWithinCaps(s: State)
    requires Accounted(s) && WithinCaps(s) && s.checking + |s.pending| <= s.Capacity()
    ensures WithinCaps(DeliverAll(s))
    decreases |s.pending|
  {
    if s.pending != [] {
      DeliverAccounted(s);
      var u := s.(pending := s.pending[1..]);
      RoomSomewhere(u);
      assert WithinCaps(Deliver(s));
      DeliverAllWithinCaps(Deliver(s));
    }
  }

  /**
   Queued starts are not counted when a burst is added, so a burst can overrun the caps.  The caps
   survive the delivery of everything that is queued if and only if it all fits into the capacity.
   */
  lemma BurstWithinCapsIff(s: State)
    requires Accounted(s) && WithinCaps(s)
    ensures WithinCaps(DeliverAll(s)) <==> s.checking + |s.pending| <= s.Capacity()
  {
    var t := DeliverAll(s);
    DeliverAllTotals(s);
    if s.checking + |s.pending| <= s.Capacity() {
      DeliverAllWithinCaps(s);
    } else if WithinCaps(t) {
      SumAtMost(t.loads, t.maxChecks);
    }
  }

  /** What runs and what is queued fits the capacity. */
  ghost predicate Fits(s: State) { s.checking + |s.pending| <= s.Capacity() }

  lemma {:induction false} AddChecksLoads(s: State, requests: seq<Request>)
    ensures AddChecks(s, requests).loads == s.loads && AddChecks(s, requests).maxChecks == s.maxChecks
    decreases |requests|
  {
    if requests != [] {
      AddChecksLoads(s, requests[..|requests| - 1]);
    }
  }

  /** Deliveries, results and ticks keep the caps and keep everything fitting; additions keep the caps for now. */
  lemma StepKeepsCaps(s: State, e: Event)
    requires Accounted(s) && Enabled(s, e) && WithinCaps(s) && Fits(s)
    ensures WithinCaps(Step(s, e)) && (!e.Add? ==> Fits(Step(s, e)))
  {
    match e
    case Add(requests) => AddChecksLoads(s, requests);
    case DeliverStart =>
      DeliverAccounted(s);
      RoomSomewhere(s.(pending := s.pending[1..]));
    case Finished(thread, result) => FinishKeepsCaps(s, thread, result);
    case Ticked =>
  }

  lemma FinishKeepsCaps(s: State, thread: nat, result: Result)
    requires Accounted(s) && Enabled(s, Finished(thread, result)) && WithinCaps(s) && Fits(s)
    ensures WithinCaps(Finish(s, thread, result)) && Fits(Finish(s, thread, result))
  {
    var u := Retire(s, thread, result);
    RetireLoads(s, thread, result);
    if u.checking < u.Capacity() {
      RoomSomewhere(u);
    }
  }

  /** After every addition of the run what runs and what is queued fits. */
  ghost predicate AdditionsFit(s: State, es: seq<Event>)
    requires Accounted(s) && IsRun(s, es)
    decreases |es|
  {
    es == [] || ((es[0].Add? ==> Fits(Step(s, es[0]))) && AdditionsFit(Step(s, es[0]), es[1..]))
  }

  /** At no moment of the run does delivering what is queued overrun a cap. */
  ghost predicate NeverOverruns(s: State, es: seq<Event>)
    requires Accounted(s) && IsRun(s, es)
    decreases |es|
  {
    WithinCaps(DeliverAll(s)) && (es != [] ==> NeverOverruns(Step(s, es[0]), es[1..]))
  }

  /**
   Over whole runs the caps are safe if and only if no addition makes running and queued checks exceed
   the capacity; and they are respected at every moment up to the addition that does.
   */
  lemma {:induction false} CapsSafeIff(s: State, es: seq<Event>)
    requires Accounted(s) && IsRun(s, es) && WithinCaps(s) && Fits(s)
    ensures NeverOverruns(s, es) <==> AdditionsFit(s, es)
    ensures AdditionsFit(s, es) ==> WithinCaps(Run(s, es)) && Fits(Run(s, es))
    decreases |es|
  {
    BurstWithinCapsIff(s);
    if es != [] {
      var t := Step(s, es[0]);
      StepKeepsCaps(s, es[0]);
      BurstWithinCapsIff(t);
      if Fits(t) {
        CapsSafeIff(t, es[1..]);
      }
    }
  }

  /** One runner with one slot, two checks in one request: both start. */
  lemma BurstOverrunsCap(a: Request, b: Request)
    requires a.key != b.key
    ensures Accounted(AddChecks(Initial(1, 1), [a, b]))
    ensures !WithinCaps(DeliverAll(AddChecks(Initial(1, 1), [a, b])))
  {
    InitialAccounted(1, 1);
    var s := Initial(1, 1);
    AddChecksAccounted(s, [a, b]);
    assert [a, b][..1] == [a] && [a][..0] == [];
    assert AddChecks(s, [a]) == AddCheck(s, a);
    assert AddChecks(s, [a, b]) == AddCheck(AddCheck(s, a), b);
    BurstWithinCapsIff(AddChecks(s, [a, b]));
  }

  /** Adding one check and delivering its signal before anything else happens. */
  ghost function AddNow(s: State, request: Request): (t: State)
    requires Accounted(s)
    ensures Accounted(t)
  {
    AddCheckAccounted(s, request);
    DeliverAll(AddCheck(s, request))
  }

  ghost function AddAllNow(s: State, requests: seq<Request>): (t: State)
    requires Accounted(s)
    ensures Accounted(t)
    decreases |requests|
  {
    if requests == [] then s
    else AddNow(AddAllNow(s, requests[..|requests| - 1]), requests[|requests| - 1])
  }

  /** Runs in which every start signal is delivered at once: new checks, results and ticks. */
  ghost function RunImmediately(s: State, es: seq<Event>): (t: State)
    requires Accounted(s)
    requires forall i :: 0 <= i < |es| ==> !es[i].DeliverStart?
    ensures Accounted(t)
    decreases |es|
  {
    if es == [] then s
    else
      var u := RunImmediately(s, es[..|es| - 1]);
      match es[|es| - 1]
      case Add(requests) => AddAllNow(u, requests)
      case Finished(_, _) => if Enabled(u, es[|es| - 1]) then Step(u, es[|es| - 1]) else u
      case _ => Tick(u)
  }

  ghost predicate Settled(s: State) {
    Accounted(s) && s.pending == [] && WithinCaps(s)
  }

  lemma AddNowSettled(s: State, request: Request)
    requires Settled(s)
    ensures Settled(AddNow(s, request))
  {
    AddCheckAccounted(s, request);
    var u := AddCheck(s, request);
    BurstWithinCapsIff(u);
    if u.pending == [] {
      assert s.maxChecks == u.maxChecks;
      assert DeliverAll(u) == u;
    } else {
      DeliverAccounted(u);
      assert DeliverAll(u) == DeliverAll(Deliver(u));
    }
  }

  lemma {:induction false} AddAllNowSettled(s: State, requests: seq<Request>)
    requires Settled(s)
    ensures Settled(AddAllNow(s, requests))
    decreases |requests|
  {
    if requests != [] {
      AddAllNowSettled(s, requests[..|requests| - 1]);
      AddNowSettled(AddAllNow(s, requests[..|requests| - 1]), requests[|requests| - 1]);
    }
  }

  lemma FinishSettled(s: State, thread: nat, result: Result)
    requires Settled(s) && Enabled(s, Finished(thread, result))
    ensures Settled(Finish(s, thread, result))
  {
    FinishAccounted(s, thread, result);
    var u := Retire(s, thread, result);
    RetireLoads(s, thread, result);
    assert WithinCaps(u);
    assert WithinCaps(Refill(u)) by {
      if u.checking < u.Capacity() {
        RoomSomewhere(u);
      }
    }
  }

  /** When start signals are delivered at once no runner ever exceeds its cap. */
  lemma {:induction false} ImmediateRunsWithinCaps(s: State, es: seq<Event>)
    requires Settled(s)
    requires forall i :: 0 <= i < |es| ==> !es[i].DeliverStart?
    ensures Settled(RunImmediately(s, es))
    decreases |es|
  {
    if es != [] {
      ImmediateRunsWithinCaps(s, es[..|es| - 1]);
      var u := RunImmediately(s, es[..|es| - 1]);
      match es[|es| - 1]
      case Add(requests) => AddAllNowSettled(u, requests);
      case Finished(thread, result) => if Enabled(u, es[|es| - 1]) { FinishSettled(u, thread, result); }
      case _ =>
    }
  }

  // ------------------------------------------------------------------------------------------
  // Results per Jetmon server

  /** The keys a server asked for, with repetition. */
  function Asked(requests: seq<Request>, server: string): multiset<Key> {
    if requests == [] then multiset{}
    else (if requests[0].server == server then multiset{requests[0].key} else multiset{}) + Asked(requests[1..], server)
  }

  /** The keys of a server that are still listed. */
  function Listed(checks: seq<Check>, server: string): multiset<Key> {
    if checks == [] then multiset{}
    else (if checks[0].server == server then multiset{checks[0].key} else multiset{}) + Listed(checks[1..], server)
  }

  function Answered(results: seq<Result>): multiset<Key> {
    if results == [] then multiset{} else multiset{results[0].key} + Answered(results[1..])
  }

  /** The finished results that belong to a server, in finishing order. */
  function Addressed(finished: seq<(string, Result)>, server: string): seq<Result> {
    if finished == [] then []
    else (if finished[0].0 == server then [finished[0].1] else []) + Addressed(finished[1..], server)
  }

  /** What a server has been or will be sent: the batches handed over, then the batch being filled. */
  function Replies(s: State, server: string): seq<Result> {
    Get(s.delivered, server) + Get(s.results, server)
  }

  /**
   Per server: the requests taken in are those still listed plus those answered, each exactly once;
   and the answers are the server's own results in the order in which its checks finished.
   */
  ghost predicate ConservedFor(s: State, server: string) {
    && Asked(s.accepted, server) == Listed(s.checks, server) + Answered(Replies(s, server))
    && Replies(s, server) == Addressed(s.finished, server)
  }

  ghost predicate Conserved(s: State) {
    forall server :: ConservedFor(s, server)
  }

  lemma {:induction false} AskedAppend(requests: seq<Request>, request: Request, server: string)
    ensures Asked(requests + [request], server)
         == Asked(requests, server) + (if request.server == server then multiset{request.key} else multiset{})
  {
    if requests == [] {
      assert requests + [request] == [request];
    } else {
      assert (requests + [request])[1..] == requests[1..] + [request];
      AskedAppend(requests[1..], request, server);
    }
  }

  lemma {:induction false} ListedAppend(checks: seq<Check>, c: Check, server: string)
    ensures Listed(checks + [c], server)
         == Listed(checks, server) + (if c.server == server then multiset{c.key} else multiset{})
  {
    if checks == [] {
      assert checks + [c] == [c];
    } else {
      assert (checks + [c])[1..] == checks[1..] + [c];
      ListedAppend(checks[1..], c, server);
    }
  }

  lemma {:induction false} ListedThread(checks: seq<Check>, i: nat, thread: int, server: string)
    requires i < |checks|
    ensures Listed(checks[i := checks[i].(thread := thread)], server) == Listed(checks, server)
  {
    var c := checks[i].(thread := thread);
    if i == 0 {
      assert checks[0 := c][1..] == checks[1..];
    } else {
      assert checks[i := c][1..] == checks[1..][i - 1 := c];
      ListedThread(checks[1..], i - 1, thread, server);
    }
  }

  lemma {:induction false} ListedWithout(checks: seq<Check>, i: nat, server: string)
    requires i < |checks|
    ensures Listed(checks, server) == Listed(Without(checks, i), server)
                                    + (if checks[i].server == server then multiset{checks[i].key} else multiset{})
  {
    if i == 0 {
      assert Without(checks, 0) == checks[1..];
    } else {
      assert Without(checks, i)[1..] == Without(checks[1..], i - 1);
      ListedWithout(checks[1..], i - 1, server);
    }
  }

  lemma {:induction false} AnsweredAppend(results: seq<Result>, result: Result)
    ensures Answered(results + [result]) == Answered(results) + multiset{result.key}
  {
    if results == [] {
      assert results + [result] == [result];
    } else {
      assert (results + [result])[1..] == results[1..] + [result];
      AnsweredAppend(results[1..], result);
    }
  }

  lemma {:induction false} AddressedAppend(finished: seq<(string, Result)>, f: (string, Result), server: string)
    ensures Addressed(finished + [f], server) == Addressed(finished, server) + (if f.0 == server then [f.1] else [])
  {
    if finished == [] {
      assert finished + [f] == [f];
    } else {
      assert (finished + [f])[1..] == finished[1..] + [f];
      AddressedAppend(finished[1..], f, server);
    }
  }

  lemma AddCheckConserved(s: State, request: Request)
    requires Conserved(s)
    ensures Conserved(AddCheck(s, request))
  {
    var t := AddCheck(s, request);
    if t != s {
      forall server ensures ConservedFor(t, server) {
        assert ConservedFor(s, server);
        AskedAppend(s.accepted, request, server);
        ListedAppend(s.checks, t.checks[|s.checks|], server);
        assert Replies(t, server) == Replies(s, server);
      }
    }
  }

  lemma {:induction false} AddChecksConserved(s: State, requests: seq<Request>)
    requires Conserved(s)
    ensures Conserved(AddChecks(s, requests))
    decreases |requests|
  {
    if requests != [] {
      AddChecksConserved(s, requests[..|requests| - 1]);
      AddCheckConserved(AddChecks(s, requests[..|requests| - 1]), requests[|requests| - 1]);
    }
  }

  lemma StartAtConserved(s: State, i: nat)
    requires Conserved(s) && i < |s.checks| && |s.loads| > 0
    ensures Conserved(StartAt(s, i))
  {
    var t := StartAt(s, i);
    forall server ensures ConservedFor(t, server) {
      assert ConservedFor(s, server);
      assert Replies(t, server) == Replies(s, server);
      ListedThread(s.checks, i, t.checks[i].thread, server);
    }
  }

  lemma RetireReplies(s: State, thread: nat, result: Result, server: string)
    requires thread < |s.loads| && IndexOf(s.checks, result.key) < |s.checks|
    ensures Replies(Retire(s, thread, result), server) == Replies(s, server)
              + (if s.checks[IndexOf(s.checks, result.key)].server == server then [result] else [])
  {
  }

  lemma RetireConserved(s: State, thread: nat, result: Result)
    requires Conserved(s) && thread < |s.loads|
    ensures Conserved(Retire(s, thread, result))
  {
    var i := IndexOf(s.checks, result.key);
    if i < |s.checks| {
      forall server ensures ConservedFor(Retire(s, thread, result), server) {
        RetireConservedFor(s, thread, result, server);
      }
    }
  }

  lemma RetireConservedFor(s: State, thread: nat, result: Result, server: string)
    requires ConservedFor(s, server) && thread < |s.loads| && IndexOf(s.checks, result.key) < |s.checks|
    ensures ConservedFor(Retire(s, thread, result), server)
  {
    var t := Retire(s, thread, result);
    var i := IndexOf(s.checks, result.key);
    var before, after := Replies(s, server), Replies(t, server);
    assert t.finished == s.finished + [(s.checks[i].server, result)];
    assert t.checks == Without(s.checks, i) && t.accepted == s.accepted;
    assert s.checks[i].key == result.key;
    assert after == before + (if s.checks[i].server == server then [result] else []) by {
      RetireReplies(s, thread, result, server);
    }
    assert after == Addressed(t.finished, server) by {
      AddressedAppend(s.finished, (s.checks[i].server, result), server);
    }
    Moved(s.checks, i, before, after, result, server);
  }

  lemma Moved(checks: seq<Check>, i: nat, before: seq<Result>, after: seq<Result>, result: Result, server: string)
    requires i < |checks| && checks[i].key == result.key
    requires after == before + (if checks[i].server == server then [result] else [])
    ensures Listed(checks, server) + Answered(before) == Listed(Without(checks, i), server) + Answered(after)
  {
    ListedWithout(checks, i, server);
    if checks[i].server == server {
      AnsweredAppend(before, result);
    } else {
      assert after == before;
    }
  }

  lemma SameConserved(s: State, t: State)
    requires Conserved(s) && t.accepted == s.accepted && t.checks == s.checks && t.finished == s.finished
    requires forall server :: Replies(t, server) == Replies(s, server)
    ensures Conserved(t)
  {
    forall server ensures ConservedFor(t, server) {
      assert ConservedFor(s, server);
    }
  }

  lemma StepConserved(s: State, e: Event)
    requires Accounted(s) && Enabled(s, e) && Conserved(s)
    ensures Conserved(Step(s, e))
  {
    match e
    case Add(requests) => AddChecksConserved(s, requests);
    case DeliverStart =>
      DeliverAccounted(s);
      var u := s.(pending := s.pending[1..]);
      assert forall server :: Replies(u, server) == Replies(s, server);
      SameConserved(s, u);
      StartAtConserved(u, IndexOf(s.checks, s.pending[0]));
    case Finished(thread, result) =>
      var u := Retire(s, thread, result);
      RetireConserved(s, thread, result);
      if u.checking < u.Capacity() && FirstWaiting(u.checks) < |u.checks| {
        StartAtConserved(u, FirstWaiting(u.checks));
      }
    case Ticked =>
      var t := Tick(s);
      forall server ensures Replies(t, server) == Replies(s, server) {
        assert Get(t.results, server) == [];
      }
      SameConserved(s, t);
  }

  /** Every accepted request is answered to its own server, once and in finishing order, in every run. */
  lemma {:induction false} RunConserved(s: State, es: seq<Event>)
    requires Accounted(s) && IsRun(s, es) && Conserved(s)
    ensures Conserved(Run(s, es))
    decreases |es|
  {
    if es != [] {
      StepConserved(s, es[0]);
      RunConserved(Step(s, es[0]), es[1..]);
    }
  }

  /** From an empty scheduler: once it has drained and ticked, every server has all its answers. */
  lemma DrainedRunAnswersEverything(runners: nat, maxChecks: int, es: seq<Event>, server: string)
    requires Accounted(Initial(runners, maxChecks)) && IsRun(Initial(runners, maxChecks), es)
    requires var t := Run(Initial(runners, maxChecks), es); t.checks == [] && t.results == map[]
    ensures var t := Run(Initial(runners, maxChecks), es);
      && Answered(Get(t.delivered, server)) == Asked(t.accepted, server)
      && Get(t.delivered, server) == Addressed(t.finished, server)
  {
    RunConserved(Initial(runners, maxChecks), es);
    SettledUp(Run(Initial(runners, maxChecks), es), server);
  }

  lemma SettledUp(t: State, server: string)
    requires Conserved(t) && t.checks == [] && t.results == map[]
    ensures Answered(Get(t.delivered, server)) == Asked(t.accepted, server)
    ensures Get(t.delivered, server) == Addressed(t.finished, server)
  {
    assert ConservedFor(t, server);
    assert Replies(t, server) == Get(t.delivered, server);
  }

  // ------------------------------------------------------------------------------------------
  // Refused requests

  /** A request is taken in if and only if no check with its key is listed when it arrives. */
  lemma TakenIff(s: State, request: Request)
    ensures AddCheck(s, request).accepted == s.accepted + [request]
       <==> forall i :: 0 <= i < |s.checks| ==> s.checks[i].key != request.key
    ensures AddCheck(s, request).accepted != s.accepted + [request] ==> AddCheck(s, request) == s
  {
    var i := IndexOf(s.checks, request.key);
    if i < |s.checks| {
      assert |s.accepted + [request]| == |s.accepted| + 1;
    }
  }

  /** The requests of a burst that find their key listed. */
  function Refused(s: State, requests: seq<Request>): seq<Request>
    decreases |requests|
  {
    if requests == [] then []
    else
      var front, last := requests[..|requests| - 1], requests[|requests| - 1];
      var t := AddChecks(s, front);
      Refused(s, front) + (if IndexOf(t.checks, last.key) < |t.checks| then [last] else [])
  }

  /** All requests that arrive in a run. */
  function Arrivals(es: seq<Event>): seq<Request> {
    if es == [] then [] else (if es[0].Add? then es[0].requests else []) + Arrivals(es[1..])
  }

  /** The requests refused in a run. */
  ghost function RunRefused(s: State, es: seq<Event>): seq<Request>
    requires Accounted(s) && IsRun(s, es)
    decreases |es|
  {
    if es == [] then []
    else (if es[0].Add? then Refused(s, es[0].requests) else []) + RunRefused(Step(s, es[0]), es[1..])
  }

  lemma {:induction false} AskedConcat(a: seq<Request>, b: seq<Request>, server: string)
    ensures Asked(a + b, server) == Asked(a, server) + Asked(b, server)
  {
    if a == [] {
      assert a + b == b;
    } else {
      assert (a + b)[1..] == a[1..] + b;
      AskedConcat(a[1..], b, server);
    }
  }

  lemma OneSplits(s: State, request: Request, server: string, key: Key)
    ensures var refused := if IndexOf(s.checks, request.key) < |s.checks| then [request] else [];
      Asked(AddCheck(s, request).accepted, server)[key] + Asked(refused, server)[key]
      == Asked(s.accepted, server)[key] + Asked([request], server)[key]
  {
    AskedConcat(s.accepted, [request], server);
  }

  lemma LastRefused(s: State, front: seq<Request>, last: Request)
    ensures AddChecks(s, front + [last]) == AddCheck(AddChecks(s, front), last)
    ensures var t := AddChecks(s, front);
      Refused(s, front + [last])
      == Refused(s, front) + (if IndexOf(t.checks, last.key) < |t.checks| then [last] else [])
  {
    assert (front + [last])[..|front|] == front;
  }

  lemma {:induction false} BurstSplits(s: State, requests: seq<Request>, server: string, key: Key)
    ensures Asked(AddChecks(s, requests).accepted, server)[key] + Asked(Refused(s, requests), server)[key]
         == Asked(s.accepted, server)[key] + Asked(requests, server)[key]
    decreases |requests|
  {
    if requests != [] {
      var front, last := requests[..|requests| - 1], requests[|requests| - 1];
      var t := AddChecks(s, front);
      assert requests == front + [last];
      BurstSplits(s, front, server, key);
      LastRefused(s, front, last);
      OneSplits(t, last, server, key);
      AskedConcat(front, [last], server);
      AskedConcat(Refused(s, front), if IndexOf(t.checks, last.key) < |t.checks| then [last] else [], server);
    }
  }

  lemma StepSplits(s: State, e: Event, server: string, key: Key)
    requires Accounted(s) && Enabled(s, e)
    ensures Asked(Step(s, e).accepted, server)[key]
            + Asked(if e.Add? then Refused(s, e.requests) else [], server)[key]
         == Asked(s.accepted, server)[key] + Asked(if e.Add? then e.requests else [], server)[key]
  {
    if e.Add? {
      BurstSplits(s, e.requests, server, key);
    } else {
      SameAccepted(s, e);
    }
  }

  lemma SameAccepted(s: State, e: Event)
    requires Accounted(s) && Enabled(s, e) && !e.Add?
    ensures Step(s, e).accepted == s.accepted
  {
    match e
    case DeliverStart => DeliverAccounted(s);
    case _ =>
  }

  lemma {:induction false} RunSplitsAt(s: State, es: seq<Event>, server: string, key: Key)
    requires Accounted(s) && IsRun(s, es)
    ensures Asked(Run(s, es).accepted, server)[key] + Asked(RunRefused(s, es), server)[key]
         == Asked(s.accepted, server)[key] + Asked(Arrivals(es), server)[key]
    decreases |es|
  {
    if es != [] {
      var e, t := es[0], Step(s, es[0]);
      StepSplits(s, e, server, key);
      RunSplitsAt(t, es[1..], server, key);
      AskedConcat(if e.Add? then Refused(s, e.requests) else [], RunRefused(t, es[1..]), server);
      AskedConcat(if e.Add? then e.requests else [], Arrivals(es[1..]), server);
    }
  }

  /** In every run from an empty scheduler, per server: what arrives is what is taken in and what is refused. */
  lemma RunSplits(runners: nat, maxChecks: int, es: seq<Event>, server: string)
    requires Accounted(Initial(runners, maxChecks)) && IsRun(Initial(runners, maxChecks), es)
    ensures var s := Initial(runners, maxChecks);
      Asked(Arrivals(es), server) == Asked(Run(s, es).accepted, server) + Asked(RunRefused(s, es), server)
  {
    var s := Initial(runners, maxChecks);
    forall key
      ensures Asked(Arrivals(es), server)[key]
           == Asked(Run(s, es).accepted, server)[key] + Asked(RunRefused(s, es), server)[key]
    {
      RunSplitsAt(s, es, server, key);
    }
  }

  /**
   From an empty scheduler that has drained and ticked: a server has been answered everything it asked
   for if and only if none of its requests was refused.
   */
  lemma AnsweredIffNothingRefused(runners: nat, maxChecks: int, es: seq<Event>, server: string)
    requires Accounted(Initial(runners, maxChecks)) && IsRun(Initial(runners, maxChecks), es)
    requires var t := Run(Initial(runners, maxChecks), es); t.checks == [] && t.results == map[]
    ensures Answered(Get(Run(Initial(runners, maxChecks), es).delivered, server)) == Asked(Arrivals(es), server)
       <==> Asked(RunRefused(Initial(runners, maxChecks), es), server) == multiset{}
  {
    DrainedRunAnswersEverything(runners, maxChecks, es, server);
    RunSplits(runners, maxChecks, es, server);
    Cancelled(Asked(Run(Initial(runners, maxChecks), es).accepted, server),
              Asked(RunRefused(Initial(runners, maxChecks), es), server));
  }

  lemma Cancelled(a: multiset<Key>, b: multiset<Key>)
    ensures a == a + b <==> b == multiset{}
  {
    assert |a + b| == |a| + |b|;
  }

  /** Two servers ask about the same key in one burst: the second one is refused and gets no answer in any run. */
  lemma SecondServerUnanswered(runners: nat, maxChecks: int, key: Key, a: string, b: string, es: seq<Event>)
    requires a != b && Accounted(Initial(runners, maxChecks))
    requires es != [] && es[0] == Add([Request(key, a), Request(key, b)]) && IsRun(Initial(runners, maxChecks), es)
    requires forall i :: 0 < i < |es| ==> !es[i].Add?
    ensures Asked(Arrivals(es), b) == multiset{key}
    ensures Replies(Run(Initial(runners, maxChecks), es), b) == []
  {
    var s := Initial(runners, maxChecks);
    var t := Step(s, es[0]);
    TwoArrive(s, Request(key, a), Request(key, b));
    SameAcceptedRun(t, es[1..]);
    RunConserved(s, es);
    var u := Run(s, es);
    assert ConservedFor(u, b);
    assert u.accepted == [Request(key, a)];
    assert [Request(key, a)][1..] == [];
    assert Asked(u.accepted, b) == multiset{};
    NoAnswers(Listed(u.checks, b), Replies(u, b));
    NoArrivals(es[1..]);
    TwoAsked(key, a, b);
    assert Arrivals(es) == es[0].requests;
  }

  lemma NoAnswers(listed: multiset<Key>, replies: seq<Result>)
    requires listed + Answered(replies) == multiset{}
    ensures replies == []
  {
    assert |listed| + |Answered(replies)| == 0;
  }

  lemma TwoAsked(key: Key, a: string, b: string)
    requires a != b
    ensures Asked([Request(key, a), Request(key, b)], b) == multiset{key}
  {
    assert [Request(key, a), Request(key, b)][1..] == [Request(key, b)];
    AskedAppend([], Request(key, b), b);
    assert [] + [Request(key, b)] == [Request(key, b)];
  }

  lemma TwoArrive(s: State, first: Request, second: Request)
    requires first.key == second.key && s.checks == [] && s.accepted == []
    ensures AddChecks(s, [first, second]).accepted == [first]
  {
    var both := [first, second];
    assert both[..1] == [first] && [first][..0] == [];
    assert AddChecks(s, [first]) == AddCheck(s, first);
    assert AddChecks(s, both) == AddCheck(AddCheck(s, first), second);
  }

  lemma {:induction false} NoArrivals(es: seq<Event>)
    requires forall i :: 0 <= i < |es| ==> !es[i].Add?
    ensures Arrivals(es) == []
  {
    if es != [] {
      NoArrivals(es[1..]);
    }
  }

  lemma {:induction false} SameAcceptedRun(s: State, es: seq<Event>)
    requires Accounted(s) && IsRun(s, es) && forall i :: 0 <= i < |es| ==> !es[i].Add?
    ensures Run(s, es).accepted == s.accepted
    decreases |es|
  {
    if es != [] {
      SameAccepted(s, es[0]);
      SameAcceptedRun(Step(s, es[0]), es[1..]);
    }
  }
}
