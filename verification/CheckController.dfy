/**
 The veriflier's controller object, working in place on its check list, its runners' counters and
 the result batches.  Every method is proved against the matching step of `Scheduler`.
 */
module Controller {
  import opened Scheduler
  import opened Seqs

  class HealthCheck {
    const key: Key
    const server: string
    var threadIndex: int

    constructor (key: Key, server: string)
      ensures this.key == key && this.server == server && threadIndex == NOT_ASSIGNED
    {
      this.key, this.server, threadIndex := key, server, NOT_ASSIGNED;
    }

    function Value(): Check
      reads this
    {
      Check(key, server, threadIndex)
    }
  }

  class Runner {
    var checking: int

    constructor ()
      ensures checking == 0
    {
      checking := 0;
    }
  }

  function RequestsOf(hcs: seq<HealthCheck>): (r: seq<Request>)
    ensures |r| == |hcs| && forall i :: 0 <= i < |r| ==> r[i] == Request(hcs[i].key, hcs[i].server)
  {
    seq(|hcs|, i requires 0 <= i < |hcs| => Request(hcs[i].key, hcs[i].server))
  }

  /** The signals carry pointers to listed checks, with these keys. */
  ghost predicate Carried(signals: seq<HealthCheck>, pending: seq<Key>, checks: seq<HealthCheck>) {
    && |signals| == |pending|
    && forall k :: 0 <= k < |signals| ==> signals[k] in checks && signals[k].key == pending[k]
  }

  class CheckController {
    var checks: seq<HealthCheck>
    const runners: seq<Runner>
    const maxChecks: int
    var checking: int
    var results: map<string, seq<Result>>
    /** The abstract state the fields stand for, with its histories. */
    ghost var model: State
    /** The start signals queued for the controller's thread, as the pointers they carry. */
    ghost var signals: seq<HealthCheck>

    /** The fields hold what the abstract state says. */
    ghost predicate Represents()
      reads this, checks, runners
    {
      && model.maxChecks == maxChecks && model.checking == checking
      && model.results == results
      && |model.checks| == |checks|
      && (forall i :: 0 <= i < |checks| ==> model.checks[i] == checks[i].Value())
      && |model.loads| == |runners|
      && (forall r :: 0 <= r < |runners| ==> model.loads[r] == runners[r].checking)
      && Distinct(runners)
      && DistinctKeys(model.checks)
    }

    /** No queued signal carries a pointer to a check that was deleted. */
    ghost predicate NoDanglingSignal()
      reads this
    {
      Carried(signals, model.pending, checks)
    }

    ghost predicate Valid()
      reads this, checks, runners
    {
      Represents() && Accounted(model) && NoDanglingSignal()
    }

    constructor (maxRunners: nat, maxChecks: int)
      ensures Valid() && fresh(runners)
      ensures model == Initial(maxRunners, maxChecks)
    {
      var all: seq<Runner> := [];
      for index := 0 to maxRunners
        invariant |all| == index && fresh(all)
        invariant Distinct(all)
        invariant forall r :: 0 <= r < index ==> all[r].checking == 0
      {
        var run := new Runner();
        all := all + [run];
      }
      checks, runners, this.maxChecks, checking, results := [], all, maxChecks, 0, map[];
      model, signals := Initial(maxRunners, maxChecks), [];
      new;
      InitialAccounted(maxRunners, maxChecks);
    }

    method HaveCheck(key: Key) returns (have: bool)
      requires Represents()
      ensures have <==> IndexOf(model.checks, key) < |model.checks|
    {
      for loop := 0 to |checks|
        invariant forall k :: 0 <= k < loop ==> checks[k].key != key
      {
        if checks[loop].key == key {
          assert model.checks[loop].key == key;
          return true;
        }
      }
      assert forall k :: 0 <= k < |checks| ==> model.checks[k].key == checks[k].key;
      return false;
    }

    method SelectRunner() returns (minIndex: nat)
      requires Represents() && |runners| > 0
      ensures minIndex == Select(model.loads, maxChecks)
    {
      var min := maxChecks;
      minIndex := 0;
      for index := 0 to |runners|
        invariant minIndex < |runners| && min <= maxChecks
        invariant forall r :: 0 <= r < index ==> min <= model.loads[r]
        invariant min < maxChecks ==> model.loads[minIndex] == min && minIndex < index
        invariant min < maxChecks ==> forall r :: 0 <= r < minIndex ==> min < model.loads[r]
        invariant min == maxChecks ==> minIndex == 0
      {
        if runners[index].checking < min {
          min := runners[index].checking;
          minIndex := index;
        }
      }
    }

    /** `i` is where the check stands in the list. */
    method StartChecking(hc: HealthCheck, ghost i: nat)
      requires Represents() && |runners| > 0
      requires i < |checks| && checks[i] == hc
      modifies this`checking, this`model, hc, runners
      ensures Represents() && model == StartAt(old(model), i)
    {
      ghost var before := model;
      var runner := SelectRunner();
      checking := checking + 1;
      runners[runner].checking := runners[runner].checking + 1;
      hc.threadIndex := runner;
      model := StartAt(before, i);
      assert forall k :: 0 <= k < |checks| && k != i ==> before.checks[k].key != hc.key;
    }

    /** The controller's event loop hands over the oldest queued start signal. */
    method DeliverStartCheck(hc: HealthCheck)
      requires Valid() && signals != [] && hc == signals[0]
      modifies this`checking, this`model, this`signals, hc, runners
      ensures Valid() && model == Deliver(old(model)) && signals == old(signals[1..])
    {
      DeliverAccounted(model);
      ghost var before := model;
      ghost var i :| 0 <= i < |checks| && checks[i] == hc;
      assert before.checks[i].key == before.pending[0];
      KeyPosition(before.checks, i);
      model := before.(pending := before.pending[1..]);
      signals := signals[1..];
      StartChecking(hc, i);
    }

    method AddCheck(hc: HealthCheck)
      requires Valid() && hc !in checks && hc.threadIndex == NOT_ASSIGNED
      modifies this`checks, this`model, this`signals, hc
      ensures Valid() && model == Scheduler.AddCheck(old(model), Request(hc.key, hc.server))
      ensures checks == old(checks) || checks == old(checks) + [hc]
    {
      ghost var before := model;
      AddCheckAccounted(before, Request(hc.key, hc.server));
      var have := HaveCheck(hc.key);
      if have {
        return;
      }
      checks := checks + [hc];
      if checking < |runners| * maxChecks {
        hc.threadIndex := PRE_ASSIGNED;
        signals := signals + [hc];
      }
      model := Scheduler.AddCheck(before, Request(hc.key, hc.server));
    }

    /** Called from a client thread: its start signals are queued for the controller's own thread. */
    method AddChecks(hcs: seq<HealthCheck>)
      requires Valid() && Distinct(hcs)
      requires forall h :: h in hcs ==> h !in checks && h.threadIndex == NOT_ASSIGNED
      modifies this`checks, this`model, this`signals, hcs
      ensures Valid() && model == Scheduler.AddChecks(old(model), RequestsOf(hcs))
    {
      ghost var requests := RequestsOf(hcs);
      for loop := 0 to |hcs|
        invariant Valid()
        invariant model == Scheduler.AddChecks(old(model), requests[..loop])
        invariant forall k :: loop <= k < |hcs| ==> hcs[k] !in checks && hcs[k].threadIndex == NOT_ASSIGNED
      {
        this.AddCheck(hcs[loop]);
        AddChecksSnoc(old(model), requests, loop);
      }
      assert requests[..|hcs|] == requests;
    }

    /**
     A runner's result arrives in the controller's thread.  A result that names a runner the check is
     not on is logged and processed all the same; only the right runner keeps the accounts.
     */
    method FinishedChecking(threadIndex: nat, key: Key, status: int, code: int, rtt: int)
      requires Represents() && threadIndex < |runners|
      modifies this, checks, runners
      ensures Represents() && model == Finish(old(model), threadIndex, Result(key, status, code, rtt))
      ensures signals == old(signals)
      ensures old(Valid() && RightRunner(model.checks, threadIndex, key)) ==> Valid()
    {
      ghost var before, kept := model, checks;
      var result := Result(key, status, code, rtt);
      RetireAndRefill(threadIndex, result);
      StillValid(before, kept, threadIndex, result);
    }

    /** Both loops of the result handler. */
    method RetireAndRefill(threadIndex: nat, result: Result)
      requires Represents() && threadIndex < |runners|
      modifies this`checks, this`checking, this`results, this`model, checks, runners
      ensures Represents() && model == Finish(old(model), threadIndex, result)
      ensures forall h :: h in old(checks) && h.key != result.key ==> h in checks
    {
      RetireFound(threadIndex, result);
      RefillSlot();
    }

    /** The second loop of the result handler: the first waiting check takes the free slot, by a direct call. */
    method RefillSlot()
      requires Represents() && |runners| > 0
      modifies this`checking, this`model, checks, runners
      ensures Represents() && model == Refill(old(model))
    {
      if checking < |runners| * maxChecks {
        var next := 0;
        while next < |checks| && checks[next].threadIndex != NOT_ASSIGNED
          invariant next <= |checks|
          invariant forall k :: 0 <= k < next ==> model.checks[k].thread != NOT_ASSIGNED
        {
          next := next + 1;
        }
        assert next == FirstWaiting(model.checks);
        if next < |checks| {
          StartChecking(checks[next], next);
        }
      }
    }

    /** The first loop of the result handler. */
    method RetireFound(threadIndex: nat, result: Result)
      requires Represents() && threadIndex < |runners|
      modifies this`checks, this`checking, this`results, this`model, runners
      ensures Represents() && model == Retire(old(model), threadIndex, result)
      ensures forall h :: h in old(checks) && h.key != result.key ==> h in checks
      ensures forall h :: h in checks ==> h in old(checks)
    {
      ghost var before, kept := model, checks;
      var loop := 0;
      while loop < |checks| && checks[loop].key != result.key
        invariant loop <= |checks|
        invariant forall k :: 0 <= k < loop ==> model.checks[k].key != result.key
      {
        loop := loop + 1;
      }
      assert loop == IndexOf(before.checks, result.key) by {
        if loop < |checks| { assert before.checks[loop].key == result.key; }
      }
      if loop < |checks| {
        RetireAt(loop, threadIndex, result);
        WithoutAmong(kept, loop);
      }
    }

    /** The check found leaves the list; its result joins the batch of the server that asked. */
    method RetireAt(loop: nat, threadIndex: nat, result: Result)
      requires Represents() && threadIndex < |runners|
      requires loop < |checks| && loop == IndexOf(model.checks, result.key)
      modifies this`checks, this`checking, this`results, this`model, runners
      ensures Represents() && model == Retire(old(model), threadIndex, result)
      ensures checks == Without(old(checks), loop)
    {
      ghost var before := model;
      var server := checks[loop].server;
      var batch := if server in results then results[server] else [];
      results := results[server := batch + [result]];
      checks := Without(checks, loop);
      runners[threadIndex].checking := runners[threadIndex].checking - 1;
      checking := checking - 1;
      model := Retire(before, threadIndex, result);
      WithoutDistinct(before.checks, loop);
      assert model.checks == Without(before.checks, loop);
    }

    /** The check that leaves the list had no queued signal, so every queued pointer stays good. */
    lemma StillValid(before: State, kept: seq<HealthCheck>, threadIndex: nat, result: Result)
      requires Represents() && threadIndex < |before.loads|
      requires model == Finish(before, threadIndex, result)
      requires forall h :: h in kept && h.key != result.key ==> h in checks
      ensures (Accounted(before) && RightRunner(before.checks, threadIndex, result.key)
               && Carried(signals, before.pending, kept)) ==> Valid()
    {
      if Accounted(before) && RightRunner(before.checks, threadIndex, result.key)
         && Carried(signals, before.pending, kept)
      {
        FinishAccounted(before, threadIndex, result);
        forall k | 0 <= k < |signals| ensures signals[k] in checks {
          assert before.pending[k] in before.pending;
          assert ThreadOf(before.checks, before.pending[k]) == PRE_ASSIGNED;
        }
      }
    }

    /** The ticker: the batches are handed to sending and the batch map starts afresh. */
    method Ticked() returns (sending: map<string, seq<Result>>)
      requires Valid()
      modifies this`results, this`model
      ensures Valid() && model == Tick(old(model)) && sending == old(results)
      ensures forall server :: Get(model.delivered, server) == old(Get(model.delivered, server)) + Get(sending, server)
    {
      sending := results;
      results := map[];
      model := Tick(model);
    }
  }

  lemma AddChecksSnoc(s: State, requests: seq<Request>, n: nat)
    requires n < |requests|
    ensures Scheduler.AddChecks(s, requests[..n + 1])
         == Scheduler.AddCheck(Scheduler.AddChecks(s, requests[..n]), requests[n])
  {
    assert requests[..n + 1][..n] == requests[..n];
  }

  lemma KeyPosition(checks: seq<Check>, i: nat)
    requires DistinctKeys(checks) && i < |checks|
    ensures IndexOf(checks, checks[i].key) == i
  {
    var k := IndexOf(checks, checks[i].key);
    assert k <= i;
  }
}
