/**
 Why there is a worker to serve the queue: the master replaces missing workers, and a worker that it
 holds for retiring has still something to do, as long as no pid is used again while a stop_work of its
 former process is on its way.
 */
module Staffing {
  import opened Seqs
  import opened Sites
  import opened Pipeline
  import opened Conservation
  import opened Progress
  import M = Master
  import W = Worker
  import D = Dispatcher

  /** A retiring worker that has not exited has something to do. */
  ghost predicate BusyRetiree(w: W.State) {
    w.exit == W.Alive && !w.availableForWork ==> W.Unprocessed(w.arrCheck) != 0
  }

  /** Workers that are halted, or about to be, are retiring; and they are busy. */
  ghost predicate StopsTrue(s: System) {
    && (forall pid :: pid in s.master.halted && pid in s.workers ==> !s.workers[pid].availableForWork)
    && (forall i :: 0 <= i < |s.mail| && s.mail[i].1.StopWork? && s.mail[i].0 in s.workers ==>
          !s.workers[s.mail[i].0].availableForWork)
    && (forall pid :: pid in s.workers ==> BusyRetiree(s.workers[pid]))
  }

  // ------------------------------------------------------------------------------------------
  // A worker

  lemma UnprocessedSome(sites: seq<Site>, i: nat)
    requires i < |sites| && !sites[i].processed
    ensures W.Unprocessed(sites) != 0
  {
    W.UnprocessedZero(sites);
  }

  lemma QueueAddRetires(w: W.State, payload: seq<Site>)
    requires W.Sound(w) && W.GoodPayload(payload)
    ensures BusyRetiree(W.QueueAdd(w, payload)) && W.QueueAdd(w, payload).availableForWork == w.availableForWork
  {
    var v := W.QueueAdd(w, payload);
    assert v.arrCheck[|v.arrCheck| - |payload|] == payload[0];
    UnprocessedSome(v.arrCheck, |v.arrCheck| - |payload|);
  }

  lemma EndRetires(w: W.State, overMemory: bool)
    requires w.exit == W.Alive
    ensures var (v, reports) := W.AtEnd(w, overMemory);
      && BusyRetiree(v) && (v.availableForWork ==> w.availableForWork)
      && (StopWork in reports ==> !v.availableForWork)
  {
  }

  lemma ResultRetires(w: W.State, e: W.Event)
    requires W.Healthy(w) && e.Result? && W.Enabled(w, e)
    ensures var v := W.Next(w, e);
      && BusyRetiree(v) && (v.availableForWork ==> w.availableForWork)
      && (StopWork in Told(w, e) ==> !v.availableForWork)
  {
    var a := W.Take(w, e.index, e.rtt, e.code, e.errorCode, e.now);
    if a.pointer < |a.arrCheck| {
      assert a.arrCheck[a.pointer] == w.arrCheck[a.pointer];
      UnprocessedSome(a.arrCheck, a.pointer);
    } else {
      EndRetires(a, e.overMemory);
    }
  }

  lemma StepRetires(w: W.State, e: W.Event)
    requires W.Healthy(w) && W.Enabled(w, e) && !e.Payload? && BusyRetiree(w)
    ensures var v := W.Next(w, e);
      && BusyRetiree(v) && (v.availableForWork ==> w.availableForWork)
      && (StopWork in Told(w, e) ==> !v.availableForWork)
  {
    match e
    case Result(_, _, _, _, _, _) => ResultRetires(w, e);
    case TimerFires =>
      W.StartUpToConfig(w.(timer := false), W.Min(w.pointer + w.config.numToProcess, |w.arrCheck|));
    case _ =>
  }

  // ------------------------------------------------------------------------------------------
  // Every action

  /** A pid is not used again while a stop_work of its former process is on its way. */
  ghost predicate FreshSpawn(s: System, a: Action) {
    a.Act? && a.event.Spawned? ==> (a.event.pid, StopWork) !in s.mail
  }

  lemma ActStops(s: System, wc: W.Config, a: Action)
    requires Ok(s, wc) && Possible(s, a) && a.Act? && StopsTrue(s) && FreshSpawn(s, a)
    ensures StopsTrue(Next(s, wc, a))
  {
    var t := Next(s, wc, a);
    D.NextHalted(s.master, a.event);
    forall i | 0 <= i < |t.mail| && t.mail[i].1.StopWork? && t.mail[i].0 in t.workers
      ensures !t.workers[t.mail[i].0].availableForWork
    {
      assert t.mail[i] == s.mail[i] && s.mail[i] in s.mail;
    }
  }

  lemma DeliverMailStops(s: System, wc: W.Config, i: nat)
    requires Ok(s, wc) && i < |s.mail| && StopsTrue(s)
    ensures StopsTrue(Next(s, wc, DeliverMail(i)))
  {
    D.NextHalted(s.master, D.Heard(s.mail[i].0, s.mail[i].1, s.now));
    HeardStops(s, Next(s, wc, DeliverMail(i)), i);
  }

  lemma HeardStops(s: System, t: System, i: nat)
    requires i < |s.mail| && StopsTrue(s) && t.workers == s.workers && t.mail == Without(s.mail, i)
    requires forall pid :: pid in t.master.halted ==> pid in s.master.halted || s.mail[i] == (pid, StopWork)
    ensures StopsTrue(t)
  {
    WithoutAmong(s.mail, i);
    forall k | 0 <= k < |t.mail| && t.mail[k].1.StopWork? && t.mail[k].0 in t.workers
      ensures !t.workers[t.mail[k].0].availableForWork
    {
      assert t.mail[k] in s.mail;
    }
  }

  lemma DeliverOrderStops(s: System, wc: W.Config, j: nat)
    requires Ok(s, wc) && j < |s.orders| && StopsTrue(s)
    ensures StopsTrue(Next(s, wc, DeliverOrder(j)))
  {
    var pid := s.orders[j].0;
    if pid in s.workers && s.workers[pid].exit == W.Alive {
      GoodPayload(s.orders[j], s.master.config, s.master.rows, s.now);
      QueueAddRetires(s.workers[pid], s.orders[j].1);
    }
  }

  /** A worker's own step: its reports are news about itself, and every other worker stays as it was. */
  lemma TellingStops(s: System, t: System, pid: M.Pid, v: W.State, told: seq<Report>)
    requires StopsTrue(s) && pid in s.workers && t.workers == s.workers[pid := v] && t.master == s.master
    requires t.mail == s.mail + From(pid, told)
    requires BusyRetiree(v) && (v.availableForWork ==> s.workers[pid].availableForWork)
    requires StopWork in told ==> !v.availableForWork
    ensures StopsTrue(t)
  {
    forall i | 0 <= i < |t.mail| && t.mail[i].1.StopWork? && t.mail[i].0 in t.workers
      ensures !t.workers[t.mail[i].0].availableForWork
    {
      if i >= |s.mail| {
        assert t.mail[i] == (pid, told[i - |s.mail|]);
      } else {
        assert t.mail[i] == s.mail[i];
      }
    }
  }

  lemma WorkerActStops(s: System, wc: W.Config, a: Action)
    requires Ok(s, wc) && Possible(s, a) && a.WorkerAct? && StopsTrue(s)
    ensures StopsTrue(Next(s, wc, a))
  {
    var w := s.workers[a.pid];
    StepRetires(w, a.step);
    TellingStops(s, Next(s, wc, a), a.pid, W.Next(w, a.step), Told(w, a.step));
  }

  lemma ActionStops(s: System, wc: W.Config, a: Action)
    requires Ok(s, wc) && Possible(s, a) && StopsTrue(s) && FreshSpawn(s, a)
    ensures StopsTrue(Step(s, wc, a))
  {
    match a
    case Clock(_) =>
    case Act(_, _) => ActStops(s, wc, a);
    case DeliverMail(i) => DeliverMailStops(s, wc, i);
    case DeliverOrder(j) => DeliverOrderStops(s, wc, j);
    case WorkerAct(_, _) => WorkerActStops(s, wc, a);
  }

  ghost predicate FreshRun(s: System, wc: W.Config, actions: seq<Action>)
    requires Ok(s, wc) && IsRun(s, wc, actions)
    decreases |actions|
  {
    actions == [] || (FreshSpawn(s, actions[0]) && FreshRun(Step(s, wc, actions[0]), wc, actions[1..]))
  }

  lemma {:induction false} RunStops(s: System, wc: W.Config, actions: seq<Action>)
    requires Ok(s, wc) && IsRun(s, wc, actions) && FreshRun(s, wc, actions) && StopsTrue(s)
    ensures StopsTrue(Run(s, wc, actions))
    decreases |actions|
  {
    if actions != [] {
      ActionStops(s, wc, actions[0]);
      RunStops(Step(s, wc, actions[0]), wc, actions[1..]);
    }
  }

  // ------------------------------------------------------------------------------------------
  // A full staff

  /** The spawn rule finds no worker missing, and every exit has been handled. */
  ghost predicate Staffed(s: System) {
    M.Missing(s.master) == 0 && forall pid :: pid in s.workers ==> s.workers[pid].exit == W.Alive
  }

  /** A retiring worker that is alive has something to check. */
  lemma RetireeHasRank(n: int, w: W.State)
    requires w.exit == W.Alive && BusyRetiree(w) && !w.availableForWork
    ensures Weigh(w.arrCheck, PendingRank(n)) > 0
  {
    W.UnprocessedZero(w.arrCheck);
    var i :| 0 <= i < |w.arrCheck| && !w.arrCheck[i].processed;
    WeighAbove(w.arrCheck, PendingRank(n), i);
  }

  /** With a full staff, some worker has something to do or may be given work. */
  lemma SomeoneServes(s: System, wc: W.Config)
    requires Ok(s, wc) && Tied(s) && StopsTrue(s) && Staffed(s) && s.master.config.numWorkers >= 1
    requires Weigh(s.master.workers, WorkerRank(s.master.config.numOfChecks, s.workers)) == 0
    ensures Serving(s, s.master.workers[0])
  {
    var n := s.master.config.numOfChecks;
    var pid := s.master.workers[0];
    WeighAbove(s.master.workers, WorkerRank(n, s.workers), 0);
    assert pid in s.master.workers;
    if !s.workers[pid].availableForWork {
      RetireeHasRank(n, s.workers[pid]);
    }
  }

  /** With a full staff something moves while a site is held anywhere. */
  lemma StaffMoves(s: System, wc: W.Config) returns (time: int, a: Action)
    requires Ok(s, wc) && Tied(s) && StopsTrue(s) && Staffed(s) && Rank(s) > 0
    requires s.master.config.numWorkers >= 1 && s.master.config.numToProcess >= 1
    ensures time >= s.now && Possible(Later(s, time), a) && Genuine(Later(s, time), a)
    ensures MovedBy(Later(s, time), a) > 0
  {
    if Weigh(s.master.workers, WorkerRank(s.master.config.numOfChecks, s.workers)) > 0 {
      time := s.now;
      a := SomeWorkerMoves(s, wc);
      assert Later(s, time) == s;
    } else {
      SomeoneServes(s, wc);
      time, a := SomethingMoves(s, wc);
    }
  }

  lemma StaffRestIsEmpty(s: System, wc: W.Config)
    requires Ok(s, wc) && Tied(s) && StopsTrue(s) && Staffed(s) && AtRest(s)
    requires s.master.config.numWorkers >= 1 && s.master.config.numToProcess >= 1
    ensures Rank(s) == 0
  {
    if Rank(s) > 0 {
      var time, a := StaffMoves(s, wc);
    }
  }

  /**
   A run in which no pid is used again too early, and that has come to rest with a full staff, has
   settled every row it fetched, except what was lost with a process.
   */
  lemma StaffedRestMeansSettled(config: M.Config, wc: W.Config, start: int, actions: seq<Action>, x: Id)
    requires D.Usable(config) && config.numOfChecks >= 1 && config.numToProcess >= 1 && wc.numToProcess >= 1
    requires config.numWorkers >= 1 && Ok(Boot(config, start), wc) && IsRun(Boot(config, start), wc, actions)
    requires FreshRun(Boot(config, start), wc, actions)
    requires AtRest(Run(Boot(config, start), wc, actions)) && Staffed(Run(Boot(config, start), wc, actions))
    ensures Rank(Run(Boot(config, start), wc, actions)) == 0
    ensures Fetched(actions, x)
         == Settled(Boot(config, start), wc, actions, x) + Lost(Boot(config, start), wc, actions, x)
  {
    RunConserves(Boot(config, start), wc, actions, x);
    RunConfig(Boot(config, start), wc, actions);
    RunStops(Boot(config, start), wc, actions);
    StaffRestIsEmpty(Run(Boot(config, start), wc, actions), wc);
    HeldWithinRank(Run(Boot(config, start), wc, actions), x);
  }

  // ------------------------------------------------------------------------------------------
  // A pid used again too early

  /** A stop_work that arrives for a reused pid halts the new process, which has not asked to retire. */
  lemma StaleStop(s: System, wc: W.Config, pid: M.Pid, totalChecks: int, i: nat)
    requires Ok(s, wc) && i < |s.mail| && s.mail[i] == (pid, StopWork)
    ensures var t := Step(Step(s, wc, Act(D.Spawned(pid), totalChecks)), wc, DeliverMail(i));
      && pid in t.master.halted && pid in t.workers
      && t.workers[pid] == W.Initial(wc, totalChecks) && t.workers[pid].availableForWork
  {
    var u := Step(s, wc, Act(D.Spawned(pid), totalChecks));
    D.NextHalted(s.master, D.Spawned(pid));
    D.NextWorkers(s.master, D.Spawned(pid));
    D.NextHalted(u.master, D.Heard(pid, StopWork, u.now));
  }

  /** Nothing is under way but the queue. */
  ghost predicate OnlyQueued(s: System) {
    var n := s.master.config.numOfChecks;
    && s.master.queue != [] && s.master.local == [] && s.master.remote == [] && s.orders == []
    && Weigh(s.mail, MailRank(n)) == 0 && Weigh(s.master.workers, WorkerRank(n, s.workers)) == 0
  }

  /** What is queued is stranded if and only if no worker may be given work. */
  lemma StrandedIff(s: System, wc: W.Config)
    requires Ok(s, wc) && Tied(s) && OnlyQueued(s) && s.master.config.numToProcess >= 1
    ensures AtRest(s) <==> !exists pid :: Serving(s, pid)
  {
    if pid :| Serving(s, pid) {
      var k :| 0 <= k < |s.master.queue|;
      WeighAbove(s.master.queue, SiteRank(s.master.config.numOfChecks, IN_QUEUE), k);
      var time, a := SomethingMoves(s, wc);
    } else {
      forall time: int, a: Action | time >= s.now && Possible(Later(s, time), a) && Genuine(Later(s, time), a)
        ensures MovedBy(Later(s, time), a) == 0
      {
        NothingElseMoves(s, wc, time, a);
      }
    }
  }

  lemma NothingElseMoves(s: System, wc: W.Config, time: int, a: Action)
    requires Ok(s, wc) && Tied(s) && OnlyQueued(s) && !exists pid :: Serving(s, pid)
    requires Possible(Later(s, time), a) && Genuine(Later(s, time), a)
    ensures MovedBy(Later(s, time), a) == 0
  {
    match a
    case DeliverMail(i) => WeighAbove(s.mail, MailRank(s.master.config.numOfChecks), i);
    case WorkerAct(pid, e) => IdleWorkerMovesNothing(s, wc, pid, e);
    case Act(StatsHeard(pid, _, _), _) => assert !Serving(s, pid);
    case _ =>
  }

  lemma IdleWorkerMovesNothing(s: System, wc: W.Config, pid: M.Pid, e: W.Event)
    requires Ok(s, wc) && Tied(s) && OnlyQueued(s) && pid in s.workers && W.Enabled(s.workers[pid], e) && !e.Payload?
    ensures !e.Result? && !e.TimerFires?
  {
    var n := s.master.config.numOfChecks;
    var w := s.workers[pid];
    var k :| 0 <= k < |s.master.workers| && s.master.workers[k] == pid;
    WeighAbove(s.master.workers, WorkerRank(n, s.workers), k);
    if e.Result? {
      WeighAbove(w.arrCheck, PendingRank(n), e.index);
    }
  }
}
