/** What the master's dispatching of work keeps after every event and over every run. */
module Dispatcher {
  import opened Seqs
  import opened Sites
  import opened Master

  // ------------------------------------------------------------------------------------------
  // Events

  datatype Event =
    | Spawned(pid: Pid)
    | Exited(pid: Pid)
    | Heard(pid: Pid, report: Report, now: int)
    | StatsHeard(pid: Pid, queueLength: int, pointer: int)
    | RowsArrived(rows: seq<Row>)
    | TimerFired
    | Replied(blogId: int, url: string, reply: CheckRecord, now: int)
    | Ticked(now: int)

  predicate Usable(c: Config) {
    c.datasetSize >= 1 && c.batchSize >= 1
  }

  /** Rows arrive only for a query in flight and the round timer fires only when it is set. */
  predicate Enabled(m: State, e: Event) {
    match e
    case RowsArrived(_) => m.queries > 0
    case TimerFired => m.timers > 0
    case Replied(_, _, reply, _) => reply.Remote?
    case _ => true
  }

  function Next(m: State, e: Event): State
    requires Usable(m.config) && Enabled(m, e)
  {
    match e
    case Spawned(pid) => SpawnWorker(m, pid)
    case Exited(pid) => DeleteWorker(m, pid)
    case Heard(pid, report, now) => Hear(m, pid, report, now)
    case StatsHeard(pid, queueLength, pointer) => TopUp(m, pid, queueLength, pointer)
    case RowsArrived(rows) => RowsArrive(m, rows)
    case TimerFired => RoundTimerFires(m)
    case Replied(blogId, url, reply, now) => Reply(m, blogId, url, reply, now)
    case Ticked(now) => Tick(m, now)
  }

  // ------------------------------------------------------------------------------------------
  // Invariants

  /** No pid twice in a list, no pid both free and halted, only living workers halted. */
  ghost predicate PoolsSound(m: State) {
    && Distinct(m.workers) && Distinct(m.free) && Distinct(m.halted)
    && (forall p :: p in m.free ==> p !in m.halted)
    && (forall p :: p in m.halted ==> p in m.workers)
  }

  /** A worker never waits while the global queue has work. */
  ghost predicate NoIdling(m: State) { m.free == [] || m.queue == [] }

  /** At most one fetch is in flight, and the flag says whether there is one. */
  ghost predicate OneFetch(m: State) {
    m.queries >= 0 && m.timers >= 0 && m.queries + m.timers == if m.gettingSites then 1 else 0
  }

  /** Everything pushed was cut off in payloads, in order, or is still queued. */
  ghost predicate QueueConserved(m: State) { m.pushed == m.cut + m.queue }

  ghost predicate AllOk(sites: seq<Site>, ok: Site -> bool) {
    forall i :: 0 <= i < |sites| ==> ok(sites[i])
  }

  ghost predicate Core(m: State, ok: Site -> bool) {
    PoolsSound(m) && OneFetch(m) && QueueConserved(m) && AllOk(m.queue, ok)
  }

  /** The work sent between two states: never empty, only good sites, only to workers alive and not halted. */
  ghost predicate Extends(m: State, t: State, ok: Site -> bool) {
    && m.out <= t.out
    && forall i :: |m.out| <= i < |t.out| && t.out[i].QueueAdd? ==> GoodOrder(m, t.out[i], ok)
  }

  ghost predicate GoodOrder(m: State, o: Output, ok: Site -> bool)
    requires o.QueueAdd?
  {
    o.payload != [] && AllOk(o.payload, ok) && o.pid in m.workers && o.pid !in m.halted
  }

  lemma {:induction false} DropDistinct(pids: seq<Pid>, pid: Pid)
    requires Distinct(pids)
    ensures Distinct(Drop(pids, pid))
  {
    if pids != [] {
      DropDistinct(pids[1..], pid);
      if pids[0] != pid {
        DistinctCons(pids[0], Drop(pids[1..], pid));
      }
    }
  }

  lemma ExtendsTrans(a: State, b: State, c: State, ok: Site -> bool)
    requires Extends(a, b, ok) && Extends(b, c, ok) && a.workers == b.workers && a.halted == b.halted
    ensures Extends(a, c, ok)
  {
    forall i | |a.out| <= i < |c.out| && c.out[i].QueueAdd? ensures GoodOrder(a, c.out[i], ok) {
      if i < |b.out| {
        assert c.out[i] == b.out[i];
      } else {
        assert GoodOrder(b, c.out[i], ok);
      }
    }
  }

  lemma AssignWorkKeeps(m: State, pid: Pid, size: int, ok: Site -> bool)
    requires m.config.datasetSize >= 1 && Core(m, ok)
    ensures var t := AssignWork(m, pid, size);
      && Core(t, ok) && Extends(m, t, ok)
      && t.free == m.free && t.workers == m.workers && t.halted == m.halted
      && (m.queue == [] ==> t.queue == [])
  {
    var t := AssignWork(m, pid, size);
    if t != m {
      var n := DatasetLength(m, size);
      assert m.queue == m.queue[..n] + m.queue[n..];
    }
  }

  lemma GetMoreSitesKeeps(m: State, ok: Site -> bool)
    requires PoolsSound(m) && QueueConserved(m) && AllOk(m.queue, ok) && m.queries == m.timers == 0
    ensures var t := GetMoreSites(m);
      && Core(t, ok) && Extends(m, t, ok)
      && t.free == m.free && t.workers == m.workers && t.halted == m.halted && t.queue == m.queue
  {
  }

  lemma GiveWorkKeeps(m: State, pid: Pid, ok: Site -> bool)
    requires m.config.datasetSize >= 1 && Core(m, ok) && NoIdling(m)
    ensures var t := GiveWork(m, pid);
      && Core(t, ok) && NoIdling(t) && Extends(m, t, ok)
      && t.workers == m.workers && t.halted == m.halted
  {
    if |m.workers| > m.config.numWorkers {
    } else if m.queue == [] {
      var f := if pid !in m.halted && pid !in m.free then m.(free := m.free + [pid]) else m;
      assert Core(f, ok);
      if !f.gettingSites {
        GetMoreSitesKeeps(f, ok);
      }
    } else {
      AssignWorkKeeps(m, pid, 0, ok);
    }
  }

  lemma {:induction false} RedistributeKeeps(m: State, pids: seq<Pid>, ok: Site -> bool)
    requires m.config.datasetSize >= 1 && Core(m, ok) && NoIdling(m)
    ensures var t := Redistribute(m, pids);
      && Core(t, ok) && NoIdling(t) && Extends(m, t, ok)
      && t.workers == m.workers && t.halted == m.halted
    decreases |pids|
  {
    if pids != [] {
      if pids[0] in m.workers {
        GiveWorkKeeps(m, pids[0], ok);
        RedistributeKeeps(GiveWork(m, pids[0]), pids[1..], ok);
        ExtendsTrans(m, GiveWork(m, pids[0]), Redistribute(m, pids), ok);
      } else {
        RedistributeKeeps(m, pids[1..], ok);
      }
    }
  }

  /** Whatever the free list was, afterwards no worker idles while there is work. */
  lemma FreeWorkersToWorkKeeps(m: State, ok: Site -> bool)
    requires m.config.datasetSize >= 1 && Core(m, ok)
    ensures var t := FreeWorkersToWork(m);
      && Core(t, ok) && NoIdling(t) && Extends(m, t, ok)
      && t.workers == m.workers && t.halted == m.halted
  {
    if m.queue != [] {
      var a := m.(free := []);
      RedistributeKeeps(a, m.free, ok);
      assert Extends(m, a, ok);
      ExtendsTrans(m, a, FreeWorkersToWork(m), ok);
    }
  }

  // ------------------------------------------------------------------------------------------
  // The local retry tick

  lemma {:induction false} DueBag(local: seq<Site>, config: Config, now: int)
    ensures multiset(local) == multiset(Due(local, config, now)) + multiset(NotDue(local, config, now))
  {
    if local != [] {
      DueBag(local[1..], config, now);
      assert local == [local[0]] + local[1..];
    }
  }

  lemma {:induction false} DueMembers(local: seq<Site>, config: Config, now: int)
    ensures forall s :: s in Due(local, config, now) ==> IsDue(s, config, now) && s in local
    ensures forall s :: s in NotDue(local, config, now) ==> s in local
  {
    if local != [] {
      DueMembers(local[1..], config, now);
    }
  }

  lemma {:induction false} AbleMembers(free: seq<Pid>, workers: seq<Pid>)
    ensures forall p :: p in Able(free, workers) <==> p in free && p in workers
    ensures Distinct(free) ==> Distinct(Able(free, workers))
  {
    if free != [] {
      AbleMembers(free[1..], workers);
    }
  }

  /** Removing the first k living workers removes exactly them, and keeps the order of the rest. */
  lemma {:induction false} WithoutAbleMembers(free: seq<Pid>, workers: seq<Pid>, k: nat)
    requires k <= |Able(free, workers)| && Distinct(free)
    ensures var r := WithoutAble(free, workers, k);
      && Distinct(r)
      && (forall p :: p in r <==> p in free && p !in Able(free, workers)[..k])
  {
    if k > 0 {
      var rest := Able(free[1..], workers);
      AbleMembers(free[1..], workers);
      if free[0] in workers {
        assert Able(free, workers)[..k] == [free[0]] + rest[..k - 1];
        WithoutAbleMembers(free[1..], workers, k - 1);
      } else {
        assert Able(free, workers) == rest && free[0] !in rest[..k];
        WithoutAbleMembers(free[1..], workers, k);
        DistinctCons(free[0], WithoutAble(free[1..], workers, k));
      }
    }
  }

  /** What a step sent. */
  function Sent(m: State, t: State): seq<Output>
    requires |m.out| <= |t.out|
  {
    t.out[|m.out|..]
  }

  /** How many due retries go directly to a worker. */
  function Direct(m: State, now: int): nat {
    var due, able := Due(m.local, m.config, now), Able(m.free, m.workers);
    if |able| < |due| then |able| else |due|
  }

  lemma DispatchShape(m: State, now: int)
    ensures var t := Dispatch(m, now); var due := Reverse(Due(m.local, m.config, now)); var k := Direct(m, now);
      && k <= |due| && k <= |Able(m.free, m.workers)|
      && |m.out| <= |t.out| && Sent(m, t) == Handouts(Able(m.free, m.workers)[..k], due[..k])
      && t.queue == m.queue + due[k..]
  {
  }

  /**
   Every due retry goes to exactly one place and the others stay in order: what was waiting is what
   still waits, plus the payloads of the direct hand-outs, plus what was appended to the queue.
   */
  lemma DispatchConserves(m: State, now: int)
    ensures var t := Dispatch(m, now);
      && m.out <= t.out && m.queue <= t.queue
      && t.local == NotDue(m.local, m.config, now)
      && multiset(m.local) == multiset(t.local) + multiset(HandedOut(Sent(m, t))) + multiset(t.queue[|m.queue|..])
  {
    var t := Dispatch(m, now);
    var due := Reverse(Due(m.local, m.config, now));
    var k := Direct(m, now);
    DispatchShape(m, now);
    HandedOutHandouts(Able(m.free, m.workers)[..k], due[..k]);
    assert t.queue[|m.queue|..] == due[k..];
    DueBag(m.local, m.config, now);
    ReverseBag(Due(m.local, m.config, now));
    SplitBag(due, k);
  }

  /**
   The hand-outs carry one site each and go to different workers, all of them free and alive and no
   longer free afterwards; a retry is queued only when no living free worker is left.
   */
  lemma DispatchWorkers(m: State, now: int)
    requires Distinct(m.free)
    ensures var t := Dispatch(m, now); var sent := Sent(m, t);
      && (forall i :: 0 <= i < |sent| ==> sent[i].QueueAdd? && |sent[i].payload| == 1)
      && (forall i :: 0 <= i < |sent| ==> sent[i].pid in m.free && sent[i].pid in m.workers && sent[i].pid !in t.free)
      && (forall i, j :: 0 <= i < j < |sent| ==> sent[i].pid != sent[j].pid)
      && (|t.queue| > |m.queue| ==> Able(t.free, m.workers) == [])
  {
    var t := Dispatch(m, now);
    var k := Direct(m, now);
    var able := Able(m.free, m.workers);
    DispatchShape(m, now);
    WithoutAbleMembers(m.free, m.workers, k);
    WithoutAbleAble(m.free, m.workers, k);
    forall i | 0 <= i < k ensures able[i] in m.free && able[i] in m.workers && able[i] !in t.free {
      AbleMembers(m.free, m.workers);
      assert able[i] in able && able[i] == able[..k][i];
    }
    assert Distinct(able) by { AbleMembers(m.free, m.workers); }
  }

  /** The sites of the payloads in a list of outputs, in order. */
  function HandedOut(out: seq<Output>): seq<Site> {
    if out == [] then [] else (if out[0].QueueAdd? then out[0].payload else []) + HandedOut(out[1..])
  }

  lemma {:induction false} HandedOutHandouts(pids: seq<Pid>, sites: seq<Site>)
    requires |pids| == |sites|
    ensures HandedOut(Handouts(pids, sites)) == sites
  {
    if pids != [] {
      HandedOutHandouts(pids[1..], sites[1..]);
      assert Handouts(pids, sites)[1..] == Handouts(pids[1..], sites[1..]);
    }
  }

  lemma DispatchKeeps(m: State, now: int, ok: Site -> bool)
    requires Core(m, ok)
    requires forall i :: 0 <= i < |m.local| && IsDue(m.local[i], m.config, now) ==> ok(m.local[i])
    ensures var t := Dispatch(m, now);
      && Core(t, ok) && Extends(m, t, ok)
      && t.workers == m.workers && t.halted == m.halted
      && (|t.queue| == |m.queue| ==> t.queue == m.queue && (m.free == [] ==> t.free == []))
  {
    var t := Dispatch(m, now);
    DispatchShape(m, now);
    WithoutAbleMembers(m.free, m.workers, Direct(m, now));
    WithoutAbleAble(m.free, m.workers, Direct(m, now));
    DueOk(m, now, ok);
    var due := Reverse(Due(m.local, m.config, now));
    HandoutsGood(m, now, ok);
  }

  lemma HandoutsGood(m: State, now: int, ok: Site -> bool)
    requires PoolsSound(m) && AllOk(Reverse(Due(m.local, m.config, now)), ok)
    ensures Extends(m, Dispatch(m, now), ok)
  {
    var t := Dispatch(m, now);
    DispatchShape(m, now);
    AbleMembers(m.free, m.workers);
    forall i | |m.out| <= i < |t.out| && t.out[i].QueueAdd? ensures GoodOrder(m, t.out[i], ok) {
      assert t.out[i] == Sent(m, t)[i - |m.out|];
      assert Able(m.free, m.workers)[i - |m.out|] in Able(m.free, m.workers);
    }
  }

  lemma DueOk(m: State, now: int, ok: Site -> bool)
    requires forall i :: 0 <= i < |m.local| && IsDue(m.local[i], m.config, now) ==> ok(m.local[i])
    ensures AllOk(Reverse(Due(m.local, m.config, now)), ok)
  {
    var due := Due(m.local, m.config, now);
    DueMembers(m.local, m.config, now);
    ReverseBag(due);
    forall i | 0 <= i < |due| ensures ok(Reverse(due)[i]) {
      assert Reverse(due)[i] in multiset(Reverse(due));
      assert Reverse(due)[i] in due;
    }
  }

  lemma TickKeeps(m: State, now: int, ok: Site -> bool)
    requires Usable(m.config) && Core(m, ok) && NoIdling(m)
    requires forall i :: 0 <= i < |m.local| && IsDue(m.local[i], m.config, now) ==> ok(m.local[i])
    ensures var t := Tick(m, now);
      && Core(t, ok) && NoIdling(t) && Extends(m, t, ok)
      && t.workers == m.workers && t.halted == m.halted
  {
    var r := RemoteTick(m, now);
    RemoteTickKeeps(m, now, ok);
    DispatchKeeps(r, now, ok);
    var d := Dispatch(r, now);
    if |d.queue| > |r.queue| {
      FreeWorkersToWorkKeeps(d, ok);
      ExtendsTrans(r, d, FreeWorkersToWork(d), ok);
    } else {
      DispatchShape(r, now);
    }
    ExtendsTrans(m, r, Tick(m, now), ok);
  }

  lemma {:induction false} PostsOnlyToPeers(batches: seq<seq<Entry>>, peers: nat)
    ensures forall i :: 0 <= i < |Posts(batches, peers)| ==> Posts(batches, peers)[i].ToPeer?
  {
    if batches != [] {
      PostsOnlyToPeers(batches[1..], peers);
    }
  }

  lemma RemoteTickKeeps(m: State, now: int, ok: Site -> bool)
    requires Usable(m.config) && Core(m, ok)
    ensures var t := RemoteTick(m, now);
      && Core(t, ok) && Extends(m, t, ok) && t.workers == m.workers && t.halted == m.halted
      && t.free == m.free && t.queue == m.queue && t.local == m.local
  {
    PostsOnlyToPeers(Batches(Reverse(NewEntries(m.remote, m.config)), m.config.batchSize), m.config.peers);
  }

  // ------------------------------------------------------------------------------------------
  // Every event

  /** What an event must bring for the queue to stay good: fetched rows, and retries that are due. */
  ghost predicate Brings(m: State, e: Event, ok: Site -> bool) {
    match e
    case RowsArrived(rows) => AllOk(FromRows(rows), ok)
    case Ticked(now) => forall i :: 0 <= i < |m.local| && IsDue(m.local[i], m.config, now) ==> ok(m.local[i])
    case _ => true
  }

  lemma WorkerEventKeeps(m: State, pid: Pid, ok: Site -> bool)
    requires Core(m, ok) && NoIdling(m)
    ensures Core(SpawnWorker(m, pid), ok) && NoIdling(SpawnWorker(m, pid)) && Extends(m, SpawnWorker(m, pid), ok)
    ensures Core(DeleteWorker(m, pid), ok) && NoIdling(DeleteWorker(m, pid)) && Extends(m, DeleteWorker(m, pid), ok)
    ensures Core(StopWorker(m, pid), ok) && NoIdling(StopWorker(m, pid)) && Extends(m, StopWorker(m, pid), ok)
  {
    DropDistinct(m.workers, pid);
    DistinctSnoc(Drop(m.workers, pid), pid);
    DropDistinct(m.free, pid);
    DropDistinct(m.halted, pid);
  }

  lemma RowsArriveKeeps(m: State, rows: seq<Row>, ok: Site -> bool)
    requires Usable(m.config) && Core(m, ok) && NoIdling(m) && AllOk(FromRows(rows), ok) && m.queries > 0
    ensures var t := RowsArrive(m, rows);
      && Core(t, ok) && NoIdling(t) && Extends(m, t, ok) && t.halted == m.halted
  {
    var a := m.(queries := m.queries - 1, rows := m.rows + rows);
    if rows == [] {
      GetMoreSitesKeeps(a, ok);
      ExtendsTrans(m, a, GetMoreSites(a), ok);
    } else {
      var b := a.(queue := a.queue + FromRows(rows), pushed := a.pushed + FromRows(rows), gettingSites := false);
      FreeWorkersToWorkKeeps(b, ok);
      assert Extends(m, b, ok);
      ExtendsTrans(m, b, FreeWorkersToWork(b), ok);
    }
  }

  lemma HearKeeps(m: State, pid: Pid, report: Report, now: int, ok: Site -> bool)
    requires Usable(m.config) && Core(m, ok) && NoIdling(m)
    ensures var t := Hear(m, pid, report, now);
      && Core(t, ok) && NoIdling(t) && Extends(m, t, ok) && forall p :: p in m.halted ==> p in t.halted
  {
    match report
    case SendWork => GiveWorkKeeps(m, pid, ok);
    case StopWork => WorkerEventKeeps(m, pid, ok);
    case Recheck(site) =>
    case StatusChange(site) =>
    case StillDown(site) =>
  }

  lemma TopUpKeeps(m: State, pid: Pid, queueLength: int, pointer: int, ok: Site -> bool)
    requires Usable(m.config) && Core(m, ok) && NoIdling(m)
    ensures var t := TopUp(m, pid, queueLength, pointer);
      && Core(t, ok) && NoIdling(t) && Extends(m, t, ok) && t.halted == m.halted
  {
    var left := if queueLength - pointer < 0 then 0 else queueLength - pointer;
    AssignWorkKeeps(m, pid, m.config.datasetSize - left, ok);
  }

  /**
   Every event of the master keeps the pools sound, no worker idle while work waits, the queue
   conserved and its sites good; and sends work only in good payloads, only to workers that are alive
   and not halted.
   */
  lemma NextKeeps(m: State, e: Event, ok: Site -> bool)
    requires Usable(m.config) && Enabled(m, e) && Core(m, ok) && NoIdling(m) && Brings(m, e, ok)
    ensures var t := Next(m, e);
      && Core(t, ok) && NoIdling(t) && Extends(m, t, ok)
      && (forall p :: p in m.halted && e != Exited(p) && e != Spawned(p) ==> p in t.halted)
  {
    match e
    case Spawned(pid) => WorkerEventKeeps(m, pid, ok);
    case Exited(pid) => WorkerEventKeeps(m, pid, ok);
    case Heard(pid, report, now) => HearKeeps(m, pid, report, now, ok);
    case StatsHeard(pid, queueLength, pointer) => TopUpKeeps(m, pid, queueLength, pointer, ok);
    case RowsArrived(rows) => RowsArriveKeeps(m, rows, ok);
    case TimerFired =>
      GetMoreSitesKeeps(m.(timers := m.timers - 1, endOfRound := false), ok);
    case Replied(blogId, url, reply, now) =>
    case Ticked(now) => TickKeeps(m, now, ok);
  }

  lemma {:induction false} RedistributeFrame(m: State, pids: seq<Pid>)
    requires m.config.datasetSize >= 1
    ensures var t := Redistribute(m, pids);
      && t.local == m.local && t.remote == m.remote && t.tickets == m.tickets && t.rows == m.rows
      && t.workers == m.workers && t.halted == m.halted
    decreases |pids|
  {
    if pids != [] {
      RedistributeFrame(if pids[0] in m.workers then GiveWork(m, pids[0]) else m, pids[1..]);
    }
  }

  /** What the steps do to the retries, the entries and the configuration. */
  lemma NextFrame(m: State, e: Event)
    requires Usable(m.config) && Enabled(m, e)
    ensures var t := Next(m, e);
      && t.config == m.config
      && t.local == (match e
                     case Heard(_, Recheck(site), _) =>
                       if |site.checks| < m.config.numOfChecks then AddLocal(m, site).local else m.local
                     case Ticked(now) => NotDue(m.local, m.config, now)
                     case _ => m.local)
      && t.remote == (match e
                      case Heard(_, Recheck(site), now) =>
                        if |site.checks| < m.config.numOfChecks then m.remote else AskVerifliers(m, site, now).remote
                      case Replied(blogId, url, reply, now) => Reply(m, blogId, url, reply, now).remote
                      case Ticked(now) => Kept(m.remote, m.config, now)
                      case _ => m.remote)
      && t.rows == (match e case RowsArrived(rows) => m.rows + rows case _ => m.rows)
  {
    match e
    case Heard(pid, report, now) => HearFrame(m, pid, report, now);
    case RowsArrived(rows) => RowsArriveFrame(m, rows);
    case Ticked(now) => TickFrame(m, now);
    case _ =>
  }

  lemma HearFrame(m: State, pid: Pid, report: Report, now: int)
    requires m.config.datasetSize >= 1
    ensures var t := Hear(m, pid, report, now);
      && t.config == m.config && t.rows == m.rows
      && (!report.Recheck? ==> t.local == m.local && t.remote == m.remote)
  {
  }

  lemma RowsArriveFrame(m: State, rows: seq<Row>)
    requires m.config.datasetSize >= 1
    ensures var t := RowsArrive(m, rows);
      && t.config == m.config && t.local == m.local && t.remote == m.remote && t.rows == m.rows + rows
      && t.workers == m.workers && t.halted == m.halted
  {
    if rows != [] {
      RedistributeFrame(m.(queries := m.queries - 1, rows := m.rows + rows, queue := m.queue + FromRows(rows),
                           pushed := m.pushed + FromRows(rows), gettingSites := false, free := []), m.free);
    }
  }

  lemma TickFrame(m: State, now: int)
    requires Usable(m.config)
    ensures var t := Tick(m, now);
      && t.config == m.config && t.rows == m.rows && t.workers == m.workers && t.halted == m.halted
      && t.local == NotDue(m.local, m.config, now) && t.remote == Kept(m.remote, m.config, now)
  {
    var d := Dispatch(RemoteTick(m, now), now);
    RedistributeFrame(d.(free := []), d.free);
  }

  // ------------------------------------------------------------------------------------------
  // Runs

  function Fresh(): Site -> bool { (s: Site) => !s.processed }

  /** The master's invariant: nothing queued or waiting for a retry has been processed. */
  ghost predicate Inv(m: State) {
    Usable(m.config) && Core(m, Fresh()) && NoIdling(m) && AllOk(m.local, Fresh())
  }

  lemma InitialInv(config: Config)
    requires Usable(config)
    ensures Inv(Initial(config))
  {
  }

  ghost function Step(m: State, e: Event): (t: State)
    requires Inv(m) && Enabled(m, e)
    ensures Inv(t)
  {
    StepInv(m, e);
    Next(m, e)
  }

  lemma StepInv(m: State, e: Event)
    requires Inv(m) && Enabled(m, e)
    ensures Inv(Next(m, e)) && Extends(m, Next(m, e), Fresh())
  {
    NextKeeps(m, e, Fresh());
    NextFrame(m, e);
    if e.Ticked? {
      var rest := NotDue(m.local, m.config, e.now);
      DueMembers(m.local, m.config, e.now);
      forall i | 0 <= i < |rest| ensures Fresh()(rest[i]) {
        assert rest[i] in rest;
      }
    }
  }

  ghost predicate IsRun(m: State, es: seq<Event>)
    requires Inv(m)
    decreases |es|
  {
    es == [] || (Enabled(m, es[0]) && IsRun(Step(m, es[0]), es[1..]))
  }

  /** The invariant holds after every run. */
  ghost function Run(m: State, es: seq<Event>): (t: State)
    requires Inv(m) && IsRun(m, es)
    ensures Inv(t)
    decreases |es|
  {
    if es == [] then m else Run(Step(m, es[0]), es[1..])
  }

  /** All payloads of a run are non-empty and hold only unprocessed sites. */
  lemma {:induction false} PayloadsGood(m: State, es: seq<Event>)
    requires Inv(m) && IsRun(m, es)
    ensures m.out <= Run(m, es).out
    ensures forall i :: |m.out| <= i < |Run(m, es).out| && Run(m, es).out[i].QueueAdd? ==>
              Run(m, es).out[i].payload != [] && AllOk(Run(m, es).out[i].payload, Fresh())
    decreases |es|
  {
    if es != [] {
      StepInv(m, es[0]);
      var t := Step(m, es[0]);
      PayloadsGood(t, es[1..]);
      forall i | |m.out| <= i < |Run(m, es).out| && Run(m, es).out[i].QueueAdd?
        ensures Run(m, es).out[i].payload != [] && AllOk(Run(m, es).out[i].payload, Fresh())
      {
        if i < |t.out| {
          assert t.out[i] == Run(m, es).out[i];
        }
      }
    }
  }

  /** Told to stop, or gone. */
  ghost predicate Barred(m: State, pid: Pid) { pid in m.halted || pid !in m.workers }

  lemma NextWorkers(m: State, e: Event)
    requires Usable(m.config) && Enabled(m, e)
    ensures Next(m, e).workers == match e
                                  case Spawned(pid) => Drop(m.workers, pid) + [pid]
                                  case Exited(pid) => Drop(m.workers, pid)
                                  case _ => m.workers
  {
    match e
    case Heard(pid, report, now) => assert Hear(m, pid, report, now).workers == m.workers;
    case RowsArrived(rows) => RowsArriveFrame(m, rows);
    case Ticked(now) => TickFrame(m, now);
    case _ =>
  }

  lemma NextHalted(m: State, e: Event)
    requires Usable(m.config) && Enabled(m, e)
    ensures Next(m, e).halted == match e
                                 case Spawned(pid) => Drop(m.halted, pid)
                                 case Exited(pid) => Drop(m.halted, pid)
                                 case Heard(pid, StopWork, _) => StopWorker(m, pid).halted
                                 case _ => m.halted
  {
    match e
    case Heard(pid, report, now) => assert !report.StopWork? ==> Hear(m, pid, report, now).halted == m.halted;
    case RowsArrived(rows) => RowsArriveFrame(m, rows);
    case Ticked(now) => TickFrame(m, now);
    case _ =>
  }

  lemma StaysBarred(m: State, e: Event, pid: Pid)
    requires Inv(m) && Enabled(m, e) && Barred(m, pid) && e != Spawned(pid)
    ensures Barred(Next(m, e), pid)
  {
    NextWorkers(m, e);
    if pid in m.halted && e != Exited(pid) {
      NextKeeps(m, e, Fresh());
    }
  }

  /** A worker that was told to stop, or is gone, gets no work until its pid is used again. */
  lemma {:induction false} NoWorkAfterStop(m: State, es: seq<Event>, pid: Pid)
    requires Inv(m) && IsRun(m, es) && Barred(m, pid)
    requires forall i :: 0 <= i < |es| ==> es[i] != Spawned(pid)
    ensures m.out <= Run(m, es).out && Barred(Run(m, es), pid)
    ensures forall i :: |m.out| <= i < |Run(m, es).out| && Run(m, es).out[i].QueueAdd? ==> Run(m, es).out[i].pid != pid
    decreases |es|
  {
    if es != [] {
      StepInv(m, es[0]);
      StaysBarred(m, es[0], pid);
      var t := Step(m, es[0]);
      NoWorkAfterStop(t, es[1..], pid);
      forall i | |m.out| <= i < |Run(m, es).out| && Run(m, es).out[i].QueueAdd?
        ensures Run(m, es).out[i].pid != pid
      {
        if i < |t.out| {
          assert t.out[i] == Run(m, es).out[i];
          assert GoodOrder(m, t.out[i], Fresh());
        }
      }
    }
  }
}
