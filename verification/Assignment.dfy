/**
 How much work goes where: the size of a payload, what a request for work and a worker's figures lead to,
 and the order in which a tick hands out retries.
 */
module Assignment {
  import opened Seqs
  import opened Sites
  import opened Master
  import opened Dispatcher

  // ------------------------------------------------------------------------------------------
  // Payloads

  /**
   How many sites a request for `size` gets: as many as asked for, if that is from 1 to datasetSize, and
   otherwise datasetSize; or all that are queued, if these are fewer.
   */
  function Portion(m: State, size: int): int {
    var wanted := if 1 <= size <= m.config.datasetSize then size else m.config.datasetSize;
    if wanted <= |m.queue| then wanted else |m.queue|
  }

  /** A worker alive and not halted gets exactly its portion, off the front of the queue; nothing else changes. */
  lemma AssignsPortion(m: State, pid: Pid, size: int)
    requires m.config.datasetSize >= 1 && pid in m.workers && pid !in m.halted && m.queue != []
    ensures var t := AssignWork(m, pid, size); var n := Portion(m, size);
      && 1 <= n <= |m.queue| && n <= m.config.datasetSize
      && m.queue[..n] + t.queue == m.queue
      && t == m.(queue := t.queue, cut := m.cut + m.queue[..n], out := m.out + [QueueAdd(pid, m.queue[..n], true)])
  {
  }

  /** A halted worker, one that is gone, or any worker while nothing is queued gets nothing. */
  lemma AssignsNothing(m: State, pid: Pid, size: int)
    requires m.config.datasetSize >= 1 && (pid !in m.workers || pid in m.halted || m.queue == [])
    ensures AssignWork(m, pid, size) == m
  {
  }

  // ------------------------------------------------------------------------------------------
  // Requests for work

  /** A surplus worker that asks is told to go, once, and gets no work. */
  lemma SurplusEvaporates(m: State, pid: Pid)
    requires m.config.datasetSize >= 1 && |m.workers| > m.config.numWorkers
    ensures GiveWork(m, pid) == if pid in m.workers then m.(out := m.out + [EvaporateWorker(pid)]) else m
  {
  }

  /** A worker that asks while sites are queued gets a full payload, or all that is queued. */
  lemma AskerServed(m: State, pid: Pid)
    requires m.config.datasetSize >= 1 && |m.workers| <= m.config.numWorkers
    requires m.queue != [] && pid in m.workers && pid !in m.halted
    ensures var t := GiveWork(m, pid);
      var n := if m.config.datasetSize < |m.queue| then m.config.datasetSize else |m.queue|;
      t == m.(queue := m.queue[n..], cut := m.cut + m.queue[..n],
              out := m.out + [QueueAdd(pid, m.queue[..n], true)])
  {
  }

  /** A worker that asks while nothing is queued is noted as free, unless it is halted, and sites are being fetched. */
  lemma AskerNoted(m: State, pid: Pid)
    requires m.config.datasetSize >= 1 && |m.workers| <= m.config.numWorkers && m.queue == [] && OneFetch(m)
    ensures var t := GiveWork(m, pid);
      && (forall p :: p in t.free <==> p in m.free || (p == pid && pid !in m.halted))
      && m.free <= t.free && |t.free| <= |m.free| + 1
      && t.queries + t.timers == 1
      && t.workers == m.workers && t.halted == m.halted && t.queue == [] && t.local == m.local && t.remote == m.remote
  {
  }

  /** While a worker is free, a query is in flight or the timer for the next round is set: it will not wait forever. */
  ghost predicate FetchForFree(m: State) { m.free != [] ==> m.gettingSites }

  lemma GiveWorkFetches(m: State, pid: Pid)
    requires m.config.datasetSize >= 1 && FetchForFree(m)
    ensures FetchForFree(GiveWork(m, pid))
  {
  }

  lemma {:induction false} RedistributeFetches(m: State, pids: seq<Pid>)
    requires m.config.datasetSize >= 1 && FetchForFree(m)
    ensures FetchForFree(Redistribute(m, pids))
    decreases |pids|
  {
    if pids != [] {
      GiveWorkFetches(m, pids[0]);
      RedistributeFetches(if pids[0] in m.workers then GiveWork(m, pids[0]) else m, pids[1..]);
    }
  }

  lemma TickFetches(m: State, now: int)
    requires Usable(m.config) && FetchForFree(m) && PoolsSound(m)
    ensures FetchForFree(Tick(m, now))
  {
    var r := RemoteTick(m, now);
    var d := Dispatch(r, now);
    WithoutAbleMembers(r.free, r.workers, Direct(r, now));
    DispatchShape(r, now);
    assert d.free != [] ==> d.free[0] in d.free && d.free[0] in r.free;
    RedistributeFetches(d.(free := []), d.free);
  }

  lemma NextFetches(m: State, e: Event)
    requires Usable(m.config) && Enabled(m, e) && FetchForFree(m) && PoolsSound(m) && NoIdling(m)
    ensures FetchForFree(Next(m, e))
  {
    match e
    case Spawned(pid) => assert Drop(m.free, pid) != [] ==> m.free != [];
    case Exited(pid) => assert Drop(m.free, pid) != [] ==> m.free != [];
    case Heard(pid, report, now) => HearFetches(m, pid, report, now);
    case RowsArrived(rows) =>
      var b := m.(queries := m.queries - 1, rows := m.rows + rows, queue := m.queue + FromRows(rows),
                  pushed := m.pushed + FromRows(rows), gettingSites := false);
      RedistributeFetches(b.(free := []), b.free);
    case Ticked(now) => TickFetches(m, now);
    case _ =>
  }

  lemma HearFetches(m: State, pid: Pid, report: Report, now: int)
    requires m.config.datasetSize >= 1 && FetchForFree(m)
    ensures FetchForFree(Hear(m, pid, report, now))
  {
    match report
    case SendWork => GiveWorkFetches(m, pid);
    case StopWork => assert Drop(m.free, pid) != [] ==> m.free != [];
    case _ =>
  }

  /** After every run, while a worker is free, exactly one query or round timer is under way to serve it. */
  lemma {:induction false} FreeWorkersAwaited(m: State, es: seq<Event>)
    requires Inv(m) && IsRun(m, es) && FetchForFree(m)
    ensures var t := Run(m, es);
      && FetchForFree(t)
      && (t.free != [] ==> t.queue == [] && t.queries >= 0 && t.timers >= 0 && t.queries + t.timers == 1)
    decreases |es|
  {
    if es != [] {
      NextFetches(m, es[0]);
      FreeWorkersAwaited(Step(m, es[0]), es[1..]);
    }
  }

  // ------------------------------------------------------------------------------------------
  // Topping up

  /**
   A worker with less than a window left gets what is missing to datasetSize, or a full payload if nothing is
   missing, as far as sites are queued; one with a window left gets nothing.
   */
  lemma ToppedUp(m: State, pid: Pid, queueLength: int, pointer: int)
    requires m.config.datasetSize >= 1 && pid in m.workers && pid !in m.halted
    ensures
      var t := TopUp(m, pid, queueLength, pointer);
      var left := if queueLength > pointer then queueLength - pointer else 0;
      var missing := if left < m.config.datasetSize then m.config.datasetSize - left else m.config.datasetSize;
      var n := if missing < |m.queue| then missing else |m.queue|;
      t == if left >= m.config.numToProcess || m.queue == [] then m
           else m.(queue := m.queue[n..], cut := m.cut + m.queue[..n],
                   out := m.out + [QueueAdd(pid, m.queue[..n], true)])
  {
  }

  // ------------------------------------------------------------------------------------------
  // The tick

  /** Who is due, by the times alone. */
  lemma {:induction false} DueByTime(local: seq<Site>, config: Config, now: int)
    ensures forall s :: s in Due(local, config, now) <==> s in local && now >= s.lastCheck + config.timeBetweenChecks
    ensures forall s :: s in NotDue(local, config, now) <==> s in local && now < s.lastCheck + config.timeBetweenChecks
  {
    if local != [] {
      DueByTime(local[1..], config, now);
    }
  }

  /** A tick leaves nobody waiting whose time has come, and takes nobody whose time has not. */
  lemma TickTakesDue(m: State, now: int, site: Site)
    requires Usable(m.config)
    ensures site in Tick(m, now).local <==> site in m.local && now < site.lastCheck + m.config.timeBetweenChecks
  {
    TickFrame(m, now);
    DueByTime(m.local, m.config, now);
  }

  /** One list is another one with some elements left out. */
  ghost predicate Picked<T>(some: seq<T>, all: seq<T>, which: T -> bool)
    decreases |all|
  {
    if all == [] then some == []
    else if which(all[0]) then some != [] && some[0] == all[0] && Picked(some[1..], all[1..], which)
    else Picked(some, all[1..], which)
  }

  function DueAt(config: Config, now: int): Site -> bool {
    (s: Site) => now >= s.lastCheck + config.timeBetweenChecks
  }

  lemma {:induction false} DuePicked(local: seq<Site>, config: Config, now: int)
    ensures Picked(Due(local, config, now), local, DueAt(config, now))
  {
    if local != [] {
      DuePicked(local[1..], config, now);
      if IsDue(local[0], config, now) {
        assert Due(local, config, now)[1..] == Due(local[1..], config, now);
      } else {
        assert Due(local, config, now) == Due(local[1..], config, now);
      }
    }
  }

  function AliveIn(workers: seq<Pid>): Pid -> bool { (p: Pid) => p in workers }

  lemma {:induction false} AblePicked(free: seq<Pid>, workers: seq<Pid>)
    ensures Picked(Able(free, workers), free, AliveIn(workers))
  {
    if free != [] {
      AblePicked(free[1..], workers);
      if free[0] in workers {
        assert Able(free, workers)[1..] == Able(free[1..], workers);
      } else {
        assert Able(free, workers) == Able(free[1..], workers);
      }
    }
  }

  /**
   The retries that are due go out from the last to the first: one each to the free workers that are alive, in
   the order in which these became free, and the rest, in the same order, to the end of the queue.
   */
  lemma RetriesGoOutBackwards(m: State, now: int) returns (due: seq<Site>, able: seq<Pid>)
    ensures Picked(due, m.local, DueAt(m.config, now)) && Picked(able, m.free, AliveIn(m.workers))
    ensures
      var t := Dispatch(m, now);
      var sent := Sent(m, t);
      var queued := t.queue[|m.queue|..];
      && m.out <= t.out && m.queue <= t.queue && t.pushed == m.pushed + queued
      && |sent| == (if |able| < |due| then |able| else |due|) && |sent| + |queued| == |due|
      && (forall i :: 0 <= i < |sent| ==> sent[i] == QueueAdd(able[i], [due[|due| - 1 - i]], false))
      && (forall i :: 0 <= i < |queued| ==> queued[i] == due[|queued| - 1 - i])
  {
    due, able := Due(m.local, m.config, now), Able(m.free, m.workers);
    DuePicked(m.local, m.config, now);
    AblePicked(m.free, m.workers);
    DispatchShape(m, now);
    ReversedAt(due);
  }

  lemma {:induction false} ReversedAt<T>(xs: seq<T>)
    ensures forall i :: 0 <= i < |xs| ==> Reverse(xs)[i] == xs[|xs| - 1 - i]
  {
    if xs != [] {
      ReversedAt(xs[1..]);
    }
  }

  // ------------------------------------------------------------------------------------------
  // Rows, rechecks and workers

  /** The site that a row becomes: what the row says, and no history. */
  ghost predicate NewSite(site: Site, row: Row) {
    && site.blogId == row.blogId && site.url == row.url
    && site.oldStatus == row.status && site.lastStatusChange == row.lastStatusChange
    && !site.processed && site.checks == []
  }

  /** Every fetched row joins the queue, in order, as a site that has no history yet. */
  lemma RowsQueued(m: State, rows: seq<Row>)
    requires m.config.datasetSize >= 1 && rows != []
    ensures var t := RowsArrive(m, rows);
      && m.pushed <= t.pushed && |t.pushed| == |m.pushed| + |rows|
      && forall i :: 0 <= i < |rows| ==> NewSite(t.pushed[|m.pushed| + i], rows[i])
  {
    RowsPushed(m, rows);
    RowsBecomeSites(rows);
  }

  lemma RowsPushed(m: State, rows: seq<Row>)
    requires m.config.datasetSize >= 1 && rows != []
    ensures RowsArrive(m, rows).pushed == m.pushed + FromRows(rows)
  {
    var b := m.(queries := m.queries - 1, rows := m.rows + rows, queue := m.queue + FromRows(rows),
                pushed := m.pushed + FromRows(rows), gettingSites := false);
    RedistributePushed(b.(free := []), b.free);
  }

  lemma RowsBecomeSites(rows: seq<Row>)
    ensures forall i :: 0 <= i < |rows| ==> NewSite(FromRows(rows)[i], rows[i])
  {
  }

  lemma {:induction false} RedistributePushed(m: State, pids: seq<Pid>)
    requires m.config.datasetSize >= 1
    ensures Redistribute(m, pids).pushed == m.pushed
    decreases |pids|
  {
    if pids != [] {
      RedistributePushed(if pids[0] in m.workers then GiveWork(m, pids[0]) else m, pids[1..]);
    }
  }

  /** A retry for the same site waits already. */
  ghost predicate WaitsFor(local: seq<Site>, site: Site) {
    exists i :: 0 <= i < |local| && local[i].blogId == site.blogId && local[i].url == site.url
  }

  /**
   A recheck with less than numOfChecks checks waits for its next check, unless one for the same site waits;
   with numOfChecks it becomes an entry for the verifliers, not sent and without a confirmation.
   */
  lemma RecheckGoesOn(m: State, pid: Pid, site: Site, now: int)
    requires m.config.datasetSize >= 1
    ensures
      var t := Hear(m, pid, Recheck(site), now);
      if |site.checks| < m.config.numOfChecks then
        t == m.(local := if WaitsFor(m.local, site) then m.local else m.local + [site.(processed := false)])
      else
        && t == m.(remote := t.remote, tickets := m.tickets + 1)
        && |t.remote| == |m.remote| + 1 && m.remote <= t.remote
        && var e := t.remote[|m.remote|];
           && e.ticket == m.tickets && e.blogId == site.blogId && e.url == site.url && e.checks == site.checks
           && e.siteStatus == site.siteStatus
           && !e.requestsSent && e.offlineConfirms == 0 && e.requestsOutstanding == 0 && e.lastActivity == now
  {
    HasWaits(m.local, site);
  }

  lemma HasWaits(local: seq<Site>, site: Site)
    ensures Has(local, site) <==> WaitsFor(local, site)
  {
    assert forall i :: 0 <= i < |local| ==>
      (local[i].SameSite(site) <==> local[i].blogId == site.blogId && local[i].url == site.url);
  }

  /** No two retries for one site. */
  ghost predicate OnePerSite(local: seq<Site>) {
    forall i, j :: 0 <= i < j < |local| ==> !(local[i].blogId == local[j].blogId && local[i].url == local[j].url)
  }

  lemma {:induction false} NotDueOnePerSite(local: seq<Site>, config: Config, now: int)
    requires OnePerSite(local)
    ensures OnePerSite(NotDue(local, config, now))
  {
    if local != [] {
      var rest := NotDue(local[1..], config, now);
      NotDueOnePerSite(local[1..], config, now);
      DueByTime(local[1..], config, now);
      forall k | 0 <= k < |rest| ensures !(local[0].blogId == rest[k].blogId && local[0].url == rest[k].url) {
        assert rest[k] in rest && rest[k] in local[1..];
      }
    }
  }

  lemma NextOnePerSite(m: State, e: Event)
    requires Usable(m.config) && Enabled(m, e) && OnePerSite(m.local)
    ensures OnePerSite(Next(m, e).local)
  {
    NextFrame(m, e);
    if e.Ticked? {
      NotDueOnePerSite(m.local, m.config, e.now);
    } else if e.Heard? && e.report.Recheck? {
      RecheckGoesOn(m, e.pid, e.report.site, e.now);
    }
  }

  /** In every run at most one retry waits for a site. */
  lemma {:induction false} RunOnePerSite(m: State, es: seq<Event>)
    requires Inv(m) && IsRun(m, es) && OnePerSite(m.local)
    ensures OnePerSite(Run(m, es).local)
    decreases |es|
  {
    if es != [] {
      NextOnePerSite(m, es[0]);
      RunOnePerSite(Step(m, es[0]), es[1..]);
    }
  }

  /** What becomes of a pid: new, it is a worker and nothing else; told to stop, halted and not free; gone, nowhere. */
  lemma PidMoves(m: State, pid: Pid, p: Pid)
    ensures var t := SpawnWorker(m, pid);
      && (p in t.workers <==> p == pid || p in m.workers)
      && (p in t.free <==> p != pid && p in m.free) && (p in t.halted <==> p != pid && p in m.halted)
    ensures var t := DeleteWorker(m, pid);
      && (p in t.workers <==> p != pid && p in m.workers)
      && (p in t.free <==> p != pid && p in m.free) && (p in t.halted <==> p != pid && p in m.halted)
    ensures var t := StopWorker(m, pid);
      && t.workers == m.workers
      && (p in t.halted <==> p in m.halted || (p == pid && pid in m.workers))
      && (pid in m.workers && pid !in m.halted ==> (p in t.free <==> p != pid && p in m.free))
  {
  }

  // ------------------------------------------------------------------------------------------
  // What is asked of the verifliers

  function NotSent(): Entry -> bool { (e: Entry) => !e.requestsSent }

  /** What a tick sends are the entries not sent before, in order, as they are but for the marks of sending. */
  lemma {:induction false} SentAsQueued(remote: seq<Entry>, config: Config) returns (unsent: seq<Entry>)
    ensures Picked(unsent, remote, NotSent()) && |NewEntries(remote, config)| == |unsent|
    ensures forall k :: 0 <= k < |unsent| ==> SentFrom(NewEntries(remote, config)[k], unsent[k], config)
  {
    if remote == [] {
      unsent := [];
    } else {
      unsent := SentAsQueued(remote[1..], config);
      if !remote[0].requestsSent {
        var rest := unsent;
        unsent := [remote[0]] + rest;
        assert unsent[1..] == rest;
        assert NewEntries(remote, config)[1..] == NewEntries(remote[1..], config);
      } else {
        assert NewEntries(remote, config) == NewEntries(remote[1..], config);
      }
    }
  }

  ghost predicate SentFrom(sent: Entry, e: Entry, config: Config) {
    sent == e.(requestsSent := true, requestsOutstanding := config.peers, early := sent.early)
  }
}
