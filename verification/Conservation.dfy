/**
 Where every fetched row is, over every run of master, workers and messages: in the queue, among the
 local retries, in a payload on its way, unprocessed in a worker, in a report on its way, with the
 verifliers, settled, or lost with a process.
 */
module Conservation {
  import opened Seqs
  import opened Sites
  import opened Pipeline
  import M = Master
  import W = Worker
  import D = Dispatcher

  type Id = (int, string)

  // ------------------------------------------------------------------------------------------
  // Counting a site

  function Hit(blogId: int, url: string, x: Id): nat { if (blogId, url) == x then 1 else 0 }

  function SiteHit(x: Id): Site -> nat { (s: Site) => Hit(s.blogId, s.url, x) }

  function RowHit(x: Id): Row -> nat { (r: Row) => Hit(r.blogId, r.url, x) }

  /** A site of a worker's list that waits for a result. */
  function PendingHit(x: Id): Site -> nat { (s: Site) => if s.processed then 0 else Hit(s.blogId, s.url, x) }

  function EntryHit(x: Id): M.Entry -> nat { (e: M.Entry) => Hit(e.blogId, e.url, x) }

  function OrderHit(x: Id): ((M.Pid, seq<Site>)) -> nat { (o: (M.Pid, seq<Site>)) => Weigh(o.1, SiteHit(x)) }

  function ReportHit(report: Report, x: Id): nat {
    if report.Recheck? then Hit(report.site.blogId, report.site.url, x) else 0
  }

  function MailHit(x: Id): ((M.Pid, Report)) -> nat { (m: (M.Pid, Report)) => ReportHit(m.1, x) }

  function OutputHit(x: Id): M.Output -> nat {
    (o: M.Output) => if o.QueueAdd? then Weigh(o.payload, SiteHit(x)) else 0
  }

  function InWorker(workers: map<M.Pid, W.State>, pid: M.Pid, x: Id): nat {
    if pid in workers then Weigh(workers[pid].arrCheck, PendingHit(x)) else 0
  }

  function WorkerHit(workers: map<M.Pid, W.State>, x: Id): M.Pid -> nat {
    (pid: M.Pid) => InWorker(workers, pid, x)
  }

  function InWorkers(pids: seq<M.Pid>, workers: map<M.Pid, W.State>, x: Id): nat {
    Weigh(pids, WorkerHit(workers, x))
  }

  function InMaster(m: M.State, x: Id): nat {
    Weigh(m.queue, SiteHit(x)) + Weigh(m.local, SiteHit(x)) + Weigh(m.remote, EntryHit(x))
  }

  /** How often the site is somewhere in the system. */
  function Held(s: System, x: Id): nat {
    InMaster(s.master, x) + Weigh(s.orders, OrderHit(x)) + Weigh(s.mail, MailHit(x))
    + InWorkers(s.master.workers, s.workers, x)
  }

  lemma FetchedSites(rows: seq<Row>, x: Id)
    ensures Weigh(M.FromRows(rows), SiteHit(x)) == Weigh(rows, RowHit(x))
  {
    WeighSame(M.FromRows(rows), SiteHit(x), rows, RowHit(x));
  }

  // ------------------------------------------------------------------------------------------
  // The master

  lemma {:induction false} OutputsOrders(out: seq<M.Output>, x: Id)
    ensures Weigh(Orders(out), OrderHit(x)) == Weigh(out, OutputHit(x))
  {
    if out != [] {
      OutputsOrders(out[1..], x);
      if out[0].QueueAdd? {
        WeighOne((out[0].pid, out[0].payload), OrderHit(x));
        WeighConcat([(out[0].pid, out[0].payload)], Orders(out[1..]), OrderHit(x));
      } else {
        assert [] + Orders(out[1..]) == Orders(out[1..]);
      }
    }
  }

  /** Everything in the master or sent by it so far. */
  function Booked(m: M.State, x: Id): nat { InMaster(m, x) + Weigh(m.out, OutputHit(x)) }

  lemma AssignBooked(m: M.State, pid: M.Pid, size: int, x: Id)
    requires m.config.datasetSize >= 1
    ensures Booked(M.AssignWork(m, pid, size), x) == Booked(m, x)
  {
    if pid in m.workers && pid !in m.halted && m.queue != [] {
      var n := M.DatasetLength(m, size);
      WeighSplit(m.queue, n, SiteHit(x));
      WeighSnoc(m.out, M.QueueAdd(pid, m.queue[..n], true), OutputHit(x));
    }
  }

  lemma GetMoreSitesBooked(m: M.State, x: Id)
    ensures Booked(M.GetMoreSites(m), x) == Booked(m, x)
  {
    var t := M.GetMoreSites(m);
    if !m.endOfRound {
      WeighSnoc(m.out, t.out[|m.out|], OutputHit(x));
    }
  }

  lemma GiveWorkBooked(m: M.State, pid: M.Pid, x: Id)
    requires m.config.datasetSize >= 1
    ensures Booked(M.GiveWork(m, pid), x) == Booked(m, x)
  {
    if |m.workers| > m.config.numWorkers {
      WeighSnoc(m.out, M.EvaporateWorker(pid), OutputHit(x));
    } else if m.queue == [] {
      GetMoreSitesBooked(if pid !in m.halted && pid !in m.free then m.(free := m.free + [pid]) else m, x);
    } else {
      AssignBooked(m, pid, 0, x);
    }
  }

  lemma {:induction false} RedistributeBooked(m: M.State, pids: seq<M.Pid>, x: Id)
    requires m.config.datasetSize >= 1
    ensures Booked(M.Redistribute(m, pids), x) == Booked(m, x)
    decreases |pids|
  {
    if pids != [] {
      var t := if pids[0] in m.workers then M.GiveWork(m, pids[0]) else m;
      if pids[0] in m.workers {
        GiveWorkBooked(m, pids[0], x);
      }
      RedistributeBooked(t, pids[1..], x);
    }
  }

  lemma FreeWorkersBooked(m: M.State, x: Id)
    requires m.config.datasetSize >= 1
    ensures Booked(M.FreeWorkersToWork(m), x) == Booked(m, x)
  {
    RedistributeBooked(m.(free := []), m.free, x);
  }

  lemma RowsArriveBooked(m: M.State, rows: seq<Row>, x: Id)
    requires m.config.datasetSize >= 1
    ensures Booked(M.RowsArrive(m, rows), x) == Booked(m, x) + Weigh(rows, RowHit(x))
  {
    var a := m.(queries := m.queries - 1, rows := m.rows + rows);
    if rows == [] {
      GetMoreSitesBooked(a, x);
    } else {
      WeighConcat(m.queue, M.FromRows(rows), SiteHit(x));
      FetchedSites(rows, x);
      FreeWorkersBooked(a.(queue := a.queue + M.FromRows(rows), pushed := a.pushed + M.FromRows(rows),
                           gettingSites := false), x);
    }
  }

  lemma {:induction false} DueSites(local: seq<Site>, config: M.Config, now: int, x: Id)
    ensures Weigh(local, SiteHit(x)) == Weigh(M.Due(local, config, now), SiteHit(x))
                                      + Weigh(M.NotDue(local, config, now), SiteHit(x))
  {
    if local != [] {
      var due := M.IsDue(local[0], config, now);
      DueSites(local[1..], config, now, x);
      WeighConcat(if due then [local[0]] else [], M.Due(local[1..], config, now), SiteHit(x));
      WeighConcat(if due then [] else [local[0]], M.NotDue(local[1..], config, now), SiteHit(x));
    }
  }

  lemma {:induction false} HandoutsSites(pids: seq<M.Pid>, sites: seq<Site>, x: Id)
    requires |pids| == |sites|
    ensures Weigh(M.Handouts(pids, sites), OutputHit(x)) == Weigh(sites, SiteHit(x))
  {
    if pids != [] {
      var all := M.Handouts(pids, sites);
      assert all[1..] == M.Handouts(pids[1..], sites[1..]);
      assert all[0] == M.QueueAdd(pids[0], [sites[0]], false);
      WeighOne(sites[0], SiteHit(x));
      HandoutsSites(pids[1..], sites[1..], x);
    }
  }

  lemma DispatchBooked(m: M.State, now: int, x: Id)
    ensures Booked(M.Dispatch(m, now), x) == Booked(m, x)
  {
    var due := Reverse(M.Due(m.local, m.config, now));
    var able := M.Able(m.free, m.workers);
    var k := if |able| < |due| then |able| else |due|;
    DueSites(m.local, m.config, now, x);
    WeighReverse(M.Due(m.local, m.config, now), SiteHit(x));
    WeighSplit(due, k, SiteHit(x));
    WeighConcat(m.queue, due[k..], SiteHit(x));
    HandoutsSites(able[..k], due[..k], x);
    WeighConcat(m.out, M.Handouts(able[..k], due[..k]), OutputHit(x));
  }

  /** The entries that a tick drops. */
  function Dropped(remote: seq<M.Entry>, config: M.Config, now: int): seq<M.Entry> {
    if remote == [] then []
    else (if remote[0].requestsSent && M.Expired(remote[0], config, now) then [remote[0]] else [])
         + Dropped(remote[1..], config, now)
  }

  lemma {:induction false} KeptEntries(remote: seq<M.Entry>, config: M.Config, now: int, x: Id)
    ensures Weigh(remote, EntryHit(x))
         == Weigh(M.Kept(remote, config, now), EntryHit(x)) + Weigh(Dropped(remote, config, now), EntryHit(x))
  {
    if remote != [] {
      var e := remote[0];
      var gone := e.requestsSent && M.Expired(e, config, now);
      KeptEntries(remote[1..], config, now, x);
      WeighConcat(if !e.requestsSent then [M.MarkSent(e, config.peers)] else if gone then [] else [e],
                  M.Kept(remote[1..], config, now), EntryHit(x));
      WeighConcat(if gone then [e] else [], Dropped(remote[1..], config, now), EntryHit(x));
    }
  }

  lemma TickBooked(m: M.State, now: int, x: Id)
    requires D.Usable(m.config)
    ensures Booked(M.Tick(m, now), x) + Weigh(Dropped(m.remote, m.config, now), EntryHit(x)) == Booked(m, x)
  {
    RemoteTickBooked(m, now, x);
    var r := M.RemoteTick(m, now);
    DispatchBooked(r, now, x);
    FreeWorkersBooked(M.Dispatch(r, now), x);
  }

  lemma RemoteTickBooked(m: M.State, now: int, x: Id)
    requires D.Usable(m.config)
    ensures Booked(M.RemoteTick(m, now), x) + Weigh(Dropped(m.remote, m.config, now), EntryHit(x)) == Booked(m, x)
  {
    var batches := M.Batches(Reverse(M.NewEntries(m.remote, m.config)), m.config.batchSize);
    D.PostsOnlyToPeers(batches, m.config.peers);
    WeighNothing(M.Posts(batches, m.config.peers), OutputHit(x));
    WeighConcat(m.out, M.Posts(batches, m.config.peers), OutputHit(x));
    KeptEntries(m.remote, m.config, now, x);
  }

  lemma ReplyBooked(m: M.State, blogId: int, url: string, reply: CheckRecord, now: int, x: Id)
    requires reply.Remote?
    ensures Booked(M.Reply(m, blogId, url, reply, now), x) == Booked(m, x)
  {
    var i := M.EntryFor(m.remote, blogId, url);
    if i < |m.remote| {
      var e := M.Note(m.remote[i], reply, m.config.peerOfflineLimit, now);
      WeighUpdate(m.remote, i, e, EntryHit(x));
      WeighSnoc(m.out, M.NotifyDown(e), OutputHit(x));
    }
  }

  /** A report settles its site when a retry for the same site is waiting already. */
  function Merged(m: M.State, report: Report, x: Id): nat {
    if report.Recheck? && |report.site.checks| < m.config.numOfChecks && M.Has(m.local, report.site)
    then ReportHit(report, x) else 0
  }

  lemma HearBooked(m: M.State, pid: M.Pid, report: Report, now: int, x: Id)
    requires m.config.datasetSize >= 1
    ensures Booked(M.Hear(m, pid, report, now), x) + Merged(m, report, x) == Booked(m, x) + ReportHit(report, x)
  {
    match report
    case SendWork => GiveWorkBooked(m, pid, x);
    case StopWork =>
    case Recheck(site) => RecheckBooked(m, pid, site, now, x);
    case StatusChange(site) => WeighSnoc(m.out, M.Notify(site), OutputHit(x));
    case StillDown(site) => WeighSnoc(m.out, M.Notify(site.(siteStatus := ConfirmedDown)), OutputHit(x));
  }

  lemma RecheckBooked(m: M.State, pid: M.Pid, site: Site, now: int, x: Id)
    requires m.config.datasetSize >= 1
    ensures Booked(M.Hear(m, pid, Recheck(site), now), x) + Merged(m, Recheck(site), x)
         == Booked(m, x) + ReportHit(Recheck(site), x)
  {
    if |site.checks| < m.config.numOfChecks {
      WeighSnoc(m.local, site.(processed := false), SiteHit(x));
    } else {
      WeighSnoc(m.remote, M.AskVerifliers(m, site, now).remote[|m.remote|], EntryHit(x));
    }
  }

  /** What an event brings to the master, and what it settles. */
  function Brought(e: D.Event, x: Id): nat {
    match e
    case RowsArrived(rows) => Weigh(rows, RowHit(x))
    case Heard(_, report, _) => ReportHit(report, x)
    case _ => 0
  }

  function Closed(m: M.State, e: D.Event, x: Id): nat {
    match e
    case Heard(_, report, _) => Merged(m, report, x)
    case Ticked(now) => Weigh(Dropped(m.remote, m.config, now), EntryHit(x))
    case _ => 0
  }

  lemma NextBooked(m: M.State, e: D.Event, x: Id)
    requires D.Usable(m.config) && D.Enabled(m, e)
    ensures Booked(D.Next(m, e), x) + Closed(m, e, x) == Booked(m, x) + Brought(e, x)
  {
    match e
    case Heard(pid, report, now) => HearBooked(m, pid, report, now, x);
    case StatsHeard(pid, queueLength, pointer) =>
      AssignBooked(m, pid, m.config.datasetSize - (if queueLength - pointer < 0 then 0 else queueLength - pointer), x);
    case RowsArrived(rows) => RowsArriveBooked(m, rows, x);
    case TimerFired => GetMoreSitesBooked(m.(timers := m.timers - 1, endOfRound := false), x);
    case Replied(blogId, url, reply, now) => ReplyBooked(m, blogId, url, reply, now, x);
    case Ticked(now) => TickBooked(m, now, x);
    case _ =>
  }

  lemma SentOrders(a: seq<M.Output>, b: seq<M.Output>, x: Id)
    requires a <= b
    ensures Weigh(b, OutputHit(x)) == Weigh(a, OutputHit(x)) + Weigh(Orders(b[|a|..]), OrderHit(x))
  {
    OutputsOrders(b[|a|..], x);
    WeighSplit(b, |a|, OutputHit(x));
    assert b[..|a|] == a;
  }

  /** What the master no longer holds is in the payloads it sends. */
  lemma MasterConserves(m: M.State, e: D.Event, x: Id)
    requires D.Usable(m.config) && D.Enabled(m, e) && m.out <= D.Next(m, e).out
    ensures var t := D.Next(m, e);
      InMaster(t, x) + Weigh(Orders(D.Sent(m, t)), OrderHit(x)) + Closed(m, e, x) == InMaster(m, x) + Brought(e, x)
  {
    NextBooked(m, e, x);
    SentOrders(m.out, D.Next(m, e).out, x);
  }

  // ------------------------------------------------------------------------------------------
  // The workers

  lemma QueueAddPending(w: W.State, payload: seq<Site>, x: Id)
    requires W.Sound(w) && W.GoodPayload(payload)
    ensures Weigh(W.QueueAdd(w, payload).arrCheck, PendingHit(x))
         == Weigh(w.arrCheck, PendingHit(x)) + Weigh(payload, SiteHit(x))
  {
    WeighSame(payload, PendingHit(x), payload, SiteHit(x));
    WeighConcat(w.arrCheck, payload, PendingHit(x));
  }

  /** The check of this site does not lead to a recheck. */
  predicate Settles(config: W.Config, site: Site, rtt: int, code: int, errorCode: int, now: int) {
    var s := W.Record(config, site, rtt, code, errorCode, now);
    s.siteStatus == s.oldStatus || s.siteStatus != Down
  }

  lemma ResultPending(w: W.State, e: W.Event, x: Id)
    requires W.Healthy(w) && e.Result? && W.Enabled(w, e)
    ensures Weigh(W.Next(w, e).arrCheck, PendingHit(x)) + Hit(w.arrCheck[e.index].blogId, w.arrCheck[e.index].url, x)
         == Weigh(w.arrCheck, PendingHit(x))
  {
    var a := W.Take(w, e.index, e.rtt, e.code, e.errorCode, e.now);
    WeighUpdate(w.arrCheck, e.index, a.arrCheck[e.index], PendingHit(x));
    if a.pointer >= |a.arrCheck| {
      EndPending(a, e.overMemory, x);
    }
  }

  lemma EndPending(w: W.State, overMemory: bool, x: Id)
    ensures Weigh(W.AtEnd(w, overMemory).0.arrCheck, PendingHit(x)) == Weigh(w.arrCheck, PendingHit(x))
  {
    if W.Unprocessed(w.arrCheck) == 0 {
      W.UnprocessedZero(w.arrCheck);
      WeighNothing(w.arrCheck, PendingHit(x));
    }
  }

  /** What a callback tells the master: the report on the site, and then nothing that concerns a site. */
  lemma ToldSplits(pid: M.Pid, w: W.State, e: W.Event) returns (rest: seq<(M.Pid, Report)>)
    requires e.Result? && e.index < |w.arrCheck|
    ensures var s := W.Record(w.config, w.arrCheck[e.index], e.rtt, e.code, e.errorCode, e.now);
      From(pid, Told(w, e)) == From(pid, W.ReportsOn(s)) + rest
    ensures forall k :: 0 <= k < |rest| ==> !rest[k].1.Recheck?
  {
    var a := W.Take(w, e.index, e.rtt, e.code, e.errorCode, e.now);
    if a.pointer < |a.arrCheck| {
      rest := [];
    } else {
      AtEndQuiet(a, e.overMemory);
      rest := From(pid, W.AtEnd(a, e.overMemory).1);
    }
  }

  lemma ResultMail(pid: M.Pid, w: W.State, e: W.Event, x: Id)
    requires e.Result? && e.index < |w.arrCheck|
    ensures var site := w.arrCheck[e.index];
      Weigh(From(pid, Told(w, e)), MailHit(x))
      == if Settles(w.config, site, e.rtt, e.code, e.errorCode, e.now) then 0 else Hit(site.blogId, site.url, x)
  {
    var s := W.Record(w.config, w.arrCheck[e.index], e.rtt, e.code, e.errorCode, e.now);
    var rest := ToldSplits(pid, w, e);
    WeighNothing(rest, MailHit(x));
    WeighConcat(From(pid, W.ReportsOn(s)), rest, MailHit(x));
    OneReport(pid, s, x);
  }

  lemma OneReport(pid: M.Pid, site: Site, x: Id)
    ensures Weigh(From(pid, W.ReportsOn(site)), MailHit(x))
         == if site.siteStatus == Down && site.siteStatus != site.oldStatus then Hit(site.blogId, site.url, x) else 0
  {
    var reports := W.ReportsOn(site);
    if reports == [] {
      assert From(pid, reports) == [];
    } else {
      assert From(pid, reports) == [(pid, reports[0])];
      WeighOne((pid, reports[0]), MailHit(x));
    }
  }

  // ------------------------------------------------------------------------------------------
  // The list of workers

  lemma {:induction false} WeighDrop(pids: seq<M.Pid>, pid: M.Pid, f: M.Pid -> nat)
    requires Distinct(pids)
    ensures Weigh(M.Drop(pids, pid), f) + (if pid in pids then f(pid) else 0) == Weigh(pids, f)
  {
    if pids != [] {
      WeighDrop(pids[1..], pid, f);
      WeighConcat(if pids[0] == pid then [] else [pids[0]], M.Drop(pids[1..], pid), f);
    }
  }

  lemma WorkerChange(pids: seq<M.Pid>, workers: map<M.Pid, W.State>, pid: M.Pid, w: W.State, x: Id)
    requires Distinct(pids) && pid in pids
    ensures InWorkers(pids, workers[pid := w], x) + InWorker(workers, pid, x)
         == InWorkers(pids, workers, x) + Weigh(w.arrCheck, PendingHit(x))
  {
    WeighChange(pids, WorkerHit(workers, x), WorkerHit(workers[pid := w], x), pid);
  }

  lemma WorkerSpawned(pids: seq<M.Pid>, workers: map<M.Pid, W.State>, pid: M.Pid, w: W.State, x: Id)
    requires Distinct(pids) && (pid in workers ==> pid in pids) && w.arrCheck == []
    ensures InWorkers(M.Drop(pids, pid) + [pid], workers[pid := w], x) + InWorker(workers, pid, x)
         == InWorkers(pids, workers, x)
  {
    var rest := M.Drop(pids, pid);
    WeighDrop(pids, pid, WorkerHit(workers, x));
    WeighSame(rest, WorkerHit(workers, x), rest, WorkerHit(workers[pid := w], x));
    WeighSnoc(rest, pid, WorkerHit(workers[pid := w], x));
  }

  lemma WorkerExited(pids: seq<M.Pid>, workers: map<M.Pid, W.State>, pid: M.Pid, x: Id)
    requires Distinct(pids) && (pid in workers ==> pid in pids)
    ensures InWorkers(M.Drop(pids, pid), workers - {pid}, x) + InWorker(workers, pid, x)
         == InWorkers(pids, workers, x)
  {
    var rest := M.Drop(pids, pid);
    WeighDrop(pids, pid, WorkerHit(workers, x));
    WeighSame(rest, WorkerHit(workers, x), rest, WorkerHit(workers - {pid}, x));
  }

  // ------------------------------------------------------------------------------------------
  // Every action

  /** The processes are those the master has listed. */
  ghost predicate Tied(s: System) {
    forall pid :: pid in s.workers <==> pid in s.master.workers
  }

  /** Rows that an action fetches. */
  function FetchedBy(a: Action, x: Id): nat {
    if a.Act? && a.event.RowsArrived? then Weigh(a.event.rows, RowHit(x)) else 0
  }

  /**
   Sites that an action is done with: a check that asks for no recheck, a report whose site is waiting
   for a retry already, an entry that is answered or has timed out.
   */
  ghost function SettledBy(s: System, a: Action, x: Id): nat
    requires a.WorkerAct? && a.step.Result? ==>
               a.pid in s.workers && a.step.index < |s.workers[a.pid].arrCheck|
  {
    match a
    case WorkerAct(pid, Result(index, rtt, code, errorCode, now, _)) =>
      var site := s.workers[pid].arrCheck[index];
      if Settles(s.workers[pid].config, site, rtt, code, errorCode, now) then Hit(site.blogId, site.url, x) else 0
    case DeliverMail(i) => if i < |s.mail| then Merged(s.master, s.mail[i].1, x) else 0
    case Act(e, _) => Closed(s.master, e, x)
    case _ => 0
  }

  /** Sites that go with a process: an order that finds it gone, and what it has not checked when it ends. */
  function LostBy(s: System, a: Action, x: Id): nat {
    match a
    case DeliverOrder(j) =>
      if j < |s.orders| && !(s.orders[j].0 in s.workers && s.workers[s.orders[j].0].exit == W.Alive)
      then Weigh(s.orders[j].1, SiteHit(x)) else 0
    case Act(Exited(pid), _) => InWorker(s.workers, pid, x)
    case Act(Spawned(pid), _) => InWorker(s.workers, pid, x)
    case _ => 0
  }

  lemma HandleConserves(s: System, wc: W.Config, e: D.Event, rows: seq<Row>, x: Id)
    requires OkFor(s, wc, rows, s.now) && D.Enabled(s.master, e) && Supplied(s.master, e, rows, s.now)
    ensures var t := Handle(s, e);
      && InMaster(t.master, x) + Weigh(t.orders, OrderHit(x)) + Closed(s.master, e, x)
         == InMaster(s.master, x) + Weigh(s.orders, OrderHit(x)) + Brought(e, x)
      && t.mail == s.mail && t.workers == s.workers && t.now == s.now
  {
    MasterStepOk(s.master, e, rows, s.now);
    MasterConserves(s.master, e, x);
    WeighConcat(s.orders, Orders(D.Sent(s.master, D.Next(s.master, e))), OrderHit(x));
  }

  lemma ActSupplied(s: System, wc: W.Config, a: Action)
    requires Ok(s, wc) && Possible(s, a) && a.Act?
    ensures OkFor(s, wc, RowsAfter(s, a), s.now) && Supplied(s.master, a.event, RowsAfter(s, a), s.now)
  {
    var more := if a.event.RowsArrived? then a.event.rows else [];
    OkMore(s, wc, s.master.rows, more, s.now, s.now);
    FetchedRowsReady(s.master.config, s.master.rows, more, s.now);
  }

  lemma ActConserves(s: System, wc: W.Config, a: Action, x: Id)
    requires Ok(s, wc) && Tied(s) && Possible(s, a) && a.Act?
    ensures var t := Next(s, wc, a);
      && Held(t, x) + SettledBy(s, a, x) + LostBy(s, a, x) == Held(s, x) + FetchedBy(a, x)
      && Tied(t)
  {
    ActSupplied(s, wc, a);
    HandleConserves(s, wc, a.event, RowsAfter(s, a), x);
    D.NextWorkers(s.master, a.event);
    ListConserves(s, wc, a, x);
  }

  /** What an event of the master does to the processes. */
  lemma ListConserves(s: System, wc: W.Config, a: Action, x: Id)
    requires Tied(s) && Distinct(s.master.workers) && a.Act?
    requires D.Usable(s.master.config) && Possible(s, a)
    requires D.Next(s.master, a.event).workers == match a.event
                                                  case Spawned(pid) => M.Drop(s.master.workers, pid) + [pid]
                                                  case Exited(pid) => M.Drop(s.master.workers, pid)
                                                  case _ => s.master.workers
    ensures var t := Next(s, wc, a);
      && InWorkers(t.master.workers, t.workers, x) + LostBy(s, a, x) == InWorkers(s.master.workers, s.workers, x)
      && Tied(t)
  {
    match a.event
    case Spawned(pid) => WorkerSpawned(s.master.workers, s.workers, pid, W.Initial(wc, a.totalChecks), x);
    case Exited(pid) => WorkerExited(s.master.workers, s.workers, pid, x);
    case _ =>
  }

  lemma DeliverMailConserves(s: System, wc: W.Config, i: nat, x: Id)
    requires Ok(s, wc) && Tied(s) && i < |s.mail|
    ensures var t := Next(s, wc, DeliverMail(i));
      && Held(t, x) + SettledBy(s, DeliverMail(i), x) == Held(s, x)
      && Tied(t)
  {
    var u := s.(mail := Without(s.mail, i));
    var e := D.Heard(s.mail[i].0, s.mail[i].1, s.now);
    assert MailOk(s.mail[i], s.master.config, s.master.rows);
    HandleConserves(u, wc, e, s.master.rows, x);
    WeighUpdate(s.mail, i, s.mail[i], MailHit(x));
    D.NextWorkers(s.master, e);
  }

  lemma OrderGone(s: System, j: nat, x: Id)
    requires j < |s.orders|
    ensures Held(s.(orders := Without(s.orders, j)), x) + Weigh(s.orders[j].1, SiteHit(x)) == Held(s, x)
  {
    WeighUpdate(s.orders, j, s.orders[j], OrderHit(x));
  }

  lemma DeliverOrderConserves(s: System, wc: W.Config, j: nat, x: Id)
    requires Ok(s, wc) && Tied(s) && j < |s.orders|
    ensures var t := Next(s, wc, DeliverOrder(j));
      && Held(t, x) + LostBy(s, DeliverOrder(j), x) == Held(s, x)
      && Tied(t)
  {
    var pid := s.orders[j].0;
    var u := s.(orders := Without(s.orders, j));
    OrderGone(s, j, x);
    if pid in s.workers && s.workers[pid].exit == W.Alive {
      GoodPayload(s.orders[j], s.master.config, s.master.rows, s.now);
      OrderTaken(s.master.workers, s.workers, pid, s.orders[j].1, x);
      assert Next(s, wc, DeliverOrder(j))
          == u.(workers := s.workers[pid := W.QueueAdd(s.workers[pid], s.orders[j].1)]);
    } else {
      assert Next(s, wc, DeliverOrder(j)) == u;
    }
  }

  lemma OrderTaken(pids: seq<M.Pid>, workers: map<M.Pid, W.State>, pid: M.Pid, payload: seq<Site>, x: Id)
    requires Distinct(pids) && pid in pids && pid in workers && W.Sound(workers[pid]) && W.GoodPayload(payload)
    ensures InWorkers(pids, workers[pid := W.QueueAdd(workers[pid], payload)], x)
         == InWorkers(pids, workers, x) + Weigh(payload, SiteHit(x))
  {
    QueueAddPending(workers[pid], payload, x);
    WorkerChange(pids, workers, pid, W.QueueAdd(workers[pid], payload), x);
  }

  lemma WorkerActConserves(s: System, wc: W.Config, a: Action, x: Id)
    requires Ok(s, wc) && Tied(s) && Possible(s, a) && a.WorkerAct?
    ensures var t := Next(s, wc, a);
      && Held(t, x) + SettledBy(s, a, x) == Held(s, x)
      && Tied(t)
  {
    var w := s.workers[a.pid];
    WeighConcat(s.mail, From(a.pid, Told(w, a.step)), MailHit(x));
    WorkerChange(s.master.workers, s.workers, a.pid, W.Next(w, a.step), x);
    if a.step.Result? {
      ResultPending(w, a.step, x);
      ResultMail(a.pid, w, a.step, x);
    } else {
      W.NextFrame(w, a.step);
      WeighNothing(From(a.pid, Told(w, a.step)), MailHit(x));
    }
  }

  /**
   Every action moves sites from one place to another: what is held afterwards, settled by the action
   and lost by it is what was held before and fetched by it.
   */
  lemma ActionConserves(s: System, wc: W.Config, a: Action, x: Id)
    requires Ok(s, wc) && Tied(s) && Possible(s, a)
    ensures var t := Step(s, wc, a);
      && Held(t, x) + SettledBy(s, a, x) + LostBy(s, a, x) == Held(s, x) + FetchedBy(a, x)
      && Tied(t)
  {
    match a
    case Clock(_) =>
    case Act(_, _) => ActConserves(s, wc, a, x);
    case DeliverMail(i) => DeliverMailConserves(s, wc, i, x);
    case DeliverOrder(j) => DeliverOrderConserves(s, wc, j, x);
    case WorkerAct(_, _) => WorkerActConserves(s, wc, a, x);
  }

  // ------------------------------------------------------------------------------------------
  // Every run

  function Fetched(actions: seq<Action>, x: Id): nat {
    if actions == [] then 0 else FetchedBy(actions[0], x) + Fetched(actions[1..], x)
  }

  ghost function Settled(s: System, wc: W.Config, actions: seq<Action>, x: Id): nat
    requires Ok(s, wc) && IsRun(s, wc, actions)
    decreases |actions|
  {
    if actions == [] then 0
    else SettledBy(s, actions[0], x) + Settled(Step(s, wc, actions[0]), wc, actions[1..], x)
  }

  ghost function Lost(s: System, wc: W.Config, actions: seq<Action>, x: Id): nat
    requires Ok(s, wc) && IsRun(s, wc, actions)
    decreases |actions|
  {
    if actions == [] then 0
    else LostBy(s, actions[0], x) + Lost(Step(s, wc, actions[0]), wc, actions[1..], x)
  }

  lemma {:induction false} RunConserves(s: System, wc: W.Config, actions: seq<Action>, x: Id)
    requires Ok(s, wc) && Tied(s) && IsRun(s, wc, actions)
    ensures var t := Run(s, wc, actions);
      && Held(t, x) + Settled(s, wc, actions, x) + Lost(s, wc, actions, x) == Held(s, x) + Fetched(actions, x)
      && Tied(t)
    decreases |actions|
  {
    if actions != [] {
      ActionConserves(s, wc, actions[0], x);
      RunConserves(Step(s, wc, actions[0]), wc, actions[1..], x);
    }
  }

  /**
   In every run from the start, at each moment: every fetched row is held in exactly one place of the
   system, or settled, or lost with a process.
   */
  lemma EveryRowAccounted(config: M.Config, wc: W.Config, start: int, actions: seq<Action>, x: Id)
    requires D.Usable(config) && config.numOfChecks >= 1 && wc.numToProcess >= 1
    requires Ok(Boot(config, start), wc) && IsRun(Boot(config, start), wc, actions)
    ensures var s := Boot(config, start);
      Fetched(actions, x)
      == Held(Run(s, wc, actions), x) + Settled(s, wc, actions, x) + Lost(s, wc, actions, x)
  {
    RunConserves(Boot(config, start), wc, actions, x);
  }
}
