/**
 Why the whole system finishes: every move of a site lowers a rank, so a run makes no more moves than its
 rank allows; and while a site is held somewhere, a move is possible, at the latest when time has passed.
 */
module Progress {
  import opened Seqs
  import opened Sites
  import opened Pipeline
  import opened Conservation
  import M = Master
  import W = Worker
  import D = Dispatcher

  // ------------------------------------------------------------------------------------------
  // Ranks

  /*
   A round of a site goes from the retries to the queue, to a payload, into a worker and, after a failed
   check, into a report; then come the next round, with one local check fewer to go, or the verifliers.
   */
  const IN_WORKER := 1
  const IN_ORDER := 3
  const IN_QUEUE := 4
  const IN_RETRIES := 5
  const IN_REPORT := 6

  /** Local checks a site has still to go, of n. */
  function Left(n: int, site: Site): nat { if |site.checks| < n then n - |site.checks| else 0 }

  function SiteRank(n: int, place: nat): Site -> nat { (s: Site) => 6 * Left(n, s) + place }

  function PendingRank(n: int): Site -> nat {
    (s: Site) => if s.processed then 0 else 6 * Left(n, s) + IN_WORKER
  }

  function EntryRank(): M.Entry -> nat { (e: M.Entry) => if e.requestsSent then 1 else 2 }

  function OrderRank(n: int): ((M.Pid, seq<Site>)) -> nat {
    (o: (M.Pid, seq<Site>)) => Weigh(o.1, SiteRank(n, IN_ORDER))
  }

  function OutputRank(n: int): M.Output -> nat {
    (o: M.Output) => if o.QueueAdd? then Weigh(o.payload, SiteRank(n, IN_ORDER)) else 0
  }

  function ReportRank(n: int, report: Report): nat {
    if report.Recheck? then 6 * Left(n, report.site) + IN_REPORT else 0
  }

  function MailRank(n: int): ((M.Pid, Report)) -> nat { (m: (M.Pid, Report)) => ReportRank(n, m.1) }

  function ListRank(n: int, w: W.State): nat { Weigh(w.arrCheck, PendingRank(n)) + (if w.timer then 1 else 0) }

  function WorkerRank(n: int, workers: map<M.Pid, W.State>): M.Pid -> nat {
    (pid: M.Pid) => if pid in workers then ListRank(n, workers[pid]) else 0
  }

  function MasterRank(n: int, m: M.State): nat {
    Weigh(m.queue, SiteRank(n, IN_QUEUE)) + Weigh(m.local, SiteRank(n, IN_RETRIES)) + Weigh(m.remote, EntryRank())
  }

  function Rank(s: System): nat {
    var n := s.master.config.numOfChecks;
    MasterRank(n, s.master) + Weigh(s.orders, OrderRank(n)) + Weigh(s.mail, MailRank(n))
    + Weigh(s.master.workers, WorkerRank(n, s.workers))
  }

  /** One place further on. */
  lemma Further(sites: seq<Site>, n: int, place: nat, d: nat)
    ensures Weigh(sites, SiteRank(n, place + d)) == Weigh(sites, SiteRank(n, place)) + d * |sites|
  {
    WeighRaised(sites, SiteRank(n, place + d), SiteRank(n, place), d);
  }

  // ------------------------------------------------------------------------------------------
  // The master

  /** The rank of everything in the master or sent by it so far. */
  function Spent(n: int, m: M.State): nat { MasterRank(n, m) + Weigh(m.out, OutputRank(n)) }

  /** Work is handed to this worker. */
  predicate Assigns(m: M.State, pid: M.Pid) { pid in m.workers && pid !in m.halted && m.queue != [] }

  lemma AssignSpent(n: int, m: M.State, pid: M.Pid, size: int)
    requires m.config.datasetSize >= 1
    ensures Spent(n, M.AssignWork(m, pid, size)) + (if Assigns(m, pid) then 1 else 0) <= Spent(n, m)
  {
    if Assigns(m, pid) {
      var k := M.DatasetLength(m, size);
      WeighSplit(m.queue, k, SiteRank(n, IN_QUEUE));
      Further(m.queue[..k], n, IN_ORDER, 1);
      WeighSnoc(m.out, M.QueueAdd(pid, m.queue[..k], true), OutputRank(n));
    }
  }

  lemma GetMoreSitesSpent(n: int, m: M.State)
    ensures Spent(n, M.GetMoreSites(m)) == Spent(n, m)
  {
    var t := M.GetMoreSites(m);
    if !m.endOfRound {
      WeighSnoc(m.out, t.out[|m.out|], OutputRank(n));
    }
  }

  lemma GiveWorkSpent(n: int, m: M.State, pid: M.Pid)
    requires m.config.datasetSize >= 1
    ensures Spent(n, M.GiveWork(m, pid)) <= Spent(n, m)
  {
    if |m.workers| > m.config.numWorkers {
      WeighSnoc(m.out, M.EvaporateWorker(pid), OutputRank(n));
    } else if m.queue == [] {
      GetMoreSitesSpent(n, if pid !in m.halted && pid !in m.free then m.(free := m.free + [pid]) else m);
    } else {
      AssignSpent(n, m, pid, 0);
    }
  }

  lemma {:induction false} RedistributeSpent(n: int, m: M.State, pids: seq<M.Pid>)
    requires m.config.datasetSize >= 1
    ensures Spent(n, M.Redistribute(m, pids)) <= Spent(n, m)
    decreases |pids|
  {
    if pids != [] {
      var t := if pids[0] in m.workers then M.GiveWork(m, pids[0]) else m;
      if pids[0] in m.workers {
        GiveWorkSpent(n, m, pids[0]);
      }
      RedistributeSpent(n, t, pids[1..]);
    }
  }

  lemma FreeWorkersSpent(n: int, m: M.State)
    requires m.config.datasetSize >= 1
    ensures Spent(n, M.FreeWorkersToWork(m)) <= Spent(n, m)
  {
    RedistributeSpent(n, m.(free := []), m.free);
  }

  /** The rank that fetched rows bring. */
  function FetchRank(n: int, rows: seq<Row>): nat { Weigh(M.FromRows(rows), SiteRank(n, IN_QUEUE)) }

  lemma RowsArriveSpent(n: int, m: M.State, rows: seq<Row>)
    requires m.config.datasetSize >= 1
    ensures Spent(n, M.RowsArrive(m, rows)) <= Spent(n, m) + FetchRank(n, rows)
  {
    var a := m.(queries := m.queries - 1, rows := m.rows + rows);
    if rows == [] {
      GetMoreSitesSpent(n, a);
    } else {
      var b := a.(queue := a.queue + M.FromRows(rows), pushed := a.pushed + M.FromRows(rows), gettingSites := false);
      RowsPushedSpent(n, m, b, rows);
      FreeWorkersSpent(n, b);
    }
  }

  lemma RowsPushedSpent(n: int, m: M.State, b: M.State, rows: seq<Row>)
    requires b.queue == m.queue + M.FromRows(rows)
    requires b.local == m.local && b.remote == m.remote && b.out == m.out
    ensures Spent(n, b) == Spent(n, m) + FetchRank(n, rows)
  {
    WeighConcat(m.queue, M.FromRows(rows), SiteRank(n, IN_QUEUE));
  }

  lemma {:induction false} DueRank(n: int, local: seq<Site>, config: M.Config, now: int)
    ensures Weigh(local, SiteRank(n, IN_RETRIES)) == Weigh(M.Due(local, config, now), SiteRank(n, IN_RETRIES))
                                                   + Weigh(M.NotDue(local, config, now), SiteRank(n, IN_RETRIES))
  {
    if local != [] {
      var due := M.IsDue(local[0], config, now);
      DueRank(n, local[1..], config, now);
      WeighConcat(if due then [local[0]] else [], M.Due(local[1..], config, now), SiteRank(n, IN_RETRIES));
      WeighConcat(if due then [] else [local[0]], M.NotDue(local[1..], config, now), SiteRank(n, IN_RETRIES));
    }
  }

  lemma {:induction false} HandoutsRank(n: int, pids: seq<M.Pid>, sites: seq<Site>)
    requires |pids| == |sites|
    ensures Weigh(M.Handouts(pids, sites), OutputRank(n)) == Weigh(sites, SiteRank(n, IN_ORDER))
  {
    if pids != [] {
      var all := M.Handouts(pids, sites);
      assert all[1..] == M.Handouts(pids[1..], sites[1..]);
      assert all[0] == M.QueueAdd(pids[0], [sites[0]], false);
      WeighOne(sites[0], SiteRank(n, IN_ORDER));
      HandoutsRank(n, pids[1..], sites[1..]);
    }
  }

  lemma DispatchSpent(n: int, m: M.State, now: int)
    ensures Spent(n, M.Dispatch(m, now)) + |M.Due(m.local, m.config, now)| <= Spent(n, m)
  {
    var due := Reverse(M.Due(m.local, m.config, now));
    var able := M.Able(m.free, m.workers);
    var k := if |able| < |due| then |able| else |due|;
    DueRank(n, m.local, m.config, now);
    WeighReverse(M.Due(m.local, m.config, now), SiteRank(n, IN_RETRIES));
    WeighSplit(due, k, SiteRank(n, IN_RETRIES));
    Further(due[..k], n, IN_ORDER, 2);
    Further(due[k..], n, IN_QUEUE, 1);
    WeighConcat(m.queue, due[k..], SiteRank(n, IN_QUEUE));
    HandoutsRank(n, able[..k], due[..k]);
    WeighConcat(m.out, M.Handouts(able[..k], due[..k]), OutputRank(n));
  }

  lemma {:induction false} KeptRank(remote: seq<M.Entry>, config: M.Config, now: int)
    ensures Weigh(M.Kept(remote, config, now), EntryRank()) + |M.NewEntries(remote, config)|
            + |Dropped(remote, config, now)| == Weigh(remote, EntryRank())
  {
    if remote != [] {
      var e := remote[0];
      var gone := e.requestsSent && M.Expired(e, config, now);
      KeptRank(remote[1..], config, now);
      WeighConcat(if !e.requestsSent then [M.MarkSent(e, config.peers)] else if gone then [] else [e],
                  M.Kept(remote[1..], config, now), EntryRank());
      WeighOne(M.MarkSent(e, config.peers), EntryRank());
      WeighOne(e, EntryRank());
    }
  }

  lemma RemoteTickSpent(n: int, m: M.State, now: int)
    requires D.Usable(m.config)
    ensures Spent(n, M.RemoteTick(m, now)) + |M.NewEntries(m.remote, m.config)|
            + |Dropped(m.remote, m.config, now)| == Spent(n, m)
  {
    var batches := M.Batches(Reverse(M.NewEntries(m.remote, m.config)), m.config.batchSize);
    D.PostsOnlyToPeers(batches, m.config.peers);
    WeighNothing(M.Posts(batches, m.config.peers), OutputRank(n));
    WeighConcat(m.out, M.Posts(batches, m.config.peers), OutputRank(n));
    KeptRank(m.remote, m.config, now);
  }

  /** What a tick moves: due retries, entries to be sent, entries to be dropped. */
  function TickMoves(m: M.State, now: int): nat {
    |M.Due(m.local, m.config, now)| + |M.NewEntries(m.remote, m.config)| + |Dropped(m.remote, m.config, now)|
  }

  lemma TickSpent(n: int, m: M.State, now: int)
    requires D.Usable(m.config)
    ensures Spent(n, M.Tick(m, now)) + TickMoves(m, now) <= Spent(n, m)
  {
    RemoteTickSpent(n, m, now);
    var r := M.RemoteTick(m, now);
    DispatchSpent(n, r, now);
    FreeWorkersSpent(n, M.Dispatch(r, now));
  }

  lemma ReplySpent(n: int, m: M.State, blogId: int, url: string, reply: CheckRecord, now: int)
    requires reply.Remote?
    ensures Spent(n, M.Reply(m, blogId, url, reply, now)) == Spent(n, m)
  {
    var i := M.EntryFor(m.remote, blogId, url);
    if i < |m.remote| {
      var e := M.Note(m.remote[i], reply, m.config.peerOfflineLimit, now);
      WeighUpdate(m.remote, i, e, EntryRank());
      WeighSnoc(m.out, M.NotifyDown(e), OutputRank(n));
    }
  }

  lemma HearSpent(m: M.State, pid: M.Pid, report: Report, now: int)
    requires m.config.datasetSize >= 1
    ensures var n := m.config.numOfChecks;
      Spent(n, M.Hear(m, pid, report, now)) + (if report.Recheck? then 1 else 0) <= Spent(n, m) + ReportRank(n, report)
  {
    var n := m.config.numOfChecks;
    match report
    case SendWork => GiveWorkSpent(n, m, pid);
    case StopWork =>
    case Recheck(site) => RecheckSpent(m, pid, site, now);
    case StatusChange(site) => WeighSnoc(m.out, M.Notify(site), OutputRank(n));
    case StillDown(site) => WeighSnoc(m.out, M.Notify(site.(siteStatus := ConfirmedDown)), OutputRank(n));
  }

  lemma RecheckSpent(m: M.State, pid: M.Pid, site: Site, now: int)
    requires m.config.datasetSize >= 1
    ensures var n := m.config.numOfChecks;
      Spent(n, M.Hear(m, pid, Recheck(site), now)) + 1 <= Spent(n, m) + ReportRank(n, Recheck(site))
  {
    var n := m.config.numOfChecks;
    if |site.checks| < n {
      WeighSnoc(m.local, site.(processed := false), SiteRank(n, IN_RETRIES));
    } else {
      WeighSnoc(m.remote, M.AskVerifliers(m, site, now).remote[|m.remote|], EntryRank());
    }
  }

  /** The worker has less than a window left. */
  predicate TopsUp(m: M.State, queueLength: int, pointer: int) {
    (if queueLength - pointer < 0 then 0 else queueLength - pointer) < m.config.numToProcess
  }

  /** How many sites an event moves, at least. */
  function Moved(m: M.State, e: D.Event): nat {
    match e
    case Heard(_, report, _) => if report.Recheck? then 1 else 0
    case StatsHeard(pid, queueLength, pointer) => if TopsUp(m, queueLength, pointer) && Assigns(m, pid) then 1 else 0
    case Ticked(now) => TickMoves(m, now)
    case _ => 0
  }

  /** The rank that an event brings to the master. */
  function BroughtRank(n: int, e: D.Event): nat {
    match e
    case RowsArrived(rows) => FetchRank(n, rows)
    case Heard(_, report, _) => ReportRank(n, report)
    case _ => 0
  }

  lemma NextSpent(m: M.State, e: D.Event)
    requires D.Usable(m.config) && D.Enabled(m, e)
    ensures var n := m.config.numOfChecks;
      Spent(n, D.Next(m, e)) + Moved(m, e) <= Spent(n, m) + BroughtRank(n, e)
  {
    var n := m.config.numOfChecks;
    match e
    case Heard(pid, report, now) => HearSpent(m, pid, report, now);
    case StatsHeard(pid, queueLength, pointer) =>
      AssignSpent(n, m, pid, m.config.datasetSize - (if queueLength - pointer < 0 then 0 else queueLength - pointer));
    case RowsArrived(rows) => RowsArriveSpent(n, m, rows);
    case TimerFired => GetMoreSitesSpent(n, m.(timers := m.timers - 1, endOfRound := false));
    case Replied(blogId, url, reply, now) => ReplySpent(n, m, blogId, url, reply, now);
    case Ticked(now) => TickSpent(n, m, now);
    case _ =>
  }

  lemma {:induction false} OutputsOrdersRank(n: int, out: seq<M.Output>)
    ensures Weigh(Orders(out), OrderRank(n)) == Weigh(out, OutputRank(n))
  {
    if out != [] {
      OutputsOrdersRank(n, out[1..]);
      if out[0].QueueAdd? {
        WeighOne((out[0].pid, out[0].payload), OrderRank(n));
        WeighConcat([(out[0].pid, out[0].payload)], Orders(out[1..]), OrderRank(n));
      } else {
        assert [] + Orders(out[1..]) == Orders(out[1..]);
      }
    }
  }

  lemma SentRank(n: int, a: seq<M.Output>, b: seq<M.Output>)
    requires a <= b
    ensures Weigh(b, OutputRank(n)) == Weigh(a, OutputRank(n)) + Weigh(Orders(b[|a|..]), OrderRank(n))
  {
    OutputsOrdersRank(n, b[|a|..]);
    WeighSplit(b, |a|, OutputRank(n));
    assert b[..|a|] == a;
  }

  lemma HandleRank(s: System, wc: W.Config, e: D.Event, rows: seq<Row>)
    requires OkFor(s, wc, rows, s.now) && D.Enabled(s.master, e) && Supplied(s.master, e, rows, s.now)
    ensures var t := Handle(s, e); var n := s.master.config.numOfChecks;
      && MasterRank(n, t.master) + Weigh(t.orders, OrderRank(n)) + Moved(s.master, e)
         <= MasterRank(n, s.master) + Weigh(s.orders, OrderRank(n)) + BroughtRank(n, e)
      && t.mail == s.mail && t.workers == s.workers && t.master.config == s.master.config
  {
    var n := s.master.config.numOfChecks;
    MasterStepOk(s.master, e, rows, s.now);
    NextSpent(s.master, e);
    SentRank(n, s.master.out, D.Next(s.master, e).out);
    WeighConcat(s.orders, Orders(D.Sent(s.master, D.Next(s.master, e))), OrderRank(n));
  }

  // ------------------------------------------------------------------------------------------
  // The workers

  lemma QueueAddRank(n: int, w: W.State, payload: seq<Site>)
    requires W.Sound(w) && W.GoodPayload(payload)
    ensures ListRank(n, W.QueueAdd(w, payload)) < ListRank(n, w) + Weigh(payload, SiteRank(n, IN_ORDER))
  {
    WeighSame(payload, PendingRank(n), payload, SiteRank(n, IN_WORKER));
    Further(payload, n, IN_WORKER, 2);
    WeighConcat(w.arrCheck, payload, PendingRank(n));
  }

  lemma EndRank(n: int, w: W.State, overMemory: bool)
    ensures ListRank(n, W.AtEnd(w, overMemory).0) == ListRank(n, w)
  {
    if W.Unprocessed(w.arrCheck) == 0 {
      W.UnprocessedZero(w.arrCheck);
      WeighNothing(w.arrCheck, PendingRank(n));
    }
  }

  lemma ResultListRank(n: int, w: W.State, e: W.Event)
    requires W.Healthy(w) && e.Result? && W.Enabled(w, e)
    ensures ListRank(n, W.Next(w, e)) + 6 * Left(n, w.arrCheck[e.index]) + IN_WORKER == ListRank(n, w)
  {
    var a := W.Take(w, e.index, e.rtt, e.code, e.errorCode, e.now);
    WeighUpdate(w.arrCheck, e.index, a.arrCheck[e.index], PendingRank(n));
    if a.pointer >= |a.arrCheck| {
      EndRank(n, a, e.overMemory);
    }
  }

  lemma OneReportRank(n: int, pid: M.Pid, site: Site)
    ensures Weigh(From(pid, W.ReportsOn(site)), MailRank(n))
         == if site.siteStatus == Down && site.siteStatus != site.oldStatus then 6 * Left(n, site) + IN_REPORT else 0
  {
    var reports := W.ReportsOn(site);
    if reports == [] {
      assert From(pid, reports) == [];
    } else {
      assert From(pid, reports) == [(pid, reports[0])];
      WeighOne((pid, reports[0]), MailRank(n));
    }
  }

  lemma ResultMailRank(n: int, pid: M.Pid, w: W.State, e: W.Event)
    requires e.Result? && e.index < |w.arrCheck|
    ensures var s := W.Record(w.config, w.arrCheck[e.index], e.rtt, e.code, e.errorCode, e.now);
      Weigh(From(pid, Told(w, e)), MailRank(n))
      == if s.siteStatus == Down && s.siteStatus != s.oldStatus then 6 * Left(n, s) + IN_REPORT else 0
  {
    var s := W.Record(w.config, w.arrCheck[e.index], e.rtt, e.code, e.errorCode, e.now);
    var rest := ToldSplits(pid, w, e);
    WeighNothing(rest, MailRank(n));
    WeighConcat(From(pid, W.ReportsOn(s)), rest, MailRank(n));
    OneReportRank(n, pid, s);
  }

  /** A result takes a site that may be checked one place, or one round, further. */
  lemma ResultRank(pid: M.Pid, w: W.State, wc: W.Config, e: W.Event, config: M.Config, rows: seq<Row>, now: int)
    requires WorkerOk(w, wc, config, rows, now) && e.Result? && W.Enabled(w, e) && e.now == now
    ensures var n := config.numOfChecks;
      ListRank(n, W.Next(w, e)) + Weigh(From(pid, Told(w, e)), MailRank(n)) + 1 <= ListRank(n, w)
  {
    var site := w.arrCheck[e.index];
    ResultListRank(config.numOfChecks, w, e);
    ResultMailRank(config.numOfChecks, pid, w, e);
    assert Ready(site, config, rows, now);
    RecordFailed(w.config, site, config, rows, now, e.rtt, e.code, e.errorCode, now);
  }

  lemma WorkerChangeRank(n: int, pids: seq<M.Pid>, workers: map<M.Pid, W.State>, pid: M.Pid, w: W.State)
    requires Distinct(pids) && pid in pids && pid in workers
    ensures Weigh(pids, WorkerRank(n, workers[pid := w])) + ListRank(n, workers[pid])
         == Weigh(pids, WorkerRank(n, workers)) + ListRank(n, w)
  {
    WeighChange(pids, WorkerRank(n, workers), WorkerRank(n, workers[pid := w]), pid);
  }

  lemma WorkerSpawnedRank(n: int, pids: seq<M.Pid>, workers: map<M.Pid, W.State>, pid: M.Pid, w: W.State)
    requires Distinct(pids) && ListRank(n, w) == 0
    ensures Weigh(M.Drop(pids, pid) + [pid], WorkerRank(n, workers[pid := w])) <= Weigh(pids, WorkerRank(n, workers))
  {
    var rest := M.Drop(pids, pid);
    WeighDrop(pids, pid, WorkerRank(n, workers));
    WeighSame(rest, WorkerRank(n, workers), rest, WorkerRank(n, workers[pid := w]));
    WeighSnoc(rest, pid, WorkerRank(n, workers[pid := w]));
  }

  lemma WorkerExitedRank(n: int, pids: seq<M.Pid>, workers: map<M.Pid, W.State>, pid: M.Pid)
    requires Distinct(pids)
    ensures Weigh(M.Drop(pids, pid), WorkerRank(n, workers - {pid})) <= Weigh(pids, WorkerRank(n, workers))
  {
    var rest := M.Drop(pids, pid);
    WeighDrop(pids, pid, WorkerRank(n, workers));
    WeighSame(rest, WorkerRank(n, workers), rest, WorkerRank(n, workers - {pid}));
  }

  // ------------------------------------------------------------------------------------------
  // Every action

  /** How many sites an action moves, at least; the start timer counts as a move of its worker. */
  function MovedBy(s: System, a: Action): nat {
    match a
    case Act(e, _) => Moved(s.master, e)
    case DeliverMail(i) => if i < |s.mail| && s.mail[i].1.Recheck? then 1 else 0
    case DeliverOrder(_) => 1
    case WorkerAct(_, e) => if e.Result? || e.TimerFires? then 1 else 0
    case Clock(_) => 0
  }

  function FetchedRank(n: int, a: Action): nat {
    if a.Act? && a.event.RowsArrived? then FetchRank(n, a.event.rows) else 0
  }

  lemma ActRank(s: System, wc: W.Config, a: Action)
    requires Ok(s, wc) && Tied(s) && Possible(s, a) && a.Act?
    ensures Rank(Next(s, wc, a)) + MovedBy(s, a) <= Rank(s) + FetchedRank(s.master.config.numOfChecks, a)
  {
    var n := s.master.config.numOfChecks;
    ActSupplied(s, wc, a);
    HandleRank(s, wc, a.event, RowsAfter(s, a));
    D.NextWorkers(s.master, a.event);
    match a.event
    case Spawned(pid) => WorkerSpawnedRank(n, s.master.workers, s.workers, pid, W.Initial(wc, a.totalChecks));
    case Exited(pid) => WorkerExitedRank(n, s.master.workers, s.workers, pid);
    case _ =>
  }

  lemma DeliverMailRank(s: System, wc: W.Config, i: nat)
    requires Ok(s, wc) && i < |s.mail|
    ensures Rank(Next(s, wc, DeliverMail(i))) + MovedBy(s, DeliverMail(i)) <= Rank(s)
  {
    var n := s.master.config.numOfChecks;
    var u := s.(mail := Without(s.mail, i));
    var e := D.Heard(s.mail[i].0, s.mail[i].1, s.now);
    assert MailOk(s.mail[i], s.master.config, s.master.rows);
    HandleRank(u, wc, e, s.master.rows);
    WeighUpdate(s.mail, i, s.mail[i], MailRank(n));
    D.NextWorkers(s.master, e);
  }

  lemma DeliverOrderRank(s: System, wc: W.Config, j: nat)
    requires Ok(s, wc) && Tied(s) && j < |s.orders|
    ensures Rank(Next(s, wc, DeliverOrder(j))) < Rank(s)
  {
    var pid := s.orders[j].0;
    GoodPayload(s.orders[j], s.master.config, s.master.rows, s.now);
    OrderGoneRank(s, j);
    var u := s.(orders := Without(s.orders, j));
    if pid in s.workers && s.workers[pid].exit == W.Alive {
      OrderTakenRank(s.master.config.numOfChecks, s.master.workers, s.workers, pid, s.orders[j].1);
      assert Next(s, wc, DeliverOrder(j))
          == u.(workers := s.workers[pid := W.QueueAdd(s.workers[pid], s.orders[j].1)]);
    } else {
      assert Next(s, wc, DeliverOrder(j)) == u;
    }
  }

  lemma OrderGoneRank(s: System, j: nat)
    requires j < |s.orders| && s.orders[j].1 != []
    ensures var n := s.master.config.numOfChecks; var r := Weigh(s.orders[j].1, SiteRank(n, IN_ORDER));
      0 < r == Rank(s) - Rank(s.(orders := Without(s.orders, j)))
  {
    var n := s.master.config.numOfChecks;
    WeighUpdate(s.orders, j, s.orders[j], OrderRank(n));
    WeighAbove(s.orders[j].1, SiteRank(n, IN_ORDER), 0);
  }

  lemma OrderTakenRank(n: int, pids: seq<M.Pid>, workers: map<M.Pid, W.State>, pid: M.Pid, payload: seq<Site>)
    requires Distinct(pids) && pid in pids && pid in workers && W.Sound(workers[pid]) && W.GoodPayload(payload)
    ensures Weigh(pids, WorkerRank(n, workers[pid := W.QueueAdd(workers[pid], payload)]))
          < Weigh(pids, WorkerRank(n, workers)) + Weigh(payload, SiteRank(n, IN_ORDER))
  {
    QueueAddRank(n, workers[pid], payload);
    WorkerChangeRank(n, pids, workers, pid, W.QueueAdd(workers[pid], payload));
  }

  lemma WorkerActRank(s: System, wc: W.Config, a: Action)
    requires Ok(s, wc) && Tied(s) && Possible(s, a) && a.WorkerAct?
    ensures Rank(Next(s, wc, a)) + MovedBy(s, a) <= Rank(s)
  {
    var n := s.master.config.numOfChecks;
    var w := s.workers[a.pid];
    WeighConcat(s.mail, From(a.pid, Told(w, a.step)), MailRank(n));
    WorkerChangeRank(n, s.master.workers, s.workers, a.pid, W.Next(w, a.step));
    if a.step.Result? {
      ResultRank(a.pid, w, wc, a.step, s.master.config, s.master.rows, s.now);
    } else {
      QuietStepRank(n, a.pid, w, a.step);
    }
  }

  lemma QuietStepRank(n: int, pid: M.Pid, w: W.State, e: W.Event)
    requires W.Enabled(w, e) && !e.Result? && !e.Payload?
    ensures ListRank(n, W.Next(w, e)) + Weigh(From(pid, Told(w, e)), MailRank(n)) + (if e.TimerFires? then 1 else 0)
         == ListRank(n, w)
  {
    W.NextFrame(w, e);
    WeighNothing(From(pid, Told(w, e)), MailRank(n));
    if e.TimerFires? {
      TimerGone(w);
    }
  }

  lemma TimerGone(w: W.State)
    ensures !W.CheckServers(w).timer
  {
    StartUpToTimer(w.(timer := false), W.Min(w.pointer + w.config.numToProcess, |w.arrCheck|));
  }

  lemma {:induction false} StartUpToTimer(w: W.State, limit: int)
    requires limit <= |w.arrCheck|
    ensures W.StartUpTo(w, limit).timer == w.timer
    decreases limit - w.pointer
  {
    if w.pointer < limit {
      StartUpToTimer(W.StartNext(w), limit);
    }
  }

  /** No action but a fetch raises the rank, and every move lowers it. */
  lemma ActionRank(s: System, wc: W.Config, a: Action)
    requires Ok(s, wc) && Tied(s) && Possible(s, a)
    ensures Rank(Step(s, wc, a)) + MovedBy(s, a) <= Rank(s) + FetchedRank(s.master.config.numOfChecks, a)
  {
    match a
    case Clock(_) =>
    case Act(_, _) => ActRank(s, wc, a);
    case DeliverMail(i) => DeliverMailRank(s, wc, i);
    case DeliverOrder(j) => DeliverOrderRank(s, wc, j);
    case WorkerAct(_, _) => WorkerActRank(s, wc, a);
  }

  // ------------------------------------------------------------------------------------------
  // Runs

  ghost function Moves(s: System, wc: W.Config, actions: seq<Action>): nat
    requires Ok(s, wc) && IsRun(s, wc, actions)
    decreases |actions|
  {
    if actions == [] then 0 else MovedBy(s, actions[0]) + Moves(Step(s, wc, actions[0]), wc, actions[1..])
  }

  function RankFetched(n: int, actions: seq<Action>): nat {
    if actions == [] then 0 else FetchedRank(n, actions[0]) + RankFetched(n, actions[1..])
  }

  /** The moves of a run are bounded by the rank at its start and the rows it fetches, whatever else happens. */
  lemma {:induction false} MovesBounded(s: System, wc: W.Config, actions: seq<Action>)
    requires Ok(s, wc) && Tied(s) && IsRun(s, wc, actions)
    ensures Moves(s, wc, actions) + Rank(Run(s, wc, actions))
            <= Rank(s) + RankFetched(s.master.config.numOfChecks, actions)
    decreases |actions|
  {
    if actions != [] {
      ActionRank(s, wc, actions[0]);
      ActionConserves(s, wc, actions[0], (0, ""));
      StepConfig(s, wc, actions[0]);
      MovesBounded(Step(s, wc, actions[0]), wc, actions[1..]);
    }
  }

  lemma StepConfig(s: System, wc: W.Config, a: Action)
    requires Ok(s, wc) && Possible(s, a)
    ensures Step(s, wc, a).master.config == s.master.config
  {
    if a.Act? {
      D.NextFrame(s.master, a.event);
    } else if a.DeliverMail? {
      D.NextFrame(s.master, D.Heard(s.mail[a.i].0, s.mail[a.i].1, s.now));
    }
  }

  // ------------------------------------------------------------------------------------------
  // A move is possible

  /** A worker that may be given work. */
  ghost predicate Serving(s: System, pid: M.Pid) {
    pid in s.master.workers && pid !in s.master.halted && pid in s.workers && s.workers[pid].exit == W.Alive
  }

  /** A worker that has something to do can do it. */
  lemma WorkerMoves(n: int, w: W.State, now: int) returns (e: W.Event)
    requires W.Healthy(w) && ListRank(n, w) > 0
    ensures W.Enabled(w, e) && (e.TimerFires? || (e.Result? && e.now == now))
  {
    W.UnprocessedZero(w.arrCheck);
    if w.timer {
      assert w.arrCheck != [] && !w.arrCheck[0].processed;
      e := W.TimerFires;
    } else {
      var i := WeighSome(w.arrCheck, PendingRank(n));
      assert w.exit == W.Alive && w.running;
      var index :| index in w.outstanding;
      e := W.Result(index, 0, 0, 0, now, false);
    }
  }

  /** The system at a later time. */
  function Later(s: System, time: int): System { s.(now := time) }

  /** The retries and the entries move on with a tick, at the latest when they are due or timed out. */
  lemma TickHasMoves(m: M.State, now: int) returns (time: int)
    requires m.local != [] || m.remote != []
    ensures time >= now && TickMoves(m, time) > 0
  {
    if m.local != [] {
      var due := m.local[0].lastCheck + m.config.timeBetweenChecks;
      time := if due > now then due else now;
      assert M.IsDue(m.local[0], m.config, time);
    } else {
      var e := m.remote[0];
      var timeout := e.lastActivity + m.config.requestTimeout + 1;
      time := if timeout > now then timeout else now;
      assert e.requestsSent ==> M.Expired(e, m.config, time);
    }
  }

  /** An idle worker that may be given work is topped up when it next reports its statistics. */
  lemma IdleWorkerServed(s: System, wc: W.Config, pid: M.Pid)
    requires Ok(s, wc) && Serving(s, pid) && s.master.queue != [] && s.master.config.numToProcess >= 1
    requires ListRank(s.master.config.numOfChecks, s.workers[pid]) == 0
    ensures MovedBy(s, Act(D.StatsHeard(pid, |s.workers[pid].arrCheck|, s.workers[pid].pointer), 0)) == 1
  {
    var w := s.workers[pid];
    assert WorkerOk(w, wc, s.master.config, s.master.rows, s.now);
    if w.pointer < |w.arrCheck| {
      WeighAbove(w.arrCheck, PendingRank(s.master.config.numOfChecks), w.pointer);
    }
  }

  /** Statistics that arrive are those of a worker that is alive. */
  predicate Genuine(s: System, a: Action) {
    match a
    case Act(StatsHeard(pid, queueLength, pointer), _) =>
      && pid in s.workers && s.workers[pid].exit == W.Alive
      && queueLength == |s.workers[pid].arrCheck| && pointer == s.workers[pid].pointer
    case _ => true
  }

  /** While a site is held anywhere, a move is possible, now or after some time. */
  lemma SomethingMoves(s: System, wc: W.Config) returns (time: int, a: Action)
    requires Ok(s, wc) && Tied(s) && Rank(s) > 0 && s.master.config.numToProcess >= 1
    requires s.master.queue != [] ==> exists pid :: Serving(s, pid)
    ensures time >= s.now && Possible(Later(s, time), a) && Genuine(Later(s, time), a)
    ensures MovedBy(Later(s, time), a) > 0
  {
    var n := s.master.config.numOfChecks;
    time := s.now;
    if s.orders != [] {
      a := DeliverOrder(0);
    } else if Weigh(s.mail, MailRank(n)) > 0 {
      var i := WeighSome(s.mail, MailRank(n));
      a := DeliverMail(i);
    } else if Weigh(s.master.workers, WorkerRank(n, s.workers)) > 0 {
      a := SomeWorkerMoves(s, wc);
    } else if s.master.local != [] || s.master.remote != [] {
      time := TickHasMoves(s.master, s.now);
      a := Act(D.Ticked(time), 0);
    } else {
      assert s.master.queue != [];
      var pid :| Serving(s, pid);
      var k :| 0 <= k < |s.master.workers| && s.master.workers[k] == pid;
      WeighAbove(s.master.workers, WorkerRank(n, s.workers), k);
      IdleWorkerServed(s, wc, pid);
      a := Act(D.StatsHeard(pid, |s.workers[pid].arrCheck|, s.workers[pid].pointer), 0);
    }
  }

  lemma SomeWorkerMoves(s: System, wc: W.Config) returns (a: Action)
    requires Ok(s, wc) && Weigh(s.master.workers, WorkerRank(s.master.config.numOfChecks, s.workers)) > 0
    ensures Possible(s, a) && Genuine(s, a) && MovedBy(s, a) > 0
  {
    var n := s.master.config.numOfChecks;
    var k := WeighSome(s.master.workers, WorkerRank(n, s.workers));
    var pid := s.master.workers[k];
    assert WorkerOk(s.workers[pid], wc, s.master.config, s.master.rows, s.now);
    var e := WorkerMoves(n, s.workers[pid], s.now);
    a := WorkerAct(pid, e);
  }

  // ------------------------------------------------------------------------------------------
  // At rest

  lemma HeldWithinRank(s: System, x: Id)
    ensures Held(s, x) <= Rank(s)
  {
    var n := s.master.config.numOfChecks;
    WeighAtMost(s.master.queue, SiteHit(x), SiteRank(n, IN_QUEUE));
    WeighAtMost(s.master.local, SiteHit(x), SiteRank(n, IN_RETRIES));
    WeighAtMost(s.master.remote, EntryHit(x), EntryRank());
    forall j | 0 <= j < |s.orders| ensures OrderHit(x)(s.orders[j]) <= OrderRank(n)(s.orders[j]) {
      WeighAtMost(s.orders[j].1, SiteHit(x), SiteRank(n, IN_ORDER));
    }
    WeighAtMost(s.orders, OrderHit(x), OrderRank(n));
    WeighAtMost(s.mail, MailHit(x), MailRank(n));
    forall k | 0 <= k < |s.master.workers|
      ensures WorkerHit(s.workers, x)(s.master.workers[k]) <= WorkerRank(n, s.workers)(s.master.workers[k])
    {
      var pid := s.master.workers[k];
      if pid in s.workers {
        WeighAtMost(s.workers[pid].arrCheck, PendingHit(x), PendingRank(n));
      }
    }
    WeighAtMost(s.master.workers, WorkerHit(s.workers, x), WorkerRank(n, s.workers));
  }

  /** Nothing can move any more, however long one waits. */
  ghost predicate AtRest(s: System) {
    forall time: int, a: Action ::
      time >= s.now && Possible(Later(s, time), a) && Genuine(Later(s, time), a) ==> MovedBy(Later(s, time), a) == 0
  }

  lemma RestIsEmpty(s: System, wc: W.Config)
    requires Ok(s, wc) && Tied(s) && AtRest(s) && s.master.config.numToProcess >= 1
    requires s.master.queue != [] ==> exists pid :: Serving(s, pid)
    ensures Rank(s) == 0
  {
    if Rank(s) > 0 {
      var time, a := SomethingMoves(s, wc);
    }
  }

  /**
   A run that has come to rest has settled every row it fetched, except what was lost with a process;
   with work in the queue it cannot come to rest while a worker may be given some.
   */
  lemma RestMeansSettled(config: M.Config, wc: W.Config, start: int, actions: seq<Action>, x: Id)
    requires D.Usable(config) && config.numOfChecks >= 1 && config.numToProcess >= 1 && wc.numToProcess >= 1
    requires Ok(Boot(config, start), wc) && IsRun(Boot(config, start), wc, actions)
    requires var s := Run(Boot(config, start), wc, actions);
      AtRest(s) && (s.master.queue != [] ==> exists pid :: Serving(s, pid))
    ensures Rank(Run(Boot(config, start), wc, actions)) == 0
    ensures Fetched(actions, x)
         == Settled(Boot(config, start), wc, actions, x) + Lost(Boot(config, start), wc, actions, x)
  {
    RunConserves(Boot(config, start), wc, actions, x);
    RunConfig(Boot(config, start), wc, actions);
    RestIsEmpty(Run(Boot(config, start), wc, actions), wc);
    HeldWithinRank(Run(Boot(config, start), wc, actions), x);
  }
}
