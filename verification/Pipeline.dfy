/**
 The master, its workers and the messages between them, put together: what a veriflier-confirmed down
 notification stands for, and why no worker stalls.
 */
module Pipeline {
  import opened Seqs
  import opened Sites
  import M = Master
  import W = Worker
  import D = Dispatcher
  import C = Confirmation

  // ------------------------------------------------------------------------------------------
  // What is known about a site

  /** The row that this site was fetched from, with the status that it then had, and since when. */
  ghost predicate IsOf(row: Row, site: Site) {
    && row.blogId == site.blogId && row.url == site.url
    && row.status == site.oldStatus && row.lastStatusChange == site.lastStatusChange
  }

  ghost predicate FetchedAs(rows: seq<Row>, site: Site) {
    exists i :: 0 <= i < |rows| && IsOf(rows[i], site)
  }

  /**
   The local history of a site: at most `numOfChecks` results, all failed, each at least
   `timeBetweenChecks` after the one before; and, once there is one, a site that was running.
   */
  ghost predicate Trail(site: Site, config: M.Config, rows: seq<Row>) {
    && |site.checks| <= config.numOfChecks
    && (forall i :: 0 <= i < |site.checks| ==> site.checks[i].Local? && site.checks[i].status == Down)
    && (forall i :: 0 < i < |site.checks| ==>
          site.checks[i].at >= site.checks[i - 1].at + config.timeBetweenChecks)
    && (site.checks != [] ==> site.oldStatus == Running && site.lastCheck == site.checks[|site.checks| - 1].at)
    && FetchedAs(rows, site)
  }

  /** A site that may be checked now. */
  ghost predicate Ready(site: Site, config: M.Config, rows: seq<Row>, now: int) {
    && Trail(site, config, rows) && !site.processed
    && |site.checks| < config.numOfChecks
    && (site.checks != [] ==> now >= site.lastCheck + config.timeBetweenChecks)
  }

  ghost function ReadyAt(config: M.Config, rows: seq<Row>, now: int): Site -> bool {
    (site: Site) => Ready(site, config, rows, now)
  }

  /** A site whose last check failed. */
  ghost predicate Failed(site: Site, config: M.Config, rows: seq<Row>) {
    Trail(site, config, rows) && site.checks != []
  }

  /** An entry: the full local history it was queued with, then veriflier replies only. */
  ghost predicate EntryOk(e: M.Entry, config: M.Config, rows: seq<Row>) {
    var n := config.numOfChecks;
    && e.blogId == e.origin.blogId && e.url == e.origin.url
    && e.lastCheck == e.origin.lastCheck && e.lastStatusChange == e.origin.lastStatusChange
    && Failed(e.origin, config, rows) && |e.origin.checks| == n
    && n <= |e.checks| && e.checks[..n] == e.origin.checks
    && (forall i :: n <= i < |e.checks| ==> e.checks[i].Remote?)
    && e.offlineConfirms == C.Offline(e.checks)
  }

  /**
   A down notification: for a site that was fetched as running, with exactly `numOfChecks` local results
   that all failed and are properly spaced, and with enough offline replies on record.
   */
  ghost predicate Confirmed(e: M.Entry, config: M.Config, rows: seq<Row>) {
    && EntryOk(e, config, rows)
    && e.origin.oldStatus == Running
    && C.Offline(e.checks) >= config.peerOfflineLimit
    && e.siteStatus == Down
  }

  lemma TrailMore(site: Site, config: M.Config, rows: seq<Row>, more: seq<Row>)
    requires Trail(site, config, rows)
    ensures Trail(site, config, rows + more)
  {
    var i :| 0 <= i < |rows| && IsOf(rows[i], site);
    assert IsOf((rows + more)[i], site);
  }

  /** A row that was just fetched is ready. */
  lemma RowReady(rows: seq<Row>, k: nat, config: M.Config, now: int)
    requires k < |rows| && config.numOfChecks >= 1
    ensures Ready(FromRow(rows[k]), config, rows, now)
  {
    assert IsOf(rows[k], FromRow(rows[k]));
  }

  /**
   The result of a check of a ready site: a recheck is reported exactly when the check failed and the site
   was running when it was fetched, and then with its history extended by one failure.
   */
  lemma RecordFailed(wc: W.Config, site: Site, config: M.Config, rows: seq<Row>, started: int,
                     rtt: int, code: int, errorCode: int, now: int)
    requires Ready(site, config, rows, started) && started <= now
    ensures var s := W.Record(wc, site, rtt, code, errorCode, now);
      && (W.ReportsOn(s) == [Recheck(s)]
          <==> !(rtt > 0 && code < 400 && code != 0) && site.oldStatus == Running)
      && (s.siteStatus != s.oldStatus && s.siteStatus == Down ==>
            Failed(s, config, rows) && |s.checks| == |site.checks| + 1)
  {
    var s := W.Record(wc, site, rtt, code, errorCode, now);
    W.VerdictTable(wc, site, rtt, code, errorCode, now);
    assert s.oldStatus == site.oldStatus;
    assert FetchedAs(rows, s);
  }

  // ------------------------------------------------------------------------------------------
  // The system

  /** `orders` are payloads and `mail` reports on their way; they may arrive in any order. */
  datatype System = System(
    master: M.State,
    workers: map<M.Pid, W.State>,
    orders: seq<(M.Pid, seq<Site>)>,
    mail: seq<(M.Pid, Report)>,
    now: int)

  datatype Action =
    | Clock(time: int)
    | Act(event: D.Event, totalChecks: int)
    | DeliverMail(i: nat)
    | DeliverOrder(j: nat)
    | WorkerAct(pid: M.Pid, step: W.Event)

  /** Handlers read the clock: the times that events carry are the current time. */
  ghost predicate Timely(e: D.Event, now: int) {
    match e
    case Replied(_, _, _, t) => t == now
    case Ticked(t) => t == now
    case Heard(_, _, _) => false
    case _ => true
  }

  ghost predicate Possible(s: System, a: Action) {
    match a
    case Clock(time) => time >= s.now
    case Act(e, _) => D.Enabled(s.master, e) && Timely(e, s.now)
    case DeliverMail(i) => i < |s.mail|
    case DeliverOrder(j) => j < |s.orders|
    case WorkerAct(pid, e) =>
      pid in s.workers && W.Enabled(s.workers[pid], e) && !e.Payload? && (e.Result? ==> e.now == s.now)
  }

  function Orders(out: seq<M.Output>): seq<(M.Pid, seq<Site>)> {
    if out == [] then [] else (if out[0].QueueAdd? then [(out[0].pid, out[0].payload)] else []) + Orders(out[1..])
  }

  /** A report with the worker that sends it. */
  function From(pid: M.Pid, reports: seq<Report>): (r: seq<(M.Pid, Report)>)
    ensures |r| == |reports| && forall i :: 0 <= i < |r| ==> r[i] == (pid, reports[i])
  {
    seq(|reports|, i requires 0 <= i < |reports| => (pid, reports[i]))
  }

  /** What a worker's step reports. */
  ghost function Told(w: W.State, e: W.Event): seq<Report>
    requires e.Result? ==> e.index < |w.arrCheck|
  {
    match e
    case Result(index, rtt, code, errorCode, now, overMemory) =>
      W.ProcessResult(w, index, rtt, code, errorCode, now, overMemory).1
    case FirstAsk => W.AskFirst(w).1
    case _ => []
  }

  /** The master handles an event, and what it sends goes on its way. */
  ghost function Handle(s: System, e: D.Event): System
    requires D.Usable(s.master.config) && D.Enabled(s.master, e)
  {
    var t := D.Next(s.master, e);
    s.(master := t, orders := s.orders + if |s.master.out| <= |t.out| then Orders(D.Sent(s.master, t)) else [])
  }

  ghost function Next(s: System, wc: W.Config, a: Action): System
    requires D.Usable(s.master.config) && Possible(s, a)
    requires a.WorkerAct? && a.step.Result? ==> a.step.index < |s.workers[a.pid].arrCheck|
  {
    match a
    case Clock(time) => s.(now := time)
    case Act(e, totalChecks) =>
      var t := Handle(s, e);
      t.(workers := match e
                    case Spawned(pid) => t.workers[pid := W.Initial(wc, totalChecks)]
                    case Exited(pid) => t.workers - {pid}
                    case _ => t.workers)
    case DeliverMail(i) =>
      Handle(s.(mail := Without(s.mail, i)), D.Heard(s.mail[i].0, s.mail[i].1, s.now))
    case DeliverOrder(j) =>
      var t := s.(orders := Without(s.orders, j));
      var pid := s.orders[j].0;
      if pid in s.workers && s.workers[pid].exit == W.Alive
      then t.(workers := t.workers[pid := W.QueueAdd(s.workers[pid], s.orders[j].1)]) else t
    case WorkerAct(pid, e) =>
      s.(workers := s.workers[pid := W.Next(s.workers[pid], e)], mail := s.mail + From(pid, Told(s.workers[pid], e)))
  }

  // ------------------------------------------------------------------------------------------
  // The invariant

  /** The unprocessed sites of a worker may be checked now. */
  ghost predicate RestReady(w: W.State, config: M.Config, rows: seq<Row>, now: int) {
    forall i :: 0 <= i < |w.arrCheck| && !w.arrCheck[i].processed ==> Ready(w.arrCheck[i], config, rows, now)
  }

  ghost predicate WorkerOk(w: W.State, wc: W.Config, config: M.Config, rows: seq<Row>, now: int) {
    W.Healthy(w) && w.config == wc && RestReady(w, config, rows, now)
  }

  ghost predicate RetryOk(site: Site, config: M.Config, rows: seq<Row>) {
    Failed(site, config, rows) && |site.checks| < config.numOfChecks && !site.processed
  }

  ghost predicate OutputOk(o: M.Output, config: M.Config, rows: seq<Row>) {
    o.NotifyDown? ==> Confirmed(o.entry, config, rows)
  }

  ghost predicate OrderOk(order: (M.Pid, seq<Site>), config: M.Config, rows: seq<Row>, now: int) {
    order.1 != [] && D.AllOk(order.1, ReadyAt(config, rows, now))
  }

  ghost predicate MailOk(mail: (M.Pid, Report), config: M.Config, rows: seq<Row>) {
    mail.1.Recheck? ==> Failed(mail.1.site, config, rows)
  }

  ghost predicate EntriesOk(remote: seq<M.Entry>, config: M.Config, rows: seq<Row>) {
    forall i :: 0 <= i < |remote| ==> EntryOk(remote[i], config, rows)
  }

  ghost predicate MasterOk(m: M.State, rows: seq<Row>, now: int) {
    && D.Usable(m.config) && m.config.numOfChecks >= 1
    && D.Core(m, ReadyAt(m.config, rows, now)) && D.NoIdling(m)
    && (forall i :: 0 <= i < |m.local| ==> RetryOk(m.local[i], m.config, rows))
    && EntriesOk(m.remote, m.config, rows)
    && (forall i :: 0 <= i < |m.out| ==> OutputOk(m.out[i], m.config, rows))
  }

  /** The invariant, seen from a list of rows that contains all those fetched. */
  ghost predicate OkFor(s: System, wc: W.Config, rows: seq<Row>, now: int) {
    var config := s.master.config;
    && MasterOk(s.master, rows, now)
    && wc.numToProcess >= 1
    && (forall pid :: pid in s.workers ==> WorkerOk(s.workers[pid], wc, config, rows, now))
    && (forall j :: 0 <= j < |s.orders| ==> OrderOk(s.orders[j], config, rows, now))
    && (forall i :: 0 <= i < |s.mail| ==> MailOk(s.mail[i], config, rows))
  }

  ghost predicate Ok(s: System, wc: W.Config) { OkFor(s, wc, s.master.rows, s.now) }

  lemma ReadyMore(site: Site, config: M.Config, rows: seq<Row>, more: seq<Row>, now: int, later: int)
    requires Ready(site, config, rows, now) && now <= later
    ensures Ready(site, config, rows + more, later)
  {
    TrailMore(site, config, rows, more);
  }

  lemma AllReadyMore(sites: seq<Site>, config: M.Config, rows: seq<Row>, more: seq<Row>, now: int, later: int)
    requires D.AllOk(sites, ReadyAt(config, rows, now)) && now <= later
    ensures D.AllOk(sites, ReadyAt(config, rows + more, later))
  {
    forall i | 0 <= i < |sites| ensures ReadyAt(config, rows + more, later)(sites[i]) {
      assert ReadyAt(config, rows, now)(sites[i]);
      ReadyMore(sites[i], config, rows, more, now, later);
    }
  }

  lemma MasterMore(m: M.State, rows: seq<Row>, more: seq<Row>, now: int, later: int)
    requires MasterOk(m, rows, now) && now <= later
    ensures MasterOk(m, rows + more, later)
  {
    AllReadyMore(m.queue, m.config, rows, more, now, later);
    forall i | 0 <= i < |m.local| ensures RetryOk(m.local[i], m.config, rows + more) {
      TrailMore(m.local[i], m.config, rows, more);
    }
    forall i | 0 <= i < |m.remote| ensures EntryOk(m.remote[i], m.config, rows + more) {
      TrailMore(m.remote[i].origin, m.config, rows, more);
    }
    forall i | 0 <= i < |m.out| ensures OutputOk(m.out[i], m.config, rows + more) {
      assert OutputOk(m.out[i], m.config, rows);
      if m.out[i].NotifyDown? {
        TrailMore(m.out[i].entry.origin, m.config, rows, more);
      }
    }
  }

  /** Later, and with more rows fetched, everything is still in order. */
  lemma OkMore(s: System, wc: W.Config, rows: seq<Row>, more: seq<Row>, now: int, later: int)
    requires OkFor(s, wc, rows, now) && now <= later
    ensures OkFor(s, wc, rows + more, later)
  {
    var config := s.master.config;
    MasterMore(s.master, rows, more, now, later);
    forall pid | pid in s.workers ensures WorkerOk(s.workers[pid], wc, config, rows + more, later) {
      var w := s.workers[pid];
      forall i | 0 <= i < |w.arrCheck| && !w.arrCheck[i].processed
        ensures Ready(w.arrCheck[i], config, rows + more, later)
      {
        ReadyMore(w.arrCheck[i], config, rows, more, now, later);
      }
    }
    forall j | 0 <= j < |s.orders| ensures OrderOk(s.orders[j], config, rows + more, later) {
      assert OrderOk(s.orders[j], config, rows, now);
      AllReadyMore(s.orders[j].1, config, rows, more, now, later);
    }
    forall i | 0 <= i < |s.mail| ensures MailOk(s.mail[i], config, rows + more) {
      assert MailOk(s.mail[i], config, rows);
      if s.mail[i].1.Recheck? {
        TrailMore(s.mail[i].1.site, config, rows, more);
      }
    }
  }

  // ------------------------------------------------------------------------------------------
  // The master's part

  /** What the surroundings bring to the master. */
  ghost predicate Supplied(m: M.State, e: D.Event, rows: seq<Row>, now: int) {
    match e
    case RowsArrived(more) => D.AllOk(M.FromRows(more), ReadyAt(m.config, rows, now))
    case Heard(_, report, _) => report.Recheck? ==> Failed(report.site, m.config, rows)
    case Ticked(t) => t == now
    case _ => true
  }

  lemma MasterBrings(m: M.State, e: D.Event, rows: seq<Row>, now: int)
    requires MasterOk(m, rows, now) && Supplied(m, e, rows, now)
    ensures D.Brings(m, e, ReadyAt(m.config, rows, now))
  {
    if e.Ticked? {
      forall i | 0 <= i < |m.local| && M.IsDue(m.local[i], m.config, now)
        ensures ReadyAt(m.config, rows, now)(m.local[i])
      {
        assert RetryOk(m.local[i], m.config, rows);
      }
    }
  }

  lemma MasterLocal(m: M.State, e: D.Event, rows: seq<Row>, now: int)
    requires MasterOk(m, rows, now) && Supplied(m, e, rows, now) && D.Enabled(m, e)
    ensures var t := D.Next(m, e);
      forall i :: 0 <= i < |t.local| ==> RetryOk(t.local[i], m.config, rows)
  {
    var t := D.Next(m, e);
    D.NextFrame(m, e);
    if e.Ticked? {
      D.DueMembers(m.local, m.config, e.now);
      forall i | 0 <= i < |t.local| ensures RetryOk(t.local[i], m.config, rows) {
        assert t.local[i] in t.local && t.local[i] in m.local;
      }
    } else if e.Heard? && e.report.Recheck? && |e.report.site.checks| < m.config.numOfChecks {
      AddLocalOk(m, e.report.site, rows);
    }
  }

  lemma AddLocalOk(m: M.State, site: Site, rows: seq<Row>)
    requires forall i :: 0 <= i < |m.local| ==> RetryOk(m.local[i], m.config, rows)
    requires Failed(site, m.config, rows) && |site.checks| < m.config.numOfChecks
    ensures forall i :: 0 <= i < |M.AddLocal(m, site).local| ==> RetryOk(M.AddLocal(m, site).local[i], m.config, rows)
  {
    var retry := site.(processed := false);
    assert FetchedAs(rows, retry);
    assert RetryOk(retry, m.config, rows);
  }

  lemma NoteOk(e: M.Entry, reply: CheckRecord, config: M.Config, rows: seq<Row>, now: int)
    requires EntryOk(e, config, rows) && reply.Remote?
    ensures var f := M.Note(e, reply, config.peerOfflineLimit, now);
      && EntryOk(f, config, rows)
      && (reply.offline && f.offlineConfirms >= config.peerOfflineLimit ==> Confirmed(f, config, rows))
  {
    var f := M.Note(e, reply, config.peerOfflineLimit, now);
    assert f.checks[..|f.checks| - 1] == e.checks;
    assert f.checks[..config.numOfChecks] == e.checks[..config.numOfChecks];
  }

  lemma MasterRemote(m: M.State, e: D.Event, rows: seq<Row>, now: int)
    requires MasterOk(m, rows, now) && Supplied(m, e, rows, now) && D.Enabled(m, e)
    ensures EntriesOk(D.Next(m, e).remote, m.config, rows)
  {
    D.NextFrame(m, e);
    if e.Ticked? {
      KeptOk(m.remote, m.config, rows, e.now);
    } else if e.Replied? {
      ReplyOk(m, e.blogId, e.url, e.reply, rows, e.now);
    } else if e.Heard? && e.report.Recheck? && |e.report.site.checks| >= m.config.numOfChecks {
      AskOk(m, e.report.site, rows, e.now);
    }
  }

  lemma KeptOk(remote: seq<M.Entry>, config: M.Config, rows: seq<Row>, now: int)
    requires EntriesOk(remote, config, rows)
    ensures EntriesOk(M.Kept(remote, config, now), config, rows)
  {
    var kept := M.Kept(remote, config, now);
    forall k | 0 <= k < |kept| ensures EntryOk(kept[k], config, rows) {
      var i := C.KeptFrom(remote, config, now, k);
      assert EntryOk(remote[i], config, rows);
    }
  }

  lemma ReplyOk(m: M.State, blogId: int, url: string, reply: CheckRecord, rows: seq<Row>, now: int)
    requires EntriesOk(m.remote, m.config, rows) && reply.Remote?
    ensures EntriesOk(M.Reply(m, blogId, url, reply, now).remote, m.config, rows)
  {
    var i := M.EntryFor(m.remote, blogId, url);
    if i < |m.remote| {
      NoteOk(m.remote[i], reply, m.config, rows, now);
    }
  }

  /** A site with its full local history becomes an entry. */
  lemma AskOk(m: M.State, site: Site, rows: seq<Row>, now: int)
    requires EntriesOk(m.remote, m.config, rows) && m.config.numOfChecks >= 1
    requires Failed(site, m.config, rows) && |site.checks| >= m.config.numOfChecks
    ensures EntriesOk(M.AskVerifliers(m, site, now).remote, m.config, rows)
  {
    C.NoRemoteCounts(site.checks);
    assert site.checks[..m.config.numOfChecks] == site.checks;
  }

  lemma MasterOut(m: M.State, e: D.Event, rows: seq<Row>, now: int)
    requires MasterOk(m, rows, now) && Supplied(m, e, rows, now) && D.Enabled(m, e)
    requires m.out <= D.Next(m, e).out
    ensures var t := D.Next(m, e);
      forall i :: 0 <= i < |t.out| ==> OutputOk(t.out[i], m.config, rows)
  {
    var t := D.Next(m, e);
    forall i | |m.out| <= i < |t.out| ensures OutputOk(t.out[i], m.config, rows) {
      if e.Replied? {
        NoteOk(m.remote[M.EntryFor(m.remote, e.blogId, e.url)], e.reply, m.config, rows, e.now);
      } else if e.Ticked? {
        TickNotifiesNobody(m, e.now, i);
      } else if e.Heard? && e.report.Recheck? && |e.report.site.checks| >= m.config.numOfChecks {
      } else {
        C.OtherEventsQuiet(m, e);
        assert C.Silent(t.out[i]);
      }
    }
    forall i | 0 <= i < |m.out| ensures OutputOk(t.out[i], m.config, rows) {
      assert OutputOk(m.out[i], m.config, rows);
    }
  }

  lemma TickNotifiesNobody(m: M.State, now: int, i: nat)
    requires D.Usable(m.config) && |m.out| <= i < |M.Tick(m, now).out|
    ensures !M.Tick(m, now).out[i].NotifyDown?
  {
    var r := M.RemoteTick(m, now);
    D.PostsOnlyToPeers(M.Batches(Reverse(M.NewEntries(m.remote, m.config)), m.config.batchSize), m.config.peers);
    C.LocalTickQuiet(r, now);
    if i >= |r.out| {
      assert C.Silent(M.Tick(m, now).out[i]);
    } else {
      assert M.Tick(m, now).out[i] == r.out[i];
    }
  }

  lemma MasterStepOk(m: M.State, e: D.Event, rows: seq<Row>, now: int)
    requires MasterOk(m, rows, now) && Supplied(m, e, rows, now) && D.Enabled(m, e)
    ensures MasterOk(D.Next(m, e), rows, now)
    ensures D.Next(m, e).config == m.config && m.out <= D.Next(m, e).out
    ensures forall j :: 0 <= j < |Orders(D.Sent(m, D.Next(m, e)))| ==>
              OrderOk(Orders(D.Sent(m, D.Next(m, e)))[j], m.config, rows, now)
  {
    MasterBrings(m, e, rows, now);
    D.NextKeeps(m, e, ReadyAt(m.config, rows, now));
    D.NextFrame(m, e);
    MasterLocal(m, e, rows, now);
    MasterRemote(m, e, rows, now);
    MasterOut(m, e, rows, now);
    SentOk(m, D.Next(m, e), m.config, rows, now);
  }

  lemma SentOk(m: M.State, t: M.State, config: M.Config, rows: seq<Row>, now: int)
    requires D.Extends(m, t, ReadyAt(config, rows, now))
    ensures forall j :: 0 <= j < |Orders(D.Sent(m, t))| ==> OrderOk(Orders(D.Sent(m, t))[j], config, rows, now)
  {
    var sent := D.Sent(m, t);
    forall k | 0 <= k < |sent| && sent[k].QueueAdd? ensures OrderOk((sent[k].pid, sent[k].payload), config, rows, now) {
      assert sent[k] == t.out[|m.out| + k];
      assert D.GoodOrder(m, t.out[|m.out| + k], ReadyAt(config, rows, now));
    }
    OrdersOk(sent, config, rows, now);
  }

  lemma {:induction false} OrdersOk(out: seq<M.Output>, config: M.Config, rows: seq<Row>, now: int)
    requires forall k :: 0 <= k < |out| && out[k].QueueAdd? ==> OrderOk((out[k].pid, out[k].payload), config, rows, now)
    ensures forall j :: 0 <= j < |Orders(out)| ==> OrderOk(Orders(out)[j], config, rows, now)
  {
    if out != [] {
      forall k | 0 <= k < |out[1..]| && out[1..][k].QueueAdd?
        ensures OrderOk((out[1..][k].pid, out[1..][k].payload), config, rows, now)
      {
        assert out[1..][k] == out[k + 1];
      }
      OrdersOk(out[1..], config, rows, now);
    }
  }

  // ------------------------------------------------------------------------------------------
  // The workers' part

  lemma GoodPayload(order: (M.Pid, seq<Site>), config: M.Config, rows: seq<Row>, now: int)
    requires OrderOk(order, config, rows, now)
    ensures W.GoodPayload(order.1)
    ensures forall i :: 0 <= i < |order.1| ==> Ready(order.1[i], config, rows, now)
  {
    forall i | 0 <= i < |order.1| ensures Ready(order.1[i], config, rows, now) {
      assert ReadyAt(config, rows, now)(order.1[i]);
    }
  }

  lemma QueueAddOk(w: W.State, wc: W.Config, order: (M.Pid, seq<Site>), config: M.Config, rows: seq<Row>, now: int)
    requires WorkerOk(w, wc, config, rows, now) && w.exit == W.Alive && OrderOk(order, config, rows, now)
    ensures WorkerOk(W.QueueAdd(w, order.1), wc, config, rows, now)
  {
    GoodPayload(order, config, rows, now);
    W.QueueAddHealthy(w, order.1);
  }

  lemma TakeReady(w: W.State, e: W.Event, config: M.Config, rows: seq<Row>, now: int)
    requires RestReady(w, config, rows, now) && e.Result? && e.index < |w.arrCheck|
    ensures RestReady(W.Take(w, e.index, e.rtt, e.code, e.errorCode, e.now), config, rows, now)
  {
    var a := W.Take(w, e.index, e.rtt, e.code, e.errorCode, e.now);
    forall i | 0 <= i < |a.arrCheck| && !a.arrCheck[i].processed ensures Ready(a.arrCheck[i], config, rows, now) {
      assert a.arrCheck[i] == w.arrCheck[i];
    }
  }

  /** A callback: the checked site is processed, the others stand, and a recheck has one more failure on record. */
  lemma ResultOk(w: W.State, wc: W.Config, e: W.Event, config: M.Config, rows: seq<Row>, now: int)
    requires WorkerOk(w, wc, config, rows, now) && e.Result? && W.Enabled(w, e) && e.now == now
    ensures RestReady(W.Next(w, e), config, rows, now)
    ensures forall k :: 0 <= k < |Told(w, e)| && Told(w, e)[k].Recheck? ==> Failed(Told(w, e)[k].site, config, rows)
  {
    var a := W.Take(w, e.index, e.rtt, e.code, e.errorCode, e.now);
    TakeReady(w, e, config, rows, now);
    ReportOk(w, e, config, rows, now);
    if a.pointer >= |a.arrCheck| {
      AtEndQuiet(a, e.overMemory);
    }
  }

  lemma ReportOk(w: W.State, e: W.Event, config: M.Config, rows: seq<Row>, now: int)
    requires RestReady(w, config, rows, now) && e.Result? && e.index < |w.arrCheck| && !w.arrCheck[e.index].processed
    requires e.now == now
    ensures var s := W.Take(w, e.index, e.rtt, e.code, e.errorCode, e.now).arrCheck[e.index];
      forall k :: 0 <= k < |W.ReportsOn(s)| && W.ReportsOn(s)[k].Recheck? ==>
        Failed(W.ReportsOn(s)[k].site, config, rows)
  {
    RecordFailed(w.config, w.arrCheck[e.index], config, rows, now, e.rtt, e.code, e.errorCode, now);
  }

  lemma AtEndQuiet(w: W.State, overMemory: bool)
    ensures var (v, reports) := W.AtEnd(w, overMemory);
      (v.arrCheck == w.arrCheck || v.arrCheck == []) && forall k :: 0 <= k < |reports| ==> !reports[k].Recheck?
  {
  }

  lemma WorkerStepOk(w: W.State, wc: W.Config, e: W.Event, config: M.Config, rows: seq<Row>, now: int)
    requires WorkerOk(w, wc, config, rows, now) && wc.numToProcess >= 1
    requires W.Enabled(w, e) && !e.Payload? && (e.Result? ==> e.now == now)
    ensures WorkerOk(W.Next(w, e), wc, config, rows, now)
    ensures forall k :: 0 <= k < |Told(w, e)| && Told(w, e)[k].Recheck? ==> Failed(Told(w, e)[k].site, config, rows)
  {
    W.NextHealthy(w, e);
    W.NextFrame(w, e);
    if e.Result? {
      ResultOk(w, wc, e, config, rows, now);
    }
  }

  // ------------------------------------------------------------------------------------------
  // Every action, every run

  lemma HandleOk(s: System, wc: W.Config, e: D.Event, rows: seq<Row>)
    requires OkFor(s, wc, rows, s.now) && D.Enabled(s.master, e) && Supplied(s.master, e, rows, s.now)
    ensures OkFor(Handle(s, e), wc, rows, s.now)
  {
    MasterStepOk(s.master, e, rows, s.now);
  }

  lemma FetchedRowsReady(config: M.Config, old_: seq<Row>, more: seq<Row>, now: int)
    requires config.numOfChecks >= 1
    ensures D.AllOk(M.FromRows(more), ReadyAt(config, old_ + more, now))
  {
    forall i | 0 <= i < |more| ensures ReadyAt(config, old_ + more, now)(M.FromRows(more)[i]) {
      assert (old_ + more)[|old_| + i] == more[i];
      RowReady(old_ + more, |old_| + i, config, now);
    }
  }

  /** The rows known after an action. */
  ghost function RowsAfter(s: System, a: Action): seq<Row> {
    if a.Act? && a.event.RowsArrived? then s.master.rows + a.event.rows else s.master.rows + []
  }

  lemma ActOk(s: System, wc: W.Config, a: Action)
    requires Ok(s, wc) && Possible(s, a) && a.Act?
    ensures Ok(Next(s, wc, a), wc)
  {
    var rows := RowsAfter(s, a);
    var more := if a.event.RowsArrived? then a.event.rows else [];
    OkMore(s, wc, s.master.rows, more, s.now, s.now);
    FetchedRowsReady(s.master.config, s.master.rows, more, s.now);
    HandleOk(s, wc, a.event, rows);
    D.NextFrame(s.master, a.event);
    assert s.master.rows + [] == s.master.rows;
    var t := Handle(s, a.event);
    assert OkFor(t, wc, t.master.rows, s.now);
    if a.event.Spawned? {
      W.InitialHealthy(wc, a.totalChecks);
    }
  }

  lemma DeliverMailOk(s: System, wc: W.Config, i: nat)
    requires Ok(s, wc) && i < |s.mail|
    ensures Ok(Next(s, wc, DeliverMail(i)), wc)
  {
    var t := s.(mail := Without(s.mail, i));
    var e := D.Heard(s.mail[i].0, s.mail[i].1, s.now);
    assert MailOk(s.mail[i], s.master.config, s.master.rows);
    HandleOk(t, wc, e, s.master.rows);
    D.NextFrame(s.master, e);
  }

  lemma DeliverOrderOk(s: System, wc: W.Config, j: nat)
    requires Ok(s, wc) && j < |s.orders|
    ensures Ok(Next(s, wc, DeliverOrder(j)), wc)
  {
    var pid := s.orders[j].0;
    if pid in s.workers && s.workers[pid].exit == W.Alive {
      QueueAddOk(s.workers[pid], wc, s.orders[j], s.master.config, s.master.rows, s.now);
    }
  }

  lemma WorkerActOk(s: System, wc: W.Config, a: Action)
    requires Ok(s, wc) && Possible(s, a) && a.WorkerAct?
    ensures Ok(Next(s, wc, a), wc)
  {
    WorkerStepOk(s.workers[a.pid], wc, a.step, s.master.config, s.master.rows, s.now);
  }

  lemma NextOk(s: System, wc: W.Config, a: Action)
    requires Ok(s, wc) && Possible(s, a)
    ensures Ok(Next(s, wc, a), wc)
  {
    match a
    case Clock(time) =>
      OkMore(s, wc, s.master.rows, [], s.now, time);
      assert s.master.rows + [] == s.master.rows;
    case Act(_, _) => ActOk(s, wc, a);
    case DeliverMail(i) => DeliverMailOk(s, wc, i);
    case DeliverOrder(j) => DeliverOrderOk(s, wc, j);
    case WorkerAct(_, _) => WorkerActOk(s, wc, a);
  }

  ghost function Step(s: System, wc: W.Config, a: Action): (t: System)
    requires Ok(s, wc) && Possible(s, a)
    ensures Ok(t, wc)
  {
    NextOk(s, wc, a);
    Next(s, wc, a)
  }

  ghost predicate IsRun(s: System, wc: W.Config, actions: seq<Action>)
    requires Ok(s, wc)
    decreases |actions|
  {
    actions == [] || (Possible(s, actions[0]) && IsRun(Step(s, wc, actions[0]), wc, actions[1..]))
  }

  ghost function Run(s: System, wc: W.Config, actions: seq<Action>): (t: System)
    requires Ok(s, wc) && IsRun(s, wc, actions)
    ensures Ok(t, wc)
    decreases |actions|
  {
    if actions == [] then s else Run(Step(s, wc, actions[0]), wc, actions[1..])
  }

  lemma {:induction false} RunConfig(s: System, wc: W.Config, actions: seq<Action>)
    requires Ok(s, wc) && IsRun(s, wc, actions)
    ensures Run(s, wc, actions).master.config == s.master.config
    decreases |actions|
  {
    if actions != [] {
      var a := actions[0];
      if a.Act? {
        D.NextFrame(s.master, a.event);
      } else if a.DeliverMail? {
        D.NextFrame(s.master, D.Heard(s.mail[a.i].0, s.mail[a.i].1, s.now));
      }
      RunConfig(Step(s, wc, a), wc, actions[1..]);
    }
  }

  function Boot(config: M.Config, now: int): System {
    System(M.Initial(config), map[], [], [], now)
  }

  lemma BootOk(config: M.Config, wc: W.Config, now: int)
    requires D.Usable(config) && config.numOfChecks >= 1 && wc.numToProcess >= 1
    ensures Ok(Boot(config, now), wc)
  {
  }

  /**
   Two-stage confirmation: in every run, every down notification raised by veriflier replies is for a
   site fetched as running, carries exactly numOfChecks local results, all failed and each at least
   timeBetweenChecks after the one before, and follows at least peerOfflineLimit offline replies.
   */
  lemma DownMeansConfirmed(config: M.Config, wc: W.Config, start: int, actions: seq<Action>, i: nat)
    requires D.Usable(config) && config.numOfChecks >= 1 && wc.numToProcess >= 1
    requires Ok(Boot(config, start), wc) && IsRun(Boot(config, start), wc, actions)
    requires var m := Run(Boot(config, start), wc, actions).master; i < |m.out| && m.out[i].NotifyDown?
    ensures var m := Run(Boot(config, start), wc, actions).master; var e := m.out[i].entry; var n := config.numOfChecks;
      && (exists r :: 0 <= r < |m.rows| && m.rows[r].blogId == e.blogId && m.rows[r].url == e.url
                   && m.rows[r].status == Running && m.rows[r].lastStatusChange == e.lastStatusChange)
      && e.siteStatus == Down
      && n <= |e.checks|
      && (forall k :: 0 <= k < n ==> e.checks[k].Local? && e.checks[k].status == Down)
      && e.lastCheck == e.checks[n - 1].at
      && (forall k :: 0 < k < n ==> e.checks[k].at >= e.checks[k - 1].at + config.timeBetweenChecks)
      && (forall k :: n <= k < |e.checks| ==> e.checks[k].Remote?)
      && C.Offline(e.checks) >= config.peerOfflineLimit
  {
    var m := Run(Boot(config, start), wc, actions).master;
    var e := m.out[i].entry;
    RunConfig(Boot(config, start), wc, actions);
    assert OutputOk(m.out[i], m.config, m.rows);
    var r :| 0 <= r < |m.rows| && IsOf(m.rows[r], e.origin);
    assert forall k :: 0 <= k < m.config.numOfChecks ==> e.checks[k] == e.checks[..m.config.numOfChecks][k];
  }

  /** In every run, a worker that runs and whose start timer has fired has a check outstanding. */
  lemma NoWorkerStalls(config: M.Config, wc: W.Config, start: int, actions: seq<Action>, pid: M.Pid)
    requires D.Usable(config) && config.numOfChecks >= 1 && wc.numToProcess >= 1
    requires Ok(Boot(config, start), wc) && IsRun(Boot(config, start), wc, actions)
    requires pid in Run(Boot(config, start), wc, actions).workers
    ensures var w := Run(Boot(config, start), wc, actions).workers[pid];
      && (w.running && !w.timer && w.exit == W.Alive ==> w.outstanding != {})
      && |w.outstanding| <= wc.numToProcess
      && w.started <= w.queued
  {
    var w := Run(Boot(config, start), wc, actions).workers[pid];
    assert WorkerOk(w, wc, Run(Boot(config, start), wc, actions).master.config,
                    Run(Boot(config, start), wc, actions).master.rows, Run(Boot(config, start), wc, actions).now);
    assert w.queued == w.started + W.Ids(W.Waiting(w));
  }
}
