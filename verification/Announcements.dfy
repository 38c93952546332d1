/**
 What the master announces on a worker's word, over every run of the whole system: each announcement is
 true of a check that was made, and each check that changes a site's status for the better, or confirms
 that it is down, is announced once.
 */
module Announcements {
  import opened Seqs
  import opened Sites
  import opened Pipeline
  import M = Master
  import W = Worker
  import D = Dispatcher
  import V = Window

  type Id = (int, string)

  // ------------------------------------------------------------------------------------------
  // The handler

  /** A change of status is announced once, as it was reported, and nothing else happens. */
  lemma StatusChangeAnnounced(m: M.State, pid: M.Pid, site: Site, now: int)
    requires m.config.datasetSize >= 1
    ensures M.Hear(m, pid, StatusChange(site), now) == m.(out := m.out + [M.Notify(site)])
  {
  }

  /** A site that is still down is announced once, as confirmed down and otherwise as it was reported. */
  lemma StillDownAnnounced(m: M.State, pid: M.Pid, site: Site, now: int) returns (f: Site)
    requires m.config.datasetSize >= 1
    ensures f.siteStatus == ConfirmedDown && f.(siteStatus := site.siteStatus) == site
    ensures M.Hear(m, pid, StillDown(site), now) == m.(out := m.out + [M.Notify(f)])
  {
    f := site.(siteStatus := ConfirmedDown);
  }

  /** The site of an announcement that a report brings about. */
  ghost predicate Announces(report: Report, site: Site) {
    || report == StatusChange(site)
    || (report.StillDown? && site.siteStatus == ConfirmedDown
        && site.(siteStatus := report.site.siteStatus) == report.site)
  }

  // ------------------------------------------------------------------------------------------
  // What other events of the master send

  ghost predicate NoNews(a: seq<M.Output>, b: seq<M.Output>) {
    a <= b && forall i :: |a| <= i < |b| ==> !b[i].Notify?
  }

  lemma {:induction false} RedistributeNoNews(m: M.State, pids: seq<M.Pid>)
    requires m.config.datasetSize >= 1
    ensures NoNews(m.out, M.Redistribute(m, pids).out)
    decreases |pids|
  {
    if pids != [] {
      RedistributeNoNews(if pids[0] in m.workers then M.GiveWork(m, pids[0]) else m, pids[1..]);
    }
  }

  lemma TickNoNews(m: M.State, now: int)
    requires D.Usable(m.config)
    ensures NoNews(m.out, M.Tick(m, now).out)
  {
    var r := M.RemoteTick(m, now);
    D.PostsOnlyToPeers(M.Batches(Reverse(M.NewEntries(m.remote, m.config)), m.config.batchSize), m.config.peers);
    assert NoNews(m.out, r.out);
    var d := M.Dispatch(r, now);
    assert NoNews(r.out, d.out);
    RedistributeNoNews(d.(free := []), d.free);
  }

  lemma RowsNoNews(m: M.State, rows: seq<Row>)
    requires m.config.datasetSize >= 1
    ensures NoNews(m.out, M.RowsArrive(m, rows).out)
  {
    if rows != [] {
      var b := m.(queries := m.queries - 1, rows := m.rows + rows, queue := m.queue + M.FromRows(rows),
                  pushed := m.pushed + M.FromRows(rows), gettingSites := false);
      RedistributeNoNews(b.(free := []), b.free);
    }
  }

  ghost predicate BringsNews(e: D.Event) { e.Heard? && (e.report.StatusChange? || e.report.StillDown?) }

  lemma OthersNoNews(m: M.State, e: D.Event)
    requires D.Usable(m.config) && D.Enabled(m, e) && !BringsNews(e)
    ensures NoNews(m.out, D.Next(m, e).out)
  {
    match e
    case RowsArrived(rows) => RowsNoNews(m, rows);
    case Ticked(now) => TickNoNews(m, now);
    case _ =>
  }

  lemma NewsAnnounced(m: M.State, e: D.Event) returns (site: Site)
    requires D.Usable(m.config) && D.Enabled(m, e) && BringsNews(e)
    ensures Announces(e.report, site) && D.Next(m, e) == m.(out := m.out + [M.Notify(site)])
  {
    if e.report.StatusChange? {
      site := e.report.site;
    } else {
      site := StillDownAnnounced(m, e.pid, e.report.site, e.now);
    }
  }

  // ------------------------------------------------------------------------------------------
  // Every announcement is true

  /** The callback has left its result in the site's record. */
  ghost predicate Recorded(e: W.Event, site: Site) {
    && e.Result? && site.processed && site.lastCheck == e.now && site.checks != []
    && var last := site.checks[|site.checks| - 1];
       && last.Local? && last.status == site.siteStatus
       && last.code == e.code && last.errorCode == e.errorCode && last.at == e.now
       && 1000 * last.rtt - 500 <= e.rtt < 1000 * last.rtt + 500
  }

  /** The result of a check that counts as up. */
  predicate Answers(e: W.Event) { e.Result? && e.rtt > 0 && e.code < 400 && e.code != 0 }

  /** A site that was not running is announced as running, after a check that counts as up. */
  ghost predicate UpAgain(e: W.Event, site: Site) {
    Recorded(e, site) && Answers(e) && site.siteStatus == Running && site.oldStatus != Running
  }

  /** A site that was down is announced as confirmed down, after a check that failed, long enough after it went down. */
  ghost predicate DownForLong(e: W.Event, site: Site, wc: W.Config) {
    && Recorded(e, site) && !Answers(e) && site.siteStatus == ConfirmedDown && site.oldStatus == Down
    && e.now >= site.lastStatusChange + wc.timeBetweenNotices
  }

  /** What is said about the site is true of one of these results, and the site was fetched with its old status. */
  ghost predicate TrueNews(site: Site, wc: W.Config, rows: seq<Row>, past: seq<W.Event>) {
    && FetchedAs(rows, site)
    && exists k :: 0 <= k < |past| && (UpAgain(past[k], site) || DownForLong(past[k], site, wc))
  }

  ghost predicate TrueReport(report: Report, wc: W.Config, rows: seq<Row>, past: seq<W.Event>) {
    && (report.StatusChange? ==> TrueNews(report.site, wc, rows, past))
    && (report.StillDown? ==> TrueNews(report.site, wc, rows, past) && report.site.siteStatus == ConfirmedDown)
  }

  ghost predicate TrueOutput(o: M.Output, wc: W.Config, rows: seq<Row>, past: seq<W.Event>) {
    o.Notify? ==> TrueNews(o.site, wc, rows, past)
  }

  ghost predicate Truthful(s: System, wc: W.Config, rows: seq<Row>, past: seq<W.Event>) {
    && (forall i :: 0 <= i < |s.mail| ==> TrueReport(s.mail[i].1, wc, rows, past))
    && (forall i :: 0 <= i < |s.master.out| ==> TrueOutput(s.master.out[i], wc, rows, past))
  }

  lemma TrueMore(site: Site, wc: W.Config, rows: seq<Row>, past: seq<W.Event>, more: seq<Row>, later: seq<W.Event>)
    requires TrueNews(site, wc, rows, past)
    ensures TrueNews(site, wc, rows + more, past + later)
  {
    var i :| 0 <= i < |rows| && IsOf(rows[i], site);
    assert IsOf((rows + more)[i], site);
    var k :| 0 <= k < |past| && (UpAgain(past[k], site) || DownForLong(past[k], site, wc));
    assert (past + later)[k] == past[k];
  }

  lemma TruthfulMore(s: System, wc: W.Config, rows: seq<Row>, past: seq<W.Event>, more: seq<Row>, later: seq<W.Event>)
    requires Truthful(s, wc, rows, past)
    ensures Truthful(s, wc, rows + more, past + later)
  {
    forall i | 0 <= i < |s.mail| ensures TrueReport(s.mail[i].1, wc, rows + more, past + later) {
      assert TrueReport(s.mail[i].1, wc, rows, past);
      if s.mail[i].1.StatusChange? || s.mail[i].1.StillDown? {
        TrueMore(s.mail[i].1.site, wc, rows, past, more, later);
      }
    }
    forall i | 0 <= i < |s.master.out| ensures TrueOutput(s.master.out[i], wc, rows + more, past + later) {
      assert TrueOutput(s.master.out[i], wc, rows, past);
      if s.master.out[i].Notify? {
        TrueMore(s.master.out[i].site, wc, rows, past, more, later);
      }
    }
  }

  /** The results that an action brings. */
  function ResultsOf(a: Action): seq<W.Event> {
    if a.WorkerAct? && a.step.Result? then [a.step] else []
  }

  /** A callback's report is true of its result. */
  lemma VerdictTrue(w: W.State, wc: W.Config, e: W.Event, config: M.Config, rows: seq<Row>, now: int,
                    past: seq<W.Event>)
    requires WorkerOk(w, wc, config, rows, now) && e.Result? && W.Enabled(w, e)
    requires past != [] && past[|past| - 1] == e
    ensures var s := W.Record(wc, w.arrCheck[e.index], e.rtt, e.code, e.errorCode, e.now);
      forall k :: 0 <= k < |W.ReportsOn(s)| ==> TrueReport(W.ReportsOn(s)[k], wc, rows, past)
  {
    var site := w.arrCheck[e.index];
    var s := W.Record(wc, site, e.rtt, e.code, e.errorCode, e.now);
    V.RecordTable(wc, site, e.rtt, e.code, e.errorCode, e.now);
    assert Ready(site, config, rows, now);
    var i :| 0 <= i < |rows| && IsOf(rows[i], site);
    assert IsOf(rows[i], s);
    if s.siteStatus != s.oldStatus {
      var ms :| 1000 * ms - 500 <= e.rtt < 1000 * ms + 500
                && s.checks == site.checks + [Local(s.siteStatus, ms, e.code, e.errorCode, e.now)];
      assert Recorded(past[|past| - 1], s);
    }
  }

  lemma ToldTrue(w: W.State, wc: W.Config, e: W.Event, config: M.Config, rows: seq<Row>, now: int, past: seq<W.Event>)
    requires WorkerOk(w, wc, config, rows, now) && W.Enabled(w, e) && !e.Payload?
    requires e.Result? ==> past != [] && past[|past| - 1] == e
    ensures forall k :: 0 <= k < |Told(w, e)| ==> TrueReport(Told(w, e)[k], wc, rows, past)
  {
    if e.Result? {
      var s := W.Record(w.config, w.arrCheck[e.index], e.rtt, e.code, e.errorCode, e.now);
      V.VerdictTold(w, e);
      VerdictTrue(w, wc, e, config, rows, now, past);
      var told, n := Told(w, e), |W.ReportsOn(s)|;
      forall k | 0 <= k < |told| ensures TrueReport(told[k], wc, rows, past) {
        if k < n {
          assert told[k] == told[..n][k];
        } else {
          assert told[k] == told[n..][k - n];
        }
      }
    }
  }

  lemma HandleTruthful(s: System, wc: W.Config, e: D.Event, rows: seq<Row>, past: seq<W.Event>)
    requires D.Usable(s.master.config) && D.Enabled(s.master, e) && Truthful(s, wc, rows, past)
    requires e.Heard? ==> TrueReport(e.report, wc, rows, past)
    ensures Truthful(Handle(s, e), wc, rows, past)
  {
    var t := D.Next(s.master, e);
    if BringsNews(e) {
      var site := NewsAnnounced(s.master, e);
      assert TrueNews(e.report.site, wc, rows, past) && site == e.report.site;
      forall i | 0 <= i < |t.out| ensures TrueOutput(t.out[i], wc, rows, past) {
        if i < |s.master.out| { assert TrueOutput(s.master.out[i], wc, rows, past); }
      }
    } else {
      OthersNoNews(s.master, e);
      forall i | 0 <= i < |t.out| ensures TrueOutput(t.out[i], wc, rows, past) {
        if i < |s.master.out| { assert TrueOutput(s.master.out[i], wc, rows, past) && t.out[i] == s.master.out[i]; }
      }
    }
  }

  lemma WorkerActTruthful(s: System, wc: W.Config, a: Action, past: seq<W.Event>)
    requires Ok(s, wc) && Possible(s, a) && a.WorkerAct? && Truthful(s, wc, s.master.rows, past)
    ensures Truthful(Next(s, wc, a), wc, s.master.rows, past + ResultsOf(a))
  {
    var rows, all := s.master.rows, past + ResultsOf(a);
    var w, t := s.workers[a.pid], Next(s, wc, a);
    TruthfulMore(s, wc, rows, past, [], ResultsOf(a));
    assert rows + [] == rows;
    ToldTrue(w, wc, a.step, s.master.config, rows, s.now, all);
    MailTruthful(s, t, a.pid, Told(w, a.step), wc, rows, all);
  }

  lemma MailTruthful(s: System, t: System, pid: M.Pid, told: seq<Report>, wc: W.Config, rows: seq<Row>,
                     past: seq<W.Event>)
    requires Truthful(s, wc, rows, past) && t.master == s.master && t.mail == s.mail + From(pid, told)
    requires forall k :: 0 <= k < |told| ==> TrueReport(told[k], wc, rows, past)
    ensures Truthful(t, wc, rows, past)
  {
    forall i | 0 <= i < |t.mail| ensures TrueReport(t.mail[i].1, wc, rows, past) {
      if i < |s.mail| {
        assert TrueReport(s.mail[i].1, wc, rows, past);
      } else {
        assert t.mail[i] == (pid, told[i - |s.mail|]);
      }
    }
  }

  lemma ActionTruthful(s: System, wc: W.Config, a: Action, past: seq<W.Event>)
    requires Ok(s, wc) && Possible(s, a) && Truthful(s, wc, s.master.rows, past)
    ensures Truthful(Step(s, wc, a), wc, Step(s, wc, a).master.rows, past + ResultsOf(a))
  {
    assert past + [] == past && s.master.rows + [] == s.master.rows;
    match a
    case WorkerAct(_, _) => WorkerActTruthful(s, wc, a, past);
    case Act(e, _) =>
      var more := if e.RowsArrived? then e.rows else [];
      TruthfulMore(s, wc, s.master.rows, past, more, []);
      HandleTruthful(s, wc, e, s.master.rows + more, past);
      D.NextFrame(s.master, e);
    case DeliverMail(i) => DeliverTruthful(s, wc, i, past);
    case _ =>
  }

  lemma DeliverTruthful(s: System, wc: W.Config, i: nat, past: seq<W.Event>)
    requires Ok(s, wc) && i < |s.mail| && Truthful(s, wc, s.master.rows, past)
    ensures Truthful(Next(s, wc, DeliverMail(i)), wc, Next(s, wc, DeliverMail(i)).master.rows, past)
  {
    var e := D.Heard(s.mail[i].0, s.mail[i].1, s.now);
    var u := s.(mail := Without(s.mail, i));
    assert TrueReport(s.mail[i].1, wc, s.master.rows, past);
    HandleTruthful(u, wc, e, s.master.rows, past);
    D.NextFrame(s.master, e);
  }

  /** The results of a run, in order. */
  function AllResults(actions: seq<Action>): seq<W.Event> {
    if actions == [] then [] else ResultsOf(actions[0]) + AllResults(actions[1..])
  }

  lemma EventsJoin(a: seq<W.Event>, b: seq<W.Event>, c: seq<W.Event>)
    ensures (a + b) + c == a + (b + c)
  {
  }

  lemma {:induction false} RunTruthful(s: System, wc: W.Config, actions: seq<Action>, past: seq<W.Event>)
    requires Ok(s, wc) && IsRun(s, wc, actions) && Truthful(s, wc, s.master.rows, past)
    ensures Truthful(Run(s, wc, actions), wc, Run(s, wc, actions).master.rows, past + AllResults(actions))
    decreases |actions|
  {
    if actions == [] {
      assert past + [] == past;
    } else {
      ActionTruthful(s, wc, actions[0], past);
      RunTruthful(Step(s, wc, actions[0]), wc, actions[1..], past + ResultsOf(actions[0]));
      EventsJoin(past, ResultsOf(actions[0]), AllResults(actions[1..]));
    }
  }

  /**
   In every run each announcement that follows a worker's report is for a fetched site and true of a check of
   this run: running, though it was not when it was fetched, after an answer in time with a code below 400
   that is not 0; or confirmed down, after a check that failed, when the site had been down for at least
   timeBetweenNotices.  It is never announced as down in this way.
   */
  lemma AnnouncementsTrue(config: M.Config, wc: W.Config, start: int, actions: seq<Action>, i: nat)
    requires D.Usable(config) && config.numOfChecks >= 1 && wc.numToProcess >= 1
    requires Ok(Boot(config, start), wc) && IsRun(Boot(config, start), wc, actions)
    requires var m := Run(Boot(config, start), wc, actions).master; i < |m.out| && m.out[i].Notify?
    ensures var m := Run(Boot(config, start), wc, actions).master; var site := m.out[i].site;
      && TrueNews(site, wc, m.rows, AllResults(actions))
      && (site.siteStatus == Running || site.siteStatus == ConfirmedDown)
  {
    RunTruthful(Boot(config, start), wc, actions, []);
    var m := Run(Boot(config, start), wc, actions).master;
    assert [] + AllResults(actions) == AllResults(actions);
    assert TrueOutput(m.out[i], wc, m.rows, AllResults(actions));
  }

  // ------------------------------------------------------------------------------------------
  // Every change is announced once

  function IdHit(site: Site, x: Id): nat { if (site.blogId, site.url) == x then 1 else 0 }

  function NotifyHit(x: Id): M.Output -> nat {
    (o: M.Output) => if o.Notify? then IdHit(o.site, x) else 0
  }

  function ReportNews(report: Report, x: Id): nat {
    if report.StatusChange? || report.StillDown? then IdHit(report.site, x) else 0
  }

  function NewsHit(x: Id): ((M.Pid, Report)) -> nat { (m: (M.Pid, Report)) => ReportNews(m.1, x) }

  /** Announced, or about to be. */
  function Spread(s: System, x: Id): nat { Weigh(s.master.out, NotifyHit(x)) + Weigh(s.mail, NewsHit(x)) }

  /** The result changes what is known of the site: up though it was not, or down for long enough. */
  predicate Changes(site: Site, wc: W.Config, e: W.Event)
    requires e.Result?
  {
    if Answers(e) then site.oldStatus != Running
    else site.oldStatus == Down && e.now >= site.lastStatusChange + wc.timeBetweenNotices
  }

  /** Whether an action is a check of the site that changes what is known of it. */
  ghost function ChangesOf(s: System, wc: W.Config, a: Action, x: Id): nat
    requires Ok(s, wc) && Possible(s, a)
  {
    if a.WorkerAct? && a.step.Result? && Changes(s.workers[a.pid].arrCheck[a.step.index], wc, a.step)
    then IdHit(s.workers[a.pid].arrCheck[a.step.index], x) else 0
  }

  lemma NoNewsCounts(a: seq<M.Output>, b: seq<M.Output>, x: Id)
    requires NoNews(a, b)
    ensures Weigh(b, NotifyHit(x)) == Weigh(a, NotifyHit(x))
  {
    assert b == a + b[|a|..];
    WeighConcat(a, b[|a|..], NotifyHit(x));
    WeighNothing(b[|a|..], NotifyHit(x));
  }

  lemma HandleCounts(s: System, e: D.Event, x: Id)
    requires D.Usable(s.master.config) && D.Enabled(s.master, e)
    ensures Spread(Handle(s, e), x) == Spread(s, x) + (if e.Heard? then ReportNews(e.report, x) else 0)
  {
    if BringsNews(e) {
      var site := NewsAnnounced(s.master, e);
      WeighSnoc(s.master.out, M.Notify(site), NotifyHit(x));
    } else {
      OthersNoNews(s.master, e);
      NoNewsCounts(s.master.out, D.Next(s.master, e).out, x);
    }
  }

  lemma ToldCounts(w: W.State, e: W.Event, pid: M.Pid, x: Id)
    requires W.Healthy(w) && W.Enabled(w, e) && !e.Payload?
    ensures Weigh(From(pid, Told(w, e)), NewsHit(x))
         == if e.Result? && Changes(w.arrCheck[e.index], w.config, e) then IdHit(w.arrCheck[e.index], x) else 0
  {
    if e.Result? {
      var site := w.arrCheck[e.index];
      var s := W.Record(w.config, site, e.rtt, e.code, e.errorCode, e.now);
      V.VerdictTold(w, e);
      W.VerdictTable(w.config, site, e.rtt, e.code, e.errorCode, e.now);
      ToldSplit(pid, W.ReportsOn(s), Told(w, e), x);
    } else {
      WeighNothing(From(pid, Told(w, e)), NewsHit(x));
    }
  }

  lemma ToldSplit(pid: M.Pid, first: seq<Report>, told: seq<Report>, x: Id)
    requires |first| <= 1 && |first| <= |told| && told[..|first|] == first
    requires told[|first|..] == [] || told[|first|..] == [StopWork] || told[|first|..] == [SendWork]
    ensures Weigh(From(pid, told), NewsHit(x)) == if first == [] then 0 else ReportNews(first[0], x)
  {
    var all, n := From(pid, told), |first|;
    WeighSplit(all, n, NewsHit(x));
    forall i | 0 <= i < |all[n..]| ensures NewsHit(x)(all[n..][i]) == 0 {
      assert all[n..][i].1 == told[n..][i];
    }
    WeighNothing(all[n..], NewsHit(x));
    if n == 1 {
      assert all[..1] == [(pid, first[0])];
      WeighOne((pid, first[0]), NewsHit(x));
    }
  }

  lemma ActionCounts(s: System, wc: W.Config, a: Action, x: Id)
    requires Ok(s, wc) && Possible(s, a)
    ensures Spread(Step(s, wc, a), x) == Spread(s, x) + ChangesOf(s, wc, a, x)
  {
    match a
    case Act(e, _) => HandleCounts(s, e, x);
    case DeliverMail(i) =>
      HandleCounts(s.(mail := Without(s.mail, i)), D.Heard(s.mail[i].0, s.mail[i].1, s.now), x);
      WeighUpdate(s.mail, i, s.mail[i], NewsHit(x));
    case WorkerAct(pid, e) =>
      ToldCounts(s.workers[pid], e, pid, x);
      WeighConcat(s.mail, From(pid, Told(s.workers[pid], e)), NewsHit(x));
    case _ =>
  }

  ghost function AllChanges(s: System, wc: W.Config, actions: seq<Action>, x: Id): nat
    requires Ok(s, wc) && IsRun(s, wc, actions)
    decreases |actions|
  {
    if actions == [] then 0
    else ChangesOf(s, wc, actions[0], x) + AllChanges(Step(s, wc, actions[0]), wc, actions[1..], x)
  }

  lemma {:induction false} RunCounts(s: System, wc: W.Config, actions: seq<Action>, x: Id)
    requires Ok(s, wc) && IsRun(s, wc, actions)
    ensures Spread(Run(s, wc, actions), x) == Spread(s, x) + AllChanges(s, wc, actions, x)
    decreases |actions|
  {
    if actions != [] {
      ActionCounts(s, wc, actions[0], x);
      RunCounts(Step(s, wc, actions[0]), wc, actions[1..], x);
    }
  }

  /**
   In every run, a site has been announced, or is in a report on its way, exactly as often as one of its checks
   changed what is known of it: no announcement is lost or doubled.
   */
  lemma AnnouncedOnce(config: M.Config, wc: W.Config, start: int, actions: seq<Action>, x: Id)
    requires D.Usable(config) && config.numOfChecks >= 1 && wc.numToProcess >= 1
    requires Ok(Boot(config, start), wc) && IsRun(Boot(config, start), wc, actions)
    ensures var s := Run(Boot(config, start), wc, actions);
      Weigh(s.master.out, NotifyHit(x)) + Weigh(s.mail, NewsHit(x)) == AllChanges(Boot(config, start), wc, actions, x)
  {
    RunCounts(Boot(config, start), wc, actions, x);
  }
}
