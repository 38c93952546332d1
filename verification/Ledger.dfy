/**
 What becomes of the verifliers' replies: each is booked with the first entry for its site, and a down
 notification is raised exactly when enough offline replies have arrived, over every run of the master and
 of the whole system.
 */
module Ledger {
  import opened Seqs
  import opened Sites
  import opened Master
  import opened Dispatcher
  import opened Confirmation
  import P = Pipeline
  import W = Worker

  /** The entry at position i is the first one for this site. */
  ghost predicate FirstFor(remote: seq<Entry>, i: nat, blogId: int, url: string) {
    && i < |remote| && remote[i].blogId == blogId && remote[i].url == url
    && forall k :: 0 <= k < i ==> !(remote[k].blogId == blogId && remote[k].url == url)
  }

  /** A reply for a site without an entry changes nothing. */
  lemma StrangeReply(m: State, blogId: int, url: string, reply: CheckRecord, now: int)
    requires reply.Remote?
    requires forall k :: 0 <= k < |m.remote| ==> !(m.remote[k].blogId == blogId && m.remote[k].url == url)
    ensures Reply(m, blogId, url, reply, now) == m
  {
    var i := EntryFor(m.remote, blogId, url);
    assert i == |m.remote|;
  }

  /**
   In any state, a reply goes on record with the first entry for its site and lowers what is outstanding;
   an offline one counts as a confirmation and, from the limit on, marks the entry as down and raises one
   notification for it.  Nothing else changes.
   */
  lemma ReplyTaken(m: State, blogId: int, url: string, reply: CheckRecord, now: int, i: nat)
    requires reply.Remote? && FirstFor(m.remote, i, blogId, url)
    ensures var t := Reply(m, blogId, url, reply, now);
      && |t.remote| == |m.remote|
      && (forall k :: 0 <= k < |m.remote| && k != i ==> t.remote[k] == m.remote[k])
      && var e, f := m.remote[i], t.remote[i];
         var notifies := reply.offline && e.offlineConfirms + 1 >= m.config.peerOfflineLimit;
         && f.checks == e.checks + [reply]
         && f.requestsOutstanding == e.requestsOutstanding - 1
         && f.lastActivity == now
         && f.offlineConfirms == (if reply.offline then e.offlineConfirms + 1 else e.offlineConfirms)
         && f.siteStatus == (if notifies then Down else e.siteStatus)
         && f == e.(checks := f.checks, requestsOutstanding := f.requestsOutstanding, lastActivity := now,
                    offlineConfirms := f.offlineConfirms, siteStatus := f.siteStatus)
         && t == m.(remote := t.remote, out := if notifies then m.out + [NotifyDown(f)] else m.out)
  {
    var j := EntryFor(m.remote, blogId, url);
    assert j <= i && m.remote[j].blogId == blogId && m.remote[j].url == url;
  }

  // ------------------------------------------------------------------------------------------
  // The log of a run

  /** What is noted about entries: a site is handed to the verifliers, a reply arrives while the entry is first. */
  datatype LogEntry = Opened(ticket: nat, site: Site, at: int) | Answered(ticket: nat, reply: CheckRecord, at: int)

  /** What an event adds to the log. */
  ghost function Noted(m: State, e: Event): seq<LogEntry> {
    if e.Replied? && exists i: nat :: FirstFor(m.remote, i, e.blogId, e.url) then
      var i: nat :| FirstFor(m.remote, i, e.blogId, e.url);
      [Answered(m.remote[i].ticket, e.reply, e.now)]
    else if e.Heard? && e.report.Recheck? && |e.report.site.checks| >= m.config.numOfChecks then
      [Opened(m.tickets, e.report.site, e.now)]
    else []
  }

  ghost function Log(m: State, es: seq<Event>): seq<LogEntry>
    requires Inv(m) && IsRun(m, es)
    decreases |es|
  {
    if es == [] then [] else Noted(m, es[0]) + Log(Step(m, es[0]), es[1..])
  }

  /** What a log says about a ticket: the report that opened it, the replies since, and the last time. */
  datatype File = NoFile | File(site: Site, replies: seq<CheckRecord>, lastAt: int)

  function Filed(f: File, note: LogEntry, ticket: nat): File {
    if note.ticket != ticket then f
    else if note.Opened? then File(note.site, [], note.at)
    else if f.File? then File(f.site, f.replies + [note.reply], note.at)
    else f
  }

  function FileOf(log: seq<LogEntry>, ticket: nat): File {
    if log == [] then NoFile else Filed(FileOf(log[..|log| - 1], ticket), log[|log| - 1], ticket)
  }

  lemma FileOfSnoc(log: seq<LogEntry>, note: LogEntry, ticket: nat)
    ensures FileOf(log + [note], ticket) == Filed(FileOf(log, ticket), note, ticket)
  {
    assert (log + [note])[..|log|] == log;
  }

  /** An entry holds the report that queued it, the replies that arrived, and the time of the last of these. */
  ghost predicate OnFile(e: Entry, log: seq<LogEntry>) {
    var f := FileOf(log, e.ticket);
    && f.File?
    && e.origin == f.site && e.blogId == f.site.blogId && e.url == f.site.url
    && e.checks == f.site.checks + f.replies
    && e.lastActivity == f.lastAt
    && Offline(e.checks) == Offline(f.replies)
  }

  /** One notification for every offline reply from the limit on. */
  function Owed(f: File, limit: int): nat {
    if f.NoFile? then 0 else Max0(Offline(f.replies) - limit + 1)
  }

  ghost predicate NotifiedAsDue(m: State, log: seq<LogEntry>, ticket: nat) {
    Downs(m.out, ticket) == Owed(FileOf(log, ticket), m.config.peerOfflineLimit)
  }

  ghost predicate Linked(m: State, log: seq<LogEntry>) {
    && (forall i :: 0 <= i < |m.remote| ==> OnFile(m.remote[i], log))
    && (forall ticket: nat :: ticket >= m.tickets ==> FileOf(log, ticket).NoFile?)
    && (forall ticket: nat :: NotifiedAsDue(m, log, ticket))
  }

  lemma OfflineSnoc(checks: seq<CheckRecord>, c: CheckRecord)
    ensures Offline(checks + [c]) == Offline(checks) + (if c.Remote? && c.offline then 1 else 0)
  {
    assert (checks + [c])[..|checks|] == checks;
  }

  lemma DownsSnoc(out: seq<Output>, o: Output, ticket: nat)
    ensures Downs(out + [o], ticket)
         == Downs(out, ticket) + (if o.NotifyDown? && o.entry.ticket == ticket then 1 else 0)
  {
    DownsConcat(out, [o], ticket);
    assert [o][1..] == [];
  }

  /** The entry that takes a reply, on file. */
  lemma AnsweredOnFile(e: Entry, f: Entry, log: seq<LogEntry>, reply: CheckRecord, now: int)
    requires OnFile(e, log) && reply.Remote?
    requires f.ticket == e.ticket && f.checks == e.checks + [reply] && f.lastActivity == now
    requires f.origin == e.origin && f.blogId == e.blogId && f.url == e.url
    ensures OnFile(f, log + [Answered(e.ticket, reply, now)])
    ensures FileOf(log + [Answered(e.ticket, reply, now)], e.ticket).replies == FileOf(log, e.ticket).replies + [reply]
  {
    var file := FileOf(log, e.ticket);
    FileOfSnoc(log, Answered(e.ticket, reply, now), e.ticket);
    OfflineSnoc(e.checks, reply);
    OfflineSnoc(file.replies, reply);
    assert e.checks + [reply] == file.site.checks + (file.replies + [reply]);
  }

  lemma OtherOnFile(e: Entry, log: seq<LogEntry>, note: LogEntry)
    requires OnFile(e, log) && note.ticket != e.ticket
    ensures OnFile(e, log + [note])
  {
    FileOfSnoc(log, note, e.ticket);
  }

  lemma ReplyEntriesOnFile(m: State, log: seq<LogEntry>, e: Event, i: nat)
    requires Books(m) && Linked(m, log) && e.Replied? && e.reply.Remote?
    requires FirstFor(m.remote, i, e.blogId, e.url)
    ensures var t := Reply(m, e.blogId, e.url, e.reply, e.now);
      forall k :: 0 <= k < |t.remote| ==> OnFile(t.remote[k], log + [Answered(m.remote[i].ticket, e.reply, e.now)])
  {
    var t := Reply(m, e.blogId, e.url, e.reply, e.now);
    var note := Answered(m.remote[i].ticket, e.reply, e.now);
    ReplyTaken(m, e.blogId, e.url, e.reply, e.now, i);
    forall k | 0 <= k < |t.remote| ensures OnFile(t.remote[k], log + [note]) {
      assert OnFile(m.remote[k], log);
      if k == i {
        AnsweredOnFile(m.remote[i], t.remote[i], log, e.reply, e.now);
      } else {
        assert m.remote[k].ticket != m.remote[i].ticket by {
          if k < i { assert m.remote[k].ticket < m.remote[i].ticket; }
        }
        OtherOnFile(m.remote[k], log, note);
      }
    }
  }

  lemma ReplyNotifies(m: State, log: seq<LogEntry>, e: Event, i: nat, ticket: nat)
    requires Books(m) && Linked(m, log) && e.Replied? && e.reply.Remote? && m.config.peerOfflineLimit >= 1
    requires FirstFor(m.remote, i, e.blogId, e.url)
    ensures NotifiedAsDue(Reply(m, e.blogId, e.url, e.reply, e.now),
                          log + [Answered(m.remote[i].ticket, e.reply, e.now)], ticket)
  {
    var t := Reply(m, e.blogId, e.url, e.reply, e.now);
    var note := Answered(m.remote[i].ticket, e.reply, e.now);
    ReplyTaken(m, e.blogId, e.url, e.reply, e.now, i);
    assert EntrySound(m.remote[i], m.config, m.out) && OnFile(m.remote[i], log) && NotifiedAsDue(m, log, ticket);
    FileOfSnoc(log, note, ticket);
    OfflineSnoc(FileOf(log, m.remote[i].ticket).replies, e.reply);
    DownsSnoc(m.out, NotifyDown(t.remote[i]), ticket);
  }

  lemma AnsweredLinked(m: State, log: seq<LogEntry>, e: Event, i: nat)
    requires Books(m) && Linked(m, log) && e.Replied? && e.reply.Remote? && m.config.peerOfflineLimit >= 1
    requires FirstFor(m.remote, i, e.blogId, e.url)
    ensures Linked(Reply(m, e.blogId, e.url, e.reply, e.now), log + [Answered(m.remote[i].ticket, e.reply, e.now)])
  {
    var note := Answered(m.remote[i].ticket, e.reply, e.now);
    var t := Reply(m, e.blogId, e.url, e.reply, e.now);
    ReplyTaken(m, e.blogId, e.url, e.reply, e.now, i);
    ReplyEntriesOnFile(m, log, e, i);
    forall ticket: nat ensures NotifiedAsDue(t, log + [note], ticket) {
      ReplyNotifies(m, log, e, i, ticket);
    }
    forall ticket: nat | ticket >= m.tickets ensures FileOf(log + [note], ticket).NoFile? {
      FileOfSnoc(log, note, ticket);
    }
  }

  lemma ReplyLinked(m: State, log: seq<LogEntry>, e: Event)
    requires Books(m) && Linked(m, log) && e.Replied? && e.reply.Remote? && m.config.peerOfflineLimit >= 1
    ensures Linked(Reply(m, e.blogId, e.url, e.reply, e.now), log + Noted(m, e))
  {
    var j := EntryFor(m.remote, e.blogId, e.url);
    if j < |m.remote| {
      assert FirstFor(m.remote, j, e.blogId, e.url);
      assert Noted(m, e) == [Answered(m.remote[j].ticket, e.reply, e.now)] by {
        forall i: nat | FirstFor(m.remote, i, e.blogId, e.url) ensures i == j {
        }
      }
      AnsweredLinked(m, log, e, j);
    } else {
      assert log + [] == log;
    }
  }

  lemma OpenedLinked(m: State, log: seq<LogEntry>, site: Site, now: int)
    requires Books(m) && Linked(m, log) && m.config.peerOfflineLimit >= 1
    requires forall i :: 0 <= i < |site.checks| ==> site.checks[i].Local?
    ensures Linked(AskVerifliers(m, site, now), log + [Opened(m.tickets, site, now)])
  {
    var t := AskVerifliers(m, site, now);
    var note := Opened(m.tickets, site, now);
    NoRemoteCounts(site.checks);
    forall k | 0 <= k < |t.remote| ensures OnFile(t.remote[k], log + [note]) {
      if k < |m.remote| {
        assert OnFile(m.remote[k], log);
        OtherOnFile(m.remote[k], log, note);
      } else {
        FileOfSnoc(log, note, m.tickets);
        assert site.checks + [] == site.checks;
      }
    }
    forall ticket: nat ensures NotifiedAsDue(t, log + [note], ticket) {
      assert NotifiedAsDue(m, log, ticket);
      FileOfSnoc(log, note, ticket);
    }
    forall ticket: nat | ticket >= t.tickets ensures FileOf(log + [note], ticket).NoFile? {
      FileOfSnoc(log, note, ticket);
    }
  }

  /** Events that add nothing to the log, and keep entries as they are, or drop or mark them. */
  lemma SilentLinked(m: State, t: State, log: seq<LogEntry>)
    requires Linked(m, log) && t.tickets == m.tickets && t.config == m.config
    requires forall ticket: nat :: Downs(t.out, ticket) == Downs(m.out, ticket)
    requires forall k :: 0 <= k < |t.remote| ==> exists i :: 0 <= i < |m.remote| && SameFile(t.remote[k], m.remote[i])
    ensures Linked(t, log)
  {
    forall k | 0 <= k < |t.remote| ensures OnFile(t.remote[k], log) {
      var i :| 0 <= i < |m.remote| && SameFile(t.remote[k], m.remote[i]);
      assert OnFile(m.remote[i], log);
    }
    forall ticket: nat ensures NotifiedAsDue(t, log, ticket) {
      assert NotifiedAsDue(m, log, ticket);
    }
  }

  ghost predicate SameFile(a: Entry, b: Entry) {
    && a.ticket == b.ticket && a.origin == b.origin && a.blogId == b.blogId && a.url == b.url
    && a.checks == b.checks && a.lastActivity == b.lastActivity
  }

  lemma TickLinked(m: State, log: seq<LogEntry>, now: int)
    requires Usable(m.config) && Linked(m, log)
    ensures Linked(Tick(m, now), log)
  {
    var r, t := RemoteTick(m, now), Tick(m, now);
    LocalTickQuiet(r, now);
    var batches := Batches(Reverse(NewEntries(m.remote, m.config)), m.config.batchSize);
    forall ticket: nat ensures Downs(t.out, ticket) == Downs(m.out, ticket) {
      PostsNoDowns(batches, m.config.peers, ticket);
      DownsConcat(m.out, Posts(batches, m.config.peers), ticket);
      QuietCounts(r.out, t.out, ticket, 0);
    }
    forall k | 0 <= k < |t.remote| ensures exists i :: 0 <= i < |m.remote| && SameFile(t.remote[k], m.remote[i]) {
      var i := KeptFrom(m.remote, m.config, now, k);
      assert SameFile(t.remote[k], m.remote[i]);
    }
    SilentLinked(m, t, log);
  }

  lemma NextLinked(m: State, log: seq<LogEntry>, e: Event)
    requires Usable(m.config) && m.config.peerOfflineLimit >= 1 && Enabled(m, e)
    requires Books(m) && LocalReport(e) && Linked(m, log)
    ensures Linked(Next(m, e), log + Noted(m, e))
  {
    if e.Replied? {
      ReplyLinked(m, log, e);
    } else if e.Heard? && e.report.Recheck? && |e.report.site.checks| >= m.config.numOfChecks {
      OpenedLinked(m, log, e.report.site, e.now);
    } else {
      assert log + Noted(m, e) == log;
      if e.Ticked? {
        TickLinked(m, log, e.now);
      } else {
        QuietLinked(m, log, e);
      }
    }
  }

  lemma QuietLinked(m: State, log: seq<LogEntry>, e: Event)
    requires Usable(m.config) && Enabled(m, e) && Linked(m, log) && !e.Replied? && !e.Ticked?
    requires e.Heard? && e.report.Recheck? ==> |e.report.site.checks| < m.config.numOfChecks
    ensures Linked(Next(m, e), log)
  {
    var t := Next(m, e);
    OtherEventsQuiet(m, e);
    forall ticket: nat ensures Downs(t.out, ticket) == Downs(m.out, ticket) {
      QuietCounts(m.out, t.out, ticket, 0);
    }
    assert forall k :: 0 <= k < |t.remote| ==> SameFile(t.remote[k], m.remote[k]);
    SilentLinked(m, t, log);
  }

  lemma {:induction false} RunLinked(m: State, es: seq<Event>, log: seq<LogEntry>)
    requires Inv(m) && IsRun(m, es) && Books(m) && m.config.peerOfflineLimit >= 1 && Linked(m, log)
    requires forall i :: 0 <= i < |es| ==> LocalReport(es[i])
    ensures Linked(Run(m, es), log + Log(m, es))
    decreases |es|
  {
    if es == [] {
      assert log + [] == log;
    } else {
      var t := Step(m, es[0]);
      NextBooks(m, es[0]);
      NextFrame(m, es[0]);
      NextLinked(m, log, es[0]);
      RunLinked(t, es[1..], log + Noted(m, es[0]));
      LogsJoin(log, Noted(m, es[0]), Log(t, es[1..]));
    }
  }

  lemma LogsJoin(a: seq<LogEntry>, b: seq<LogEntry>, c: seq<LogEntry>)
    ensures (a + b) + c == a + (b + c)
  {
  }

  lemma {:induction false} RunKeepsConfig(m: State, es: seq<Event>)
    requires Inv(m) && IsRun(m, es)
    ensures Run(m, es).config == m.config
    decreases |es|
  {
    if es != [] {
      NextFrame(m, es[0]);
      RunKeepsConfig(Step(m, es[0]), es[1..]);
    }
  }

  lemma NothingBefore(a: seq<LogEntry>)
    ensures [] + a == a
  {
  }

  /** A run of the master from its start, in which workers report local checks only. */
  ghost predicate FromStart(config: Config, es: seq<Event>) {
    && Usable(config) && config.peerOfflineLimit >= 1
    && Inv(Initial(config)) && IsRun(Initial(config), es)
    && forall k :: 0 <= k < |es| ==> LocalReport(es[k])
  }

  ghost function After(config: Config, es: seq<Event>): State
    requires FromStart(config, es)
  {
    Run(Initial(config), es)
  }

  ghost function LogOf(config: Config, es: seq<Event>): seq<LogEntry>
    requires FromStart(config, es)
  {
    Log(Initial(config), es)
  }

  /** Every run from the start is linked to its log. */
  lemma LogLinked(config: Config, es: seq<Event>)
    requires FromStart(config, es)
    ensures After(config, es).config == config && Linked(After(config, es), LogOf(config, es))
  {
    InitialBooks(config);
    RunLinked(Initial(config), es, []);
    RunKeepsConfig(Initial(config), es);
    NothingBefore(Log(Initial(config), es));
  }

  /** In every run an entry has on record exactly the replies that arrived while it was first for its site. */
  lemma RepliesOnRecord(config: Config, es: seq<Event>, i: nat)
    requires FromStart(config, es) && i < |After(config, es).remote|
    ensures var e := After(config, es).remote[i]; var f := FileOf(LogOf(config, es), e.ticket);
      && f.File? && e.blogId == f.site.blogId && e.url == f.site.url
      && e.checks == f.site.checks + f.replies && e.lastActivity == f.lastAt
  {
    LogLinked(config, es);
    assert OnFile(After(config, es).remote[i], LogOf(config, es));
  }

  /**
   In every run, and for entries that have been dropped as well: one down notification has been raised for
   every offline reply from the limit on that arrived while the entry was first; so there is one if and only
   if at least as many offline replies as the limit have arrived.
   */
  lemma NotifiedIff(config: Config, es: seq<Event>, ticket: nat)
    requires FromStart(config, es)
    ensures var m := After(config, es); var f := FileOf(LogOf(config, es), ticket);
      && Downs(m.out, ticket) == (if f.File? then Max0(Offline(f.replies) - config.peerOfflineLimit + 1) else 0)
      && (Downs(m.out, ticket) > 0 <==> f.File? && Offline(f.replies) >= config.peerOfflineLimit)
  {
    LogLinked(config, es);
    assert NotifiedAsDue(After(config, es), LogOf(config, es), ticket);
  }

  // ------------------------------------------------------------------------------------------
  // The whole system

  /** The actions that the master has a hand in, and what they are for it. */
  predicate IsMasters(a: P.Action) { a.Act? || a.DeliverMail? }

  ghost function MasterEvent(s: P.System, a: P.Action): Event
    requires P.Possible(s, a) && IsMasters(a)
  {
    if a.Act? then a.event else Heard(s.mail[a.i].0, s.mail[a.i].1, s.now)
  }

  ghost function MasterEvents(s: P.System, wc: W.Config, actions: seq<P.Action>): seq<Event>
    requires P.Ok(s, wc) && P.IsRun(s, wc, actions)
    decreases |actions|
  {
    if actions == [] then []
    else
      var rest := MasterEvents(P.Step(s, wc, actions[0]), wc, actions[1..]);
      if IsMasters(actions[0]) then [MasterEvent(s, actions[0])] + rest else rest
  }

  /** The master of a system keeps its own invariant. */
  lemma OkInv(s: P.System, wc: W.Config)
    requires P.Ok(s, wc)
    ensures Inv(s.master)
  {
    var m := s.master;
    forall i | 0 <= i < |m.queue| ensures Fresh()(m.queue[i]) {
      assert P.ReadyAt(m.config, m.rows, s.now)(m.queue[i]);
    }
    forall i | 0 <= i < |m.local| ensures Fresh()(m.local[i]) {
      assert P.RetryOk(m.local[i], m.config, m.rows);
    }
  }

  lemma ActionIsEvent(s: P.System, wc: W.Config, a: P.Action)
    requires P.Ok(s, wc) && P.Possible(s, a)
    ensures Inv(s.master)
    ensures IsMasters(a) ==> Enabled(s.master, MasterEvent(s, a)) && LocalReport(MasterEvent(s, a))
    ensures P.Step(s, wc, a).master == if IsMasters(a) then Step(s.master, MasterEvent(s, a)) else s.master
  {
    OkInv(s, wc);
    if a.DeliverMail? {
      assert P.MailOk(s.mail[a.i], s.master.config, s.master.rows);
    }
  }

  lemma RunCons(m: State, e: Event, es: seq<Event>)
    requires Inv(m) && Enabled(m, e) && IsRun(Step(m, e), es)
    ensures IsRun(m, [e] + es) && Run(m, [e] + es) == Run(Step(m, e), es)
  {
    assert ([e] + es)[1..] == es;
  }

  /** A run of the system, seen from the master, is a run of the master. */
  lemma {:induction false} MasterOfRun(s: P.System, wc: W.Config, actions: seq<P.Action>)
    requires P.Ok(s, wc) && P.IsRun(s, wc, actions)
    ensures Inv(s.master) && IsRun(s.master, MasterEvents(s, wc, actions))
    ensures P.Run(s, wc, actions).master == Run(s.master, MasterEvents(s, wc, actions))
    ensures forall k :: 0 <= k < |MasterEvents(s, wc, actions)| ==> LocalReport(MasterEvents(s, wc, actions)[k])
    decreases |actions|
  {
    if actions == [] {
      OkInv(s, wc);
    } else {
      var t := P.Step(s, wc, actions[0]);
      ActionIsEvent(s, wc, actions[0]);
      MasterOfRun(t, wc, actions[1..]);
      if IsMasters(actions[0]) {
        RunCons(s.master, MasterEvent(s, actions[0]), MasterEvents(t, wc, actions[1..]));
      }
    }
  }

  /**
   The converse of two-stage confirmation: in every run of the whole system, a site that was handed to the
   verifliers has been announced as down if and only if at least peerOfflineLimit offline replies have
   arrived while its entry was the first one for the site.
   */
  lemma ConfirmedMeansDown(config: Config, wc: W.Config, start: int, actions: seq<P.Action>, ticket: nat)
    requires Usable(config) && config.numOfChecks >= 1 && wc.numToProcess >= 1 && config.peerOfflineLimit >= 1
    requires P.Ok(P.Boot(config, start), wc) && P.IsRun(P.Boot(config, start), wc, actions)
    ensures
      var m := P.Run(P.Boot(config, start), wc, actions).master;
      var es := MasterEvents(P.Boot(config, start), wc, actions);
      && FromStart(config, es)
      && var f := FileOf(LogOf(config, es), ticket);
         Downs(m.out, ticket) > 0 <==> f.File? && Offline(f.replies) >= config.peerOfflineLimit
  {
    MasterOfRun(P.Boot(config, start), wc, actions);
    NotifiedIff(config, MasterEvents(P.Boot(config, start), wc, actions), ticket);
  }
}
