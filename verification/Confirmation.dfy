/** The bookkeeping of the entries the verifliers were asked about, over every run of the master. */
module Confirmation {
  import opened Seqs
  import opened Sites
  import opened Master
  import opened Dispatcher

  // ------------------------------------------------------------------------------------------
  // Counting

  function Offline(checks: seq<CheckRecord>): nat {
    if checks == [] then 0
    else
      var last := checks[|checks| - 1];
      Offline(checks[..|checks| - 1]) + (if last.Remote? && last.offline then 1 else 0)
  }

  /** How often an entry occurs in a batch. */
  function Carries(batch: seq<Entry>, ticket: nat): nat {
    if batch == [] then 0 else (if batch[0].ticket == ticket then 1 else 0) + Carries(batch[1..], ticket)
  }

  /** How often an entry was sent to a peer. */
  function Posted(out: seq<Output>, ticket: nat, peer: nat): nat {
    if out == [] then 0
    else (if out[0].ToPeer? && out[0].peer == peer then Carries(out[0].batch, ticket) else 0)
         + Posted(out[1..], ticket, peer)
  }

  /** How many down notifications were raised for an entry. */
  function Downs(out: seq<Output>, ticket: nat): nat {
    if out == [] then 0
    else (if out[0].NotifyDown? && out[0].entry.ticket == ticket then 1 else 0) + Downs(out[1..], ticket)
  }

  /** How many entries with this ticket still have to be sent. */
  function Unsent(remote: seq<Entry>, ticket: nat): nat {
    if remote == [] then 0
    else (if !remote[0].requestsSent && remote[0].ticket == ticket then 1 else 0) + Unsent(remote[1..], ticket)
  }

  lemma {:induction false} CarriesConcat(a: seq<Entry>, b: seq<Entry>, ticket: nat)
    ensures Carries(a + b, ticket) == Carries(a, ticket) + Carries(b, ticket)
  {
    if a == [] {
      assert a + b == b;
    } else {
      assert (a + b)[1..] == a[1..] + b;
      CarriesConcat(a[1..], b, ticket);
    }
  }

  lemma {:induction false} PostedConcat(a: seq<Output>, b: seq<Output>, ticket: nat, peer: nat)
    ensures Posted(a + b, ticket, peer) == Posted(a, ticket, peer) + Posted(b, ticket, peer)
  {
    if a == [] {
      assert a + b == b;
    } else {
      assert (a + b)[1..] == a[1..] + b;
      PostedConcat(a[1..], b, ticket, peer);
    }
  }

  lemma {:induction false} DownsConcat(a: seq<Output>, b: seq<Output>, ticket: nat)
    ensures Downs(a + b, ticket) == Downs(a, ticket) + Downs(b, ticket)
  {
    if a == [] {
      assert a + b == b;
    } else {
      assert (a + b)[1..] == a[1..] + b;
      DownsConcat(a[1..], b, ticket);
    }
  }

  lemma {:induction false} CarriesReverse(s: seq<Entry>, ticket: nat)
    ensures Carries(Reverse(s), ticket) == Carries(s, ticket)
  {
    if s != [] {
      CarriesReverse(s[1..], ticket);
      CarriesConcat(Reverse(s[1..]), [s[0]], ticket);
    }
  }

  // ------------------------------------------------------------------------------------------
  // Sending in batches

  function EachReversed(batches: seq<seq<Entry>>): seq<seq<Entry>> {
    if batches == [] then [] else [Reverse(batches[0])] + EachReversed(batches[1..])
  }

  /**
   The batches cut from the end of the reversed list are the queue itself, cut into pieces of at most
   b from its front, each piece written backwards: nothing is lost, doubled or out of turn.
   */
  lemma {:induction false} BatchesAreTheQueue(xs: seq<Entry>, b: int)
    requires b >= 1
    ensures Flatten(EachReversed(Batches(Reverse(xs), b))) == xs
    decreases |xs|
  {
    var s := Reverse(xs);
    if s != [] {
      var n := if |s| < b then |s| else b;
      var front, rest := xs[..n], xs[n..];
      assert xs == front + rest;
      ReverseAppend(front, rest);
      assert s[|s| - n..] == Reverse(front) && s[..|s| - n] == Reverse(rest);
      ReverseReverse(front);
      BatchesAreTheQueue(rest, b);
      assert Batches(s, b) == [Reverse(front)] + Batches(Reverse(rest), b);
      assert EachReversed(Batches(s, b)) == [front] + EachReversed(Batches(Reverse(rest), b));
    }
  }

  /** The number of batches is the length over the batch size, rounded up. */
  lemma {:induction false} BatchCount(s: seq<Entry>, b: int)
    requires b >= 1
    ensures |s| <= |Batches(s, b)| * b
    ensures s != [] ==> (|Batches(s, b)| - 1) * b < |s|
    decreases |s|
  {
    if s != [] {
      var n := if |s| < b then |s| else b;
      var rest := s[..|s| - n];
      BatchCount(rest, b);
      OneMoreBatch(|rest|, n, |Batches(rest, b)|, b);
      assert |Batches(s, b)| == |Batches(rest, b)| + 1;
    }
  }

  lemma OneMoreBatch(rest: nat, n: nat, k: nat, b: int)
    requires 1 <= n <= b && (rest > 0 ==> n == b)
    requires rest <= k * b && (rest > 0 ==> (k - 1) * b < rest) && (rest == 0 ==> k == 0)
    ensures rest + n <= (k + 1) * b && (k + 1 - 1) * b < rest + n
  {
    assert (k + 1) * b == k * b + b && (k - 1) * b == k * b - b;
  }

  lemma {:induction false} CarriesBatches(s: seq<Entry>, b: int, ticket: nat)
    requires b >= 1
    ensures Carries(Flatten(Batches(s, b)), ticket) == Carries(s, ticket)
    decreases |s|
  {
    if s != [] {
      var n := if |s| < b then |s| else b;
      var front, rest := s[|s| - n..], s[..|s| - n];
      CarriesBatches(rest, b, ticket);
      assert Batches(s, b) == [front] + Batches(rest, b);
      CarriesConcat(front, Flatten(Batches(rest, b)), ticket);
      CarriesConcat(rest, front, ticket);
      assert s == rest + front;
    }
  }

  lemma {:induction false} PostedToPeers(batch: seq<Entry>, peers: nat, ticket: nat, peer: nat)
    ensures Posted(ToPeers(batch, peers), ticket, peer) == if peer < peers then Carries(batch, ticket) else 0
  {
    if peers > 0 {
      var last := ToPeer(peers - 1, batch);
      assert ToPeers(batch, peers) == ToPeers(batch, peers - 1) + [last];
      PostedToPeers(batch, peers - 1, ticket, peer);
      PostedConcat(ToPeers(batch, peers - 1), [last], ticket, peer);
      assert [last][1..] == [];
    }
  }

  lemma {:induction false} PostedPosts(batches: seq<seq<Entry>>, peers: nat, ticket: nat, peer: nat)
    requires peer < peers
    ensures Posted(Posts(batches, peers), ticket, peer) == Carries(Flatten(batches), ticket)
  {
    if batches != [] {
      PostedPosts(batches[1..], peers, ticket, peer);
      PostedToPeers(batches[0], peers, ticket, peer);
      PostedConcat(ToPeers(batches[0], peers), Posts(batches[1..], peers), ticket, peer);
      CarriesConcat(batches[0], Flatten(batches[1..]), ticket);
    }
  }

  lemma {:induction false} CarriesNew(remote: seq<Entry>, config: Config, ticket: nat)
    ensures Carries(NewEntries(remote, config), ticket) == Unsent(remote, ticket)
  {
    if remote != [] {
      CarriesNew(remote[1..], config, ticket);
      var head := if !remote[0].requestsSent then [MarkSent(remote[0], config.peers)] else [];
      CarriesConcat(head, NewEntries(remote[1..], config), ticket);
    }
  }

  /** A tick sends every unsent entry once to every peer. */
  lemma TickPosts(m: State, now: int, ticket: nat, peer: nat)
    requires m.config.batchSize >= 1 && peer < m.config.peers
    ensures Posted(RemoteTick(m, now).out, ticket, peer) == Posted(m.out, ticket, peer) + Unsent(m.remote, ticket)
  {
    var unsent := NewEntries(m.remote, m.config);
    var batches := Batches(Reverse(unsent), m.config.batchSize);
    PostedConcat(m.out, Posts(batches, m.config.peers), ticket, peer);
    PostedPosts(batches, m.config.peers, ticket, peer);
    CarriesBatches(Reverse(unsent), m.config.batchSize, ticket);
    CarriesReverse(unsent, ticket);
    CarriesNew(m.remote, m.config, ticket);
  }

  // ------------------------------------------------------------------------------------------
  // Purging

  ghost predicate Ascending(remote: seq<Entry>) {
    forall i, j :: 0 <= i < j < |remote| ==> remote[i].ticket < remote[j].ticket
  }

  /** Where an entry that a tick keeps comes from. */
  lemma {:induction false} KeptFrom(remote: seq<Entry>, config: Config, now: int, k: nat) returns (i: nat)
    requires k < |Kept(remote, config, now)|
    ensures i < |remote|
    ensures Kept(remote, config, now)[k]
         == if remote[i].requestsSent then remote[i] else MarkSent(remote[i], config.peers)
    ensures remote[i].requestsSent ==> !Expired(remote[i], config, now)
  {
    var head := if !remote[0].requestsSent then [MarkSent(remote[0], config.peers)]
                else if Expired(remote[0], config, now) then [] else [remote[0]];
    if k < |head| {
      i := 0;
    } else {
      i := KeptFrom(remote[1..], config, now, k - |head|);
      i := i + 1;
    }
  }

  lemma {:induction false} KeptAscending(remote: seq<Entry>, config: Config, now: int)
    requires Ascending(remote)
    ensures Ascending(Kept(remote, config, now))
  {
    if remote != [] {
      KeptAscending(remote[1..], config, now);
      var rest := Kept(remote[1..], config, now);
      forall k | 0 <= k < |rest| ensures remote[0].ticket < rest[k].ticket {
        var i := KeptFrom(remote[1..], config, now, k);
      }
    }
  }

  /** A tick drops exactly the entries sent by an earlier tick that have expired; the others stay in order. */
  lemma {:induction false} DroppedIff(remote: seq<Entry>, config: Config, now: int, i: nat)
    requires Ascending(remote) && i < |remote|
    ensures (exists k :: 0 <= k < |Kept(remote, config, now)|
                      && Kept(remote, config, now)[k].ticket == remote[i].ticket)
       <==> !(remote[i].requestsSent && (remote[i].requestsOutstanding <= 0
                                         || now > remote[i].lastActivity + config.requestTimeout))
  {
    var kept := Kept(remote, config, now);
    if remote[i].requestsSent && Expired(remote[i], config, now) {
      forall k | 0 <= k < |kept| ensures kept[k].ticket != remote[i].ticket {
        var j := KeptFrom(remote, config, now, k);
        if j < i { assert remote[j].ticket < remote[i].ticket; }
        if i < j { assert remote[i].ticket < remote[j].ticket; }
      }
    } else {
      var k := KeptAt(remote, config, now, i);
    }
  }

  lemma {:induction false} KeptAt(remote: seq<Entry>, config: Config, now: int, i: nat) returns (k: nat)
    requires i < |remote| && !(remote[i].requestsSent && Expired(remote[i], config, now))
    ensures k < |Kept(remote, config, now)| && Kept(remote, config, now)[k].ticket == remote[i].ticket
  {
    if i == 0 {
      k := 0;
    } else {
      k := KeptAt(remote[1..], config, now, i - 1);
      if !(remote[0].requestsSent && Expired(remote[0], config, now)) {
        k := k + 1;
      }
    }
  }

  lemma {:induction false} KeptAllSent(remote: seq<Entry>, config: Config, now: int, ticket: nat)
    ensures Unsent(Kept(remote, config, now), ticket) == 0
  {
    if remote != [] {
      KeptAllSent(remote[1..], config, now, ticket);
      var head := if !remote[0].requestsSent then [MarkSent(remote[0], config.peers)]
                  else if Expired(remote[0], config, now) then [] else [remote[0]];
      if head != [] {
        assert (head + Kept(remote[1..], config, now))[1..] == Kept(remote[1..], config, now);
      } else {
        assert head + Kept(remote[1..], config, now) == Kept(remote[1..], config, now);
      }
    }
  }

  // ------------------------------------------------------------------------------------------
  // The books

  function Max0(a: int): nat { if a < 0 then 0 else a }

  /**
   An entry's counters: confirmations are the offline replies on record; outstanding requests are the
   peers minus the replies since sending; and it has raised one down notification for every offline
   reply from the limit on.
   */
  ghost predicate EntrySound(e: Entry, config: Config, out: seq<Output>) {
    && e.offlineConfirms == Offline(e.checks)
    && e.early <= Replies(e.checks)
    && e.requestsOutstanding == (if e.requestsSent then config.peers + e.early else 0) - Replies(e.checks)
    && Downs(out, e.ticket) == Max0(Offline(e.checks) - config.peerOfflineLimit + 1)
  }

  /** Every ticket that was given out has been sent once to this peer, or is still to be sent, once. */
  ghost predicate SentOnce(m: State, ticket: nat, peer: nat) {
    Posted(m.out, ticket, peer) + Unsent(m.remote, ticket) == if ticket < m.tickets then 1 else 0
  }

  ghost predicate Books(m: State) {
    && Ascending(m.remote)
    && (forall i :: 0 <= i < |m.remote| ==> m.remote[i].ticket < m.tickets)
    && (forall i :: 0 <= i < |m.remote| ==> EntrySound(m.remote[i], m.config, m.out))
    && (forall ticket: nat :: ticket >= m.tickets ==> Downs(m.out, ticket) == 0)
    && (forall ticket: nat, peer: nat :: peer < m.config.peers ==> SentOnce(m, ticket, peer))
  }

  /** Outputs that are no post to a peer and no down notification. */
  ghost predicate Silent(o: Output) { !o.ToPeer? && !o.NotifyDown? }

  ghost predicate Quiet(a: seq<Output>, b: seq<Output>) {
    a <= b && forall i :: |a| <= i < |b| ==> Silent(b[i])
  }

  lemma {:induction false} SilentCounts(delta: seq<Output>, ticket: nat, peer: nat)
    requires forall i :: 0 <= i < |delta| ==> Silent(delta[i])
    ensures Posted(delta, ticket, peer) == 0 && Downs(delta, ticket) == 0
  {
    if delta != [] {
      SilentCounts(delta[1..], ticket, peer);
    }
  }

  lemma QuietCounts(a: seq<Output>, b: seq<Output>, ticket: nat, peer: nat)
    requires Quiet(a, b)
    ensures Posted(b, ticket, peer) == Posted(a, ticket, peer) && Downs(b, ticket) == Downs(a, ticket)
  {
    assert b == a + b[|a|..];
    SilentCounts(b[|a|..], ticket, peer);
    PostedConcat(a, b[|a|..], ticket, peer);
    DownsConcat(a, b[|a|..], ticket);
  }

  lemma {:induction false} RedistributeQuiet(m: State, pids: seq<Pid>)
    requires m.config.datasetSize >= 1
    ensures Quiet(m.out, Redistribute(m, pids).out)
    decreases |pids|
  {
    if pids != [] {
      RedistributeQuiet(if pids[0] in m.workers then GiveWork(m, pids[0]) else m, pids[1..]);
    }
  }

  lemma LocalTickQuiet(m: State, now: int)
    requires m.config.datasetSize >= 1
    ensures Quiet(m.out, LocalTick(m, now).out)
    ensures var t := LocalTick(m, now);
      t.remote == m.remote && t.tickets == m.tickets && t.config == m.config
  {
    var d := Dispatch(m, now);
    RedistributeQuiet(d.(free := []), d.free);
    RedistributeFrame(d.(free := []), d.free);
  }

  lemma RowsArriveQuiet(m: State, rows: seq<Row>)
    requires m.config.datasetSize >= 1
    ensures var t := RowsArrive(m, rows);
      t.remote == m.remote && t.tickets == m.tickets && t.config == m.config && Quiet(m.out, t.out)
  {
    if rows != [] {
      var b := m.(queries := m.queries - 1, rows := m.rows + rows, queue := m.queue + FromRows(rows),
                  pushed := m.pushed + FromRows(rows), gettingSites := false);
      RedistributeQuiet(b.(free := []), b.free);
      RedistributeFrame(b.(free := []), b.free);
    }
  }

  lemma HearQuiet(m: State, pid: Pid, report: Report, now: int)
    requires m.config.datasetSize >= 1
    requires report.Recheck? ==> |report.site.checks| < m.config.numOfChecks
    ensures var t := Hear(m, pid, report, now);
      t.remote == m.remote && t.tickets == m.tickets && t.config == m.config && Quiet(m.out, t.out)
  {
    match report
    case SendWork => GiveWorkQuiet(m, pid);
    case _ =>
  }

  lemma GiveWorkQuiet(m: State, pid: Pid)
    requires m.config.datasetSize >= 1
    ensures var t := GiveWork(m, pid);
      t.remote == m.remote && t.tickets == m.tickets && t.config == m.config && Quiet(m.out, t.out)
  {
  }

  /** The events that concern neither entries nor verifliers. */
  lemma OtherEventsQuiet(m: State, e: Event)
    requires Usable(m.config) && Enabled(m, e) && !e.Replied? && !e.Ticked?
    requires e.Heard? && e.report.Recheck? ==> |e.report.site.checks| < m.config.numOfChecks
    ensures var t := Next(m, e);
      t.remote == m.remote && t.tickets == m.tickets && t.config == m.config && Quiet(m.out, t.out)
  {
    match e
    case RowsArrived(rows) => RowsArriveQuiet(m, rows);
    case Heard(pid, report, now) => HearQuiet(m, pid, report, now);
    case _ =>
  }

  lemma QuietBooks(m: State, t: State)
    requires Books(m) && t.remote == m.remote && t.tickets == m.tickets && t.config == m.config && Quiet(m.out, t.out)
    ensures Books(t)
  {
    forall ticket: nat ensures Downs(t.out, ticket) == Downs(m.out, ticket) {
      QuietCounts(m.out, t.out, ticket, 0);
    }
    forall i | 0 <= i < |t.remote| ensures EntrySound(t.remote[i], t.config, t.out) {
      assert EntrySound(m.remote[i], m.config, m.out);
    }
    forall ticket: nat, peer: nat | peer < t.config.peers ensures SentOnce(t, ticket, peer) {
      assert SentOnce(m, ticket, peer);
      QuietCounts(m.out, t.out, ticket, peer);
    }
  }

  lemma {:induction false} UnsentConcat(a: seq<Entry>, b: seq<Entry>, ticket: nat)
    ensures Unsent(a + b, ticket) == Unsent(a, ticket) + Unsent(b, ticket)
  {
    if a == [] {
      assert a + b == b;
    } else {
      assert (a + b)[1..] == a[1..] + b;
      UnsentConcat(a[1..], b, ticket);
    }
  }

  lemma {:induction false} NoRemoteCounts(checks: seq<CheckRecord>)
    requires forall i :: 0 <= i < |checks| ==> checks[i].Local?
    ensures Replies(checks) == 0 && Offline(checks) == 0
  {
    if checks != [] {
      NoRemoteCounts(checks[..|checks| - 1]);
    }
  }

  /** A new entry, from a report that holds local checks only. */
  lemma AskVerifliersBooks(m: State, site: Site, now: int)
    requires Books(m) && m.config.peerOfflineLimit >= 1
    requires forall i :: 0 <= i < |site.checks| ==> site.checks[i].Local?
    ensures Books(AskVerifliers(m, site, now))
  {
    var t := AskVerifliers(m, site, now);
    var e := t.remote[|m.remote|];
    NoRemoteCounts(site.checks);
    assert EntrySound(e, t.config, t.out);
    forall i | 0 <= i < |t.remote| ensures EntrySound(t.remote[i], t.config, t.out) {
      if i < |m.remote| { assert EntrySound(m.remote[i], m.config, m.out); }
    }
    forall ticket: nat, peer: nat | peer < t.config.peers ensures SentOnce(t, ticket, peer) {
      assert SentOnce(m, ticket, peer);
      UnsentConcat(m.remote, [e], ticket);
      assert [e][1..] == [];
    }
  }

  lemma {:induction false} UnsentUpdate(remote: seq<Entry>, i: nat, e: Entry, ticket: nat)
    requires i < |remote| && e.ticket == remote[i].ticket && e.requestsSent == remote[i].requestsSent
    ensures Unsent(remote[i := e], ticket) == Unsent(remote, ticket)
  {
    if i == 0 {
      assert remote[0 := e][1..] == remote[1..];
    } else {
      assert remote[i := e][1..] == remote[1..][i - 1 := e];
      UnsentUpdate(remote[1..], i - 1, e, ticket);
    }
  }

  lemma NoteSound(e: Entry, reply: CheckRecord, config: Config, now: int, out: seq<Output>)
    requires EntrySound(e, config, out) && reply.Remote? && config.peerOfflineLimit >= 1
    ensures var f := Note(e, reply, config.peerOfflineLimit, now);
      EntrySound(f, config, if reply.offline && f.offlineConfirms >= config.peerOfflineLimit
                            then out + [NotifyDown(f)] else out)
  {
    var f := Note(e, reply, config.peerOfflineLimit, now);
    assert f.checks[..|f.checks| - 1] == e.checks;
    DownsConcat(out, [NotifyDown(f)], e.ticket);
    assert [NotifyDown(f)][1..] == [];
  }

  lemma ReplyOutput(m: State, blogId: int, url: string, reply: CheckRecord, now: int, ticket: nat, peer: nat)
    requires reply.Remote? && EntryFor(m.remote, blogId, url) < |m.remote|
    ensures var t := Reply(m, blogId, url, reply, now);
      && Posted(t.out, ticket, peer) == Posted(m.out, ticket, peer)
      && (ticket != m.remote[EntryFor(m.remote, blogId, url)].ticket ==> Downs(t.out, ticket) == Downs(m.out, ticket))
  {
    var e := Reply(m, blogId, url, reply, now).remote[EntryFor(m.remote, blogId, url)];
    PostedConcat(m.out, [NotifyDown(e)], ticket, peer);
    DownsConcat(m.out, [NotifyDown(e)], ticket);
    assert [NotifyDown(e)][1..] == [];
  }

  lemma ReplyOther(m: State, blogId: int, url: string, reply: CheckRecord, now: int, k: nat)
    requires reply.Remote? && k < |m.remote| && k != EntryFor(m.remote, blogId, url) < |m.remote|
    requires Ascending(m.remote) && EntrySound(m.remote[k], m.config, m.out)
    ensures EntrySound(m.remote[k], m.config, Reply(m, blogId, url, reply, now).out)
  {
    var i := EntryFor(m.remote, blogId, url);
    assert m.remote[k].ticket != m.remote[i].ticket by {
      if k < i { assert m.remote[k].ticket < m.remote[i].ticket; }
    }
    ReplyOutput(m, blogId, url, reply, now, m.remote[k].ticket, 0);
  }

  lemma ReplyEntries(m: State, blogId: int, url: string, reply: CheckRecord, now: int, k: nat)
    requires Books(m) && reply.Remote? && m.config.peerOfflineLimit >= 1 && k < |m.remote|
    ensures var t := Reply(m, blogId, url, reply, now);
      EntrySound(t.remote[k], t.config, t.out) && t.remote[k].ticket == m.remote[k].ticket
  {
    var i := EntryFor(m.remote, blogId, url);
    assert EntrySound(m.remote[k], m.config, m.out);
    if k == i {
      NoteSound(m.remote[i], reply, m.config, now, m.out);
    } else if i < |m.remote| {
      ReplyOther(m, blogId, url, reply, now, k);
    }
  }

  lemma ReplyBooks(m: State, blogId: int, url: string, reply: CheckRecord, now: int)
    requires Books(m) && reply.Remote? && m.config.peerOfflineLimit >= 1
    ensures Books(Reply(m, blogId, url, reply, now))
  {
    var t := Reply(m, blogId, url, reply, now);
    var i := EntryFor(m.remote, blogId, url);
    if i < |m.remote| {
      forall k | 0 <= k < |t.remote|
        ensures EntrySound(t.remote[k], t.config, t.out) && t.remote[k].ticket == m.remote[k].ticket
      {
        ReplyEntries(m, blogId, url, reply, now, k);
      }
      forall ticket: nat | ticket >= t.tickets ensures Downs(t.out, ticket) == 0 {
        ReplyOutput(m, blogId, url, reply, now, ticket, 0);
      }
      forall ticket: nat, peer: nat | peer < t.config.peers ensures SentOnce(t, ticket, peer) {
        assert SentOnce(m, ticket, peer);
        ReplySentOnce(m, blogId, url, reply, now, ticket, peer);
      }
    }
  }

  lemma ReplySentOnce(m: State, blogId: int, url: string, reply: CheckRecord, now: int, ticket: nat, peer: nat)
    requires SentOnce(m, ticket, peer) && reply.Remote? && EntryFor(m.remote, blogId, url) < |m.remote|
    ensures SentOnce(Reply(m, blogId, url, reply, now), ticket, peer)
  {
    var i := EntryFor(m.remote, blogId, url);
    ReplyOutput(m, blogId, url, reply, now, ticket, peer);
    UnsentUpdate(m.remote, i, Reply(m, blogId, url, reply, now).remote[i], ticket);
  }

  lemma {:induction false} PostsNoDowns(batches: seq<seq<Entry>>, peers: nat, ticket: nat)
    ensures Downs(Posts(batches, peers), ticket) == 0
  {
    if batches != [] {
      PostsNoDowns(batches[1..], peers, ticket);
      NoDowns(ToPeers(batches[0], peers), ticket);
      DownsConcat(ToPeers(batches[0], peers), Posts(batches[1..], peers), ticket);
    }
  }

  lemma {:induction false} NoDowns(out: seq<Output>, ticket: nat)
    requires forall i :: 0 <= i < |out| ==> !out[i].NotifyDown?
    ensures Downs(out, ticket) == 0
  {
    if out != [] {
      NoDowns(out[1..], ticket);
    }
  }

  lemma RemoteTickBooks(m: State, now: int)
    requires Books(m) && m.config.batchSize >= 1
    ensures Books(RemoteTick(m, now))
  {
    var t := RemoteTick(m, now);
    var batches := Batches(Reverse(NewEntries(m.remote, m.config)), m.config.batchSize);
    KeptAscending(m.remote, m.config, now);
    forall ticket: nat ensures Downs(t.out, ticket) == Downs(m.out, ticket) {
      PostsNoDowns(batches, m.config.peers, ticket);
      DownsConcat(m.out, Posts(batches, m.config.peers), ticket);
    }
    forall k | 0 <= k < |t.remote| ensures EntrySound(t.remote[k], t.config, t.out) && t.remote[k].ticket < t.tickets {
      var i := KeptFrom(m.remote, m.config, now, k);
      assert EntrySound(m.remote[i], m.config, m.out);
    }
    forall ticket: nat, peer: nat | peer < t.config.peers ensures SentOnce(t, ticket, peer) {
      assert SentOnce(m, ticket, peer);
      TickPosts(m, now, ticket, peer);
      KeptAllSent(m.remote, m.config, now, ticket);
    }
  }

  /** The reports that workers make hold local checks only. */
  ghost predicate LocalReport(e: Event) {
    e.Heard? && e.report.Recheck? ==> forall i :: 0 <= i < |e.report.site.checks| ==> e.report.site.checks[i].Local?
  }

  lemma NextBooks(m: State, e: Event)
    requires Usable(m.config) && m.config.peerOfflineLimit >= 1 && Enabled(m, e)
    requires Books(m) && LocalReport(e)
    ensures Books(Next(m, e))
  {
    if e.Replied? {
      ReplyBooks(m, e.blogId, e.url, e.reply, e.now);
    } else if e.Ticked? {
      RemoteTickBooks(m, e.now);
      LocalTickQuiet(RemoteTick(m, e.now), e.now);
      QuietBooks(RemoteTick(m, e.now), Next(m, e));
    } else if e.Heard? && e.report.Recheck? && |e.report.site.checks| >= m.config.numOfChecks {
      AskVerifliersBooks(m, e.report.site, e.now);
    } else {
      OtherEventsQuiet(m, e);
      QuietBooks(m, Next(m, e));
    }
  }

  /** The books are right after every interleaving of queueing, ticks and replies. */
  lemma {:induction false} RunBooks(m: State, es: seq<Event>)
    requires Inv(m) && IsRun(m, es) && Books(m) && m.config.peerOfflineLimit >= 1
    requires forall i :: 0 <= i < |es| ==> LocalReport(es[i])
    ensures Books(Run(m, es))
    decreases |es|
  {
    if es != [] {
      NextBooks(m, es[0]);
      NextFrame(m, es[0]);
      RunBooks(Step(m, es[0]), es[1..]);
    }
  }

  lemma InitialBooks(config: Config)
    requires config.peerOfflineLimit >= 1
    ensures Books(Initial(config))
  {
  }

  /** What it takes for an entry to be dropped: all peers replied since it was sent, or silence for too long. */
  lemma DroppedMeans(m: State, i: nat, now: int)
    requires Books(m) && i < |m.remote| && m.config.peerOfflineLimit >= 1
    requires forall k :: 0 <= k < |Kept(m.remote, m.config, now)| ==>
               Kept(m.remote, m.config, now)[k].ticket != m.remote[i].ticket
    ensures var e := m.remote[i];
      && e.requestsSent
      && (Replies(e.checks) - e.early >= m.config.peers || now > e.lastActivity + m.config.requestTimeout)
      && (forall peer: nat :: peer < m.config.peers ==> Posted(m.out, e.ticket, peer) == 1)
  {
    DroppedIff(m.remote, m.config, now, i);
    var e := m.remote[i];
    assert EntrySound(e, m.config, m.out);
    UnsentOnlyUnsent(m.remote, i);
    forall peer: nat | peer < m.config.peers ensures Posted(m.out, e.ticket, peer) == 1 {
      assert SentOnce(m, e.ticket, peer);
    }
  }

  lemma UnsentOnlyUnsent(remote: seq<Entry>, i: nat)
    requires Ascending(remote) && i < |remote| && remote[i].requestsSent
    ensures Unsent(remote, remote[i].ticket) == 0
  {
    forall k | 0 <= k < |remote| && remote[k].ticket == remote[i].ticket ensures remote[k].requestsSent {
      assert k == i;
    }
    UnsentNone(remote, remote[i].ticket);
  }

  lemma {:induction false} UnsentNone(remote: seq<Entry>, ticket: nat)
    requires forall k :: 0 <= k < |remote| && remote[k].ticket == ticket ==> remote[k].requestsSent
    ensures Unsent(remote, ticket) == 0
  {
    if remote != [] {
      UnsentNone(remote[1..], ticket);
    }
  }
}
