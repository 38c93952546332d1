/** The queries a run of the master issues: round after round, the same partition of the buckets. */
module Rounds {
  import opened Seqs
  import opened Sites
  import opened Master
  import opened Dispatcher
  import opened Buckets

  /** The queries in a list of outputs, in order. */
  function Queries(out: seq<Output>): seq<Output> {
    if out == [] then [] else (if out[0].Fetched? then [out[0]] else []) + Queries(out[1..])
  }

  lemma {:induction false} QueriesConcat(a: seq<Output>, b: seq<Output>)
    ensures Queries(a + b) == Queries(a) + Queries(b)
  {
    if a == [] {
      assert a + b == b;
    } else {
      assert (a + b)[1..] == a[1..] + b;
      QueriesConcat(a[1..], b);
    }
  }

  /** Query number k of a run. */
  function QueryAt(r: Range, k: nat): Output
    requires r.Proper() && RoundLength(r) >= 1
  {
    var i := k % RoundLength(r);
    Fetched(At(r, i).from, At(r, i).to, i == RoundLength(r) - 1)
  }

  /** The queries so far follow the rounds, and the cursor stands before the next one. */
  ghost predicate InRounds(m: State) {
    var r, q := m.config.buckets, Queries(m.out);
    && r.Proper() && RoundLength(r) >= 1
    && (forall k :: 0 <= k < |q| ==> q[k] == QueryAt(r, k))
    && m.cursor == At(r, |q| % RoundLength(r))
    && (m.endOfRound ==> |q| % RoundLength(r) == 0)
  }

  lemma StepModulo(k: nat, n: nat)
    requires n >= 1
    ensures (k + 1) % n == if k % n + 1 == n then 0 else k % n + 1
  {
    var d, e := k / n, k % n;
    assert k + 1 == d * n + (e + 1);
    if e + 1 == n {
      assert k + 1 == (d + 1) * n;
      Modulo(k + 1, n, d + 1, 0);
    } else {
      Modulo(k + 1, n, d, e + 1);
    }
  }

  lemma Modulo(k: nat, n: nat, d: nat, e: nat)
    requires n >= 1 && k == d * n + e && e < n
    ensures k % n == e
  {
    var d', e' := k / n, k % n;
    assert k == d' * n + e';
    if d < d' {
      assert (d + 1) * n == d * n + n;
      MulMono(d + 1, d', n);
    } else if d' < d {
      assert (d' + 1) * n == d' * n + n;
      MulMono(d' + 1, d, n);
    }
  }

  lemma GetMoreSitesRounds(m: State)
    requires InRounds(m)
    ensures InRounds(GetMoreSites(m))
  {
    if !m.endOfRound {
      var t := GetMoreSites(m);
      var r, q := m.config.buckets, Queries(m.out);
      var k := |q| % RoundLength(r);
      AdvanceInRound(r, k);
      StepModulo(|q|, RoundLength(r));
      var f := t.out[|m.out|];
      QueriesConcat(m.out, [f]);
      assert [f][1..] == [];
      assert Queries(t.out) == q + [f];
    }
  }

  lemma NoNewQueries(a: seq<Output>, delta: seq<Output>)
    requires forall i :: 0 <= i < |delta| ==> !delta[i].Fetched?
    ensures Queries(a + delta) == Queries(a)
  {
    QueriesConcat(a, delta);
    QueriesNone(delta);
  }

  lemma {:induction false} QueriesNone(delta: seq<Output>)
    requires forall i :: 0 <= i < |delta| ==> !delta[i].Fetched?
    ensures Queries(delta) == []
  {
    if delta != [] {
      QueriesNone(delta[1..]);
    }
  }

  lemma GiveWorkRounds(m: State, pid: Pid)
    requires m.config.datasetSize >= 1 && InRounds(m)
    ensures InRounds(GiveWork(m, pid))
  {
    if |m.workers| > m.config.numWorkers {
      NoNewQueries(m.out, [EvaporateWorker(pid)]);
    } else if m.queue == [] {
      var f := if pid !in m.halted && pid !in m.free then m.(free := m.free + [pid]) else m;
      GetMoreSitesRounds(f);
    } else {
      AssignWorkRounds(m, pid, 0);
    }
  }

  lemma AssignWorkRounds(m: State, pid: Pid, size: int)
    requires m.config.datasetSize >= 1 && InRounds(m)
    ensures InRounds(AssignWork(m, pid, size))
  {
    NoNewQueries(m.out, [QueueAdd(pid, m.queue[..DatasetLength(m, size)], true)]);
  }

  lemma {:induction false} RedistributeRounds(m: State, pids: seq<Pid>)
    requires m.config.datasetSize >= 1 && InRounds(m)
    ensures InRounds(Redistribute(m, pids))
    decreases |pids|
  {
    if pids != [] {
      if pids[0] in m.workers {
        GiveWorkRounds(m, pids[0]);
      }
      RedistributeRounds(if pids[0] in m.workers then GiveWork(m, pids[0]) else m, pids[1..]);
    }
  }

  lemma TickRounds(m: State, now: int)
    requires Usable(m.config) && InRounds(m)
    ensures InRounds(Tick(m, now))
  {
    var batches := Batches(Reverse(NewEntries(m.remote, m.config)), m.config.batchSize);
    PostsOnlyToPeers(batches, m.config.peers);
    NoNewQueries(m.out, Posts(batches, m.config.peers));
    var r := RemoteTick(m, now);
    DispatchShape(r, now);
    var d := Dispatch(r, now);
    assert d.out == r.out + Sent(r, d);
    NoNewQueries(r.out, Sent(r, d));
    RedistributeRounds(d.(free := []), d.free);
  }

  lemma RowsRounds(m: State, rows: seq<Row>)
    requires Usable(m.config) && InRounds(m)
    ensures InRounds(RowsArrive(m, rows))
  {
    var a := m.(queries := m.queries - 1, rows := m.rows + rows);
    if rows == [] {
      GetMoreSitesRounds(a);
    } else {
      var b := a.(queue := a.queue + FromRows(rows), pushed := a.pushed + FromRows(rows), gettingSites := false);
      RedistributeRounds(b.(free := []), b.free);
    }
  }

  lemma ReplyRounds(m: State, blogId: int, url: string, reply: CheckRecord, now: int)
    requires Usable(m.config) && InRounds(m) && reply.Remote?
    ensures InRounds(Reply(m, blogId, url, reply, now))
  {
    var i := EntryFor(m.remote, blogId, url);
    if i < |m.remote| {
      NoNewQueries(m.out, [NotifyDown(Reply(m, blogId, url, reply, now).remote[i])]);
    }
  }

  lemma NextRounds(m: State, e: Event)
    requires Usable(m.config) && Enabled(m, e) && InRounds(m)
    ensures InRounds(Next(m, e))
  {
    match e
    case Heard(pid, report, now) =>
      HearRounds(m, pid, report, now);
    case StatsHeard(pid, queueLength, pointer) =>
      AssignWorkRounds(m, pid, m.config.datasetSize - (if queueLength - pointer < 0 then 0 else queueLength - pointer));
    case RowsArrived(rows) => RowsRounds(m, rows);
    case TimerFired => GetMoreSitesRounds(m.(timers := m.timers - 1, endOfRound := false));
    case Replied(blogId, url, reply, now) => ReplyRounds(m, blogId, url, reply, now);
    case Ticked(now) => TickRounds(m, now);
    case _ =>
  }

  lemma HearRounds(m: State, pid: Pid, report: Report, now: int)
    requires Usable(m.config) && InRounds(m)
    ensures InRounds(Hear(m, pid, report, now))
  {
    match report
    case SendWork => GiveWorkRounds(m, pid);
    case StatusChange(site) => NoNewQueries(m.out, [Notify(site)]);
    case StillDown(site) => NoNewQueries(m.out, [Notify(site.(siteStatus := ConfirmedDown))]);
    case _ =>
  }

  lemma InitialInRounds(config: Config)
    requires config.buckets.Proper()
    ensures InRounds(Initial(config))
  {
    RoundLengthBounds(config.buckets);
    Modulo(0, RoundLength(config.buckets), 0, 0);
  }

  /** In every run the k-th query is the (k mod n)-th of a round, and only the last of a round says so. */
  lemma {:induction false} RunRounds(m: State, es: seq<Event>)
    requires Inv(m) && IsRun(m, es) && InRounds(m)
    ensures InRounds(Run(m, es))
    decreases |es|
  {
    if es != [] {
      NextRounds(m, es[0]);
      RunRounds(Step(m, es[0]), es[1..]);
    }
  }

  ghost predicate Fetches(o: Output, b: int) { o.Fetched? && o.lo <= b <= o.hi }

  /**
   The n queries of a complete round fetch every bucket from min up to max exactly once (max itself
   only if the batch size does not divide the width), and nothing else.
   */
  lemma RoundPartition(m: State, round: nat, b: int)
    requires InRounds(m) && (round + 1) * RoundLength(m.config.buckets) <= |Queries(m.out)|
    ensures var r := m.config.buckets; var n := RoundLength(r); var q := Queries(m.out);
      && 0 <= round * n && round * n + n <= |q|
      && ((exists k :: round * n <= k < round * n + n && Fetches(q[k], b))
          <==> r.min <= b < r.max || (b == r.max && (r.max - r.min) % r.batch != 0))
      && (forall j, k :: round * n <= j < k < round * n + n ==> !(Fetches(q[j], b) && Fetches(q[k], b)))
      && (forall k :: round * n <= k < round * n + n ==> (q[k].last <==> k == round * n + n - 1))
  {
    var r := m.config.buckets;
    var n := RoundLength(r);
    var q := Queries(m.out);
    assert (round + 1) * n == round * n + n;
    MulMono(0, round, n);
    forall k | round * n <= k < round * n + n ensures q[k] == QueryAt(r, k) && k % n == k - round * n {
      Modulo(k, n, round, k - round * n);
    }
    RoundCovers(r, b);
    if i :| 0 <= i < n && Covers(At(r, i), b) {
      assert Fetches(q[round * n + i], b);
    }
    if k :| round * n <= k < round * n + n && Fetches(q[k], b) {
      assert Covers(At(r, k - round * n), b);
    }
    forall j, k | round * n <= j < k < round * n + n ensures !(Fetches(q[j], b) && Fetches(q[k], b)) {
      Disjoint(r, j - round * n, k - round * n, b);
    }
  }
}
