/**
 The master process as a state machine on values: the global queue of sites, the free and halted
 workers, the sites waiting for another local check, the entries the verifliers were asked about, and
 the fetch loop over the database.  `MasterProcess` is the object that works on these steps in place.
 */
module Master {
  import opened Seqs
  import opened Sites
  import Buckets

  type Pid = p: int | p > 0 witness 1

  /** Times are in milliseconds; `peers` is the number of configured verifliers. */
  datatype Config = Config(
    numWorkers: int,
    datasetSize: int,
    numToProcess: int,
    numOfChecks: int,
    timeBetweenChecks: int,
    peerOfflineLimit: int,
    peers: nat,
    batchSize: int,
    requestTimeout: int,
    buckets: Buckets.Range)

  /**
   A site the verifliers are asked about.  `ticket` numbers the entries in the order of queueing,
   `early` is how many veriflier replies it had when it was sent, and `origin` is the report that
   queued it; these three are history.
   */
  datatype Entry = Entry(
    ticket: nat,
    blogId: int,
    url: string,
    siteStatus: Status,
    lastCheck: int,
    lastStatusChange: int,
    checks: seq<CheckRecord>,
    offlineConfirms: int,
    requestsSent: bool,
    requestsOutstanding: int,
    lastActivity: int,
    early: nat,
    origin: Site)

  /** What leaves the master. */
  datatype Output =
    | QueueAdd(pid: Pid, payload: seq<Site>, fromQueue: bool)
    | EvaporateWorker(pid: Pid)
    | Fetched(lo: int, hi: int, last: bool)
    | ToPeer(peer: nat, batch: seq<Entry>)
    | NotifyDown(entry: Entry)
    | Notify(site: Site)

  /**
   `queries` and `timers` count the bucket queries and round timers in flight; `rows` are all rows
   fetched so far, `pushed` all sites put into the global queue, `cut` all sites taken from it, and
   `out` everything sent, in order.
   */
  datatype State = State(
    config: Config,
    workers: seq<Pid>,
    free: seq<Pid>,
    halted: seq<Pid>,
    queue: seq<Site>,
    local: seq<Site>,
    remote: seq<Entry>,
    gettingSites: bool,
    endOfRound: bool,
    cursor: Buckets.Cursor,
    queries: int,
    timers: int,
    tickets: nat,
    rows: seq<Row>,
    pushed: seq<Site>,
    cut: seq<Site>,
    out: seq<Output>)

  function Initial(config: Config): State {
    State(config, [], [], [], [], [], [], false, false, Buckets.Start(config.buckets), 0, 0, 0, [], [], [], [])
  }

  function Drop(pids: seq<Pid>, pid: Pid): (r: seq<Pid>)
    ensures forall p :: p in r <==> p in pids && p != pid
  {
    if pids == [] then [] else (if pids[0] == pid then [] else [pids[0]]) + Drop(pids[1..], pid)
  }

  // ------------------------------------------------------------------------------------------
  // Workers and the global queue

  function DeleteWorker(m: State, pid: Pid): State {
    m.(workers := Drop(m.workers, pid), free := Drop(m.free, pid), halted := Drop(m.halted, pid))
  }

  function SpawnWorker(m: State, pid: Pid): State {
    var d := DeleteWorker(m, pid);
    d.(workers := d.workers + [pid])
  }

  /** How many workers are missing. */
  function Missing(m: State): nat {
    if |m.workers| < m.config.numWorkers then m.config.numWorkers - |m.workers| else 0
  }

  function SpawnAll(m: State, pids: seq<Pid>): State
    decreases |pids|
  {
    if pids == [] then m else SpawnAll(SpawnWorker(m, pids[0]), pids[1..])
  }

  /** How much a request for `size` sites takes; a size out of range means the full dataset size. */
  function DatasetLength(m: State, size: int): (n: int)
    requires m.config.datasetSize >= 1
    ensures 0 <= n <= |m.queue| && (m.queue != [] ==> n > 0)
  {
    var wanted := if size < 1 || size > m.config.datasetSize then m.config.datasetSize else size;
    if |m.queue| < wanted then |m.queue| else wanted
  }

  function AssignWork(m: State, pid: Pid, size: int): State
    requires m.config.datasetSize >= 1
  {
    if pid !in m.workers || pid in m.halted || m.queue == [] then m
    else
      var n := DatasetLength(m, size);
      m.(queue := m.queue[n..], cut := m.cut + m.queue[..n], out := m.out + [QueueAdd(pid, m.queue[..n], true)])
  }

  /** The next query of the round, or the timer to the next round. */
  function GetMoreSites(m: State): State {
    if m.endOfRound then m.(gettingSites := true, timers := m.timers + 1)
    else
      var next := Buckets.Advance(m.config.buckets, m.cursor);
      var last := Buckets.Wrapped(m.config.buckets, next);
      m.(gettingSites := true, queries := m.queries + 1, cursor := next, endOfRound := last,
         out := m.out + [Fetched(m.cursor.from, m.cursor.to, last)])
  }

  /** A worker asks for work. */
  function GiveWork(m: State, pid: Pid): State
    requires m.config.datasetSize >= 1
  {
    if |m.workers| > m.config.numWorkers then
      if pid in m.workers then m.(out := m.out + [EvaporateWorker(pid)]) else m
    else if m.queue == [] then
      var f := if pid !in m.halted && pid !in m.free then m.(free := m.free + [pid]) else m;
      if f.gettingSites then f else GetMoreSites(f)
    else AssignWork(m, pid, 0)
  }

  function Redistribute(m: State, pids: seq<Pid>): State
    requires m.config.datasetSize >= 1
    ensures Redistribute(m, pids).config == m.config
    decreases |pids|
  {
    if pids == [] then m
    else Redistribute(if pids[0] in m.workers then GiveWork(m, pids[0]) else m, pids[1..])
  }

  function FreeWorkersToWork(m: State): State
    requires m.config.datasetSize >= 1
  {
    if m.queue == [] then m else Redistribute(m.(free := []), m.free)
  }

  function FromRows(rows: seq<Row>): (sites: seq<Site>)
    ensures |sites| == |rows| && forall i :: 0 <= i < |sites| ==> sites[i] == FromRow(rows[i])
  {
    seq(|rows|, i requires 0 <= i < |rows| => FromRow(rows[i]))
  }

  /** The query's rows arrive. */
  function RowsArrive(m: State, rows: seq<Row>): State
    requires m.config.datasetSize >= 1
  {
    var a := m.(queries := m.queries - 1, rows := m.rows + rows);
    if rows == [] then GetMoreSites(a)
    else FreeWorkersToWork(a.(queue := a.queue + FromRows(rows), pushed := a.pushed + FromRows(rows),
                              gettingSites := false))
  }

  function RoundTimerFires(m: State): State {
    GetMoreSites(m.(timers := m.timers - 1, endOfRound := false))
  }

  function StopWorker(m: State, pid: Pid): State {
    if pid in m.halted || pid !in m.workers then m
    else m.(halted := m.halted + [pid], free := Drop(m.free, pid))
  }

  /** A worker's statistics say how much it has left; one with less than a window gets topped up. */
  function TopUp(m: State, pid: Pid, queueLength: int, pointer: int): State
    requires m.config.datasetSize >= 1
  {
    var left := if queueLength - pointer < 0 then 0 else queueLength - pointer;
    if left < m.config.numToProcess then AssignWork(m, pid, m.config.datasetSize - left) else m
  }

  // ------------------------------------------------------------------------------------------
  // Rechecks

  predicate Has(sites: seq<Site>, site: Site) {
    exists i :: 0 <= i < |sites| && sites[i].SameSite(site)
  }

  function AddLocal(m: State, site: Site): State {
    if Has(m.local, site) then m else m.(local := m.local + [site.(processed := false)])
  }

  function AskVerifliers(m: State, site: Site, now: int): State {
    m.(remote := m.remote + [Entry(m.tickets, site.blogId, site.url, site.siteStatus, site.lastCheck,
                                   site.lastStatusChange, site.checks, 0, false, 0, now, 0, site)],
       tickets := m.tickets + 1)
  }

  /** A report from a worker. */
  function Hear(m: State, pid: Pid, report: Report, now: int): State
    requires m.config.datasetSize >= 1
  {
    match report
    case SendWork => GiveWork(m, pid)
    case StopWork => StopWorker(m, pid)
    case Recheck(site) =>
      if |site.checks| < m.config.numOfChecks then AddLocal(m, site) else AskVerifliers(m, site, now)
    case StatusChange(site) => m.(out := m.out + [Notify(site)])
    case StillDown(site) => m.(out := m.out + [Notify(site.(siteStatus := ConfirmedDown))])
  }

  // ------------------------------------------------------------------------------------------
  // Veriflier replies and the five-second tick

  /** The first entry for a site, or the number of entries. */
  function EntryFor(remote: seq<Entry>, blogId: int, url: string): (i: nat)
    ensures i <= |remote|
    ensures i < |remote| ==> remote[i].blogId == blogId && remote[i].url == url
    ensures forall k :: 0 <= k < i ==> remote[k].blogId != blogId || remote[k].url != url
  {
    if remote == [] || (remote[0].blogId == blogId && remote[0].url == url) then 0
    else 1 + EntryFor(remote[1..], blogId, url)
  }

  /** What one reply does to its entry. */
  function Note(e: Entry, reply: CheckRecord, limit: int, now: int): Entry
    requires reply.Remote?
  {
    var confirms := e.offlineConfirms + (if reply.offline then 1 else 0);
    e.(requestsOutstanding := e.requestsOutstanding - 1,
       lastActivity := now,
       checks := e.checks + [reply],
       offlineConfirms := confirms,
       siteStatus := if reply.offline && confirms >= limit then Down else e.siteStatus)
  }

  /** A veriflier's reply goes to the first entry for its site. */
  function Reply(m: State, blogId: int, url: string, reply: CheckRecord, now: int): State
    requires reply.Remote?
  {
    var i := EntryFor(m.remote, blogId, url);
    if i == |m.remote| then m
    else
      var e := Note(m.remote[i], reply, m.config.peerOfflineLimit, now);
      m.(remote := m.remote[i := e],
         out := if reply.offline && e.offlineConfirms >= m.config.peerOfflineLimit
                then m.out + [NotifyDown(e)] else m.out)
  }

  function Replies(checks: seq<CheckRecord>): nat {
    if checks == [] then 0
    else Replies(checks[..|checks| - 1]) + (if checks[|checks| - 1].Remote? then 1 else 0)
  }

  function MarkSent(e: Entry, peers: nat): Entry {
    e.(requestsSent := true, requestsOutstanding := peers, early := Replies(e.checks))
  }

  /** All replies are in, or nothing happened for too long. */
  predicate Expired(e: Entry, config: Config, now: int) {
    e.requestsOutstanding <= 0 || now > e.lastActivity + config.requestTimeout
  }

  /** The entries a tick leaves, in order: the new ones marked as sent, the old ones unless expired. */
  function Kept(remote: seq<Entry>, config: Config, now: int): seq<Entry> {
    if remote == [] then []
    else (if !remote[0].requestsSent then [MarkSent(remote[0], config.peers)]
          else if Expired(remote[0], config, now) then []
          else [remote[0]]) + Kept(remote[1..], config, now)
  }

  /** The entries a tick sends, in the order of queueing. */
  function NewEntries(remote: seq<Entry>, config: Config): seq<Entry> {
    if remote == [] then []
    else (if !remote[0].requestsSent then [MarkSent(remote[0], config.peers)] else []) + NewEntries(remote[1..], config)
  }

  /** Cutting a list into batches of at most b, from its end. */
  function Batches(s: seq<Entry>, b: int): (r: seq<seq<Entry>>)
    requires b >= 1
    ensures forall i :: 0 <= i < |r| ==> 1 <= |r[i]| <= b
    decreases |s|
  {
    if s == [] then []
    else
      var n := if |s| < b then |s| else b;
      [s[|s| - n..]] + Batches(s[..|s| - n], b)
  }

  function ToPeers(batch: seq<Entry>, peers: nat): (r: seq<Output>)
    ensures |r| == peers && forall p :: 0 <= p < peers ==> r[p] == ToPeer(p, batch)
  {
    seq(peers, p requires 0 <= p < peers => ToPeer(p, batch))
  }

  function Posts(batches: seq<seq<Entry>>, peers: nat): seq<Output> {
    if batches == [] then [] else ToPeers(batches[0], peers) + Posts(batches[1..], peers)
  }

  function RemoteTick(m: State, now: int): State
    requires m.config.batchSize >= 1
  {
    m.(remote := Kept(m.remote, m.config, now),
       out := m.out + Posts(Batches(Reverse(NewEntries(m.remote, m.config)), m.config.batchSize), m.config.peers))
  }

  predicate IsDue(site: Site, config: Config, now: int) { now >= site.lastCheck + config.timeBetweenChecks }

  function Due(local: seq<Site>, config: Config, now: int): seq<Site> {
    if local == [] then []
    else (if IsDue(local[0], config, now) then [local[0]] else []) + Due(local[1..], config, now)
  }

  function NotDue(local: seq<Site>, config: Config, now: int): seq<Site> {
    if local == [] then []
    else (if IsDue(local[0], config, now) then [] else [local[0]]) + NotDue(local[1..], config, now)
  }

  /** The free workers that are alive. */
  function Able(free: seq<Pid>, workers: seq<Pid>): (r: seq<Pid>)
    ensures |r| <= |free|
  {
    if free == [] then [] else (if free[0] in workers then [free[0]] else []) + Able(free[1..], workers)
  }

  /** The free list without its first k living workers. */
  function WithoutAble(free: seq<Pid>, workers: seq<Pid>, k: nat): seq<Pid>
    requires k <= |Able(free, workers)|
  {
    if k == 0 then free
    else if free[0] in workers then WithoutAble(free[1..], workers, k - 1)
    else [free[0]] + WithoutAble(free[1..], workers, k)
  }

  lemma {:induction false} WithoutAbleAble(free: seq<Pid>, workers: seq<Pid>, k: nat)
    requires k <= |Able(free, workers)|
    ensures Able(WithoutAble(free, workers, k), workers) == Able(free, workers)[k..]
  {
    if k > 0 {
      if free[0] in workers {
        WithoutAbleAble(free[1..], workers, k - 1);
      } else {
        WithoutAbleAble(free[1..], workers, k);
      }
    }
  }

  function Handouts(pids: seq<Pid>, sites: seq<Site>): (r: seq<Output>)
    requires |pids| == |sites|
    ensures |r| == |pids| && forall i :: 0 <= i < |r| ==> r[i] == QueueAdd(pids[i], [sites[i]], false)
  {
    seq(|pids|, i requires 0 <= i < |pids| => QueueAdd(pids[i], [sites[i]], false))
  }

  /**
   The due retries, last first: as many as there are living free workers go to one such worker each,
   the rest to the end of the global queue.
   */
  function Dispatch(m: State, now: int): State {
    var due := Reverse(Due(m.local, m.config, now));
    var able := Able(m.free, m.workers);
    var k := if |able| < |due| then |able| else |due|;
    m.(local := NotDue(m.local, m.config, now),
       free := WithoutAble(m.free, m.workers, k),
       queue := m.queue + due[k..],
       pushed := m.pushed + due[k..],
       out := m.out + Handouts(able[..k], due[..k]))
  }

  function LocalTick(m: State, now: int): State
    requires m.config.datasetSize >= 1
  {
    var d := Dispatch(m, now);
    if |d.queue| > |m.queue| then FreeWorkersToWork(d) else d
  }

  function Tick(m: State, now: int): State
    requires m.config.batchSize >= 1 && m.config.datasetSize >= 1
  {
    LocalTick(RemoteTick(m, now), now)
  }
}
