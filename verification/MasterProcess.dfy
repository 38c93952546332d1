/** The master's module-level variables and handlers, each handler proved against its step of `Master`. */
module MasterObject {
  import opened Seqs
  import opened Sites
  import opened Master
  import opened Buckets

  class MasterProcess {
    const config: Config
    const db: BucketCursor
    var arrWorkers: seq<Pid>
    var freeWorkers: seq<Pid>
    var haltedWorkers: seq<Pid>
    var arrObjects: seq<Site>
    var localRetries: seq<Site>
    var queuedRetries: seq<Entry>
    var gettingSites: bool
    var endOfRound: bool
    /** Numbers the entries in the order of queueing; history, like the ghost fields below. */
    var tickets: nat
    /** The fetches in flight, and the histories. */
    ghost var queries: int
    ghost var timers: int
    ghost var rows: seq<Row>
    ghost var pushed: seq<Site>
    ghost var cut: seq<Site>
    ghost var out: seq<Output>

    ghost function Snapshot(): State
      reads this, db
    {
      State(config, arrWorkers, freeWorkers, haltedWorkers, arrObjects, localRetries, queuedRetries,
            gettingSites, endOfRound, Cursor(db.fromBucketNo, db.toBucketNo), queries, timers, tickets,
            rows, pushed, cut, out)
    }

    ghost predicate Valid()
      reads this
    {
      && db.range == config.buckets
      && config.datasetSize >= 1 && config.batchSize >= 1
      && Distinct(arrWorkers)
    }

    constructor (config: Config)
      requires config.datasetSize >= 1 && config.batchSize >= 1
      ensures Valid() && fresh(db) && this.config == config && Snapshot() == Initial(config)
    {
      this.config := config;
      db := new BucketCursor(config.buckets);
      arrWorkers, freeWorkers, haltedWorkers, arrObjects, localRetries, queuedRetries := [], [], [], [], [], [];
      gettingSites, endOfRound := false, false;
      queries, timers, tickets, rows, pushed, cut, out := 0, 0, 0, [], [], [], [];
    }

    // ----------------------------------------------------------------------------------------
    // Workers

    method GetWorker(pid: Pid) returns (found: bool)
      ensures found <==> pid in arrWorkers
    {
      for count := 0 to |arrWorkers|
        invariant pid !in arrWorkers[..count]
      {
        if arrWorkers[count] == pid {
          return true;
        }
      }
      return false;
    }

    /** Only the first entry with this pid is spliced out: the list holds no second one. */
    method DeleteWorker(pid: Pid)
      requires Valid()
      modifies this`arrWorkers, this`freeWorkers, this`haltedWorkers
      ensures Valid() && Snapshot() == Master.DeleteWorker(old(Snapshot()), pid)
    {
      var count := 0;
      while count < |arrWorkers| && arrWorkers[count] != pid
        invariant count <= |arrWorkers| && pid !in arrWorkers[..count]
      {
        count := count + 1;
      }
      if count < |arrWorkers| {
        DropIsWithout(arrWorkers, pid, count);
        arrWorkers := Without(arrWorkers, count);
      } else {
        DropAbsent(arrWorkers, pid);
      }
      freeWorkers := Drop(freeWorkers, pid);
      haltedWorkers := Drop(haltedWorkers, pid);
    }

    method SpawnWorker(pid: Pid)
      requires Valid()
      modifies this`arrWorkers, this`freeWorkers, this`haltedWorkers
      ensures Valid() && Snapshot() == Master.SpawnWorker(old(Snapshot()), pid)
    {
      DeleteWorker(pid);
      DistinctSnoc(arrWorkers, pid);
      arrWorkers := arrWorkers + [pid];
    }

    /** Spawns the workers that are missing; `pids` are those the operating system gives them. */
    method EnsureWorkerCount(pids: seq<Pid>)
      requires Valid() && |pids| == Missing(Snapshot())
      modifies this`arrWorkers, this`freeWorkers, this`haltedWorkers
      ensures Valid() && Snapshot() == SpawnAll(old(Snapshot()), pids)
      ensures Distinct(pids) && (forall p :: p in pids ==> p !in old(arrWorkers)) ==>
                |arrWorkers| >= config.numWorkers && Missing(Snapshot()) == 0
    {
      ghost var before := Snapshot();
      var maxWorkerCount, currentWorkerCount := config.numWorkers, |arrWorkers|;
      if currentWorkerCount < maxWorkerCount {
        var newWorkerCount := maxWorkerCount - currentWorkerCount;
        for loop := 0 to newWorkerCount
          invariant Valid() && SpawnAll(Snapshot(), pids[loop..]) == SpawnAll(before, pids)
        {
          SpawnWorker(pids[loop]);
        }
      }
      if Distinct(pids) && forall p :: p in pids ==> p !in before.workers {
        SpawnAllCounts(before, pids);
      }
    }

    // ----------------------------------------------------------------------------------------
    // The global queue

    /** A size out of range means a full dataset. */
    method GetWorkDataset(size: int) returns (data: seq<Site>)
      requires Valid()
      modifies this`arrObjects
      ensures data == old(arrObjects)[..DatasetLength(old(Snapshot()), size)]
      ensures arrObjects == old(arrObjects)[DatasetLength(old(Snapshot()), size)..]
    {
      var wanted := size;
      if size < 1 || size > config.datasetSize {
        wanted := config.datasetSize;
      }
      if |arrObjects| < 1 {
        return [];
      }
      var n := if |arrObjects| < wanted then |arrObjects| else wanted;
      data := arrObjects[..n];
      arrObjects := arrObjects[n..];
    }

    method AssignWorkToWorker(pid: Pid, size: int)
      requires Valid()
      modifies this`arrObjects, this`cut, this`out
      ensures Snapshot() == AssignWork(old(Snapshot()), pid, size)
    {
      var worker := GetWorker(pid);
      if !worker {
        return;
      }
      if pid in haltedWorkers {
        return;
      }
      var dataset := GetWorkDataset(size);
      if |dataset| == 0 {
        return;
      }
      cut := cut + dataset;
      out := out + [QueueAdd(pid, dataset, true)];
    }

    method GetMoreSites()
      requires Valid()
      modifies this`gettingSites, this`endOfRound, this`queries, this`timers, this`out, db
      ensures Snapshot() == Master.GetMoreSites(old(Snapshot()))
    {
      gettingSites := true;
      if endOfRound {
        timers := timers + 1;
        return;
      }
      var lo, hi, done := db.GetNextBatch();
      endOfRound := done;
      queries := queries + 1;
      out := out + [Fetched(lo, hi, done)];
    }

    method OnSendWork(pid: Pid)
      requires Valid()
      modifies this`freeWorkers, this`arrObjects, this`gettingSites, this`endOfRound, this`queries, this`timers,
               this`cut, this`out, db
      ensures Snapshot() == GiveWork(old(Snapshot()), pid)
    {
      if |arrWorkers| > config.numWorkers {
        var w := GetWorker(pid);
        if w {
          out := out + [EvaporateWorker(pid)];
        }
        return;
      }
      if 0 == |arrObjects| {
        if pid !in haltedWorkers && pid !in freeWorkers {
          freeWorkers := freeWorkers + [pid];
        }
        if !gettingSites {
          gettingSites := true;
          GetMoreSites();
        }
      } else {
        AssignWorkToWorker(pid, 0);
      }
    }

    method FreeWorkersToWork()
      requires Valid()
      modifies this`freeWorkers, this`arrObjects, this`gettingSites, this`endOfRound, this`queries, this`timers,
               this`cut, this`out, db
      ensures Snapshot() == Master.FreeWorkersToWork(old(Snapshot()))
    {
      if 0 == |arrObjects| {
        return;
      }
      var tmpWorkers := freeWorkers;
      freeWorkers := [];
      for i := 0 to |tmpWorkers|
        invariant Redistribute(Snapshot(), tmpWorkers[i..]) == Master.FreeWorkersToWork(old(Snapshot()))
      {
        assert tmpWorkers[i..][0] == tmpWorkers[i] && tmpWorkers[i..][1..] == tmpWorkers[i + 1..];
        var live := GetWorker(tmpWorkers[i]);
        if live {
          OnSendWork(tmpWorkers[i]);
        }
      }
      assert tmpWorkers[|tmpWorkers|..] == [];
    }

    /** The callback of a bucket query. */
    method OnRows(fetched: seq<Row>)
      requires Valid() && queries > 0
      modifies this`freeWorkers, this`arrObjects, this`gettingSites, this`endOfRound, this`queries, this`timers,
               this`rows, this`pushed, this`cut, this`out, db
      ensures Snapshot() == RowsArrive(old(Snapshot()), fetched)
    {
      queries := queries - 1;
      rows := rows + fetched;
      if 0 == |fetched| {
        GetMoreSites();
        return;
      }
      PushRows(fetched);
      gettingSites := false;
      assert Snapshot() == old(Snapshot()).(queries := queries, rows := rows, gettingSites := false,
                                            queue := old(arrObjects) + FromRows(fetched),
                                            pushed := old(pushed) + FromRows(fetched));
      FreeWorkersToWork();
    }

    /** Every row becomes an unprocessed site at the end of the global queue. */
    method PushRows(fetched: seq<Row>)
      modifies this`arrObjects, this`pushed
      ensures arrObjects == old(arrObjects) + FromRows(fetched) && pushed == old(pushed) + FromRows(fetched)
    {
      for i := 0 to |fetched|
        invariant arrObjects == old(arrObjects) + FromRows(fetched)[..i]
        invariant pushed == old(pushed) + FromRows(fetched)[..i]
      {
        arrObjects := arrObjects + [FromRow(fetched[i])];
        pushed := pushed + [FromRow(fetched[i])];
      }
      assert FromRows(fetched)[..|fetched|] == FromRows(fetched);
    }

    method OnRoundTimer()
      requires Valid() && timers > 0
      modifies this`gettingSites, this`endOfRound, this`queries, this`timers, this`out, db
      ensures Snapshot() == RoundTimerFires(old(Snapshot()))
    {
      timers := timers - 1;
      endOfRound := false;
      GetMoreSites();
    }

    method OnStopWork(pid: Pid)
      modifies this`freeWorkers, this`haltedWorkers
      ensures Snapshot() == StopWorker(old(Snapshot()), pid)
    {
      var live := GetWorker(pid);
      if pid !in haltedWorkers && live {
        haltedWorkers := haltedWorkers + [pid];
        freeWorkers := Drop(freeWorkers, pid);
      }
    }

    method OnStats(pid: Pid, queueLength: int, pointer: int)
      requires Valid()
      modifies this`arrObjects, this`cut, this`out
      ensures Snapshot() == TopUp(old(Snapshot()), pid, queueLength, pointer)
    {
      var queueLeftToProcess := if queueLength - pointer < 0 then 0 else queueLength - pointer;
      if queueLeftToProcess < config.numToProcess {
        AssignWorkToWorker(pid, config.datasetSize - queueLeftToProcess);
      }
    }

    // ----------------------------------------------------------------------------------------
    // Rechecks and replies

    method AddServerToLocalRetries(server: Site)
      modifies this`localRetries
      ensures Snapshot() == AddLocal(old(Snapshot()), server)
    {
      var found := false;
      for loop := 0 to |localRetries|
        invariant forall k :: 0 <= k < loop ==> !localRetries[k].SameSite(server)
      {
        if localRetries[loop].SameSite(server) {
          found := true;
          break;
        }
      }
      if !found {
        localRetries := localRetries + [server.(processed := false)];
      }
    }

    method HostCheckRequest(server: Site, now: int)
      modifies this`queuedRetries, this`tickets
      ensures Snapshot() == AskVerifliers(old(Snapshot()), server, now)
    {
      var checkServer := Entry(tickets, server.blogId, server.url, server.siteStatus, server.lastCheck,
                               server.lastStatusChange, server.checks, 0, false, 0, now, 0, server);
      queuedRetries := queuedRetries + [checkServer];
      tickets := tickets + 1;
    }

    method OnRecheck(server: Site, now: int)
      modifies this`localRetries, this`queuedRetries, this`tickets
      ensures forall pid :: old(Valid()) ==> Snapshot() == Hear(old(Snapshot()), pid, Recheck(server), now)
    {
      if |server.checks| < config.numOfChecks {
        AddServerToLocalRetries(server);
      } else {
        HostCheckRequest(server, now);
      }
    }

    /** A 'notify_status_change' message. */
    method OnStatusChange(server: Site)
      modifies this`out
      ensures Snapshot() == old(Snapshot()).(out := old(out) + [Notify(server)])
    {
      out := out + [Notify(server)];
    }

    /** A 'notify_still_down' message falls through to the one above. */
    method OnStillDown(server: Site)
      modifies this`out
      ensures Snapshot() == old(Snapshot()).(out := old(out) + [Notify(server.(siteStatus := ConfirmedDown))])
    {
      var confirmed := server.(siteStatus := ConfirmedDown);
      OnStatusChange(confirmed);
    }

    /** What a worker's message makes the master do. */
    method WorkerMsgCallback(pid: Pid, report: Report, now: int)
      requires Valid()
      modifies this, db
      ensures Snapshot() == Hear(old(Snapshot()), pid, report, now)
    {
      match report
      case SendWork => OnSendWork(pid);
      case StopWork => OnStopWork(pid);
      case Recheck(server) => OnRecheck(server, now);
      case StatusChange(server) => OnStatusChange(server);
      case StillDown(server) => OnStillDown(server);
    }

    /** The first entry for the site takes the reply; from the limit on, every offline reply raises a notification. */
    method CheckHostStatus(blogId: int, url: string, reply: CheckRecord, now: int)
      requires reply.Remote?
      modifies this`queuedRetries, this`out
      ensures Snapshot() == Reply(old(Snapshot()), blogId, url, reply, now)
    {
      var loop := 0;
      while loop < |queuedRetries| && (queuedRetries[loop].blogId != blogId || queuedRetries[loop].url != url)
        invariant loop <= EntryFor(queuedRetries, blogId, url)
        decreases |queuedRetries| - loop
      {
        loop := loop + 1;
      }
      if loop < |queuedRetries| {
        var e := queuedRetries[loop];
        e := e.(requestsOutstanding := e.requestsOutstanding - 1, lastActivity := now);
        e := e.(checks := e.checks + [reply]);
        if reply.offline {
          e := e.(offlineConfirms := e.offlineConfirms + 1);
          if e.offlineConfirms >= config.peerOfflineLimit {
            e := e.(siteStatus := Down);
            out := out + [NotifyDown(e)];
          }
        }
        queuedRetries := queuedRetries[loop := e];
      }
    }

    // ----------------------------------------------------------------------------------------
    // The tick

    method ProcessQueuedRetries(now: int)
      requires Valid()
      modifies this, db
      ensures Snapshot() == Tick(old(Snapshot()), now)
    {
      AskAboutEntries(now);
      SendOutRetries(now);
    }

    /** The part of the tick that is about the entries for the verifliers. */
    method AskAboutEntries(now: int)
      requires Valid()
      modifies this`queuedRetries, this`out
      ensures Snapshot() == RemoteTick(old(Snapshot()), now)
    {
      var sendRetries := SortOutEntries(now);
      SendToPeers(sendRetries);
    }

    /** The part that is about the sites for another local check. */
    method SendOutRetries(now: int)
      requires Valid()
      modifies this, db
      ensures Snapshot() == LocalTick(old(Snapshot()), now)
    {
      var addedWork := DispatchDue(now);
      if addedWork {
        FreeWorkersToWork();
      }
    }

    /** The first loop: new entries are marked and collected, expired ones spliced out, from the end. */
    method SortOutEntries(now: int) returns (sendRetries: seq<Entry>)
      modifies this`queuedRetries
      ensures queuedRetries == Kept(old(queuedRetries), config, now)
      ensures sendRetries == Reverse(NewEntries(old(queuedRetries), config))
    {
      ghost var all := queuedRetries;
      ghost var done: seq<Entry> := [];
      sendRetries := [];
      var loop := |queuedRetries| - 1;
      assert all[|all|..] == [];
      while loop >= 0
        invariant -1 <= loop < |all|
        invariant queuedRetries == all[..loop + 1] + done
        invariant done == Kept(all[loop + 1..], config, now)
        invariant sendRetries == Reverse(NewEntries(all[loop + 1..], config))
      {
        KeptUnfold(all, loop, config, now);
        NewUnfold(all, loop, config);
        TakeOut(all, loop, done);
        var e := queuedRetries[loop];
        if !e.requestsSent {
          var marked := MarkSent(e, config.peers);
          PutIn(all, loop, done, marked);
          sendRetries := sendRetries + [marked];
          queuedRetries := queuedRetries[loop := marked];
          done := [marked] + done;
        } else if e.requestsOutstanding <= 0 || now > e.lastActivity + config.requestTimeout {
          queuedRetries := Without(queuedRetries, loop);
        } else {
          done := [e] + done;
        }
        loop := loop - 1;
      }
      assert all[0..] == all;
    }

    /** The second loop: batches are cut off the end of the list, each goes to every peer. */
    method SendToPeers(all: seq<Entry>)
      requires config.batchSize >= 1
      modifies this`out
      ensures out == old(out) + Posts(Batches(all, config.batchSize), config.peers)
    {
      var sendRetries := all;
      var loop := |sendRetries| - 1;
      while loop >= 0
        invariant loop == |sendRetries| - 1 || (loop < 0 && sendRetries == [])
        invariant out + Posts(Batches(sendRetries, config.batchSize), config.peers)
               == old(out) + Posts(Batches(all, config.batchSize), config.peers)
        decreases loop + 1
      {
        var sending := if config.batchSize < |sendRetries| then config.batchSize else |sendRetries|;
        var batchData := sendRetries[|sendRetries| - sending..];
        NextBatch(out, sendRetries, sending, config);
        sendRetries := sendRetries[..|sendRetries| - sending];
        Broadcast(batchData);
        loop := loop - config.batchSize;
      }
    }

    /** One batch goes to every peer. */
    method Broadcast(batchData: seq<Entry>)
      modifies this`out
      ensures out == old(out) + ToPeers(batchData, config.peers)
    {
      for peer := 0 to config.peers
        invariant out == old(out) + ToPeers(batchData, config.peers)[..peer]
      {
        out := out + [ToPeer(peer, batchData)];
      }
      assert ToPeers(batchData, config.peers)[..config.peers] == ToPeers(batchData, config.peers);
    }

    /** The third loop: due retries go to living free workers, or to the end of the queue, from the end. */
    method DispatchDue(now: int) returns (addedWork: bool)
      requires Valid()
      modifies this`localRetries, this`freeWorkers, this`arrObjects, this`pushed, this`out
      ensures Snapshot() == Dispatch(old(Snapshot()), now)
      ensures addedWork <==> |arrObjects| > |old(arrObjects)|
    {
      ghost var m, p := Snapshot(), Progress([], [], [], [], [], []);
      addedWork, p := DispatchLoop(now, m);
      pushed := pushed + p.queued;
      ProgressEnd(m, now, p);
    }

    method DispatchLoop(now: int, ghost m: State) returns (addedWork: bool, ghost p: Progress)
      requires m.config == config && m.workers == arrWorkers && m.local == localRetries && m.free == freeWorkers
      requires m.queue == arrObjects && m.out == out
      modifies this`localRetries, this`freeWorkers, this`arrObjects, this`out
      ensures p.Reached(m, 0, now) && p.Matches(localRetries, freeWorkers, arrObjects, out)
      ensures addedWork <==> p.queued != []
    {
      p := Progress(localRetries, freeWorkers, arrObjects, out, [], []);
      ProgressStart(m, now);
      addedWork := false;
      var loop := |localRetries| - 1;
      while loop >= 0
        invariant -1 <= loop < |m.local|
        invariant p.Reached(m, loop + 1, now) && p.Matches(localRetries, freeWorkers, arrObjects, out)
        invariant addedWork <==> p.queued != []
      {
        var added;
        added, p := DispatchOne(loop, now, m, p);
        if added {
          addedWork := true;
        }
        loop := loop - 1;
      }
    }

    method DispatchOne(loop: nat, now: int, ghost m: State, ghost p: Progress) returns (added: bool, ghost r: Progress)
      requires m.config == config && m.workers == arrWorkers && loop < |m.local|
      requires p.Reached(m, loop + 1, now) && p.Matches(localRetries, freeWorkers, arrObjects, out)
      modifies this`localRetries, this`freeWorkers, this`arrObjects, this`out
      ensures r.Reached(m, loop, now) && r.Matches(localRetries, freeWorkers, arrObjects, out)
      ensures r.queued != [] <==> p.queued != [] || added
    {
      ProgressAt(m, loop, now, p);
      added := Retry(loop, now, m.free, |p.direct|);
      r := ProgressStep(m, loop, now, p, Progress(localRetries, freeWorkers, arrObjects, out, [], []));
    }

    /** One round of the third loop: the retry at this position stays, goes to a worker, or joins the queue. */
    method Retry(loop: nat, now: int, ghost free: seq<Pid>, ghost k: nat) returns (addedWork: bool)
      requires loop < |localRetries|
      requires k <= |Able(free, arrWorkers)| && freeWorkers == WithoutAble(free, arrWorkers, k)
      modifies this`localRetries, this`freeWorkers, this`arrObjects, this`out
      ensures addedWork <==> IsDue(old(localRetries[loop]), config, now) && k == |Able(free, arrWorkers)|
      ensures localRetries == if IsDue(old(localRetries[loop]), config, now) then Without(old(localRetries), loop)
                              else old(localRetries)
      ensures arrObjects == old(arrObjects) + (if addedWork then [old(localRetries[loop])] else [])
      ensures var sent := IsDue(old(localRetries[loop]), config, now) && !addedWork;
        && freeWorkers == WithoutAble(free, arrWorkers, if sent then k + 1 else k)
        && out == old(out) + (if sent then [QueueAdd(Able(free, arrWorkers)[k], [old(localRetries[loop])], false)]
                              else [])
    {
      var server := localRetries[loop];
      if now < server.lastCheck + config.timeBetweenChecks {
        return false;
      }
      localRetries := Without(localRetries, loop);
      var sent := HandOut(server, free, k);
      if !sent {
        arrObjects := arrObjects + [server];
      }
      return !sent;
    }

    /** Sends one site to the first free worker that is alive, if there is one. */
    method HandOut(server: Site, ghost free: seq<Pid>, ghost k: nat) returns (sent: bool)
      requires k <= |Able(free, arrWorkers)| && freeWorkers == WithoutAble(free, arrWorkers, k)
      modifies this`freeWorkers, this`out
      ensures sent <==> k < |Able(free, arrWorkers)|
      ensures !sent ==> freeWorkers == old(freeWorkers) && out == old(out)
      ensures sent ==> freeWorkers == WithoutAble(free, arrWorkers, k + 1)
      ensures sent ==> out == old(out) + [QueueAdd(Able(free, arrWorkers)[k], [server], false)]
    {
      var i := FirstLive();
      WithoutAbleAble(free, arrWorkers, k);
      if i < |freeWorkers| {
        WithoutAbleNext(free, arrWorkers, k, i);
        out := out + [QueueAdd(freeWorkers[i], [server], false)];
        freeWorkers := Without(freeWorkers, i);
        return true;
      }
      NoneLive(freeWorkers, arrWorkers);
      return false;
    }

    /** The position of the first free worker that is alive, or the length of the list. */
    method FirstLive() returns (i: nat)
      ensures i <= |freeWorkers|
      ensures i < |freeWorkers| ==> freeWorkers[i] in arrWorkers
      ensures forall j :: 0 <= j < i ==> freeWorkers[j] !in arrWorkers
    {
      i := 0;
      while i < |freeWorkers|
        invariant i <= |freeWorkers| && forall j :: 0 <= j < i ==> freeWorkers[j] !in arrWorkers
      {
        var live := GetWorker(freeWorkers[i]);
        if live {
          return;
        }
        i := i + 1;
      }
    }
  }

  lemma {:induction false} DropAbsent(pids: seq<Pid>, pid: Pid)
    requires pid !in pids
    ensures Drop(pids, pid) == pids
  {
    if pids != [] {
      DropAbsent(pids[1..], pid);
    }
  }

  lemma {:induction false} DropIsWithout(pids: seq<Pid>, pid: Pid, i: nat)
    requires Distinct(pids) && i < |pids| && pids[i] == pid
    ensures Drop(pids, pid) == Without(pids, i) && Distinct(Without(pids, i))
  {
    if i == 0 {
      DropAbsent(pids[1..], pid);
    } else {
      DropIsWithout(pids[1..], pid, i - 1);
    }
  }

  /** New processes have new pids: each adds one worker. */
  lemma {:induction false} SpawnAllCounts(m: State, pids: seq<Pid>)
    requires Distinct(pids) && forall p :: p in pids ==> p !in m.workers
    ensures |SpawnAll(m, pids).workers| == |m.workers| + |pids| && SpawnAll(m, pids).config == m.config
    decreases |pids|
  {
    if pids != [] {
      DropAbsent(m.workers, pids[0]);
      SpawnAllCounts(Master.SpawnWorker(m, pids[0]), pids[1..]);
    }
  }

  /** Splicing out the first living worker. */
  lemma {:induction false} FirstLiveOut(free: seq<Pid>, workers: seq<Pid>, i: nat)
    requires i < |free| && free[i] in workers && forall j :: 0 <= j < i ==> free[j] !in workers
    ensures Able(free, workers) != [] && free[i] == Able(free, workers)[0]
    ensures Without(free, i) == WithoutAble(free, workers, 1)
  {
    if i == 0 {
      assert WithoutAble(free, workers, 1) == WithoutAble(free[1..], workers, 0);
    } else {
      assert free[0] !in workers;
      FirstLiveOut(free[1..], workers, i - 1);
      assert Without(free, i) == [free[0]] + Without(free[1..], i - 1);
    }
  }

  lemma {:induction false} WithoutAbleOneMore(free: seq<Pid>, workers: seq<Pid>, k: nat)
    requires k < |Able(free, workers)|
    ensures |Able(WithoutAble(free, workers, k), workers)| > 0
    ensures WithoutAble(WithoutAble(free, workers, k), workers, 1) == WithoutAble(free, workers, k + 1)
  {
    WithoutAbleAble(free, workers, k);
    if k > 0 {
      if free[0] in workers {
        WithoutAbleOneMore(free[1..], workers, k - 1);
      } else {
        WithoutAbleOneMore(free[1..], workers, k);
        var rest := WithoutAble(free[1..], workers, k);
        assert ([free[0]] + rest)[1..] == rest;
        WithoutAbleAble(free[1..], workers, k);
      }
    }
  }

  lemma {:induction false} NoneLive(free: seq<Pid>, workers: seq<Pid>)
    requires forall j :: 0 <= j < |free| ==> free[j] !in workers
    ensures Able(free, workers) == []
  {
    if free != [] {
      NoneLive(free[1..], workers);
    }
  }

  /** Taking the first living worker out of what is left takes out the next one. */
  lemma WithoutAbleNext(free: seq<Pid>, workers: seq<Pid>, k: nat, i: nat)
    requires k <= |Able(free, workers)|
    requires var left := WithoutAble(free, workers, k);
      i < |left| && left[i] in workers && forall j :: 0 <= j < i ==> left[j] !in workers
    ensures var left := WithoutAble(free, workers, k);
      && k < |Able(free, workers)| && left[i] == Able(free, workers)[k]
      && Without(left, i) == WithoutAble(free, workers, k + 1)
  {
    FirstLiveOut(WithoutAble(free, workers, k), workers, i);
    WithoutAbleAble(free, workers, k);
    WithoutAbleOneMore(free, workers, k);
  }

  lemma NextBatch(out: seq<Output>, s: seq<Entry>, n: nat, config: Config)
    requires config.batchSize >= 1 && s != []
    requires n == if config.batchSize < |s| then config.batchSize else |s|
    ensures out + Posts(Batches(s, config.batchSize), config.peers)
         == (out + ToPeers(s[|s| - n..], config.peers)) + Posts(Batches(s[..|s| - n], config.batchSize), config.peers)
  {
    BatchesFirst(s, config.batchSize, n);
    PostFirst(out, s[|s| - n..], Batches(s[..|s| - n], config.batchSize), config.peers);
  }

  lemma BatchesFirst(s: seq<Entry>, b: int, n: nat)
    requires b >= 1 && s != [] && n == if b < |s| then b else |s|
    ensures Batches(s, b) == [s[|s| - n..]] + Batches(s[..|s| - n], b)
  {
  }

  lemma PostFirst(out: seq<Output>, batch: seq<Entry>, rest: seq<seq<Entry>>, peers: nat)
    ensures out + Posts([batch] + rest, peers) == (out + ToPeers(batch, peers)) + Posts(rest, peers)
  {
    assert ([batch] + rest)[1..] == rest;
    assert Posts([batch] + rest, peers) == ToPeers(batch, peers) + Posts(rest, peers);
  }

  lemma AppendAssoc<T>(a: seq<T>, b: seq<T>, x: T)
    ensures a + b + [x] == a + (b + [x])
  {
  }

  lemma TakeOut<T>(all: seq<T>, i: nat, rest: seq<T>)
    requires i < |all|
    ensures all[..i + 1] + rest == all[..i] + ([all[i]] + rest)
    ensures Without(all[..i + 1] + rest, i) == all[..i] + rest
    ensures (all[..i + 1] + rest)[i] == all[i]
  {
  }

  lemma PutIn<T>(all: seq<T>, i: nat, rest: seq<T>, x: T)
    requires i < |all|
    ensures (all[..i + 1] + rest)[i := x] == all[..i] + ([x] + rest)
  {
  }

  lemma HandoutsSnoc(able: seq<Pid>, direct: seq<Site>, server: Site)
    requires |direct| < |able|
    ensures Handouts(able[..|direct| + 1], direct + [server])
         == Handouts(able[..|direct|], direct) + [QueueAdd(able[|direct|], [server], false)]
  {
  }

  /** How far the third loop has come: its variables, and the retries it has handed out and queued. */
  datatype Progress = Progress(
    local: seq<Site>, free: seq<Pid>, queue: seq<Site>, out: seq<Output>, direct: seq<Site>, queued: seq<Site>)
  {
    ghost predicate Matches(local: seq<Site>, free: seq<Pid>, queue: seq<Site>, out: seq<Output>) {
      this.local == local && this.free == free && this.queue == queue && this.out == out
    }

    /** The retries from position i on have been dealt with. */
    ghost predicate Reached(m: State, i: nat, now: int)
    {
      var able := Able(m.free, m.workers);
      && i <= |m.local|
      && direct + queued == Reverse(Due(m.local[i..], m.config, now))
      && local == m.local[..i] + NotDue(m.local[i..], m.config, now)
      && |direct| <= |able| && (queued != [] ==> |direct| == |able|)
      && free == WithoutAble(m.free, m.workers, |direct|)
      && queue == m.queue + queued
      && out == m.out + Handouts(able[..|direct|], direct)
    }
  }

  lemma ProgressStart(m: State, now: int)
    ensures Progress(m.local, m.free, m.queue, m.out, [], []).Reached(m, |m.local|, now)
  {
    assert m.local[|m.local|..] == [] && m.local[..|m.local|] == m.local;
    assert Able(m.free, m.workers)[..0] == [];
  }

  /** The retry to be looked at next stands where it stood at the start. */
  lemma ProgressAt(m: State, i: nat, now: int, p: Progress)
    requires i < |m.local| && p.Reached(m, i + 1, now)
    ensures i < |p.local| && p.local[i] == m.local[i]
  {
  }

  /** What one round of the loop did to the variables takes the progress one position on. */
  lemma ProgressStep(m: State, i: nat, now: int, p: Progress, q: Progress) returns (r: Progress)
    requires i < |m.local| && p.Reached(m, i + 1, now)
    requires var due, able := IsDue(m.local[i], m.config, now), Able(m.free, m.workers);
      var added := due && |p.direct| == |able|;
      && q.local == (if due then Without(p.local, i) else p.local)
      && q.free == WithoutAble(m.free, m.workers, if due && !added then |p.direct| + 1 else |p.direct|)
      && q.queue == p.queue + (if added then [m.local[i]] else [])
      && q.out == p.out + (if due && !added then [QueueAdd(able[|p.direct|], [m.local[i]], false)] else [])
    ensures r.Reached(m, i, now)
    ensures r.local == q.local && r.free == q.free && r.queue == q.queue && r.out == q.out
    ensures r.queued != [] <==> p.queued != [] || |q.queue| > |p.queue|
  {
    var server := m.local[i];
    if !IsDue(server, m.config, now) {
      r := p;
      RetryStays(m, i, now, p);
    } else if |p.direct| == |Able(m.free, m.workers)| {
      r := q.(direct := p.direct, queued := p.queued + [server]);
      RetryQueued(m, i, now, p, r);
    } else {
      r := q.(direct := p.direct + [server], queued := []);
      RetryDirect(m, i, now, p, r);
    }
  }

  lemma RetryStays(m: State, i: nat, now: int, p: Progress)
    requires i < |m.local| && p.Reached(m, i + 1, now) && !IsDue(m.local[i], m.config, now)
    ensures p.Reached(m, i, now)
  {
    DueUnfold(m.local, i, m.config, now);
    TakeOut(m.local, i, NotDue(m.local[i + 1..], m.config, now));
  }

  lemma RetryQueued(m: State, i: nat, now: int, p: Progress, r: Progress)
    requires i < |m.local| && p.Reached(m, i + 1, now) && IsDue(m.local[i], m.config, now)
    requires |p.direct| == |Able(m.free, m.workers)|
    requires r == p.(local := Without(p.local, i), queue := p.queue + [m.local[i]], queued := p.queued + [m.local[i]])
    ensures r.Reached(m, i, now)
  {
    DueUnfold(m.local, i, m.config, now);
    TakeOut(m.local, i, NotDue(m.local[i + 1..], m.config, now));
    AppendAssoc(m.queue, p.queued, m.local[i]);
    AppendAssoc(p.direct, p.queued, m.local[i]);
  }

  lemma RetryDirect(m: State, i: nat, now: int, p: Progress, r: Progress)
    requires i < |m.local| && p.Reached(m, i + 1, now) && IsDue(m.local[i], m.config, now)
    requires |p.direct| < |Able(m.free, m.workers)|
    requires var order := QueueAdd(Able(m.free, m.workers)[|p.direct|], [m.local[i]], false);
      r == p.(local := Without(p.local, i), free := WithoutAble(m.free, m.workers, |p.direct| + 1),
              out := p.out + [order], direct := p.direct + [m.local[i]], queued := [])
    ensures r.Reached(m, i, now)
  {
    var able := Able(m.free, m.workers);
    DueUnfold(m.local, i, m.config, now);
    TakeOut(m.local, i, NotDue(m.local[i + 1..], m.config, now));
    HandoutsSnoc(able, p.direct, m.local[i]);
    AppendAssoc(m.out, Handouts(able[..|p.direct|], p.direct), QueueAdd(able[|p.direct|], [m.local[i]], false));
    assert p.queued == [] && r.direct + r.queued == (p.direct + p.queued) + [m.local[i]];
  }

  lemma ProgressEnd(m: State, now: int, p: Progress)
    requires p.Reached(m, 0, now)
    ensures Dispatch(m, now)
         == m.(local := p.local, free := p.free, queue := p.queue, pushed := m.pushed + p.queued, out := p.out)
  {
    assert m.local[0..] == m.local && m.local[..0] == [];
    var due := p.direct + p.queued;
    assert due[..|p.direct|] == p.direct && due[|p.direct|..] == p.queued;
  }

  lemma KeptUnfold(all: seq<Entry>, i: nat, config: Config, now: int)
    requires i < |all|
    ensures var e := all[i];
      Kept(all[i..], config, now) == (if !e.requestsSent then [MarkSent(e, config.peers)]
                                      else if Expired(e, config, now) then []
                                      else [e]) + Kept(all[i + 1..], config, now)
  {
    assert all[i..][0] == all[i] && all[i..][1..] == all[i + 1..];
  }

  lemma NewUnfold(all: seq<Entry>, i: nat, config: Config)
    requires i < |all|
    ensures Reverse(NewEntries(all[i..], config)) == Reverse(NewEntries(all[i + 1..], config))
              + (if !all[i].requestsSent then [MarkSent(all[i], config.peers)] else [])
  {
    assert all[i..][0] == all[i] && all[i..][1..] == all[i + 1..];
    var rest := NewEntries(all[i + 1..], config);
    if !all[i].requestsSent {
      assert ([MarkSent(all[i], config.peers)] + rest)[1..] == rest;
    } else {
      assert [] + rest == rest;
    }
  }

  lemma DueUnfold(all: seq<Site>, i: nat, config: Config, now: int)
    requires i < |all|
    ensures var due := IsDue(all[i], config, now);
      && Reverse(Due(all[i..], config, now)) == Reverse(Due(all[i + 1..], config, now)) + (if due then [all[i]] else [])
      && NotDue(all[i..], config, now) == (if due then [] else [all[i]]) + NotDue(all[i + 1..], config, now)
  {
    assert all[i..][0] == all[i] && all[i..][1..] == all[i + 1..];
    var rest := Due(all[i + 1..], config, now);
    if IsDue(all[i], config, now) {
      assert ([all[i]] + rest)[1..] == rest;
    } else {
      assert [] + rest == rest;
    }
  }
}
