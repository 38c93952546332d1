/** The worker's module-level variables and handlers, each handler proved against its step of `Worker`. */
module WorkerObject {
  import opened Seqs
  import opened Sites
  import opened Worker

  class WorkerProcess {
    const config: Config
    var arrCheck: seq<Site>
    var running: bool
    var askedForWork: bool
    var availableForWork: bool
    var suicideSignal: bool
    var pointer: nat
    var activeChecks: int
    var totalChecks: int
    /** Why the process exited; no handler runs after that. */
    var exit: Exit
    /** The pending callbacks and start timer of the event loop, and the histories. */
    ghost var outstanding: set<nat>
    ghost var timer: bool
    ghost var queued: seq<(int, string)>
    ghost var started: seq<(int, string)>
    ghost var sent: seq<Report>

    ghost function Snapshot(): State
      reads this
    {
      State(config, arrCheck, running, askedForWork, availableForWork, suicideSignal, pointer,
            activeChecks, totalChecks, outstanding, timer, exit, queued, started)
    }

    constructor (config: Config, totalChecks: int)
      ensures this.config == config && Snapshot() == Initial(config, totalChecks) && sent == []
      ensures Healthy(Snapshot())
    {
      this.config := config;
      arrCheck, running, askedForWork, availableForWork, suicideSignal := [], false, false, true, false;
      pointer, activeChecks, this.totalChecks, exit := 0, 0, totalChecks, Alive;
      outstanding, timer, queued, started, sent := {}, false, [], [], [];
    }

    /** Hands the site at the pointer to the native checker. */
    method StartCheck()
      requires pointer < |arrCheck|
      modifies this`activeChecks, this`totalChecks, this`pointer, this`outstanding, this`started
      ensures Snapshot() == StartNext(old(Snapshot()))
    {
      activeChecks := activeChecks + 1;
      totalChecks := totalChecks + 1;
      outstanding := outstanding + {pointer};
      started := started + [Id(arrCheck[pointer])];
      pointer := pointer + 1;
    }

    /** The start timer. */
    method CheckServers()
      requires exit == Alive && timer
      modifies this`activeChecks, this`totalChecks, this`pointer, this`outstanding, this`started, this`timer
      ensures Snapshot() == Worker.CheckServers(old(Snapshot()))
    {
      var pointerCurrentMax := pointer + config.numToProcess;
      if pointerCurrentMax > |arrCheck| {
        pointerCurrentMax := |arrCheck|;
      }
      timer := false;
      while pointer < pointerCurrentMax
        invariant pointerCurrentMax == Min(old(pointer) + config.numToProcess, |arrCheck|)
        invariant StartUpTo(Snapshot(), pointerCurrentMax) == Worker.CheckServers(old(Snapshot()))
        decreases pointerCurrentMax - pointer
      {
        StartCheck();
      }
    }

    /** Counts the sites of the queue that have not been processed. */
    method WaitingFor() returns (waitingFor: nat)
      ensures waitingFor == Unprocessed(arrCheck)
    {
      waitingFor := 0;
      for count := 0 to |arrCheck|
        invariant waitingFor + Unprocessed(arrCheck[count..]) == Unprocessed(arrCheck)
      {
        if !arrCheck[count].processed {
          waitingFor := waitingFor + 1;
        }
      }
    }

    /** The callback of a check. */
    method ProcessResultsCallback(index: nat, rtt: int, code: int, errorCode: int, now: int, overMemory: bool)
      requires exit == Alive && index < |arrCheck|
      modifies this
      ensures var (w, reports) := ProcessResult(old(Snapshot()), index, rtt, code, errorCode, now, overMemory);
        Snapshot() == w && sent == old(sent) + reports
    {
      RecordResult(index, rtt, code, errorCode, now);
      assert Snapshot() == Take(old(Snapshot()), index, rtt, code, errorCode, now);
      if pointer < |arrCheck| {
        StartCheck();
      } else {
        QueueExhausted(overMemory);
      }
    }

    /** The callback's first half: the verdict goes into the site's record and, on a change, to the master. */
    method RecordResult(index: nat, rtt: int, code: int, errorCode: int, now: int)
      requires index < |arrCheck|
      modifies this`activeChecks, this`outstanding, this`arrCheck, this`sent
      ensures Snapshot() == Take(old(Snapshot()), index, rtt, code, errorCode, now)
      ensures sent == old(sent) + ReportsOn(Record(config, old(arrCheck[index]), rtt, code, errorCode, now))
    {
      activeChecks := activeChecks - 1;
      outstanding := outstanding - {index};

      var server := arrCheck[index];
      server := server.(processed := true, lastCheck := now);
      if rtt > 0 && 400 > code && 0 != code {
        server := server.(siteStatus := Running);
      } else if server.oldStatus == Running
             || (server.oldStatus != ConfirmedDown && now < server.lastStatusChange + config.timeBetweenNotices) {
        server := server.(siteStatus := Down);
      } else {
        server := server.(siteStatus := ConfirmedDown);
      }
      if server.siteStatus != server.oldStatus {
        server := server.(checks := server.checks + [Local(server.siteStatus, Millis(rtt), code, errorCode, now)]);
        if server.siteStatus == Down {
          sent := sent + [Recheck(server)];
        } else if server.siteStatus != ConfirmedDown {
          sent := sent + [StatusChange(server)];
        } else {
          sent := sent + [StillDown(server)];
        }
      }
      arrCheck := arrCheck[index := server];
    }

    /** The callback's branch for a pointer at the end of the queue. */
    method QueueExhausted(overMemory: bool)
      modifies this`availableForWork, this`askedForWork, this`arrCheck, this`running, this`exit, this`sent
      ensures var (w, reports) := AtEnd(old(Snapshot()), overMemory);
        Snapshot() == w && sent == old(sent) + reports
    {
      if availableForWork && (suicideSignal || overMemory || totalChecks > config.maxChecks) {
        availableForWork := false;
        sent := sent + [StopWork];
      }
      var waitingFor := WaitingFor();
      if 0 == waitingFor {
        if !availableForWork {
          if suicideSignal {
            exit := Suicide;
          } else if totalChecks > config.maxChecks {
            exit := MaxChecks;
          } else {
            exit := MaxMemory;
          }
          return;
        }
        arrCheck := [];
        running := false;
      }
      if availableForWork && !askedForWork {
        askedForWork := true;
        sent := sent + [SendWork];
      }
    }

    method Append(payload: seq<Site>)
      modifies this`arrCheck
      ensures arrCheck == old(arrCheck) + payload
    {
      for count := 0 to |payload|
        invariant arrCheck == old(arrCheck) + payload[..count]
      {
        arrCheck := arrCheck + [payload[count]];
      }
      assert payload[..|payload|] == payload;
    }

    /** A 'queue-add' message. */
    method OnQueueAdd(payload: seq<Site>)
      requires exit == Alive
      modifies this`askedForWork, this`queued, this`arrCheck, this`pointer, this`running, this`timer
      ensures Snapshot() == QueueAdd(old(Snapshot()), payload)
      ensures old(Healthy(Snapshot())) && GoodPayload(payload) ==> Healthy(Snapshot())
    {
      ghost var before := Snapshot();
      askedForWork := false;
      queued := queued + Ids(payload);
      if running {
        Append(payload);
      } else {
        arrCheck := payload;
        pointer := 0;
        running := true;
        timer := true;
      }
      if Healthy(before) && GoodPayload(payload) {
        QueueAddHealthy(before, payload);
      }
    }

    /** An 'evaporate' message. */
    method OnEvaporate()
      requires exit == Alive
      modifies this`exit, this`suicideSignal
      ensures Snapshot() == Evaporate(old(Snapshot()))
      ensures old(Healthy(Snapshot())) ==> Healthy(Snapshot())
    {
      ghost var before := Snapshot();
      if !running {
        exit := Suicide;
      } else {
        suicideSignal := true;
      }
      if Healthy(before) {
        EvaporateHealthy(before);
      }
    }

    /** The first request for work. */
    method AskForWork()
      requires exit == Alive
      modifies this`askedForWork, this`sent
      ensures Snapshot() == AskFirst(old(Snapshot())).0 && sent == old(sent) + AskFirst(old(Snapshot())).1
    {
      askedForWork := true;
      sent := sent + [SendWork];
    }
  }
}
