/**
 A worker process: a window of outstanding checks that moves over a growing queue of sites, the
 verdict on every result, and the protocol by which a worker asks for work and retires.
 `WorkerProcess` is the object that works on these steps in place.
 */
module Worker {
  import opened Seqs
  import opened Sites

  datatype Config = Config(numToProcess: int, timeBetweenNotices: int, maxChecks: int)

  datatype Exit = Alive | Suicide | MaxMemory | MaxChecks

  /**
   `outstanding` holds the positions whose callback is still to come and `timer` says that the start
   timer is pending.  `queued` and `started` are histories: the sites received, and the sites whose
   check was started, in order.
   */
  datatype State = State(
    config: Config,
    arrCheck: seq<Site>,
    running: bool,
    askedForWork: bool,
    availableForWork: bool,
    suicide: bool,
    pointer: nat,
    activeChecks: int,
    totalChecks: int,
    outstanding: set<nat>,
    timer: bool,
    exit: Exit,
    queued: seq<(int, string)>,
    started: seq<(int, string)>)

  function Initial(config: Config, totalChecks: int): State {
    State(config, [], false, false, true, false, 0, 0, totalChecks, {}, false, Alive, [], [])
  }

  function Id(site: Site): (int, string) { (site.blogId, site.url) }

  function Ids(sites: seq<Site>): (r: seq<(int, string)>)
    ensures |r| == |sites| && forall i :: 0 <= i < |r| ==> r[i] == Id(sites[i])
  {
    seq(|sites|, i requires 0 <= i < |sites| => Id(sites[i]))
  }

  // ------------------------------------------------------------------------------------------
  // Steps

  /** Starting the check at the pointer. */
  function StartNext(w: State): State
    requires w.pointer < |w.arrCheck|
  {
    w.(activeChecks := w.activeChecks + 1,
       totalChecks := w.totalChecks + 1,
       outstanding := w.outstanding + {w.pointer},
       started := w.started + [Id(w.arrCheck[w.pointer])],
       pointer := w.pointer + 1)
  }

  function StartUpTo(w: State, limit: int): State
    requires limit <= |w.arrCheck|
    decreases limit - w.pointer
  {
    if w.pointer < limit then StartUpTo(StartNext(w), limit) else w
  }

  function Min(a: int, b: int): int { if a < b then a else b }

  /** The start timer fires: the first window of checks. */
  function CheckServers(w: State): State {
    StartUpTo(w.(timer := false), Min(w.pointer + w.config.numToProcess, |w.arrCheck|))
  }

  /** The verdict on a result. */
  function Judge(config: Config, site: Site, rtt: int, code: int, now: int): Status {
    if rtt > 0 && 400 > code && 0 != code then Running
    else if site.oldStatus == Running
            || (site.oldStatus != ConfirmedDown && now < site.lastStatusChange + config.timeBetweenNotices)
    then Down
    else ConfirmedDown
  }

  /** Milliseconds from microseconds, rounded half up. */
  function Millis(rtt: int): int { (rtt + 500) / 1000 }

  /** The site record after a result; a record is added to its history only on a change of status. */
  function Record(config: Config, site: Site, rtt: int, code: int, errorCode: int, now: int): Site {
    var status := Judge(config, site, rtt, code, now);
    site.(processed := true,
          lastCheck := now,
          siteStatus := status,
          checks := if status == site.oldStatus then site.checks
                    else site.checks + [Local(status, Millis(rtt), code, errorCode, now)])
  }

  function ReportsOn(site: Site): seq<Report> {
    if site.siteStatus == site.oldStatus then []
    else match site.siteStatus
      case Down => [Recheck(site)]
      case Running => [StatusChange(site)]
      case ConfirmedDown => [StillDown(site)]
  }

  function Unprocessed(sites: seq<Site>): nat {
    if sites == [] then 0 else (if sites[0].processed then 0 else 1) + Unprocessed(sites[1..])
  }

  /** The result of a check: the record is updated, in place, at its position. */
  function Take(w: State, index: nat, rtt: int, code: int, errorCode: int, now: int): State
    requires index < |w.arrCheck|
  {
    w.(activeChecks := w.activeChecks - 1,
       outstanding := w.outstanding - {index},
       arrCheck := w.arrCheck[index := Record(w.config, w.arrCheck[index], rtt, code, errorCode, now)])
  }

  function Retiring(w: State, overMemory: bool): bool {
    w.availableForWork && (w.suicide || overMemory || w.totalChecks > w.config.maxChecks)
  }

  function ExitCode(w: State): Exit {
    if w.suicide then Suicide else if w.totalChecks > w.config.maxChecks then MaxChecks else MaxMemory
  }

  /** What happens once the pointer is at the end of the queue. */
  function AtEnd(w: State, overMemory: bool): (State, seq<Report>) {
    var stops := Retiring(w, overMemory);
    var a := if stops then w.(availableForWork := false) else w;
    var done := Unprocessed(a.arrCheck) == 0;
    if done && !a.availableForWork then
      (a.(exit := ExitCode(a)), if stops then [StopWork] else [])
    else
      var b := if done then a.(arrCheck := [], running := false) else a;
      if b.availableForWork && !b.askedForWork then (b.(askedForWork := true), [SendWork])
      else (b, if stops then [StopWork] else [])
  }

  /** A check's callback. */
  function ProcessResult(w: State, index: nat, rtt: int, code: int, errorCode: int, now: int, overMemory: bool)
    : (State, seq<Report>)
    requires index < |w.arrCheck|
  {
    var a := Take(w, index, rtt, code, errorCode, now);
    if a.pointer < |a.arrCheck| then (StartNext(a), ReportsOn(a.arrCheck[index]))
    else
      var (b, reports) := AtEnd(a, overMemory);
      (b, ReportsOn(a.arrCheck[index]) + reports)
  }

  /** A payload from the master. */
  function QueueAdd(w: State, payload: seq<Site>): State {
    var v := w.(askedForWork := false, queued := w.queued + Ids(payload));
    if v.running then v.(arrCheck := v.arrCheck + payload)
    else v.(arrCheck := payload, pointer := 0, running := true, timer := true)
  }

  function Evaporate(w: State): State {
    if !w.running then w.(exit := Suicide) else w.(suicide := true)
  }

  /** Two seconds after its start a worker asks for work for the first time. */
  function AskFirst(w: State): (State, seq<Report>) {
    (w.(askedForWork := true), [SendWork])
  }

  // ------------------------------------------------------------------------------------------
  // The window

  /** What has been received and not yet started. */
  function Waiting(w: State): seq<Site> {
    if w.running && w.pointer <= |w.arrCheck| then w.arrCheck[w.pointer..] else []
  }

  /** The outstanding callbacks are the unprocessed positions below the pointer. */
  ghost predicate WindowExact(w: State) {
    && (forall i :: i in w.outstanding <==> 0 <= i < w.pointer && i < |w.arrCheck| && !w.arrCheck[i].processed)
    && (forall i :: w.pointer <= i < |w.arrCheck| ==> !w.arrCheck[i].processed)
    && w.activeChecks == |w.outstanding|
    && w.activeChecks <= Max0(w.config.numToProcess)
  }

  function Max0(a: int): nat { if a < 0 then 0 else a }

  ghost predicate Sound(w: State) {
    && WindowExact(w)
    && w.queued == w.started + Ids(Waiting(w))
    && (w.running ==> w.pointer <= |w.arrCheck|)
    && (!w.running ==> w.arrCheck == [] && !w.timer)
    && (w.timer ==> w.pointer == 0 && w.arrCheck != [])
  }

  /** A running worker whose start timer has fired always has a check outstanding. */
  ghost predicate NoStall(w: State) {
    w.running && !w.timer && w.exit == Alive ==> w.outstanding != {}
  }

  /** A process that has exited left nothing unprocessed behind. */
  ghost predicate NothingLost(w: State) {
    w.exit != Alive ==> Unprocessed(w.arrCheck) == 0 && Waiting(w) == []
  }

  ghost predicate Healthy(w: State) { Sound(w) && NoStall(w) && NothingLost(w) }

  /** What the master guarantees about a payload. */
  ghost predicate GoodPayload(payload: seq<Site>) {
    payload != [] && forall i :: 0 <= i < |payload| ==> !payload[i].processed
  }

  lemma InitialHealthy(config: Config, totalChecks: int)
    ensures Healthy(Initial(config, totalChecks))
  {
  }

  lemma {:induction false} UnprocessedZero(sites: seq<Site>)
    ensures Unprocessed(sites) == 0 <==> forall i :: 0 <= i < |sites| ==> sites[i].processed
  {
    if sites != [] {
      UnprocessedZero(sites[1..]);
      assert forall i :: 0 < i < |sites| ==> sites[i] == sites[1..][i - 1];
    }
  }

  lemma {:induction false} UnprocessedUpdate(sites: seq<Site>, i: nat, site: Site)
    requires i < |sites|
    ensures Unprocessed(sites[i := site])
         == Unprocessed(sites) - (if sites[i].processed then 0 else 1) + (if site.processed then 0 else 1)
  {
    if i == 0 {
      assert sites[0 := site][1..] == sites[1..];
    } else {
      assert sites[i := site][1..] == sites[1..][i - 1 := site];
      UnprocessedUpdate(sites[1..], i - 1, site);
    }
  }

  lemma StartNextWindow(w: State)
    requires WindowExact(w) && w.pointer < |w.arrCheck| && w.activeChecks < w.config.numToProcess
    ensures WindowExact(StartNext(w)) && w.pointer in StartNext(w).outstanding
  {
    assert w.pointer !in w.outstanding;
    var v := StartNext(w);
    forall i ensures i in v.outstanding <==> 0 <= i < v.pointer && i < |v.arrCheck| && !v.arrCheck[i].processed {
      assert i in v.outstanding <==> i in w.outstanding || i == w.pointer;
    }
  }

  lemma QueueStep(queued: seq<(int, string)>, started: seq<(int, string)>, waiting: seq<Site>)
    requires waiting != [] && queued == started + Ids(waiting)
    ensures queued == (started + [Id(waiting[0])]) + Ids(waiting[1..])
  {
    HeadMoves(started, Ids(waiting));
    assert Ids(waiting)[1..] == Ids(waiting[1..]);
  }

  lemma QueueGrows(queued: seq<(int, string)>, started: seq<(int, string)>, waiting: seq<Site>, more: seq<Site>)
    requires queued == started + Ids(waiting)
    ensures queued + Ids(more) == started + Ids(waiting + more)
  {
    assert Ids(waiting + more) == Ids(waiting) + Ids(more);
    assert (started + Ids(waiting)) + Ids(more) == started + (Ids(waiting) + Ids(more));
  }

  lemma StartNextSound(w: State)
    requires Sound(w) && w.running && !w.timer
    requires w.pointer < |w.arrCheck| && w.activeChecks < w.config.numToProcess
    ensures Sound(StartNext(w)) && StartNext(w).outstanding != {}
  {
    StartNextWindow(w);
    StartNextQueue(w);
  }

  lemma StartNextQueue(w: State)
    requires w.running && w.pointer < |w.arrCheck| && w.queued == w.started + Ids(Waiting(w))
    ensures StartNext(w).queued == StartNext(w).started + Ids(Waiting(StartNext(w)))
  {
    QueueStep(w.queued, w.started, Waiting(w));
    assert Waiting(StartNext(w)) == Waiting(w)[1..];
  }

  lemma {:induction false} StartUpToSound(w: State, limit: int)
    requires limit <= |w.arrCheck|
    requires Sound(w) && w.running && !w.timer
    requires w.activeChecks + limit - w.pointer <= w.config.numToProcess
    ensures Sound(StartUpTo(w, limit)) && StartUpTo(w, limit).running && !StartUpTo(w, limit).timer
    ensures StartUpTo(w, limit).exit == w.exit
    ensures w.outstanding != {} || w.pointer < limit ==> StartUpTo(w, limit).outstanding != {}
    decreases limit - w.pointer
  {
    if w.pointer < limit {
      StartNextSound(w);
      StartUpToSound(StartNext(w), limit);
    }
  }

  /** The start timer opens a window of at most numToProcess checks and at least one. */
  lemma CheckServersHealthy(w: State)
    requires Healthy(w) && w.exit == Alive && w.timer && w.config.numToProcess >= 1
    ensures Healthy(CheckServers(w))
  {
    TimerSound(w);
    StartUpToSound(w.(timer := false), Min(w.pointer + w.config.numToProcess, |w.arrCheck|));
  }

  lemma TimerSound(w: State)
    requires Sound(w) && w.timer
    ensures w.running && w.outstanding == {} && w.activeChecks == 0
    ensures Sound(w.(timer := false))
  {
    assert w.outstanding == {};
    assert Waiting(w.(timer := false)) == Waiting(w);
  }

  lemma TakeSound(w: State, index: nat, rtt: int, code: int, errorCode: int, now: int)
    requires Sound(w) && index in w.outstanding
    ensures var v := Take(w, index, rtt, code, errorCode, now);
      && Sound(v) && v.running && !v.timer && v.activeChecks < v.config.numToProcess
      && Unprocessed(v.arrCheck) == Unprocessed(w.arrCheck) - 1
  {
    var v := Take(w, index, rtt, code, errorCode, now);
    UnprocessedUpdate(w.arrCheck, index, v.arrCheck[index]);
    assert Ids(Waiting(v)) == Ids(Waiting(w));
  }

  /** The flags play no part in the window. */
  lemma FlagsSound(w: State, v: State)
    requires Sound(w)
    requires v == w.(askedForWork := v.askedForWork, availableForWork := v.availableForWork, exit := v.exit)
    ensures Sound(v)
  {
    assert Waiting(v) == Waiting(w);
  }

  /** At the end of the queue nothing is outstanding exactly when nothing is unprocessed. */
  lemma OutstandingAtEnd(w: State)
    requires Sound(w) && w.running && w.pointer >= |w.arrCheck|
    ensures w.outstanding == {} <==> Unprocessed(w.arrCheck) == 0
    ensures Waiting(w) == []
  {
    UnprocessedZero(w.arrCheck);
    if Unprocessed(w.arrCheck) != 0 {
      var i :| 0 <= i < |w.arrCheck| && !w.arrCheck[i].processed;
      assert i in w.outstanding;
    }
  }

  lemma Recycled(w: State)
    requires Sound(w) && w.running && !w.timer && w.pointer >= |w.arrCheck| && w.outstanding == {}
    ensures Sound(w.(arrCheck := [], running := false))
  {
    OutstandingAtEnd(w);
  }

  lemma AtEndHealthy(w: State, overMemory: bool)
    requires Sound(w) && w.running && !w.timer && w.pointer >= |w.arrCheck|
    requires w.exit == Alive
    ensures Healthy(AtEnd(w, overMemory).0)
    ensures AtEnd(w, overMemory).0.exit != w.exit ==> Unprocessed(w.arrCheck) == 0
    ensures AtEnd(w, overMemory).0.arrCheck != w.arrCheck ==> Unprocessed(w.arrCheck) == 0
  {
    OutstandingAtEnd(w);
    var v := AtEnd(w, overMemory).0;
    if v.running {
      FlagsSound(w, v);
    } else {
      Recycled(w);
      FlagsSound(w.(arrCheck := [], running := false), v);
    }
  }

  /**
   A callback keeps the window exact, leaves a running worker with a check outstanding, retires one
   site, and lets go of the queue (or of the process) only when nothing in it is unprocessed.
   */
  lemma ProcessResultHealthy(w: State, index: nat, rtt: int, code: int, errorCode: int, now: int, overMemory: bool)
    requires Healthy(w) && w.exit == Alive && index in w.outstanding
    ensures var v := ProcessResult(w, index, rtt, code, errorCode, now, overMemory).0;
      && Healthy(v)
      && (v.exit != w.exit || !v.running ==>
            forall i :: 0 <= i < |w.arrCheck| && i != index ==> w.arrCheck[i].processed)
      && Unprocessed(v.arrCheck) == Unprocessed(w.arrCheck) - 1
  {
    TakeSound(w, index, rtt, code, errorCode, now);
    var a := Take(w, index, rtt, code, errorCode, now);
    if a.pointer < |a.arrCheck| {
      StartNextSound(a);
    } else {
      AtEndHealthy(a, overMemory);
      UnprocessedZero(a.arrCheck);
    }
  }

  lemma QueueAddHealthy(w: State, payload: seq<Site>)
    requires Healthy(w) && w.exit == Alive && GoodPayload(payload)
    ensures Healthy(QueueAdd(w, payload))
  {
    var v := QueueAdd(w, payload);
    if w.running {
      assert Waiting(v) == Waiting(w) + payload;
      QueueGrows(w.queued, w.started, Waiting(w), payload);
    } else {
      assert w.outstanding == {};
      assert Waiting(v) == Waiting(w) + payload;
      QueueGrows(w.queued, w.started, Waiting(w), payload);
    }
  }

  /** An idle worker that is given unprocessed sites gets going if and only if there is one, and a window. */
  lemma GetsGoingIff(w: State, payload: seq<Site>)
    requires Healthy(w) && w.exit == Alive && !w.running
    requires forall i :: 0 <= i < |payload| ==> !payload[i].processed
    ensures NoStall(CheckServers(QueueAdd(w, payload))) <==> payload != [] && w.config.numToProcess >= 1
  {
    var v := QueueAdd(w, payload);
    assert w.outstanding == {};
    if payload != [] && w.config.numToProcess >= 1 {
      QueueAddHealthy(w, payload);
      CheckServersHealthy(v);
    } else {
      assert CheckServers(v) == v.(timer := false);
    }
  }

  /** The reports by old status and result: up again, down for the first time, down for long enough. */
  lemma VerdictTable(config: Config, site: Site, rtt: int, code: int, errorCode: int, now: int)
    ensures var up := rtt > 0 && code < 400 && code != 0;
      var s := Record(config, site, rtt, code, errorCode, now);
      ReportsOn(s) ==
        if up then (if site.oldStatus == Running then [] else [StatusChange(s)])
        else match site.oldStatus
          case Running => [Recheck(s)]
          case ConfirmedDown => []
          case Down => if now < site.lastStatusChange + config.timeBetweenNotices then [] else [StillDown(s)]
  {
  }

  // ------------------------------------------------------------------------------------------
  // Runs

  datatype Event =
    | TimerFires
    | Result(index: nat, rtt: int, code: int, errorCode: int, now: int, overMemory: bool)
    | Payload(sites: seq<Site>)
    | EvaporateAsked
    | FirstAsk

  ghost predicate Enabled(w: State, e: Event) {
    && w.exit == Alive
    && match e
       case TimerFires => w.timer
       case Result(index, _, _, _, _, _) => index in w.outstanding
       case Payload(sites) => GoodPayload(sites)
       case _ => true
  }

  ghost function Next(w: State, e: Event): State
    requires Enabled(w, e)
    requires e.Result? ==> e.index < |w.arrCheck|
  {
    match e
    case TimerFires => CheckServers(w)
    case Result(index, rtt, code, errorCode, now, overMemory) =>
      ProcessResult(w, index, rtt, code, errorCode, now, overMemory).0
    case Payload(sites) => QueueAdd(w, sites)
    case EvaporateAsked => Evaporate(w)
    case FirstAsk => AskFirst(w).0
  }

  lemma NextHealthy(w: State, e: Event)
    requires Healthy(w) && w.config.numToProcess >= 1 && Enabled(w, e)
    ensures Healthy(Next(w, e))
  {
    match e
    case TimerFires => CheckServersHealthy(w);
    case Result(index, rtt, code, errorCode, now, overMemory) =>
      ProcessResultHealthy(w, index, rtt, code, errorCode, now, overMemory);
    case Payload(sites) => QueueAddHealthy(w, sites);
    case EvaporateAsked => EvaporateHealthy(w);
    case FirstAsk => FlagsHealthy(w, w.(askedForWork := true));
  }

  lemma ResultFrame(w: State, index: nat, rtt: int, code: int, errorCode: int, now: int, overMemory: bool)
    requires index < |w.arrCheck|
    ensures var v := ProcessResult(w, index, rtt, code, errorCode, now, overMemory).0;
      v.config == w.config && v.queued == w.queued
  {
    AtEndFrame(Take(w, index, rtt, code, errorCode, now), overMemory);
  }

  lemma AtEndFrame(w: State, overMemory: bool)
    ensures var v := AtEnd(w, overMemory).0; v.config == w.config && v.queued == w.queued
  {
  }

  lemma NextFrame(w: State, e: Event)
    requires Enabled(w, e) && (e.Result? ==> e.index < |w.arrCheck|)
    ensures Next(w, e).config == w.config
    ensures !e.Payload? ==> Next(w, e).queued == w.queued
    ensures e.TimerFires? || e.EvaporateAsked? || e.FirstAsk? ==> Next(w, e).arrCheck == w.arrCheck
  {
    match e
    case TimerFires => StartUpToConfig(w.(timer := false), Min(w.pointer + w.config.numToProcess, |w.arrCheck|));
    case Result(index, rtt, code, errorCode, now, overMemory) =>
      ResultFrame(w, index, rtt, code, errorCode, now, overMemory);
    case _ =>
  }

  ghost function Step(w: State, e: Event): (v: State)
    requires Healthy(w) && w.config.numToProcess >= 1 && Enabled(w, e)
    ensures Healthy(v) && v.config == w.config
  {
    NextHealthy(w, e);
    NextFrame(w, e);
    Next(w, e)
  }

  lemma {:induction false} StartUpToConfig(w: State, limit: int)
    requires limit <= |w.arrCheck|
    ensures StartUpTo(w, limit).config == w.config && StartUpTo(w, limit).arrCheck == w.arrCheck
    ensures StartUpTo(w, limit).queued == w.queued
    ensures StartUpTo(w, limit).exit == w.exit && StartUpTo(w, limit).availableForWork == w.availableForWork
    decreases limit - w.pointer
  {
    if w.pointer < limit {
      StartUpToConfig(StartNext(w), limit);
    }
  }

  lemma FlagsHealthy(w: State, v: State)
    requires Healthy(w)
    requires v == w.(askedForWork := v.askedForWork, suicide := v.suicide)
    ensures Healthy(v)
  {
    assert Waiting(v) == Waiting(w);
  }

  lemma EvaporateHealthy(w: State)
    requires Healthy(w) && w.exit == Alive
    ensures Healthy(Evaporate(w))
  {
    assert Waiting(Evaporate(w)) == Waiting(w);
  }

  ghost predicate IsRun(w: State, es: seq<Event>)
    requires Healthy(w) && w.config.numToProcess >= 1
    decreases |es|
  {
    es == [] || (Enabled(w, es[0]) && IsRun(Step(w, es[0]), es[1..]))
  }

  /** A worker that only gets good payloads is healthy after every run. */
  ghost function Run(w: State, es: seq<Event>): (v: State)
    requires Healthy(w) && w.config.numToProcess >= 1 && IsRun(w, es)
    ensures Healthy(v) && v.config == w.config
    decreases |es|
  {
    if es == [] then w else Run(Step(w, es[0]), es[1..])
  }

  /** In every run the sites are started in the order received, each once: what is left is the window's right side. */
  lemma StartedInOrder(config: Config, totalChecks: int, es: seq<Event>)
    requires config.numToProcess >= 1
    requires Healthy(Initial(config, totalChecks)) && IsRun(Initial(config, totalChecks), es)
    ensures var w := Run(Initial(config, totalChecks), es);
      w.started <= w.queued && w.queued[|w.started|..] == Ids(Waiting(w)) && |w.outstanding| <= config.numToProcess
  {
    var w := Run(Initial(config, totalChecks), es);
    assert w.queued == w.started + Ids(Waiting(w));
  }

  function Results(es: seq<Event>): nat {
    if es == [] then 0 else (if es[0].Result? then 1 else 0) + Results(es[1..])
  }

  /** Nothing a running worker waits for can still happen. */
  ghost predicate Stuck(w: State) {
    w.exit == Alive ==> !w.timer && w.outstanding == {}
  }

  /**
   Without new payloads every callback retires exactly one site, so the number of callbacks left is
   known; and a worker gets stuck only when it has started and processed everything it was given.
   */
  lemma {:induction false} WorkerDrains(w: State, es: seq<Event>)
    requires Healthy(w) && w.config.numToProcess >= 1 && IsRun(w, es)
    requires forall i :: 0 <= i < |es| ==> !es[i].Payload?
    ensures Results(es) + Unprocessed(Run(w, es).arrCheck) == Unprocessed(w.arrCheck)
    ensures Stuck(Run(w, es)) ==> Unprocessed(Run(w, es).arrCheck) == 0 && Run(w, es).started == w.queued
    decreases |es|
  {
    if es == [] {
      if Stuck(w) {
        StuckIsDone(w);
      }
    } else {
      var e := es[0];
      NextFrame(w, e);
      if e.Result? {
        ProcessResultHealthy(w, e.index, e.rtt, e.code, e.errorCode, e.now, e.overMemory);
      }
      WorkerDrains(Step(w, e), es[1..]);
    }
  }

  lemma StuckIsDone(w: State)
    requires Healthy(w) && Stuck(w)
    ensures Unprocessed(w.arrCheck) == 0 && w.started == w.queued
  {
    assert Waiting(w) == [] && Ids(Waiting(w)) == [];
  }
}
