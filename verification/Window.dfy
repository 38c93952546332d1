/**
 The worker's window is as wide as it may be, and narrows only where the program lets it; what a result
 leaves on record; and when a worker asks for work, retires and exits.
 */
module Window {
  import opened Seqs
  import opened Sites
  import opened Worker
  import P = Pipeline
  import R = Redirects

  // ------------------------------------------------------------------------------------------
  // The start timer

  /** Starting up to a limit starts every site from the pointer on, once, in order. */
  lemma {:induction false} StartUpToStarts(w: State, limit: int)
    requires w.pointer <= limit <= |w.arrCheck|
    ensures var v := StartUpTo(w, limit); var n := limit - w.pointer;
      && v.pointer == limit && v.activeChecks == w.activeChecks + n && v.totalChecks == w.totalChecks + n
      && v.started == w.started + Ids(w.arrCheck[w.pointer..limit])
      && v == w.(pointer := v.pointer, activeChecks := v.activeChecks, totalChecks := v.totalChecks,
                 outstanding := v.outstanding, started := v.started)
    decreases limit - w.pointer
  {
    if w.pointer < limit {
      var u := StartNext(w);
      StartUpToStarts(u, limit);
      StartedJoin(w.started, w.arrCheck, w.pointer, limit);
    } else {
      assert w.started + Ids(w.arrCheck[w.pointer..limit]) == w.started;
    }
  }

  lemma StartedJoin(started: seq<(int, string)>, sites: seq<Site>, i: nat, limit: nat)
    requires i < limit <= |sites|
    ensures started + [Id(sites[i])] + Ids(sites[i + 1..limit]) == started + Ids(sites[i..limit])
  {
    assert Ids(sites[i..limit]) == [Id(sites[i])] + Ids(sites[i + 1..limit]);
  }

  /**
   The start timer opens the whole window: the smaller of numToProcess and the length of the list, that many
   checks are outstanding, and exactly the first sites of the list have been started, in order.
   */
  lemma TimerOpensWindow(w: State)
    requires Healthy(w) && w.exit == Alive && w.timer && w.config.numToProcess >= 1
    ensures var v := CheckServers(w);
      var n := if w.config.numToProcess < |w.arrCheck| then w.config.numToProcess else |w.arrCheck|;
      && v.pointer == n && v.activeChecks == n && |v.outstanding| == n
      && v.totalChecks == w.totalChecks + n
      && v.started == w.started + Ids(w.arrCheck[..n])
      && v.arrCheck == w.arrCheck && v.running && !v.timer
  {
    TimerSound(w);
    StartUpToStarts(w.(timer := false), Min(w.pointer + w.config.numToProcess, |w.arrCheck|));
    CheckServersHealthy(w);
    assert w.arrCheck[0..Min(w.config.numToProcess, |w.arrCheck|)]
        == w.arrCheck[..Min(w.config.numToProcess, |w.arrCheck|)];
  }

  // ------------------------------------------------------------------------------------------
  // How wide the window is

  /** A callback starts the next site of the list, if there is one, in the place of its own. */
  lemma ResultMovesWindow(w: State, index: nat, rtt: int, code: int, errorCode: int, now: int, overMemory: bool)
    requires Healthy(w) && w.exit == Alive && index in w.outstanding
    ensures var v := ProcessResult(w, index, rtt, code, errorCode, now, overMemory).0;
      && (w.pointer < |w.arrCheck| ==>
            && v.activeChecks == w.activeChecks && v.pointer == w.pointer + 1
            && v.totalChecks == w.totalChecks + 1
            && v.outstanding == w.outstanding - {index} + {w.pointer}
            && v.started == w.started + [Id(w.arrCheck[w.pointer])])
      && (w.pointer >= |w.arrCheck| ==>
            && v.activeChecks == w.activeChecks - 1 && v.started == w.started && v.totalChecks == w.totalChecks)
  {
  }

  /** How many callbacks of a run find nothing left to start. */
  ghost function Idled(w: State, es: seq<Event>): nat
    requires Healthy(w) && w.config.numToProcess >= 1 && IsRun(w, es)
    decreases |es|
  {
    if es == [] then 0
    else (if es[0].Result? && w.pointer >= |w.arrCheck| then 1 else 0) + Idled(Step(w, es[0]), es[1..])
  }

  /**
   After the start timer the window has exactly its width then, less the callbacks that found nothing left
   to start; payloads that arrive later do not widen it again.
   */
  lemma {:induction false} WindowWidth(w: State, es: seq<Event>)
    requires Healthy(w) && w.config.numToProcess >= 1 && IsRun(w, es)
    requires forall i :: 0 <= i < |es| ==> !es[i].TimerFires?
    ensures Run(w, es).activeChecks == w.activeChecks - Idled(w, es)
    decreases |es|
  {
    if es != [] {
      var e := es[0];
      if e.Result? {
        ResultMovesWindow(w, e.index, e.rtt, e.code, e.errorCode, e.now, e.overMemory);
      }
      WindowWidth(Step(w, e), es[1..]);
    }
  }

  /** While no callback has found the list at its end, exactly numToProcess checks of a long list are outstanding. */
  lemma FullUntilEnd(w: State, es: seq<Event>)
    requires Healthy(w) && w.exit == Alive && w.timer && w.config.numToProcess >= 1
    requires |w.arrCheck| >= w.config.numToProcess && IsRun(w, [TimerFires] + es)
    requires forall i :: 0 <= i < |es| ==> !es[i].TimerFires?
    ensures var v := Run(w, [TimerFires] + es);
      v.activeChecks == w.config.numToProcess - Idled(w, [TimerFires] + es)
  {
    assert ([TimerFires] + es)[1..] == es;
    TimerOpensWindow(w);
    WindowWidth(Step(w, TimerFires), es);
  }

  // ------------------------------------------------------------------------------------------
  // What a result leaves on record

  /** The nearest millisecond, halves upwards. */
  lemma MillisNearest(rtt: int)
    ensures 1000 * Millis(rtt) - 500 <= rtt < 1000 * Millis(rtt) + 500
  {
  }

  /** Up with a time and a code from 1 to 399 (or a negative one); what else, the old status and the time say. */
  lemma RecordTable(config: Config, site: Site, rtt: int, code: int, errorCode: int, now: int)
    ensures var s := Record(config, site, rtt, code, errorCode, now);
      var up := rtt > 0 && code < 400 && code != 0;
      && s == site.(processed := true, lastCheck := now, siteStatus := s.siteStatus, checks := s.checks)
      && s.siteStatus == (if up then Running
                          else if site.oldStatus == Running then Down
                          else if site.oldStatus == ConfirmedDown then ConfirmedDown
                          else if now < site.lastStatusChange + config.timeBetweenNotices then Down
                          else ConfirmedDown)
      && (s.siteStatus == site.oldStatus ==> s.checks == site.checks)
      && (s.siteStatus != site.oldStatus ==>
            exists ms :: 1000 * ms - 500 <= rtt < 1000 * ms + 500
                      && s.checks == site.checks + [Local(s.siteStatus, ms, code, errorCode, now)])
  {
    MillisNearest(rtt);
    var s := Record(config, site, rtt, code, errorCode, now);
    if s.siteStatus != site.oldStatus {
      assert s.checks == site.checks + [Local(s.siteStatus, Millis(rtt), code, errorCode, now)];
    }
  }

  /** The callback judges a code as the comparison of the two checkers does. */
  lemma SameJudgement(config: Config, site: Site, rtt: int, code: int, now: int)
    ensures Judge(config, site, rtt, code, now) == Running <==> R.WorkerSaysUp(rtt, code)
  {
  }

  /** What a callback tells about the worker itself. */
  ghost function AboutItself(w: State, e: Event): seq<Report>
    requires e.Result? && e.index < |w.arrCheck|
  {
    var a := Take(w, e.index, e.rtt, e.code, e.errorCode, e.now);
    if a.pointer < |a.arrCheck| then [] else AtEnd(a, e.overMemory).1
  }

  /** The verdict of a callback goes to the master at once, before anything that the callback tells about the worker. */
  lemma VerdictTold(w: State, e: Event)
    requires Healthy(w) && Enabled(w, e) && e.Result?
    ensures var s := Record(w.config, w.arrCheck[e.index], e.rtt, e.code, e.errorCode, e.now);
      var told := P.Told(w, e); var n := |ReportsOn(s)|;
      && n <= |told| && told[..n] == ReportsOn(s) && told[n..] == AboutItself(w, e)
      && (told[n..] == [] || told[n..] == [StopWork] || told[n..] == [SendWork])
  {
    var s := Record(w.config, w.arrCheck[e.index], e.rtt, e.code, e.errorCode, e.now);
    assert P.Told(w, e) == ReportsOn(s) + AboutItself(w, e);
  }

  lemma AboutItselfTold(w: State, e: Event)
    requires Healthy(w) && Enabled(w, e) && e.Result?
    ensures SendWork in P.Told(w, e) <==> SendWork in AboutItself(w, e)
    ensures StopWork in P.Told(w, e) <==> StopWork in AboutItself(w, e)
  {
    var s := Record(w.config, w.arrCheck[e.index], e.rtt, e.code, e.errorCode, e.now);
    assert P.Told(w, e) == ReportsOn(s) + AboutItself(w, e);
    assert SendWork !in ReportsOn(s) && StopWork !in ReportsOn(s);
  }

  // ------------------------------------------------------------------------------------------
  // Asking for work

  /** An idle worker that may get work has asked for it. */
  ghost predicate HasAsked(w: State) {
    w.exit == Alive && !w.running && w.availableForWork ==> w.askedForWork
  }

  /** A worker asks exactly when the flag is raised: at the first ask, or in a callback at the end of the list. */
  lemma StepAsks(w: State, e: Event)
    requires Healthy(w) && w.config.numToProcess >= 1 && Enabled(w, e)
    ensures var v := Next(w, e);
      && (HasAsked(w) || e.FirstAsk? ==> HasAsked(v))
      && (SendWork in P.Told(w, e) <==> e.FirstAsk? || (!w.askedForWork && v.askedForWork))
      && (e.Result? && w.pointer >= |w.arrCheck| && v.exit == Alive && v.availableForWork ==> v.askedForWork)
      && (w.askedForWork && !v.askedForWork ==> e.Payload?)
  {
    match e
    case Result(_, _, _, _, _, _) => ResultAsks(w, e);
    case TimerFires => TimerKeepsFlags(w);
    case _ =>
  }

  lemma TimerKeepsFlags(w: State)
    requires Healthy(w) && Enabled(w, TimerFires) && w.config.numToProcess >= 1
    ensures var v := CheckServers(w);
      && v.askedForWork == w.askedForWork && v.availableForWork == w.availableForWork && v.suicide == w.suicide
      && v.running && v.exit == Alive
  {
    StartUpToStarts(w.(timer := false), Min(w.pointer + w.config.numToProcess, |w.arrCheck|));
  }

  /** The end of a list asks for work if the worker may get some and has not asked. */
  lemma AtEndAsks(a: State, overMemory: bool)
    requires a.exit == Alive
    ensures var (v, reports) := AtEnd(a, overMemory);
      && HasAsked(v)
      && (SendWork in reports <==> !a.askedForWork && v.askedForWork)
      && (v.exit == Alive && v.availableForWork ==> v.askedForWork)
      && (a.askedForWork ==> v.askedForWork)
  {
  }

  lemma ResultAsks(w: State, e: Event)
    requires Healthy(w) && Enabled(w, e) && e.Result?
    ensures var v := Next(w, e);
      && (HasAsked(w) ==> HasAsked(v))
      && (SendWork in P.Told(w, e) <==> !w.askedForWork && v.askedForWork)
      && (w.pointer >= |w.arrCheck| && v.exit == Alive && v.availableForWork ==> v.askedForWork)
      && (w.askedForWork ==> v.askedForWork)
  {
    AboutItselfTold(w, e);
    AtEndAsks(Take(w, e.index, e.rtt, e.code, e.errorCode, e.now), e.overMemory);
  }

  /** How often a run asks for work, and how many payloads it gets. */
  ghost function Asks(w: State, es: seq<Event>): nat
    requires Healthy(w) && w.config.numToProcess >= 1 && IsRun(w, es)
    decreases |es|
  {
    if es == [] then 0
    else (if SendWork in P.Told(w, es[0]) then 1 else 0) + Asks(Step(w, es[0]), es[1..])
  }

  function Payloads(es: seq<Event>): nat {
    if es == [] then 0 else (if es[0].Payload? then 1 else 0) + Payloads(es[1..])
  }

  /**
   After the first ask, in every run, an idle worker that may get work has asked for it; and it never asks
   more often than it is answered: every further ask follows a payload.
   */
  lemma {:induction false} AsksAnswered(w: State, es: seq<Event>)
    requires Healthy(w) && w.config.numToProcess >= 1 && IsRun(w, es) && HasAsked(w)
    requires forall i :: 0 <= i < |es| ==> !es[i].FirstAsk?
    ensures var v := Run(w, es);
      && HasAsked(v)
      && Asks(w, es) + (if w.askedForWork then 1 else 0) <= Payloads(es) + (if v.askedForWork then 1 else 0)
    decreases |es|
  {
    if es != [] {
      StepAsks(w, es[0]);
      AsksAnswered(Step(w, es[0]), es[1..]);
    }
  }

  // ------------------------------------------------------------------------------------------
  // Retiring

  /** `totalChecks` counts the checks started. */
  ghost predicate Counted(w: State, before: int) { w.totalChecks == before + |w.started| }

  lemma StepCounted(w: State, e: Event, before: int)
    requires Healthy(w) && w.config.numToProcess >= 1 && Enabled(w, e) && Counted(w, before)
    ensures Counted(Next(w, e), before)
  {
    match e
    case Result(index, rtt, code, errorCode, now, overMemory) =>
      ResultMovesWindow(w, index, rtt, code, errorCode, now, overMemory);
    case TimerFires => TimerOpensWindow(w);
    case _ =>
  }

  /**
   A worker stops being available in a callback at the end of its list, exactly if it was asked to evaporate,
   is over its memory limit or has started more than maxChecks checks; it then says so once, and asks for no
   more work.  It exits in the callback that leaves nothing unprocessed, and its exit code says why.
   */
  lemma StepRetires(w: State, e: Event, before: int)
    requires Healthy(w) && w.config.numToProcess >= 1 && Enabled(w, e) && e.Result? && Counted(w, before)
    ensures
      var v := Next(w, e);
      var must := w.suicide || e.overMemory || before + |w.started| > w.config.maxChecks;
      && (v.availableForWork <==> w.availableForWork && !(w.pointer >= |w.arrCheck| && must))
      && (StopWork in P.Told(w, e) <==> w.availableForWork && !v.availableForWork)
      && (v.exit != Alive <==> w.pointer >= |w.arrCheck| && !v.availableForWork && Unprocessed(w.arrCheck) == 1)
      && (v.exit != Alive ==> v.exit == if w.suicide then Suicide
                                        else if before + |w.started| > w.config.maxChecks then MaxChecks
                                        else MaxMemory)
      && v.suicide == w.suicide
  {
    AboutItselfTold(w, e);
    TakeSound(w, e.index, e.rtt, e.code, e.errorCode, e.now);
    AtEndRetires(Take(w, e.index, e.rtt, e.code, e.errorCode, e.now), e.overMemory);
  }

  lemma AtEndRetires(a: State, overMemory: bool)
    requires a.exit == Alive
    ensures
      var (v, reports) := AtEnd(a, overMemory);
      var must := a.suicide || overMemory || a.totalChecks > a.config.maxChecks;
      && (v.availableForWork <==> a.availableForWork && !must)
      && (StopWork in reports <==> a.availableForWork && !v.availableForWork)
      && (v.exit != Alive <==> !v.availableForWork && Unprocessed(a.arrCheck) == 0)
      && (v.exit != Alive ==> v.exit == if a.suicide then Suicide
                                        else if a.totalChecks > a.config.maxChecks then MaxChecks
                                        else MaxMemory)
      && v.suicide == a.suicide
  {
  }

  /** Asked to evaporate, a worker is gone at once if it is idle, and otherwise as soon as it has nothing left to do. */
  ghost predicate Evaporating(w: State) {
    w.exit == Suicide || (w.exit == Alive && w.suicide && w.running)
  }

  lemma EvaporateHeeded(w: State)
    requires Healthy(w) && w.exit == Alive
    ensures Evaporating(Evaporate(w)) && (!w.running ==> Evaporate(w).exit == Suicide)
  {
  }

  lemma StepEvaporating(w: State, e: Event)
    requires Healthy(w) && w.config.numToProcess >= 1 && Enabled(w, e) && Evaporating(w)
    ensures Evaporating(Next(w, e))
  {
    match e
    case Result(_, _, _, _, _, _) => StepRetires(w, e, w.totalChecks - |w.started|);
      ResultLeaves(w, e);
    case TimerFires => TimerKeepsFlags(w);
    case _ =>
  }

  /** A callback that retires or may not get work does not leave the worker idle. */
  lemma ResultLeaves(w: State, e: Event)
    requires Healthy(w) && Enabled(w, e) && e.Result? && w.suicide && w.running
    ensures Next(w, e).exit == Alive ==> Next(w, e).running
  {
  }

  /** In every run, a worker that was asked to evaporate and has nothing left to wait for has exited for that reason. */
  lemma {:induction false} EvaporatedExits(w: State, es: seq<Event>)
    requires Healthy(w) && w.config.numToProcess >= 1 && IsRun(w, es) && Evaporating(w)
    ensures Evaporating(Run(w, es))
    ensures Stuck(Run(w, es)) ==> Run(w, es).exit == Suicide
    decreases |es|
  {
    if es != [] {
      StepEvaporating(w, es[0]);
      EvaporatedExits(Step(w, es[0]), es[1..]);
    }
  }
}
