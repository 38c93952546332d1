/**
 Two checkers that follow redirects (sections 15.4 and 10.2.2 of RFC 9110): Jetmon's own, which calls
 itself for the next hop, and the veriflier's, which reacts to socket events.  Both are run against
 the same world and compared.
 */
module Redirects {
  import opened HostUrl

  const MAX_REDIRECTS := 2

  const ERROR_STATUS_CODE_UNKNOWN := 999
  const ERROR_TIMEOUT := 998
  const ERROR_REDIRECT_LOCATION := 997
  const ERROR_CONNECT_REDIRECT_HOST := 996
  const ERROR_CONNECT_HOST := 995

  datatype Option<T> = None | Some(value: T)

  /**
   What happens to one request.  A response has a status code of three digits and, if one can be found
   in it, the text of a Location header.
   */
  datatype Outcome = NoConnection | Silence | Malformed | Response(code: nat, location: Option<string>)

  /** The outcome of request number k to a target. */
  type World = (nat, Host) -> Outcome

  /** The next target, from the current one and a Location. */
  type Resolver = (Host, string) -> Host

  predicate IsRedirect(code: int) { 300 < code < 400 }

  // ------------------------------------------------------------------------------------------
  // The recursive checker

  /** `requests` are the targets connected to, in order. */
  datatype Final = Final(code: int, error: int, requests: seq<Host>)

  /** The run from request number k on. */
  function Follow(world: World, resolve: Resolver, max: nat, k: nat, target: Host): (f: Final)
    requires k <= max
    ensures 1 <= |f.requests| <= max - k + 1 && f.requests[0] == target
    decreases max - k
  {
    match world(k, target)
    case NoConnection => Final(0, if k == 0 then ERROR_CONNECT_HOST else ERROR_CONNECT_REDIRECT_HOST, [target])
    case Silence => Final(0, ERROR_TIMEOUT, [target])
    case Malformed => Final(999, ERROR_STATUS_CODE_UNKNOWN, [target])
    case Response(code, location) =>
      if !IsRedirect(code) || k == max then Final(code, 0, [target])
      else if location.None? then Final(0, ERROR_REDIRECT_LOCATION, [target])
      else
        var f := Follow(world, resolve, max, k + 1, resolve(target, location.value));
        f.(requests := [target] + f.requests)
  }

  /** While hops are left, a code from 301 to 399 with a Location leads to a request to where it points. */
  lemma FollowsRedirects(world: World, resolve: Resolver, max: nat, k: nat, target: Host, code: nat, location: string)
    requires k < max && world(k, target) == Response(code, Some(location)) && 301 <= code <= 399
    ensures
      var f := Follow(world, resolve, max, k, target);
      var g := Follow(world, resolve, max, k + 1, resolve(target, location));
      && f.code == g.code && f.error == g.error && f.requests == [target] + g.requests
      && |f.requests| >= 2 && f.requests[1] == resolve(target, location)
  {
  }

  /** Any other code ends the run after this request, and so does a redirect when no hop is left: with this code. */
  lemma EndsWithCode(world: World, resolve: Resolver, max: nat, k: nat, target: Host, code: nat,
                     location: Option<string>)
    requires k <= max && world(k, target) == Response(code, location) && (code <= 300 || code >= 400 || k == max)
    ensures Follow(world, resolve, max, k, target) == Final(code, 0, [target])
  {
  }

  /** What fails ends the run too, with a code that counts as down and the error that says why. */
  lemma EndsWithError(world: World, resolve: Resolver, max: nat, k: nat, target: Host)
    requires k <= max
    ensures
      var f := Follow(world, resolve, max, k, target);
      match world(k, target)
      case NoConnection => f == Final(0, if k == 0 then 995 else 996, [target])
      case Silence => f == Final(0, 998, [target])
      case Malformed => f == Final(999, 999, [target])
      case Response(code, location) =>
        301 <= code <= 399 && k < max && location.None? ==> f == Final(0, 997, [target])
  {
  }

  /** How a worker judges the code. */
  predicate WorkerSaysUp(rtt: int, code: int) { rtt > 0 && 400 > code && 0 != code }

  // ------------------------------------------------------------------------------------------
  // The event-driven checker

  /** What a readable socket delivers first: nothing, no status line, or a status code. */
  datatype Chunk = Nothing | Garbled | Head(code: nat, location: Option<string>)

  datatype Event = Data(chunk: Chunk) | SocketError | TimedOut

  /** `reported` are the codes with which the end of the check was signalled. */
  datatype Machine = Machine(
    target: Host, code: int, redirects: nat, finished: bool, requests: seq<Host>, reported: seq<int>)

  function Begin(target: Host): Machine {
    Machine(target, 0, 0, false, [target], [])
  }

  function FinishRequest(m: Machine): Machine {
    if m.finished then m else m.(finished := true, reported := m.reported + [m.code])
  }

  function ProcessResponse(m: Machine, resolve: Resolver, max: nat, location: Option<string>): Machine {
    if IsRedirect(m.code) then
      var n := m.(redirects := m.redirects + 1);
      if max >= n.redirects && location.Some? then
        var next := resolve(n.target, location.value);
        n.(target := next, code := 0, requests := n.requests + [next])
      else FinishRequest(n)
    else FinishRequest(m)
  }

  function ReadyRead(m: Machine, resolve: Resolver, max: nat, chunk: Chunk): Machine {
    if chunk.Nothing? || m.code != 0 then m
    else if chunk.Garbled? then ProcessResponse(m.(code := -1), resolve, max, None)
    else if chunk.code == 0 then m
    else ProcessResponse(m.(code := chunk.code), resolve, max, chunk.location)
  }

  function React(m: Machine, resolve: Resolver, max: nat, e: Event): Machine {
    match e
    case Data(chunk) => ReadyRead(m, resolve, max, chunk)
    case SocketError => FinishRequest(m)
    case TimedOut => FinishRequest(m)
  }

  /** One read of a head with a code from 301 to 399 and a Location, while hops are left: on to where it points. */
  lemma HeadFollowed(m: Machine, resolve: Resolver, max: nat, code: nat, location: string)
    requires m.code == 0 && m.redirects < max && 301 <= code <= 399
    ensures var t := React(m, resolve, max, Data(Head(code, Some(location)))); var next := resolve(m.target, location);
      t == Machine(next, 0, m.redirects + 1, m.finished, m.requests + [next], m.reported)
  {
  }

  /** Any other code ends the check, which reports it, and so does a redirect when no hop or no Location is left. */
  lemma HeadEnds(m: Machine, resolve: Resolver, max: nat, code: nat, location: Option<string>)
    requires m.code == 0 && !m.finished && code != 0
    requires code <= 300 || code >= 400 || m.redirects >= max || location.None?
    ensures var t := React(m, resolve, max, Data(Head(code, location)));
      && t.finished && t.reported == m.reported + [code] && t.code == code
      && t.requests == m.requests && t.target == m.target
  {
  }

  /** The other signals: no data, or data after the code, change nothing; the others end the check. */
  lemma OtherSignals(m: Machine, resolve: Resolver, max: nat, chunk: Chunk)
    requires !m.finished
    ensures React(m, resolve, max, Data(Nothing)) == m
    ensures m.code != 0 ==> React(m, resolve, max, Data(chunk)) == m
    ensures m.code == 0 ==>
              React(m, resolve, max, Data(Garbled)) == m.(code := -1, finished := true, reported := m.reported + [-1])
    ensures React(m, resolve, max, SocketError) == m.(finished := true, reported := m.reported + [m.code])
    ensures React(m, resolve, max, TimedOut) == m.(finished := true, reported := m.reported + [m.code])
  {
  }

  /** How the veriflier judges the code. */
  predicate VeriflierSaysUp(rtt: int, code: int) { rtt > 0 && 0 < code && 400 > code }

  /**
   The event-driven checker decides on one read, which may show less than the whole response: a status
   line that is not complete, only the first digits of the code, or a head that stops before the
   Location.
   */
  predicate Glimpse(o: Outcome, shown: Outcome) {
    || shown == o
    || (o.Response?
        && match shown
           case Malformed => true
           case Response(code, location) =>
             location.None? && (code == o.code || code == o.code / 10 || code == o.code / 100)
           case _ => false)
  }

  /** `view` is what the decisive reads show of a world. */
  ghost predicate Glimpses(world: World, view: World) {
    forall k: nat, t: Host :: Glimpse(world(k, t), view(k, t))
  }

  /**
   What a world lets a checker see while it waits for a request: reads without data at any time, and
   what the outcome brings.  A connection that is not made is refused or hangs; a peer that stays silent
   keeps its connection or closes it without data.  A status code of zero is not acted on: the peer then
   closes the connection or the check times out, or, if it was only the rest of the status line that was
   missing, the next read makes no sense.
   */
  predicate Plausible(o: Outcome, e: Event) {
    || e == Data(Nothing)
    || match o
       case NoConnection => e == SocketError || e == TimedOut
       case Silence => e == SocketError || e == TimedOut
       case Malformed => e == Data(Garbled) || e == Data(Head(0, None))
       case Response(code, location) =>
         e == Data(Head(code, location)) || (code == 0 && (e == SocketError || e == TimedOut))
  }

  /** After the end is signalled anything may still arrive. */
  ghost predicate Faithful(world: World, resolve: Resolver, max: nat, m: Machine, es: seq<Event>)
    decreases |es|
  {
    es == [] ||
    (&& (m.finished || Plausible(world(m.redirects, m.target), es[0]))
     && Faithful(world, resolve, max, React(m, resolve, max, es[0]), es[1..]))
  }

  function RunEvents(resolve: Resolver, max: nat, m: Machine, es: seq<Event>): Machine
    decreases |es|
  {
    if es == [] then m else RunEvents(resolve, max, React(m, resolve, max, es[0]), es[1..])
  }

  /** The check ends with one signal, whatever arrives in whatever order. */
  ghost predicate OneSignal(m: Machine) {
    |m.reported| == if m.finished then 1 else 0
  }

  lemma {:induction false} SignalsOnce(resolve: Resolver, max: nat, m: Machine, es: seq<Event>)
    requires OneSignal(m)
    ensures OneSignal(RunEvents(resolve, max, m, es))
    ensures m.finished ==> RunEvents(resolve, max, m, es).reported == m.reported
    decreases |es|
  {
    if es != [] {
      SignalsOnce(resolve, max, React(m, resolve, max, es[0]), es[1..]);
    }
  }

  // ------------------------------------------------------------------------------------------
  // Agreement

  /** The code with which the event-driven checker ends, when its requests have come to number k. */
  function Outlook(world: World, resolve: Resolver, max: nat, k: nat, target: Host): (f: Final)
    requires k <= max
    decreases max - k
  {
    match world(k, target)
    case NoConnection => Final(0, 0, [target])
    case Silence => Final(0, 0, [target])
    case Malformed => Final(-1, 0, [target])
    case Response(code, location) =>
      if !IsRedirect(code) || k == max || location.None? then Final(code, 0, [target])
      else
        var f := Outlook(world, resolve, max, k + 1, resolve(target, location.value));
        f.(requests := [target] + f.requests)
  }

  /** The machine waits for request number `redirects`, the last one it made. */
  ghost predicate Waiting(m: Machine, max: nat) {
    && !m.finished && m.code == 0 && m.redirects <= max && m.reported == []
    && |m.requests| >= 1 && m.requests[|m.requests| - 1] == m.target
  }

  ghost function Before(m: Machine): seq<Host>
    requires m.requests != []
  {
    m.requests[..|m.requests| - 1]
  }

  /** One event: noise changes nothing, anything else ends the check or leads to the next request, as foreseen. */
  lemma OneEvent(world: World, resolve: Resolver, max: nat, m: Machine, e: Event)
    requires Waiting(m, max) && Plausible(world(m.redirects, m.target), e)
    ensures var t := React(m, resolve, max, e); var f := Outlook(world, resolve, max, m.redirects, m.target);
      || t == m
      || (t.finished && t.reported == [f.code] && t.requests == Before(m) + f.requests)
      || (&& Waiting(t, max) && t.redirects == m.redirects + 1 && Before(t) == m.requests
          && var g := Outlook(world, resolve, max, t.redirects, t.target);
             f.code == g.code && f.requests == [m.target] + g.requests)
  {
    assert m.requests == Before(m) + [m.target];
  }

  lemma Onward(m: Machine, rest: seq<Host>)
    requires m.requests != [] && m.requests[|m.requests| - 1] == m.target
    ensures m.requests + rest == Before(m) + ([m.target] + rest)
  {
    assert m.requests == Before(m) + [m.target];
  }

  /** However noise is mixed in, a check that has ended has reported the foreseen code after the foreseen requests. */
  lemma {:induction false} EventsFollowOutlook(world: World, resolve: Resolver, max: nat, m: Machine, es: seq<Event>)
    requires Waiting(m, max) && Faithful(world, resolve, max, m, es)
    ensures var t := RunEvents(resolve, max, m, es); var f := Outlook(world, resolve, max, m.redirects, m.target);
      t.finished ==> t.reported == [f.code] && Before(m) + f.requests <= t.requests
    decreases |es|
  {
    if es != [] {
      OneEvent(world, resolve, max, m, es[0]);
      var t := React(m, resolve, max, es[0]);
      if t.finished {
        SignalsOnce(resolve, max, t, es[1..]);
        RequestsGrow(resolve, max, t, es[1..]);
      } else {
        EventsFollowOutlook(world, resolve, max, t, es[1..]);
        if t != m {
          Onward(m, Outlook(world, resolve, max, t.redirects, t.target).requests);
        }
      }
    }
  }

  lemma {:induction false} FinishedStays(resolve: Resolver, max: nat, m: Machine, es: seq<Event>)
    requires m.finished
    ensures RunEvents(resolve, max, m, es).finished
    decreases |es|
  {
    if es != [] {
      FinishedStays(resolve, max, React(m, resolve, max, es[0]), es[1..]);
    }
  }

  /** Up to its end signal a check makes exactly the foreseen requests. */
  lemma {:induction false} RequestsUpToSignal(world: World, resolve: Resolver, max: nat, m: Machine, es: seq<Event>)
    requires Waiting(m, max) && Faithful(world, resolve, max, m, es) && es != []
    requires !RunEvents(resolve, max, m, es[..|es| - 1]).finished && RunEvents(resolve, max, m, es).finished
    ensures RunEvents(resolve, max, m, es).requests
         == Before(m) + Outlook(world, resolve, max, m.redirects, m.target).requests
    decreases |es|
  {
    OneEvent(world, resolve, max, m, es[0]);
    var t := React(m, resolve, max, es[0]);
    if |es| == 1 {
      assert RunEvents(resolve, max, t, es[1..]) == t;
    } else {
      assert es[..|es| - 1][1..] == es[1..][..|es[1..]| - 1];
      if t.finished {
        FinishedStays(resolve, max, t, es[1..][..|es[1..]| - 1]);
        assert false;
      }
      RequestsUpToSignal(world, resolve, max, t, es[1..]);
      if t != m {
        Onward(m, Outlook(world, resolve, max, t.redirects, t.target).requests);
      }
    }
  }

  lemma {:induction false} RequestsGrow(resolve: Resolver, max: nat, m: Machine, es: seq<Event>)
    ensures m.requests <= RunEvents(resolve, max, m, es).requests
    decreases |es|
  {
    if es != [] {
      RequestsGrow(resolve, max, React(m, resolve, max, es[0]), es[1..]);
    }
  }

  /** A redirect is to be followed, but its Location cannot be read. */
  predicate HitsBadLocation(world: World, resolve: Resolver, max: nat, k: nat, target: Host)
    requires k <= max
    decreases max - k
  {
    match world(k, target)
    case Response(code, location) =>
      && IsRedirect(code) && k < max
      && (location.None? || HitsBadLocation(world, resolve, max, k + 1, resolve(target, location.value)))
    case _ => false
  }

  lemma {:induction false} SameRequests(world: World, resolve: Resolver, max: nat, k: nat, target: Host)
    requires k <= max
    ensures Follow(world, resolve, max, k, target).requests == Outlook(world, resolve, max, k, target).requests
    decreases max - k
  {
    match world(k, target)
    case Response(code, location) =>
      if IsRedirect(code) && k < max && location.Some? {
        SameRequests(world, resolve, max, k + 1, resolve(target, location.value));
      }
    case _ =>
  }

  /** The verdicts differ exactly when a redirect with an unreadable Location is hit. */
  lemma {:induction false} SameVerdictIff(world: World, resolve: Resolver, max: nat, k: nat, target: Host, rtt: int)
    requires k <= max
    ensures (WorkerSaysUp(rtt, Follow(world, resolve, max, k, target).code)
             <==> VeriflierSaysUp(rtt, Outlook(world, resolve, max, k, target).code))
       <==> (rtt <= 0 || !HitsBadLocation(world, resolve, max, k, target))
    decreases max - k
  {
    match world(k, target)
    case Response(code, location) =>
      if IsRedirect(code) && k < max && location.Some? {
        SameVerdictIff(world, resolve, max, k + 1, resolve(target, location.value), rtt);
      }
    case _ =>
  }

  /** On the way the decisive reads show whole heads. */
  predicate WholeHeads(world: World, view: World, resolve: Resolver, max: nat, k: nat, target: Host)
    requires k <= max
    decreases max - k
  {
    && view(k, target) == world(k, target)
    && match world(k, target)
       case Response(code, location) =>
         IsRedirect(code) && k < max && location.Some? ==>
           WholeHeads(world, view, resolve, max, k + 1, resolve(target, location.value))
       case _ => true
  }

  lemma {:induction false} WholeHeadsSeen(world: World, view: World, resolve: Resolver, max: nat, k: nat, target: Host)
    requires k <= max && WholeHeads(world, view, resolve, max, k, target)
    ensures Outlook(view, resolve, max, k, target) == Outlook(world, resolve, max, k, target)
    decreases max - k
  {
    match world(k, target)
    case Response(code, location) =>
      if IsRedirect(code) && k < max && location.Some? {
        WholeHeadsSeen(world, view, resolve, max, k + 1, resolve(target, location.value));
      }
    case _ =>
  }

  /** However little the reads show, the event-driven checker makes no request that the other one does not make. */
  lemma {:induction false} RequestsNeverMore(world: World, view: World, resolve: Resolver, max: nat, k: nat,
                                             target: Host)
    requires k <= max && Glimpses(world, view)
    ensures Outlook(view, resolve, max, k, target).requests <= Follow(world, resolve, max, k, target).requests
    decreases max - k
  {
    assert Glimpse(world(k, target), view(k, target));
    match view(k, target)
    case Response(code, location) =>
      if IsRedirect(code) && k < max && location.Some? {
        RequestsNeverMore(world, view, resolve, max, k + 1, resolve(target, location.value));
      }
    case _ =>
  }

  /**
   The two checkers in the same world, of which the event-driven one may see less.  When that one ends
   it reports once, whatever else arrives, and it has made none but the first of the other one's
   requests, which are at most max+1.  If its decisive reads show whole heads, it has made the same
   requests, and the verdicts agree if and only if no redirect with an unreadable Location was to be
   followed.
   */
  lemma CheckersAgree(world: World, view: World, resolve: Resolver, max: nat, target: Host, es: seq<Event>, rtt: int)
    requires Glimpses(world, view) && Faithful(view, resolve, max, Begin(target), es) && es != []
    requires RunEvents(resolve, max, Begin(target), es).finished
    ensures var f := Follow(world, resolve, max, 0, target); var t := RunEvents(resolve, max, Begin(target), es);
      var ends := !RunEvents(resolve, max, Begin(target), es[..|es| - 1]).finished;
      && |t.reported| == 1 && |f.requests| <= max + 1
      && (ends ==> t.requests <= f.requests)
      && (WholeHeads(world, view, resolve, max, 0, target) ==>
            && (if ends then t.requests == f.requests else f.requests <= t.requests)
            && ((WorkerSaysUp(rtt, f.code) <==> VeriflierSaysUp(rtt, t.reported[0]))
                <==> (rtt <= 0 || !HitsBadLocation(world, resolve, max, 0, target))))
  {
    EventsFollowOutlook(view, resolve, max, Begin(target), es);
    RequestsNeverMore(world, view, resolve, max, 0, target);
    var f := Outlook(view, resolve, max, 0, target);
    assert Before(Begin(target)) + f.requests == f.requests;
    if !RunEvents(resolve, max, Begin(target), es[..|es| - 1]).finished {
      RequestsUpToSignal(view, resolve, max, Begin(target), es);
    }
    if WholeHeads(world, view, resolve, max, 0, target) {
      WholeHeadsSeen(world, view, resolve, max, 0, target);
      SameRequests(world, resolve, max, 0, target);
      SameVerdictIff(world, resolve, max, 0, target, rtt);
    }
  }

  /** With a time, the codes that count as up: the worker's may be negative, which no status line yields. */
  lemma UpCodes(rtt: int, code: int)
    ensures VeriflierSaysUp(rtt, code) <==> rtt > 0 && 1 <= code <= 399
    ensures WorkerSaysUp(rtt, code) <==> rtt > 0 && (1 <= code <= 399 || code < 0)
  {
  }

  /** A 304 response without a Location, for any URL: down for the worker, up for the veriflier. */
  lemma VerdictsDiffer(resolve: Resolver, target: Host, rtt: int)
    requires rtt > 0
    ensures
      var world: World := (k, t) => Response(304, None);
      var es := [Data(Head(304, None))];
      && Faithful(world, resolve, MAX_REDIRECTS, Begin(target), es)
      && RunEvents(resolve, MAX_REDIRECTS, Begin(target), es).reported == [304]
      && !WorkerSaysUp(rtt, Follow(world, resolve, MAX_REDIRECTS, 0, target).code)
      && VeriflierSaysUp(rtt, 304)
  {
    var m := Begin(target);
    var t := React(m, resolve, MAX_REDIRECTS, Data(Head(304, None)));
    assert RunEvents(resolve, MAX_REDIRECTS, t, []) == t;
  }

  /** A redirect to a host that is down, whose first read stops before the Location: down and up. */
  lemma ReadBeforeLocation(resolve: Resolver, target: Host, location: string, rtt: int)
    requires rtt > 0
    ensures
      var world: World := (k, t) => if k == 0 then Response(302, Some(location)) else NoConnection;
      var view: World := (k, t) => if k == 0 then Response(302, None) else NoConnection;
      var es := [Data(Head(302, None))];
      && Glimpses(world, view) && Faithful(view, resolve, MAX_REDIRECTS, Begin(target), es)
      && !HitsBadLocation(world, resolve, MAX_REDIRECTS, 0, target)
      && RunEvents(resolve, MAX_REDIRECTS, Begin(target), es).reported == [302]
      && !WorkerSaysUp(rtt, Follow(world, resolve, MAX_REDIRECTS, 0, target).code)
      && VeriflierSaysUp(rtt, 302)
  {
    var t := React(Begin(target), resolve, MAX_REDIRECTS, Data(Head(302, None)));
    assert RunEvents(resolve, MAX_REDIRECTS, t, []) == t;
  }

  /** A site that is up, whose first read stops inside the status line: up and down. */
  lemma ReadBeforeStatus(resolve: Resolver, target: Host, rtt: int)
    requires rtt > 0
    ensures
      var world: World := (k, t) => Response(200, None);
      var view: World := (k, t) => Malformed;
      var es := [Data(Garbled)];
      && Glimpses(world, view) && Faithful(view, resolve, MAX_REDIRECTS, Begin(target), es)
      && !HitsBadLocation(world, resolve, MAX_REDIRECTS, 0, target)
      && RunEvents(resolve, MAX_REDIRECTS, Begin(target), es).reported == [-1]
      && WorkerSaysUp(rtt, Follow(world, resolve, MAX_REDIRECTS, 0, target).code)
      && !VeriflierSaysUp(rtt, -1)
  {
    var t := React(Begin(target), resolve, MAX_REDIRECTS, Data(Garbled));
    assert RunEvents(resolve, MAX_REDIRECTS, t, []) == t;
  }
}
