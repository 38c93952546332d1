/** The two checker objects, each proved against its side of `Redirects` and against `HostUrl`. */
module HttpChecker {
  import opened HostUrl
  import opened Redirects
  import opened Seqs

  /** Where a Location leads; a relative one keeps the host. */
  function RedirectTarget(current: Host, location: string): Host {
    var p := Parse(Host(location, "/", HTTP_DEFAULT_PORT, false));
    if p.name == [] then p.(name := current.name) else p
  }

  /** A Location that is a whole URL: its own parts count, and nothing of the current target. */
  lemma AbsoluteTarget(current: Host, ssl: bool, name: string, port: Port, rest: string)
    requires Plain(name, port, rest) && name != ""
    ensures RedirectTarget(current, Print(ssl, name, port, rest))
         == Host(name, DirLeft(ssl, port, rest), PortOf(port, Tls(ssl, rest)), Tls(ssl, rest))
  {
    ParsedAs(ssl, name, port, rest);
  }

  /**
   A Location that starts with '/', '?' or '#': the host stays, what stands there is the directory; the port
   is 80 and the connection plain, whatever they were, unless an "https://" stands in it.
   */
  lemma RelativeTarget(current: Host, rest: string)
    requires rest != [] && EndsHost(rest[0])
    ensures var cut := Less(true, rest);
      RedirectTarget(current, rest)
      == Host(current.name, DirOf(Less(false, cut)), if Tls(false, cut) then 443 else 80, Tls(false, cut))
  {
    NothingInFront(rest);
    ParsedBare("", NoPort, rest);
  }

  lemma NothingInFront(rest: string)
    ensures "" + PortText(NoPort) + rest == rest
  {
  }

  /** A Location without a scheme that does not start so: its first piece is taken for a host. */
  lemma BareTarget(current: Host, name: string, port: Port, rest: string)
    requires Plain(name, port, rest) && name != ""
    ensures var cut := Less(true, rest);
      RedirectTarget(current, name + PortText(port) + rest)
      == Host(name, DirLeft(false, port, cut), PortOf(port, Tls(false, cut)), Tls(false, cut))
  {
    ParsedBare(name, port, rest);
  }

  /** A relative redirect of a site on TLS is followed to port 80, without TLS. */
  lemma RelativeLosesTls(name: string)
    ensures RedirectTarget(Host(name, "/", 443, true), "/login") == Host(name, "/login", 80, false)
  {
    var rest := "/login";
    NoColonNoScheme(rest);
    RelativeTarget(Host(name, "/", 443, true), rest);
  }

  lemma NoColonNoScheme(rest: string)
    requires forall k :: 0 <= k < |rest| ==> rest[k] != ':'
    ensures Less(true, rest) == rest && Less(false, rest) == rest && !Tls(false, rest)
  {
    NoSchemeHere(rest);
    forall i | 0 <= i <= |rest| ensures !HasAt(rest, i, "http://") {
      assert "http://"[4] == ':';
    }
  }

  /** A host that answers 301 with the address of one that refuses connections: two requests, and down. */
  lemma MovedToADeadHost(world: World, resolve: Resolver, first: Host, second: Host, location: string)
    requires world(0, first) == Response(301, Some(location)) && resolve(first, location) == second
    requires world(1, second) == NoConnection
    ensures Follow(world, resolve, MAX_REDIRECTS, 0, first) == Final(0, 996, [first, second])
  {
    FollowsRedirects(world, resolve, MAX_REDIRECTS, 0, first, 301, location);
    EndsWithError(world, resolve, MAX_REDIRECTS, 1, second);
  }

  /** So "http://b/" leads from anywhere to port 80 of b. */
  lemma PlainTarget(current: Host)
    ensures RedirectTarget(current, "http://b/") == Host("b", "/", 80, false)
  {
    var rest := "/";
    NoColonNoScheme(rest);
    PrintedPlain(rest);
    AbsoluteTarget(current, false, "b", NoPort, rest);
  }

  lemma PrintedPlain(rest: string)
    requires rest == "/"
    ensures Print(false, "b", NoPort, rest) == "http://b/"
  {
  }

  /** Jetmon's checker; `world` answers its connections and requests. */
  class RecursiveChecker {
    const world: World
    var hostName: string
    var hostDir: string
    var port: int
    var isSsl: bool
    var responseCode: int
    var errorCode: int
    /** The targets connected to so far; the world answers by their number. */
    var requests: seq<Host>

    constructor (world: World)
      ensures this.world == world && responseCode == 0 && errorCode == 0 && requests == []
      ensures hostName == "" && hostDir == "" && port == HTTP_DEFAULT_PORT && !isSsl
    {
      this.world := world;
      hostName, hostDir, port, isSsl := "", "", HTTP_DEFAULT_PORT, false;
      responseCode, errorCode, requests := 0, 0, [];
    }

    function Target(): Host
      reads this
    {
      Host(hostName, hostDir, port, isSsl)
    }

    method ParseHostValues()
      modifies this`hostName, this`hostDir, this`port, this`isSsl
      ensures Target() == Parse(old(Target()))
    {
      CutSchemes();
      CutPort();
      CutDirectory();
    }

    method CutSchemes()
      modifies this`hostName, this`port, this`isSsl
      ensures Target() == StripHttps(StripHttp(old(Target())))
    {
      var at := FindText(hostName, "http://");
      if at < |hostName| {
        hostName := Erase(hostName, at, 7);
      }
      at := FindText(hostName, "https://");
      if at < |hostName| {
        hostName := Erase(hostName, at, 8);
        port := HTTPS_DEFAULT_PORT;
        isSsl := true;
      }
    }

    method CutPort()
      modifies this`hostName, this`port
      ensures Target() == TakePort(old(Target()))
    {
      var slash, colon, newPort := ReadPort();
      if 0 < newPort {
        port := newPort;
        hostName := Erase(hostName, colon, slash - colon);
      }
    }

    /** The number behind a ':' that no delimiter precedes, or 0. */
    method ReadPort() returns (slash: nat, colon: nat, newPort: int)
      ensures slash == Find(hostName, '/') && colon == Find(hostName, ':')
      ensures newPort == PortIn(hostName)
    {
      slash, colon := Find(hostName, '/'), Find(hostName, ':');
      var query, fragment := Find(hostName, '?'), Find(hostName, '#');
      newPort := 0;
      if colon < slash && colon < query && colon < fragment {
        newPort := Atoi(Piece(hostName, colon + 1, slash));
      }
    }

    method CutDirectory()
      modifies this`hostName, this`hostDir
      ensures Target() == TakeDir(old(Target()))
    {
      var slash, query, fragment := Find(hostName, '/'), Find(hostName, '?'), Find(hostName, '#');
      if slash < |hostName| || query < |hostName| || fragment < |hostName| {
        var cut := Min(Min(slash, query), fragment);
        hostDir := hostName[cut..];
        if hostDir[0] == '?' || hostDir[0] == '#' {
          hostDir := "/" + hostDir;
        }
        hostName := hostName[..cut];
      }
    }

    method Connect() returns (connected: bool)
      modifies this`requests
      ensures requests == old(requests) + [Target()]
      ensures connected <==> world(|old(requests)|, Target()) != NoConnection
    {
      connected := world(|requests|, Target()) != NoConnection;
      requests := requests + [Target()];
    }

    /** Points the checker at the target of a redirect. */
    method SetRedirectHostValues(location: string)
      modifies this`hostName, this`hostDir, this`port, this`isSsl
      ensures Target() == RedirectTarget(old(Target()), location)
    {
      var hostnameBackup := hostName;
      hostName := location;
      port := HTTP_DEFAULT_PORT;
      hostDir := "/";
      isSsl := false;
      ParseHostValues();
      if 0 == |hostName| {
        hostName := hostnameBackup;
      }
    }

    /** Reads the response of the connection just made and follows redirects by calling itself. */
    method SetHostResponse(redirects: nat)
      requires redirects <= MAX_REDIRECTS && |requests| == redirects + 1
      requires world(redirects, Target()) != NoConnection
      modifies this
      ensures var f := Follow(world, RedirectTarget, MAX_REDIRECTS, redirects, old(Target()));
        && responseCode == f.code
        && errorCode == (if f.error == 0 then old(errorCode) else f.error)
        && requests == old(requests) + f.requests[1..]
      decreases MAX_REDIRECTS - redirects, 1
    {
      ghost var f := Follow(world, RedirectTarget, MAX_REDIRECTS, redirects, Target());
      assert requests + [] == requests;
      var response := world(redirects, Target());
      if response.Silence? {
        responseCode := 0;
        errorCode := ERROR_TIMEOUT;
        return;
      }
      if response.Malformed? {
        responseCode := 999;
        errorCode := ERROR_STATUS_CODE_UNKNOWN;
        return;
      }
      responseCode := response.code;
      if 300 < responseCode && 400 > responseCode {
        var hops := redirects + 1;
        if MAX_REDIRECTS < hops {
          return;
        }
        if response.location.None? {
          responseCode := 0;
          errorCode := ERROR_REDIRECT_LOCATION;
          return;
        }
        ghost var next := RedirectTarget(Target(), response.location.value);
        assert f.requests[1..] == Follow(world, RedirectTarget, MAX_REDIRECTS, hops, next).requests;
        FollowRedirect(hops, response.location.value);
      }
    }

    /** Goes on to the next hop. */
    method FollowRedirect(hops: nat, location: string)
      requires 0 < hops <= MAX_REDIRECTS && |requests| == hops
      modifies this
      ensures var f := Follow(world, RedirectTarget, MAX_REDIRECTS, hops, RedirectTarget(old(Target()), location));
        && responseCode == f.code
        && errorCode == (if f.error == 0 then old(errorCode) else f.error)
        && requests == old(requests) + f.requests
      decreases MAX_REDIRECTS - hops, 3
    {
      SetRedirectHostValues(location);
      Reach(hops, ERROR_CONNECT_REDIRECT_HOST);
    }

    /** Connects to the current target and reads its response; `failure` is the error of a connection that fails. */
    method Reach(hops: nat, failure: int)
      requires hops <= MAX_REDIRECTS && |requests| == hops
      requires failure == if hops == 0 then ERROR_CONNECT_HOST else ERROR_CONNECT_REDIRECT_HOST
      modifies this
      ensures var f := Follow(world, RedirectTarget, MAX_REDIRECTS, hops, old(Target()));
        && responseCode == f.code
        && errorCode == (if f.error == 0 then old(errorCode) else f.error)
        && requests == old(requests) + f.requests
      decreases MAX_REDIRECTS - hops, 2
    {
      ghost var f := Follow(world, RedirectTarget, MAX_REDIRECTS, hops, Target());
      ghost var before, target := requests, Target();
      var connected := Connect();
      HeadMoves(before, f.requests);
      if connected {
        SetHostResponse(hops);
      } else {
        assert f.requests == [target];
        responseCode := 0;
        errorCode := failure;
      }
    }

    /** The whole check of a monitored URL. */
    method Check(monitorUrl: string, defaultPort: int)
      requires responseCode == 0 && errorCode == 0 && requests == [] && !isSsl
      modifies this
      ensures
        var f := Follow(world, RedirectTarget, MAX_REDIRECTS, 0, Parse(Host(monitorUrl, "/", defaultPort, false)));
        responseCode == f.code && errorCode == f.error && requests == f.requests
    {
      Prepare(monitorUrl, defaultPort);
      Reach(0, ERROR_CONNECT_HOST);
    }

    method Prepare(monitorUrl: string, defaultPort: int)
      requires !isSsl
      modifies this`hostName, this`hostDir, this`port, this`isSsl
      ensures Target() == Parse(Host(monitorUrl, "/", defaultPort, false))
    {
      hostName := monitorUrl;
      port := defaultPort;
      hostDir := "/";
      assert Target() == Host(monitorUrl, "/", defaultPort, false);
      ParseHostValues();
    }
  }

  /** The veriflier's checker: slots that socket and timer signals call. */
  class EventChecker {
    const maxRedirects: nat
    const resolve: Resolver
    var target: Host
    var responseCode: int
    var redirects: nat
    var finished: bool
    /** The targets connected to, and the codes signalled at the end. */
    ghost var requests: seq<Host>
    ghost var reported: seq<int>

    ghost function Snapshot(): Machine
      reads this
    {
      Machine(target, responseCode, redirects, finished, requests, reported)
    }

    /** `first` is what the monitored URL was split into; the check connects to it at once. */
    constructor (maxRedirects: nat, resolve: Resolver, first: Host)
      ensures this.maxRedirects == maxRedirects && this.resolve == resolve && Snapshot() == Begin(first)
    {
      this.maxRedirects, this.resolve := maxRedirects, resolve;
      target, responseCode, redirects, finished := first, 0, 0, false;
      requests, reported := [first], [];
    }

    method FinishRequest()
      modifies this`finished, this`reported
      ensures Snapshot() == Redirects.FinishRequest(old(Snapshot()))
      ensures old(OneSignal(Snapshot())) ==> OneSignal(Snapshot())
    {
      if !finished {
        finished := true;
        reported := reported + [responseCode];
      }
    }

    method ProcessResponse(location: Option<string>)
      modifies this
      ensures Snapshot() == Redirects.ProcessResponse(old(Snapshot()), resolve, maxRedirects, location)
    {
      if 300 < responseCode && 400 > responseCode {
        redirects := redirects + 1;
        if maxRedirects >= redirects && location.Some? {
          target := resolve(target, location.value);
          responseCode := 0;
          requests := requests + [target];
        } else {
          FinishRequest();
        }
      } else {
        FinishRequest();
      }
    }

    method OnReadyRead(chunk: Chunk)
      modifies this
      ensures Snapshot() == ReadyRead(old(Snapshot()), resolve, maxRedirects, chunk)
    {
      if chunk.Nothing? {
        return;
      }
      if 0 == responseCode {
        responseCode := if chunk.Garbled? then -1 else chunk.code;
        if 0 != responseCode {
          ProcessResponse(if chunk.Garbled? then None else chunk.location);
        }
      }
    }

    method OnConnectionError()
      modifies this`finished, this`reported
      ensures Snapshot() == React(old(Snapshot()), resolve, maxRedirects, SocketError)
    {
      FinishRequest();
    }

    method OnTimedOut()
      modifies this`finished, this`reported
      ensures Snapshot() == React(old(Snapshot()), resolve, maxRedirects, TimedOut)
    {
      FinishRequest();
    }
  }
}
