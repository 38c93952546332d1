/**
 How a checker splits a monitored URL, or the target of a redirect, into host, port, directory and
 scheme; compare the generic URI syntax of section 3.2 of RFC 3986.
 */
module HostUrl {

  const HTTP_DEFAULT_PORT := 80
  const HTTPS_DEFAULT_PORT := 443

  datatype Host = Host(name: string, dir: string, port: int, ssl: bool)

  /** The position of the first c, or the length of the string. */
  function Find(s: string, c: char): (i: nat)
    ensures i <= |s| && (i < |s| ==> s[i] == c)
    ensures forall k :: 0 <= k < i ==> s[k] != c
  {
    FindFrom(s, c, 0)
  }

  function FindFrom(s: string, c: char, from: nat): (i: nat)
    requires from <= |s|
    ensures from <= i <= |s| && (i < |s| ==> s[i] == c)
    ensures forall k :: from <= k < i ==> s[k] != c
    decreases |s| - from
  {
    if from == |s| || s[from] == c then from else FindFrom(s, c, from + 1)
  }

  predicate HasAt(s: string, i: nat, pattern: string) {
    i + |pattern| <= |s| && forall k :: 0 <= k < |pattern| ==> pattern[k] == s[i + k]
  }

  predicate Has(s: string, pattern: string) {
    exists i :: 0 <= i <= |s| && HasAt(s, i, pattern)
  }

  /** The position of the first occurrence of the pattern, or the length of the string. */
  function FindText(s: string, pattern: string): (i: nat)
    requires pattern != []
    ensures i <= |s| && (i < |s| ==> HasAt(s, i, pattern))
    ensures forall k :: 0 <= k < i ==> !HasAt(s, k, pattern)
    ensures i == |s| ==> !Has(s, pattern)
  {
    FindTextFrom(s, pattern, 0)
  }

  function FindTextFrom(s: string, pattern: string, from: nat): (i: nat)
    requires pattern != [] && from <= |s|
    ensures from <= i <= |s| && (i < |s| ==> HasAt(s, i, pattern))
    ensures forall k :: from <= k < i ==> !HasAt(s, k, pattern)
    ensures i == |s| ==> !HasAt(s, |s|, pattern)
    decreases |s| - from
  {
    if from == |s| || HasAt(s, from, pattern) then from else FindTextFrom(s, pattern, from + 1)
  }

  function Erase(s: string, i: nat, n: nat): string
    requires i <= |s|
  {
    s[..i] + (if i + n <= |s| then s[i + n..] else [])
  }

  predicate IsDigit(c: char) { '0' <= c <= '9' }

  function Value(c: char): int
    requires IsDigit(c)
  {
    c as int - '0' as int
  }

  /** Where the digits that start at a position end. */
  function DigitsFrom(s: string, from: nat): (n: nat)
    requires from <= |s|
    ensures from <= n <= |s| && (forall k :: from <= k < n ==> IsDigit(s[k])) && (n < |s| ==> !IsDigit(s[n]))
    decreases |s| - from
  {
    if from == |s| || !IsDigit(s[from]) then from else DigitsFrom(s, from + 1)
  }

  /** The number that the digits between two positions stand for. */
  function Number(s: string, from: nat, end: nat): int
    requires from <= end <= |s| && (forall k :: from <= k < end ==> IsDigit(s[k]))
    decreases end
  {
    if from == end then 0 else 10 * Number(s, from, end - 1) + Value(s[end - 1])
  }

  predicate IsSpace(c: char) { c == ' ' || '\t' <= c <= '\r' }

  function SkipSpace(s: string, from: nat): (i: nat)
    requires from <= |s|
    ensures from <= i <= |s|
    decreases |s| - from
  {
    if from < |s| && IsSpace(s[from]) then SkipSpace(s, from + 1) else from
  }

  /** The leading decimal number of a string, as the C library reads it, without its range limit. */
  function Atoi(s: string): int {
    var i := SkipSpace(s, 0);
    if i < |s| && s[i] == '-' then -Number(s, i + 1, DigitsFrom(s, i + 1))
    else if i < |s| && s[i] == '+' then Number(s, i + 1, DigitsFrom(s, i + 1))
    else Number(s, i, DigitsFrom(s, i))
  }

  function Min(a: nat, b: nat): nat { if a < b then a else b }

  function StripHttp(h: Host): Host {
    var i := FindText(h.name, "http://");
    if i < |h.name| then h.(name := Erase(h.name, i, 7)) else h
  }

  function StripHttps(h: Host): Host {
    var i := FindText(h.name, "https://");
    if i < |h.name| then h.(name := Erase(h.name, i, 8), port := HTTPS_DEFAULT_PORT, ssl := true) else h
  }

  /** At most n characters of s from position i on. */
  function Piece(s: string, i: nat, n: nat): string
    requires i <= |s|
  {
    s[i..Min(i + n, |s|)]
  }

  predicate EndsHost(c: char) { c == '/' || c == '?' || c == '#' }

  predicate NoDelimiter(s: string) {
    forall k :: 0 <= k < |s| ==> s[k] != ':' && !EndsHost(s[k])
  }

  /** A ':' before '/', '?' and '#' starts a port; the number that is read there, or 0. */
  function PortIn(s: string): (port: int)
    ensures 0 < port ==> Find(s, ':') < Find(s, '/')
  {
    var slash, colon := Find(s, '/'), Find(s, ':');
    if colon < slash && colon < Find(s, '?') && colon < Find(s, '#') then Atoi(Piece(s, colon + 1, slash)) else 0
  }

  /** A port that is one is cut out of the name, with everything up to the '/' or the end. */
  function TakePort(h: Host): Host {
    var port := PortIn(h.name);
    var slash, colon := Find(h.name, '/'), Find(h.name, ':');
    if 0 < port then h.(port := port, name := Erase(h.name, colon, slash - colon)) else h
  }

  /** The first '/', '?' or '#' starts the directory. */
  function TakeDir(h: Host): Host {
    var cut := Min(Min(Find(h.name, '/'), Find(h.name, '?')), Find(h.name, '#'));
    if cut < |h.name| then
      var dir := h.name[cut..];
      h.(name := h.name[..cut], dir := if dir[0] == '?' || dir[0] == '#' then "/" + dir else dir)
    else h
  }

  function Parse(h: Host): Host {
    TakeDir(TakePort(StripHttps(StripHttp(h))))
  }

  // ------------------------------------------------------------------------------------------
  // Every input

  lemma TakeDirClean(h: Host)
    requires h.dir != [] && h.dir[0] == '/'
    ensures var p := TakeDir(h);
      && (forall k :: 0 <= k < |p.name| ==> !EndsHost(p.name[k]))
      && p.dir != [] && p.dir[0] == '/'
  {
    var s := h.name;
    var cut := Min(Min(Find(s, '/'), Find(s, '?')), Find(s, '#'));
    assert TakeDir(h).name == s[..cut];
  }

  lemma DirUntouched(h: Host)
    ensures StripHttp(h).dir == h.dir && StripHttps(h).dir == h.dir && TakePort(h).dir == h.dir
  {
  }

  /** For every input the host that is left is clean and the directory starts with a slash. */
  lemma ParsedIsClean(h: Host)
    requires h.dir != [] && h.dir[0] == '/'
    ensures var p := Parse(h);
      && (forall k :: 0 <= k < |p.name| ==> !EndsHost(p.name[k]))
      && p.dir != [] && p.dir[0] == '/'
  {
    DirUntouched(h);
    DirUntouched(StripHttp(h));
    DirUntouched(StripHttps(StripHttp(h)));
    TakeDirClean(TakePort(StripHttps(StripHttp(h))));
  }

  // ------------------------------------------------------------------------------------------
  // Round trip

  /** The decimal digits of a number. */
  function Decimal(n: nat): (s: string)
    ensures s != [] && forall k :: 0 <= k < |s| ==> IsDigit(s[k])
  {
    var last := [('0' as int + n % 10) as char];
    if n < 10 then last else Decimal(n / 10) + last
  }

  /** Only the digits count, not where they stand. */
  lemma {:induction false} SameNumber(s: string, from: nat, digits: string, n: nat)
    requires n <= |digits| && from + n <= |s| && forall k :: 0 <= k < n ==> s[from + k] == digits[k]
    requires forall k :: 0 <= k < n ==> IsDigit(digits[k])
    ensures forall k :: from <= k < from + n ==> IsDigit(s[k])
    ensures Number(s, from, from + n) == Number(digits, 0, n)
  {
    forall k | from <= k < from + n ensures IsDigit(s[k]) {
      assert s[from + (k - from)] == digits[k - from];
    }
    if n > 0 {
      SameNumber(s, from, digits, n - 1);
    }
  }

  lemma {:induction false} NumberOfDecimal(n: nat)
    ensures Number(Decimal(n), 0, |Decimal(n)|) == n
  {
    var s := Decimal(n);
    assert Value(s[|s| - 1]) == n % 10;
    if n >= 10 {
      NumberOfDecimal(n / 10);
      SameNumber(s, 0, Decimal(n / 10), |s| - 1);
    }
  }

  /** Reading a number stops at the first character that is no digit. */
  lemma AtoiOfDigits(s: string, digits: string)
    requires digits != [] && (forall k :: 0 <= k < |digits| ==> IsDigit(digits[k]))
    requires |digits| <= |s| && forall k :: 0 <= k < |digits| ==> s[k] == digits[k]
    requires |digits| < |s| ==> !IsDigit(s[|digits|])
    ensures Atoi(s) == Number(digits, 0, |digits|)
  {
    assert SkipSpace(s, 0) == 0 && DigitsFrom(s, 0) == |digits|;
    SameNumber(s, 0, digits, |digits|);
  }

  datatype Port = NoPort | Explicit(number: nat)

  function PortText(port: Port): string {
    if port.NoPort? then "" else ":" + Decimal(port.number)
  }

  function SchemeText(ssl: bool): string {
    if ssl then "https://" else "http://"
  }

  function Print(ssl: bool, name: string, port: Port, dir: string): string {
    SchemeText(ssl) + (name + PortText(port) + dir)
  }

  /** A host without delimiters, a port that is one, and whatever may follow a host. */
  ghost predicate Plain(name: string, port: Port, rest: string) {
    && NoDelimiter(name)
    && (port.Explicit? ==> port.number >= 1)
    && (rest != [] ==> EndsHost(rest[0]))
  }

  /** The directory that what follows the host stands for: it always starts with a slash. */
  function DirOf(rest: string): string {
    if rest == [] then "/" else if rest[0] == '/' then rest else "/" + rest
  }

  function PortOf(port: Port, ssl: bool): int {
    if port.Explicit? then port.number else if ssl then HTTPS_DEFAULT_PORT else HTTP_DEFAULT_PORT
  }

  /** The first place of a character: none of it before, itself there. */
  lemma FindIs(s: string, c: char, i: nat)
    requires i <= |s| && (i < |s| ==> s[i] == c) && forall k :: 0 <= k < i ==> s[k] != c
    ensures Find(s, c) == i
  {
  }

  /** A scheme can only occur where ':' is followed by a slash: in what follows the host. */
  lemma NoSchemeInside(name: string, port: Port, rest: string, pattern: string, colon: nat)
    requires Plain(name, port, rest)
    requires |pattern| == colon + 3 && pattern[colon] == ':' && pattern[colon + 1] == '/'
    requires forall k :: 0 <= k <= colon ==> !EndsHost(pattern[k])
    ensures forall i :: 0 <= i < |name + PortText(port)| ==> !HasAt(name + PortText(port) + rest, i, pattern)
  {
    var text := name + PortText(port) + rest;
    var d := |name + PortText(port)|;
    forall i | 0 <= i < d ensures !HasAt(text, i, pattern) {
      if i + colon + 1 < d {
        ColonInside(name, port, rest, i + colon);
      } else if i + |pattern| <= |text| {
        LastInside(name, port, rest, d);
        assert text[d] == rest[0];
        SchemeMeetsRest(text, i, pattern, colon, d);
      }
    }
  }

  lemma SchemeMeetsRest(text: string, i: nat, pattern: string, colon: nat, d: nat)
    requires i < d <= i + colon + 1 && i + |pattern| <= |text| && d < |text|
    requires |pattern| == colon + 3 && pattern[colon] == ':' && pattern[colon + 1] == '/'
    requires forall k :: 0 <= k <= colon ==> !EndsHost(pattern[k])
    requires EndsHost(text[d])
    requires d == i + colon + 1 ==> text[i + colon] != ':'
    ensures !HasAt(text, i, pattern)
  {
    if d <= i + colon {
      assert text[i + (d - i)] == text[d] && !EndsHost(pattern[d - i]);
    } else {
      assert text[i + colon] != pattern[colon];
    }
  }

  /** In front of what follows the host a ':' is followed by a digit. */
  lemma ColonInside(name: string, port: Port, rest: string, i: nat)
    requires Plain(name, port, rest) && i + 1 < |name + PortText(port)|
    ensures var text := name + PortText(port) + rest;
      text[i] == ':' ==> text[i + 1] != '/'
  {
    if port.Explicit? {
      var text := name + PortText(port) + rest;
      assert PortText(port)[1] == Decimal(port.number)[0];
      if i == |name| {
        assert text[i + 1] == PortText(port)[1];
      } else if i > |name| {
        assert text[i] == Decimal(port.number)[i - |name| - 1];
      }
    }
  }

  /** The last character in front of what follows the host is no ':'. */
  lemma LastInside(name: string, port: Port, rest: string, d: nat)
    requires Plain(name, port, rest) && d == |name + PortText(port)| && d > 0
    ensures (name + PortText(port) + rest)[d - 1] != ':'
  {
    var text := name + PortText(port) + rest;
    if port.Explicit? {
      var digits := Decimal(port.number);
      assert text[d - 1] == digits[|digits| - 1];
    } else {
      assert text[d - 1] == name[d - 1];
    }
  }

  lemma FindTextIs(s: string, pattern: string, i: nat)
    requires pattern != [] && i <= |s| && (i < |s| ==> HasAt(s, i, pattern))
    requires forall k :: 0 <= k < i ==> !HasAt(s, k, pattern)
    ensures FindText(s, pattern) == i
  {
  }

  lemma HasIff(s: string, pattern: string)
    requires pattern != []
    ensures Has(s, pattern) <==> FindText(s, pattern) < |s|
  {
  }

  lemma HasAtShifted(front: string, rest: string, i: nat, pattern: string)
    ensures HasAt(front + rest, |front| + i, pattern) <==> HasAt(rest, i, pattern)
  {
    var s := front + rest;
    assert forall k :: 0 <= k < |rest| ==> s[|front| + k] == rest[k];
    if HasAt(s, |front| + i, pattern) {
      forall k | 0 <= k < |pattern| ensures pattern[k] == rest[i + k] {
        assert s[|front| + i + k] == rest[i + k];
      }
    }
    if HasAt(rest, i, pattern) {
      forall k | 0 <= k < |pattern| ensures pattern[k] == s[|front| + i + k] {
        assert s[|front| + (i + k)] == rest[i + k];
      }
    }
  }

  /** A pattern that does not start in front is found where it is found in the rest. */
  lemma FindTextBehind(front: string, rest: string, pattern: string)
    requires pattern != [] && forall i :: 0 <= i < |front| ==> !HasAt(front + rest, i, pattern)
    ensures FindText(front + rest, pattern) == |front| + FindText(rest, pattern)
  {
    var j := FindText(rest, pattern);
    forall k | 0 <= k < |front| + j ensures !HasAt(front + rest, k, pattern) {
      if k >= |front| {
        HasAtShifted(front, rest, k - |front|, pattern);
      }
    }
    HasAtShifted(front, rest, j, pattern);
    FindTextIs(front + rest, pattern, |front| + j);
  }

  lemma EraseBehind(front: string, rest: string, i: nat, n: nat)
    requires i <= |rest|
    ensures Erase(front + rest, |front| + i, n) == front + Erase(rest, i, n)
  {
  }

  lemma NoHttpAtHttps(body: string)
    ensures forall i :: 0 <= i < 8 ==> !HasAt("https://" + body, i, "http://")
  {
    var s := "https://" + body;
    forall i | 0 <= i < 8 ensures !HasAt(s, i, "http://") {
      if i == 0 {
        assert s[0 + 4] == 's' && "http://"[4] == ':';
      } else {
        assert s[i + 0] == "https://"[i] != 'h' && "http://"[0] == 'h';
      }
    }
  }

  /** The scheme that is cut out of what follows the host: the one that is not the URL's own. */
  function Embedded(ssl: bool): string { if ssl then "http://" else "https://" }

  /** What follows the host, without the first embedded scheme. */
  function Less(ssl: bool, rest: string): string {
    var i := FindText(rest, Embedded(ssl));
    if i < |rest| then Erase(rest, i, |Embedded(ssl)|) else rest
  }

  /** An embedded "https://" counts for the URL's scheme. */
  predicate Tls(ssl: bool, rest: string) { ssl || FindText(rest, "https://") < |rest| }

  lemma LessStarts(ssl: bool, rest: string)
    requires rest != [] && EndsHost(rest[0])
    ensures Less(ssl, rest) != [] && Less(ssl, rest)[0] == rest[0]
    ensures |Less(ssl, rest)| == |rest| - (if Has(rest, Embedded(ssl)) then |Embedded(ssl)| else 0)
  {
    HasIff(rest, Embedded(ssl));
    assert Embedded(ssl)[0] == 'h' && rest[0 + 0] != 'h';
  }

  lemma StripSchemes(ssl: bool, name: string, port: Port, rest: string, dir: string, port0: int)
    requires Plain(name, port, rest)
    ensures StripHttps(StripHttp(Host(Print(ssl, name, port, rest), dir, port0, false)))
         == Host(name + PortText(port) + Less(ssl, rest), dir,
                 if Tls(ssl, rest) then HTTPS_DEFAULT_PORT else port0, Tls(ssl, rest))
  {
    if ssl {
      NoSchemeInside(name, port, rest, "http://", 4);
      StripFromHttps(name + PortText(port), rest, dir, port0);
    } else {
      NoSchemeInside(name, port, rest, "https://", 5);
      StripFromHttp(name + PortText(port), rest, dir, port0);
    }
  }

  lemma StripFromHttp(front: string, rest: string, dir: string, port0: int)
    requires forall i :: 0 <= i < |front| ==> !HasAt(front + rest, i, "https://")
    ensures StripHttps(StripHttp(Host("http://" + (front + rest), dir, port0, false)))
         == Host(front + Less(false, rest), dir,
                 if Tls(false, rest) then HTTPS_DEFAULT_PORT else port0, Tls(false, rest))
  {
    HttpTaken(front + rest, dir, port0);
    HttpsTaken(front, rest, dir, port0);
  }

  lemma HttpTaken(body: string, dir: string, port0: int)
    ensures StripHttp(Host("http://" + body, dir, port0, false)) == Host(body, dir, port0, false)
  {
    FindTextIs("http://" + body, "http://", 0);
    assert Erase("http://" + body, 0, 7) == body;
  }

  lemma HttpsTaken(front: string, rest: string, dir: string, port0: int)
    requires forall i :: 0 <= i < |front| ==> !HasAt(front + rest, i, "https://")
    ensures StripHttps(Host(front + rest, dir, port0, false))
         == Host(front + Less(false, rest), dir,
                 if Tls(false, rest) then HTTPS_DEFAULT_PORT else port0, Tls(false, rest))
  {
    FindTextBehind(front, rest, "https://");
    EraseBehind(front, rest, FindText(rest, "https://"), 8);
  }

  lemma StripFromHttps(front: string, rest: string, dir: string, port0: int)
    requires forall i :: 0 <= i < |front| ==> !HasAt(front + rest, i, "http://")
    ensures StripHttps(StripHttp(Host("https://" + (front + rest), dir, port0, false)))
         == Host(front + Less(true, rest), dir, HTTPS_DEFAULT_PORT, true)
  {
    HttpCutFromHttps(front, rest, dir, port0);
    var text := "https://" + (front + Less(true, rest));
    FindTextIs(text, "https://", 0);
    assert Erase(text, 0, 8) == front + Less(true, rest);
  }

  lemma HttpCutFromHttps(front: string, rest: string, dir: string, port0: int)
    requires forall i :: 0 <= i < |front| ==> !HasAt(front + rest, i, "http://")
    ensures StripHttp(Host("https://" + (front + rest), dir, port0, false))
         == Host("https://" + (front + Less(true, rest)), dir, port0, false)
  {
    NoHttpAtHttps(front + rest);
    FoundBehindBoth("https://", front, rest, "http://");
  }

  /** A pattern that stands in neither front part is found, and cut out, where it stands in the rest. */
  lemma FoundBehindBoth(first: string, second: string, rest: string, pattern: string)
    requires pattern != []
    requires forall i :: 0 <= i < |first| ==> !HasAt(first + (second + rest), i, pattern)
    requires forall i :: 0 <= i < |second| ==> !HasAt(second + rest, i, pattern)
    ensures
      var text := first + (second + rest);
      var i, j := FindText(text, pattern), FindText(rest, pattern);
      && i == |first| + |second| + j && (i < |text| <==> j < |rest|)
      && Erase(text, i, |pattern|) == first + (second + Erase(rest, j, |pattern|))
  {
    FindTextBehind(first, second + rest, pattern);
    FindTextBehind(second, rest, pattern);
    EraseBehindBoth(first, second, rest, FindText(rest, pattern), |pattern|);
  }

  lemma EraseBehindBoth(first: string, second: string, rest: string, i: nat, n: nat)
    requires i <= |rest|
    ensures Erase(first + (second + rest), |first| + (|second| + i), n) == first + (second + Erase(rest, i, n))
  {
    EraseBehind(first, second + rest, |second| + i, n);
    EraseBehind(second, rest, i, n);
  }

  /** What is left of the text behind an explicit port: the cut takes everything up to the first '/'. */
  function AfterCut(rest: string): string { rest[Find(rest, '/')..] }

  /** The directory that is left of what follows the host. */
  function DirLeft(ssl: bool, port: Port, rest: string): string {
    DirOf(if port.Explicit? then AfterCut(Less(ssl, rest)) else Less(ssl, rest))
  }

  /** What parsing makes of scheme, host, port and whatever follows. */
  lemma ParsedAs(ssl: bool, name: string, port: Port, rest: string)
    requires Plain(name, port, rest)
    ensures Parse(Host(Print(ssl, name, port, rest), "/", HTTP_DEFAULT_PORT, false))
         == Host(name, DirLeft(ssl, port, rest), PortOf(port, Tls(ssl, rest)), Tls(ssl, rest))
  {
    var less, tls := Less(ssl, rest), Tls(ssl, rest);
    if rest != [] {
      LessStarts(ssl, rest);
    }
    StripSchemes(ssl, name, port, rest, "/", HTTP_DEFAULT_PORT);
    PortAndDirTaken(Host(name + PortText(port) + less, "/", PortOf(NoPort, tls), tls), name, port, less);
  }

  /**
   Without a scheme in front, what parsing makes of a host, an optional port and whatever follows: the first
   "http://" in what follows is cut out and then the first "https://", which turns TLS on.
   */
  lemma ParsedBare(name: string, port: Port, rest: string)
    requires Plain(name, port, rest)
    ensures var cut := Less(true, rest);
      Parse(Host(name + PortText(port) + rest, "/", HTTP_DEFAULT_PORT, false))
      == Host(name, DirLeft(false, port, cut), PortOf(port, Tls(false, cut)), Tls(false, cut))
  {
    var front, cut := name + PortText(port), Less(true, rest);
    var less, tls := Less(false, cut), Tls(false, cut);
    if rest != [] {
      LessStarts(true, rest);
      LessStarts(false, cut);
    }
    BareSchemes(name, port, rest, "/", HTTP_DEFAULT_PORT);
    PortAndDirTaken(Host(front + less, "/", PortOf(NoPort, tls), tls), name, port, less);
  }

  lemma BareSchemes(name: string, port: Port, rest: string, dir: string, port0: int)
    requires Plain(name, port, rest)
    ensures var cut := Less(true, rest);
      StripHttps(StripHttp(Host(name + PortText(port) + rest, dir, port0, false)))
      == Host(name + PortText(port) + Less(false, cut), dir,
              if Tls(false, cut) then HTTPS_DEFAULT_PORT else port0, Tls(false, cut))
  {
    var front, cut := name + PortText(port), Less(true, rest);
    if rest != [] {
      LessStarts(true, rest);
    }
    NoSchemeInside(name, port, rest, "http://", 4);
    HttpCut(front, rest, dir, port0);
    NoSchemeInside(name, port, cut, "https://", 5);
    HttpsTaken(front, cut, dir, port0);
  }

  lemma HttpCut(front: string, rest: string, dir: string, port0: int)
    requires forall i :: 0 <= i < |front| ==> !HasAt(front + rest, i, "http://")
    ensures StripHttp(Host(front + rest, dir, port0, false)) == Host(front + Less(true, rest), dir, port0, false)
  {
    FindTextBehind(front, rest, "http://");
    EraseBehind(front, rest, FindText(rest, "http://"), 7);
  }

  lemma PortAndDirTaken(h: Host, name: string, port: Port, rest: string)
    requires Plain(name, port, rest) && h.dir == "/"
    requires h.name == name + PortText(port) + rest && h.port == PortOf(NoPort, h.ssl)
    ensures TakeDir(TakePort(h))
         == Host(name, DirOf(if port.Explicit? then AfterCut(rest) else rest), PortOf(port, h.ssl), h.ssl)
  {
    TextSpells(name, port, rest);
    PortTaken(h, name, port, rest);
    var left := if port.Explicit? then AfterCut(rest) else rest;
    DirTaken(h.(name := name + left, port := PortOf(port, h.ssl)), name, left);
  }

  /**
   Printing scheme, host, port and what follows and parsing the text gives the parts back if and only
   if there is no port, or nothing follows it, or a path does; and what follows does not hold the text
   of the other scheme.
   */
  lemma ParseOfPrint(ssl: bool, name: string, port: Port, rest: string)
    requires Plain(name, port, rest)
    ensures Parse(Host(Print(ssl, name, port, rest), "/", HTTP_DEFAULT_PORT, false))
            == Host(name, DirOf(rest), PortOf(port, ssl), ssl)
       <==> (port.NoPort? || rest == [] || rest[0] == '/') && !Has(rest, if ssl then "http://" else "https://")
  {
    ParsedAs(ssl, name, port, rest);
    HasIff(rest, Embedded(ssl));
    if Has(rest, Embedded(ssl)) {
      EmbeddedLost(ssl, port, rest);
    } else if port.Explicit? {
      CutKeepsIff(rest);
    }
  }

  /** An embedded scheme turns http into https, or is missing from the directory. */
  lemma EmbeddedLost(ssl: bool, port: Port, rest: string)
    requires (rest != [] ==> EndsHost(rest[0])) && Has(rest, Embedded(ssl))
    ensures Tls(ssl, rest) != ssl || DirLeft(ssl, port, rest) != DirOf(rest)
  {
    HasIff(rest, Embedded(ssl));
    if ssl {
      LessStarts(ssl, rest);
      assert |DirLeft(ssl, port, rest)| <= |Less(ssl, rest)| + 1 < |rest| <= |DirOf(rest)|;
    }
  }

  /** The cut behind a port changes the directory exactly when a query or a fragment follows the port. */
  lemma CutKeepsIff(rest: string)
    requires rest != [] ==> EndsHost(rest[0])
    ensures DirOf(AfterCut(rest)) == DirOf(rest) <==> rest == [] || rest[0] == '/'
  {
    var slash := Find(rest, '/');
    if rest == [] || rest[0] == '/' {
      assert slash == 0 && rest[0..] == rest;
    } else {
      assert slash > 0 && |DirOf(AfterCut(rest))| < |rest| + 1 == |DirOf(rest)|;
    }
  }

  /** The directory that parsing "http://a:81?next=/home" yields is the path in its query. */
  lemma QueryAfterPortIsLost()
    ensures Parse(Host("http://a:81?next=/home", "/", HTTP_DEFAULT_PORT, false)) == Host("a", "/home", 81, false)
    ensures DirOf("?next=/home") != "/home"
  {
    var rest := "?next=/home";
    FailingText(rest);
    FailingParse(rest);
  }

  lemma FailingParse(rest: string)
    requires rest == "?next=/home"
    ensures Parse(Host(Print(false, "a", Explicit(81), rest), "/", HTTP_DEFAULT_PORT, false))
         == Host("a", "/home", 81, false)
  {
    NoSchemeHere(rest);
    FailingCut(rest);
    ParsedAs(false, "a", Explicit(81), rest);
  }

  /** A plain URL with an https address in its query is checked over TLS, and without that scheme. */
  lemma EmbeddedSchemeCounts()
    ensures Parse(Host("http://a/?u=https://b", "/", HTTP_DEFAULT_PORT, false))
         == Host("a", "/?u=b", HTTPS_DEFAULT_PORT, true)
  {
    var rest := "/?u=https://b";
    EmbeddedFound(rest);
    assert Print(false, "a", NoPort, rest) == "http://a/?u=https://b";
    ParsedAs(false, "a", NoPort, rest);
  }

  lemma EmbeddedFound(rest: string)
    requires rest == "/?u=https://b"
    ensures Tls(false, rest) && Less(false, rest) == "/?u=b"
  {
    var pattern := "https://";
    forall k | 0 <= k < 4 ensures !HasAt(rest, k, pattern) {
      assert rest[k + 0] != pattern[0];
    }
    FindTextIs(rest, pattern, 4);
    assert Erase(rest, 4, 8) == "/?u=b";
  }

  lemma FailingText(rest: string)
    requires rest == "?next=/home"
    ensures Print(false, "a", Explicit(81), rest) == "http://a:81?next=/home"
  {
    assert Decimal(81) == "81" by {
      assert Decimal(8) == "8";
    }
  }

  lemma FailingCut(rest: string)
    requires rest == "?next=/home"
    ensures AfterCut(rest) == "/home"
  {
    FindIs(rest, '/', 6);
  }

  /** A text without ':' holds no scheme. */
  lemma NoSchemeHere(rest: string)
    requires forall k :: 0 <= k < |rest| ==> rest[k] != ':'
    ensures Less(false, rest) == rest && !Tls(false, rest)
  {
    forall i | 0 <= i <= |rest| ensures !HasAt(rest, i, "https://") {
      assert "https://"[5] == ':';
    }
    FindTextIs(rest, "https://", |rest|);
  }

  lemma DirTaken(h: Host, name: string, rest: string)
    requires h.name == name + rest && h.dir == "/" && NoDelimiter(name) && (rest != [] ==> EndsHost(rest[0]))
    ensures TakeDir(h) == h.(name := name, dir := DirOf(rest))
  {
    EndOfHost(h.name, name, rest);
    assert h.name[..|name|] == name && h.name[|name|..] == rest;
  }

  /** The first '/', '?' or '#' is where the host ends. */
  lemma EndOfHost(s: string, name: string, rest: string)
    requires s == name + rest && NoDelimiter(name) && (rest != [] ==> EndsHost(rest[0]))
    ensures Min(Min(Find(s, '/'), Find(s, '?')), Find(s, '#')) == |name|
    ensures Find(s, ':') >= |name| && (rest != [] ==> Find(s, ':') > |name|)
  {
    assert forall k :: 0 <= k < |name| ==> s[k] == name[k];
    if rest != [] {
      assert s[|name|] == rest[0];
    }
  }

  lemma PortTaken(h: Host, name: string, port: Port, rest: string)
    requires Plain(name, port, rest)
    requires if port.Explicit? then Spells(h.name, name, Decimal(port.number), rest) else h.name == name + rest
    ensures TakePort(h)
         == if port.Explicit? then h.(name := name + AfterCut(rest), port := port.number) else h
  {
    match port
    case Explicit(number) =>
      NumberOfDecimal(number);
      NumberTaken(h, name, Decimal(number), number, rest);
    case NoPort => NoneTaken(h, name, rest);
  }

  lemma NoneTaken(h: Host, name: string, rest: string)
    requires h.name == name + rest && NoDelimiter(name) && (rest != [] ==> EndsHost(rest[0]))
    ensures TakePort(h) == h
  {
    EndOfHost(h.name, name, rest);
  }

  /** The text is the name, a ':', the digits and the rest. */
  ghost predicate Spells(s: string, name: string, digits: string, rest: string) {
    var d := |name| + 1 + |digits|;
    && |s| == d + |rest|
    && (forall k :: 0 <= k < |name| ==> s[k] == name[k]) && s[|name|] == ':'
    && (forall k :: |name| < k < d ==> s[k] == digits[k - |name| - 1])
    && (forall k :: d <= k < |s| ==> s[k] == rest[k - d])
  }

  lemma TextSpells(name: string, port: Port, rest: string)
    ensures var text := name + PortText(port) + rest;
      if port.Explicit? then Spells(text, name, Decimal(port.number), rest) else text == name + rest
  {
    match port
    case Explicit(number) => ConcatSpells(name, Decimal(number), rest);
    case NoPort => assert name + "" == name;
  }

  lemma ConcatSpells(name: string, digits: string, rest: string)
    ensures Spells(name + (":" + digits) + rest, name, digits, rest)
  {
  }

  lemma NumberTaken(h: Host, name: string, digits: string, number: nat, rest: string)
    requires digits != [] && forall k :: 0 <= k < |digits| ==> IsDigit(digits[k])
    requires Spells(h.name, name, digits, rest) && number >= 1 && Number(digits, 0, |digits|) == number
    requires NoDelimiter(name) && (rest != [] ==> EndsHost(rest[0]))
    ensures TakePort(h) == h.(name := name + AfterCut(rest), port := number)
  {
    var slash, left := PortFacts(h.name, name, digits, rest);
    PortCut(h, |name|, slash, number, left);
  }

  lemma PortFacts(s: string, name: string, digits: string, rest: string) returns (slash: nat, left: string)
    requires Spells(s, name, digits, rest)
    requires digits != [] && forall k :: 0 <= k < |digits| ==> IsDigit(digits[k])
    requires NoDelimiter(name) && (rest != [] ==> EndsHost(rest[0]))
    ensures |name| < slash <= |s| && Find(s, ':') == |name| && Find(s, '/') == slash
    ensures Find(s, '?') > |name| && Find(s, '#') > |name|
    ensures Atoi(Piece(s, |name| + 1, slash)) == Number(digits, 0, |digits|)
    ensures left == Erase(s, |name|, slash - |name|)
    ensures left == name + AfterCut(rest)
  {
    slash, left := |name| + 1 + |digits| + Find(rest, '/'), name + AfterCut(rest);
    PieceValue(s, name, digits, rest);
    Places(s, name, digits, rest);
    CutOut(s, name, digits, rest, Find(rest, '/'));
  }

  lemma PortCut(h: Host, colon: nat, slash: nat, number: nat, rest: string)
    requires colon < slash <= |h.name| && Find(h.name, ':') == colon && Find(h.name, '/') == slash
    requires colon < Find(h.name, '?') && colon < Find(h.name, '#')
    requires Atoi(Piece(h.name, colon + 1, slash)) == number >= 1
    requires Erase(h.name, colon, slash - colon) == rest
    ensures TakePort(h) == h.(name := rest, port := number)
  {
  }

  lemma Places(s: string, name: string, digits: string, rest: string)
    requires Spells(s, name, digits, rest) && NoDelimiter(name)
    requires forall k :: 0 <= k < |digits| ==> IsDigit(digits[k])
    ensures Find(s, ':') == |name| && Find(s, '/') == |name| + 1 + |digits| + Find(rest, '/')
    ensures Find(s, '?') > |name| && Find(s, '#') > |name|
  {
    var d := |name| + 1 + |digits|;
    FindIs(s, ':', |name|);
    FindIs(s, '/', d + Find(rest, '/'));
    assert forall k :: 0 <= k <= |name| ==> s[k] != '?' && s[k] != '#';
  }

  /** The text handed to the number reader holds all digits and stops them with no digit. */
  lemma PieceValue(s: string, name: string, digits: string, rest: string)
    requires Spells(s, name, digits, rest) && (rest != [] ==> EndsHost(rest[0]))
    requires digits != [] && forall k :: 0 <= k < |digits| ==> IsDigit(digits[k])
    ensures Atoi(Piece(s, |name| + 1, |name| + 1 + |digits| + Find(rest, '/'))) == Number(digits, 0, |digits|)
  {
    var piece := Piece(s, |name| + 1, |name| + 1 + |digits| + Find(rest, '/'));
    PieceSpells(s, name, digits, rest, |name| + 1 + |digits| + Find(rest, '/'));
    AtoiOfDigits(piece, digits);
  }

  lemma PieceSpells(s: string, name: string, digits: string, rest: string, n: nat)
    requires Spells(s, name, digits, rest) && n >= |digits| + |name| + 1 && (rest != [] ==> EndsHost(rest[0]))
    ensures var piece := Piece(s, |name| + 1, n);
      && |digits| <= |piece| && (forall k :: 0 <= k < |digits| ==> piece[k] == digits[k])
      && (|digits| < |piece| ==> EndsHost(piece[|digits|]))
  {
    var d := |name| + 1 + |digits|;
    var piece := Piece(s, |name| + 1, n);
    forall k | 0 <= k < |digits| ensures piece[k] == digits[k] {
      assert piece[k] == s[|name| + 1 + k];
    }
    if |digits| < |piece| {
      assert piece[|digits|] == s[d] == rest[0];
    }
  }

  lemma CutOut(s: string, name: string, digits: string, rest: string, n: nat)
    requires Spells(s, name, digits, rest) && n <= |rest|
    ensures Erase(s, |name|, 1 + |digits| + n) == name + rest[n..]
  {
  }
}
