/** WebBench's `build_request`, and that the server's parser undoes it. */
module WebBench {
  import opened Sequences
  import opened HeaderParser
  import opened RequestLine

  const PROGRAM_VERSION := "1.5"
  const MAX_URL := 1500
  const REQUEST_SIZE := 2048
  const HOST_SIZE := 64  // MAXHOSTNAMELEN
  const PORT_SIZE := 10

  datatype BenchMethod = BenchGet | BenchHead | BenchOptions | BenchTrace

  function MethodName(m: BenchMethod): (name: string)
    ensures 3 <= |name| <= 7
  {
    match m
    case BenchGet => "GET"
    case BenchHead => "HEAD"
    case BenchOptions => "OPTIONS"
    case BenchTrace => "TRACE"
  }

  function VersionName(v: Version): string {
    if v.Http10? then "1.0" else "1.1"
  }

  /** The request line without its line break, as section 3 of RFC 9112 writes one. */
  function PrintLine(m: BenchMethod, target: string, v: Version): string {
    MethodName(m) + " " + target + " HTTP/" + VersionName(v)
  }

  const USER_AGENT := Field("User-Agent", "WebBench " + PROGRAM_VERSION)
  const PRAGMA := Field("Pragma", "no-cache")

  function Connection(keepAlive: bool): Field {
    Field("Connection", if keepAlive then "Keep-Alive" else "close")
  }

  /** The header fields; no host field means through a proxy. */
  function RequestFields(v: Version, host: Option<string>, reload: bool, keepAlive: bool): seq<Field> {
    [USER_AGENT]
    + (if host.Some? then [Field("Host", host.value)] else if reload then [PRAGMA] else [])
    + (if v.Http11? then [Connection(keepAlive)] else [])
  }

  /** A request; without a version, one of HTTP/0.9. */
  function Print(m: BenchMethod, target: string, v: Option<Version>, host: Option<string>,
                 reload: bool, keepAlive: bool): string
  {
    if v.None? then MethodName(m) + " " + target + "\r\n"
    else PrintLine(m, target, v.value) + "\r\n" + Lines(RequestFields(v.value, host, reload, keepAlive)) + "\r\n"
  }

  // ---------------------------------------------------------------- URLs

  function Lower(c: char): char {
    if 'A' <= c <= 'Z' then c + ('a' - 'A') else c
  }

  /** strncasecmp("http://", url, 7) == 0 */
  predicate HttpScheme(url: string) {
    |url| >= 7 && forall i | 0 <= i < 7 :: Lower(url[i]) == "http://"[i]
  }

  predicate GoodUrl(url: string) {
    |url| <= MAX_URL && HttpScheme(url) && '/' in url[7..]
  }

  /** What is between the scheme and the next slash, without the port. */
  function HostOf(url: string): string
    requires GoodUrl(url)
  {
    UpTo(UpTo(url[7..], '/'), ':')
  }

  /** All from that slash on. */
  function TargetOf(url: string): string
    requires GoodUrl(url)
  {
    url[7 + |UpTo(url[7..], '/')|..]
  }

  /** The text between the host's colon and that slash, if there is one. */
  function PortOf(url: string): string
    requires GoodUrl(url)
  {
    var part := UpTo(url[7..], '/');
    if |HostOf(url)| < |part| then part[|HostOf(url)| + 1..] else ""
  }

  /** Host and port fit their arrays, terminators included. */
  predicate Fits(url: string)
    requires GoodUrl(url)
  {
    |HostOf(url)| < HOST_SIZE && |PortOf(url)| < PORT_SIZE
  }

  /** What becomes of a URL: exit(2), an array overrun or left without its terminator, or a request. */
  datatype Built = Refused | Overrun | Printed(text: string)

  function Build(m: BenchMethod, asked: int, reload: bool, proxied: bool, keepAlive: bool, url: string): Built
    requires 0 <= asked <= 2
  {
    if !GoodUrl(url) then Refused
    else if proxied then Printed(Print(m, url, VersionFor(m, asked, reload), None, reload, keepAlive))
    else if !Fits(url) then Overrun
    else Printed(Print(m, TargetOf(url), VersionFor(m, asked, false), Some(HostOf(url)), reload, keepAlive))
  }

  /** The version a request gets: some methods and the reload header need a newer one than asked for. */
  function VersionFor(m: BenchMethod, asked: int, proxyReload: bool): Option<Version>
    requires 0 <= asked <= 2
  {
    if asked == 2 || m.BenchOptions? || m.BenchTrace? then Some(Http11)
    else if asked == 1 || m.BenchHead? || proxyReload then Some(Http10)
    else None
  }

  lemma UpToIs(s: string, ch: char)
    ensures ch !in UpTo(s, ch) && UpTo(s, ch) <= s
    ensures ch in s ==> |UpTo(s, ch)| < |s| && s[|UpTo(s, ch)|] == ch && Search(s, [ch], 0) == Some(|UpTo(s, ch)|)
    ensures ch !in s ==> Search(s, [ch], 0).None?
  {
    var at := Search(s, [ch], 0);
    forall j | 0 <= j < |s| && (at.None? || j < at.value) ensures s[j] != ch {
      if s[j] == ch { assert s[j..j + 1] == [ch]; assert Occurs(s, [ch], j); }
    }
    if at.Some? { assert s[at.value..at.value + 1][0] == ch; }
  }

  lemma NoCharBefore(s: string, ch: char, n: nat)
    requires n <= |s| && (var at := Search(s, [ch], 0); at.None? || n <= at.value)
    ensures ch !in s[..n]
  {
    forall j | 0 <= j < n ensures s[j] != ch {
      if s[j] == ch { assert s[j..j + 1] == [ch]; assert Occurs(s, [ch], j); }
    }
  }

  /** Looking for the first colon in all of the rest, as the code does, or only before the slash. */
  lemma HostIs(rest: string)
    requires '/' in rest
    ensures var colon, slash := Search(rest, ":", 0), Search(rest, "/", 0);
      && slash.Some?
      && UpTo(UpTo(rest, '/'), ':')
         == rest[..if colon.Some? && colon.value < slash.value then colon.value else slash.value]
  {
    UpToIs(rest, '/');
    UpToIs(rest, ':');
    var part, colon := UpTo(rest, '/'), Search(rest, ":", 0);
    UpToIs(part, ':');
    if colon.Some? && colon.value < |part| {
      SearchChar(part, ':', 0, colon.value);
    } else {
      NoCharBefore(rest, ':', |part|);
      assert part == rest[..|part|];
    }
  }

  lemma PortIs(url: string)
    requires GoodUrl(url)
    ensures var rest := url[7..];
      var colon, slash := Search(rest, ":", 0), Search(rest, "/", 0);
      && slash.Some?
      && PortOf(url)
         == if colon.Some? && colon.value < slash.value then rest[colon.value + 1..slash.value] else ""
  {
    var rest := url[7..];
    HostIs(rest);
    UpToIs(rest, '/');
  }

  /** A URL that is accepted, and whose host of 64 bytes does not fit its array. */
  lemma LongHostOverruns(m: BenchMethod, asked: int, reload: bool, keepAlive: bool) returns (url: string)
    requires 0 <= asked <= 2
    ensures url == "http://" + seq(HOST_SIZE, _ => 'h') + "/"
    ensures GoodUrl(url) && |HostOf(url)| == HOST_SIZE && Build(m, asked, reload, false, keepAlive, url) == Overrun
  {
    var host := seq(HOST_SIZE, _ => 'h');
    url := "http://" + host + "/";
    var rest := url[7..];
    assert rest == host + ['/'] + "";
    assert forall i | 0 <= i < 7 :: url[i] == "http://"[i] && Lower(url[i]) == url[i];
    SearchSplit(host, '/', "", 0);
    UpToIs(rest, '/');
    assert UpTo(rest, '/') == host;
    UpToIs(host, ':');
    hide Search, Print;
  }

  lemma SchemeHasSeparator(url: string)
    requires HttpScheme(url)
    ensures Search(url, "://", 0) == Some(4)
  {
    var c := "http://";
    forall i | 0 <= i < 7 ensures (c[i] == ':' || c[i] == '/' ==> url[i] == c[i]) && (c[i] != ':' ==> url[i] != ':') {
      assert Lower(url[i]) == c[i];
    }
    forall j | 0 <= j < 4 ensures !Occurs(url, "://", j) {
      assert c[j] != ':' && url[j..j + 3][0] == url[j];
    }
    assert url[4..7] == "://";
    SearchIs(url, "://", 0, 4);
  }

  lemma AppendLine(head: string, fs: seq<Field>, f: Field, line: string)
    requires line == Line(f)
    ensures head + Lines(fs) + line == head + Lines(fs + [f])
  {
    assert (fs + [f])[..|fs|] == fs;
    Assoc(head, Lines(fs), Line(f));
  }

  lemma UserAgentLine()
    ensures Line(USER_AGENT) == "User-Agent: WebBench 1.5\r\n"
  {
  }

  lemma PragmaLine()
    ensures Line(PRAGMA) == "Pragma: no-cache\r\n"
  {
  }

  lemma ConnectionLine(keepAlive: bool)
    ensures Line(Connection(keepAlive)) == if keepAlive then "Connection: Keep-Alive\r\n" else "Connection: close\r\n"
  {
  }

  lemma HostLine(head: string, host: string)
    ensures head + "Host: " + host + "\r\n" == head + Line(Field("Host", host))
  {
    assert "Host" + ": " == "Host: ";
    Assoc(head, "Host: ", host);
    Assoc(head, "Host: " + host, "\r\n");
  }

  lemma PrintUnversioned(m: BenchMethod, target: string, host: Option<string>, reload: bool, keepAlive: bool)
    ensures Print(m, target, None, host, reload, keepAlive) == MethodName(m) + " " + target + "\r\n"
  {
    hide MethodName;
  }

  lemma PrintVersioned(m: BenchMethod, target: string, v: Version, host: Option<string>, reload: bool, keepAlive: bool)
    ensures Print(m, target, Some(v), host, reload, keepAlive)
         == MethodName(m) + " " + target + " HTTP/" + VersionName(v) + "\r\n"
            + Lines(RequestFields(v, host, reload, keepAlive)) + "\r\n"
  {
    hide Lines, RequestFields, MethodName, VersionName;
  }

  lemma EmptyLines()
    ensures forall head: string :: head + Lines([]) == head
  {
  }

  lemma LinesPush(fs: seq<Field>, f: Field)
    ensures |Lines(fs + [f])| == |Lines(fs)| + |f.key| + |f.value| + 4
  {
    assert (fs + [f])[..|fs|] == fs;
  }

  lemma FieldSizes(keepAlive: bool)
    ensures |USER_AGENT.key| + |USER_AGENT.value| == 22 && |PRAGMA.key| + |PRAGMA.value| == 14
    ensures |Connection(keepAlive).key| + |Connection(keepAlive).value| <= 20
  {
  }

  /** A URL of these parts. */
  function UrlOf(host: string, port: Option<string>, target: string): string {
    "http://" + host + (if port.Some? then ":" + port.value else "") + target
  }

  lemma UrlOfParts(host: string, port: Option<string>, target: string)
    requires '/' !in host && ':' !in host && (port.Some? ==> '/' !in port.value) && target != "" && target[0] == '/'
    requires |UrlOf(host, port, target)| <= 1500
    ensures var url := UrlOf(host, port, target);
      && GoodUrl(url) && HostOf(url) == host && TargetOf(url) == target
      && PortOf(url) == if port.Some? then port.value else ""
  {
    var url, part := UrlOf(host, port, target), host + (if port.Some? then ":" + port.value else "");
    assert url == "http://" + (part + target);
    var rest := url[7..];
    assert rest == part + ['/'] + target[1..];
    assert forall i | 0 <= i < 7 :: url[i] == "http://"[i] && Lower(url[i]) == url[i];
    SearchSplit(part, '/', target[1..], 0);
    assert UpTo(rest, '/') == part && rest[|part|] == '/';
    UpToIs(part, ':');
    if port.Some? {
      assert part == host + [':'] + port.value;
      SearchSplit(host, ':', port.value, 0);
    }
    assert UpTo(part, ':') == host;
    hide Search, UpTo;
  }

  lemma LinesOf(a: Field, b: Option<Field>, c: Option<Field>)
    ensures Lines([a] + (if b.Some? then [b.value] else []) + (if c.Some? then [c.value] else []))
         == Line(a) + (if b.Some? then Line(b.value) else "") + (if c.Some? then Line(c.value) else "")
  {
    var one := [a];
    var two := one + (if b.Some? then [b.value] else []);
    assert Lines([]) == "" && one[..0] == [];
    assert Lines(one) == "" + Line(a) == Line(a);
    if b.Some? { assert two[..1] == one; } else { assert two == one && Line(a) + "" == Line(a); }
    if c.Some? {
      assert (two + [c.value])[..|two|] == two;
    } else {
      assert two + [] == two;
      assert Lines(two) + "" == Lines(two);
    }
  }

  /** What stands behind the request line. */
  function Tail(server: string, http11: bool, keepAlive: bool): string {
    "User-Agent: WebBench 1.5\r\n" + server
    + (if http11 then (if keepAlive then "Connection: Keep-Alive\r\n" else "Connection: close\r\n") else "")
  }

  lemma TailIs(v: Version, host: Option<string>, reload: bool, keepAlive: bool)
    ensures Lines(RequestFields(v, host, reload, keepAlive))
         == Tail(if host.Some? then "Host: " + host.value + "\r\n" else if reload then "Pragma: no-cache\r\n" else "",
                 v.Http11?, keepAlive)
  {
    var b := if host.Some? then Some(Field("Host", host.value)) else if reload then Some(PRAGMA) else None;
    var c := if v.Http11? then Some(Connection(keepAlive)) else None;
    LinesOf(USER_AGENT, b, c);
    UserAgentLine();
    PragmaLine();
    ConnectionLine(keepAlive);
    if host.Some? {
      HostLine("", host.value);
      assert "" + "Host: " == "Host: " && "" + Line(b.value) == Line(b.value);
    }
    hide Line, Lines, Connection;
  }

  /** The text that `build_request` puts together, byte for byte: the version is the one asked for, or a newer
      one that the method or the reload header needs, and without one there are no headers. */
  lemma TextIs(m: BenchMethod, asked: int, reload: bool, keepAlive: bool,
               host: string, port: Option<string>, target: string)
    requires 0 <= asked <= 2 && '/' !in host && ':' !in host && (port.Some? ==> '/' !in port.value)
    requires target != "" && target[0] == '/' && |UrlOf(host, port, target)| <= 1500
    ensures var name := match m
        case BenchGet => "GET"
        case BenchHead => "HEAD"
        case BenchOptions => "OPTIONS"
        case BenchTrace => "TRACE";
      var http11 := asked == 2 || m.BenchOptions? || m.BenchTrace?;
      var url, line, server := UrlOf(host, port, target), name + " " + target, "Host: " + host + "\r\n";
      Build(m, asked, reload, false, keepAlive, url)
      == if |host| >= 64 || (port.Some? && |port.value| >= 10) then Overrun
         else if http11 then Printed(line + " HTTP/" + "1.1" + "\r\n" + Tail(server, true, keepAlive) + "\r\n")
         else if asked == 1 || m.BenchHead? then
           Printed(line + " HTTP/" + "1.0" + "\r\n" + Tail(server, false, keepAlive) + "\r\n")
         else Printed(line + "\r\n")
  {
    UrlOfParts(host, port, target);
    TailIs(Http11, Some(host), reload, keepAlive);
    TailIs(Http10, Some(host), reload, keepAlive);
    hide Lines, Tail, HostOf, PortOf, TargetOf, GoodUrl, UrlOf, RequestFields;
  }

  /** Through a proxy the target is the whole URL, and there may be a reload header for the host's. */
  lemma ProxiedTextIs(m: BenchMethod, asked: int, reload: bool, keepAlive: bool, url: string)
    requires 0 <= asked <= 2 && GoodUrl(url)
    ensures var name := match m
        case BenchGet => "GET"
        case BenchHead => "HEAD"
        case BenchOptions => "OPTIONS"
        case BenchTrace => "TRACE";
      var http11 := asked == 2 || m.BenchOptions? || m.BenchTrace?;
      var line, server := name + " " + url, if reload then "Pragma: no-cache\r\n" else "";
      Build(m, asked, reload, true, keepAlive, url)
      == if http11 then Printed(line + " HTTP/" + "1.1" + "\r\n" + Tail(server, true, keepAlive) + "\r\n")
         else if asked == 1 || m.BenchHead? || reload then
           Printed(line + " HTTP/" + "1.0" + "\r\n" + Tail(server, false, keepAlive) + "\r\n")
         else Printed(line + "\r\n")
  {
    TailIs(Http11, None, reload, keepAlive);
    TailIs(Http10, None, reload, keepAlive);
    hide Lines, Tail, GoodUrl, RequestFields;
  }

  lemma FieldsLength(v: Version, host: Option<string>, reload: bool, keepAlive: bool)
    ensures |Lines(RequestFields(v, host, reload, keepAlive))| <= (if host.Some? then |host.value| else 0) + 80
  {
    hide Lines, Connection;
    FieldSizes(keepAlive);
    var a := [USER_AGENT];
    LinesPush([], USER_AGENT);
    assert [] + a == a && |Lines([])| == 0 by { EmptyLines(); assert "" + Lines([]) == ""; }
    var b := if host.Some? then [Field("Host", host.value)] else if reload then [PRAGMA] else [];
    if b != [] { LinesPush(a, b[0]); } else { assert a + b == a; }
    var c := if v.Http11? then [Connection(keepAlive)] else [];
    if c != [] { LinesPush(a + b, c[0]); } else { assert a + b + c == a + b; }
  }

  // ---------------------------------------------------------------- C strings in arrays

  /** The string an array holds. */
  function CString(a: seq<char>): string {
    UpTo(a, '\0')
  }

  lemma CStringIs(a: seq<char>, text: string)
    requires '\0' !in text && |text| < |a| && a[..|text|] == text && a[|text|] == '\0'
    ensures CString(a) == text
  {
    forall j | 0 <= j < |text| ensures a[j] != '\0' { assert a[j] == text[j]; }
    SearchChar(a, '\0', 0, |text|);
  }

  /** memset and strncpy: does the text fit, terminator included? If not, the array has no terminator, or
      the copy would write past its end. */
  method CopyInto(dst: array<char>, src: string) returns (fits: bool)
    requires '\0' !in src
    modifies dst
    ensures fits <==> |src| < dst.Length
    ensures fits ==> CString(dst[..]) == src
  {
    forall k | 0 <= k < dst.Length { dst[k] := '\0'; }
    var i := 0;
    while i < |src|
      invariant 0 <= i <= |src| && i <= dst.Length
      invariant dst[..i] == src[..i] && forall k | i <= k < dst.Length :: dst[k] == '\0'
    {
      if i == dst.Length { return false; }
      dst[i] := src[i];
      i := i + 1;
    }
    fits := i < dst.Length;
    if fits { CStringIs(dst[..], src); }
  }

  // ---------------------------------------------------------------- the program

  /** The global options, and the request buffer. */
  class Bench {
    var http10: int
    const verb: BenchMethod
    const forceReload: bool
    const proxyHost: Option<string>
    const keepAlive: bool
    const host: array<char>
    var request: string

    constructor (http10: int, verb: BenchMethod, forceReload: bool, proxyHost: Option<string>, keepAlive: bool)
      ensures this.http10 == http10 && this.verb == verb && this.forceReload == forceReload
      ensures this.proxyHost == proxyHost && this.keepAlive == keepAlive
    {
      this.http10, this.verb, this.forceReload := http10, verb, forceReload;
      this.proxyHost, this.keepAlive := proxyHost, keepAlive;
      request, host := "", new char[HOST_SIZE](_ => '\0');
    }

    /** build_request, for a C string. */
    method BuildRequest(url: string) returns (r: Built)
      requires 0 <= http10 <= 2 && '\0' !in url && host.Length == HOST_SIZE
      modifies this, host
      ensures r == Build(verb, old(http10), forceReload, proxyHost.Some?, keepAlive, url)
      ensures r.Printed? ==> request == r.text && |request| < REQUEST_SIZE
      ensures r.Printed? && proxyHost.None? ==> CString(host[..]) == HostOf(url)
    {
      hide Lines, UpTo, Search, HostOf, PortOf, TargetOf, RequestFields, MethodName;
      hide VersionName, VersionFor, Print, CString;
      request := "";
      AdjustVersion();
      request := MethodName(verb);
      request := request + " ";
      if HttpScheme(url) { SchemeHasSeparator(url); }
      var separator := Search(url, "://", 0);
      if separator.None? || |url| > MAX_URL || !HttpScheme(url) { return Refused; }
      var i := separator.value + 3;
      if '/' !in url[i..] { return Refused; }
      assert GoodUrl(url);
      hide HttpScheme, GoodUrl;

      if proxyHost.None? {
        var fits := AppendTarget(url);
        if !fits { return Overrun; }
      } else {
        request := request + url;
      }
      ghost var target := if proxyHost.None? then TargetOf(url) else url;
      ghost var server := if proxyHost.None? then Some(CString(host[..])) else None;
      assert (if server.Some? then |server.value| else 0) + |target| <= MAX_URL;
      AppendVersion();
      if http10 > 0 {
        ghost var v := if http10 == 1 then Http10 else Http11;
        FieldsLength(v, server, forceReload, keepAlive);
        AppendFields(v);
        PrintVersioned(verb, target, v, server, forceReload, keepAlive);
      } else {
        PrintUnversioned(verb, target, server, forceReload, keepAlive);
      }
      r := Printed(request);
    }

    method AdjustVersion()
      requires 0 <= http10 <= 2
      modifies this`http10
      ensures 0 <= http10 <= 2
      ensures VersionFor(verb, old(http10), forceReload && proxyHost.Some?)
           == if http10 == 0 then None else Some(if http10 == 1 then Http10 else Http11)
      ensures http10 == if old(http10) == 2 || verb.BenchOptions? || verb.BenchTrace? then 2
                        else if old(http10) == 1 || verb.BenchHead? || (forceReload && proxyHost.Some?) then 1 else 0
    {
      if forceReload && proxyHost.Some? && http10 < 1 { http10 := 1; }
      if verb == BenchHead && http10 < 1 { http10 := 1; }
      if verb == BenchOptions && http10 < 2 { http10 := 2; }
      if verb == BenchTrace && http10 < 2 { http10 := 2; }
    }

    /** The host, the port, and the target, which a direct request names without them. */
    method AppendTarget(url: string) returns (fits: bool)
      requires GoodUrl(url) && '\0' !in url && host.Length == HOST_SIZE
      modifies this`request, host
      ensures fits <==> Fits(url)
      ensures fits ==> CString(host[..]) == HostOf(url) && request == old(request) + TargetOf(url)
      ensures fits ==> |HostOf(url)| + |TargetOf(url)| <= MAX_URL
    {
      hide UpTo, Search, CString;
      PortIs(url);
      var i := 7;
      var rest := url[i..];
      HostIs(rest);
      UpToIs(rest, '/');
      var colon, slash := Search(rest, ":", 0), Search(rest, "/", 0);
      if colon.Some? && colon.value < slash.value {
        fits := CopyInto(host, rest[..colon.value]);
        if fits {
          var tmp := new char[PORT_SIZE];
          fits := CopyInto(tmp, rest[colon.value + 1..slash.value]);
        }
      } else {
        fits := CopyInto(host, rest[..slash.value]);
      }
      if fits {
        request := request + url[i + slash.value..];
      }
    }

    method AppendVersion()
      requires 0 <= http10 <= 2
      modifies this`request
      ensures request == (if http10 == 0 then old(request) + "\r\n"
        else old(request) + " HTTP/" + VersionName(if http10 == 1 then Http10 else Http11) + "\r\n")
      ensures |request| <= |old(request)| + 11
    {
      if http10 == 1 {
        Assoc(request, " HTTP/", "1.0");
        request := request + " HTTP/1.0";
      } else if http10 == 2 {
        Assoc(request, " HTTP/", "1.1");
        request := request + " HTTP/1.1";
      }
      request := request + "\r\n";
    }

    method AppendFields(ghost v: Version)
      requires 1 <= http10 <= 2 && v == if http10 == 1 then Http10 else Http11
      modifies this`request
      ensures var server := if proxyHost.None? then Some(CString(host[..])) else None;
        request == old(request) + Lines(RequestFields(v, server, forceReload, keepAlive)) + "\r\n"
    {
      hide Line, Lines, Connection, CString;
      var name := CString(host[..]);
      ghost var head, fs := request, [];
      assert head + Lines(fs) == head by { EmptyLines(); }
      request := request + "User-Agent: WebBench 1.5\r\n";
      UserAgentLine();
      AppendLine(head, fs, USER_AGENT, Line(USER_AGENT));
      fs := fs + [USER_AGENT];
      if proxyHost.None? {
        HostLine(request, name);
        request := request + "Host: ";
        request := request + name;
        request := request + "\r\n";
        AppendLine(head, fs, Field("Host", name), Line(Field("Host", name)));
        fs := fs + [Field("Host", name)];
      }
      if forceReload && proxyHost.Some? {
        request := request + "Pragma: no-cache\r\n";
        PragmaLine();
        AppendLine(head, fs, PRAGMA, Line(PRAGMA));
        fs := fs + [PRAGMA];
      }
      if http10 > 1 {
        if !keepAlive {
          request := request + "Connection: close\r\n";
        } else {
          request := request + "Connection: Keep-Alive\r\n";
        }
        ConnectionLine(keepAlive);
        AppendLine(head, fs, Connection(keepAlive), Line(Connection(keepAlive)));
        fs := fs + [Connection(keepAlive)];
      }
      request := request + "\r\n";
      assert fs == RequestFields(v, if proxyHost.None? then Some(name) else None, forceReload, keepAlive);
    }
  }
}
