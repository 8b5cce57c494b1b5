/** Printer and parser: what WebBench prints for a direct GET or HEAD request, the server reads back. */
module RoundTrip {
  import opened Sequences
  import opened HeaderParser
  import opened RequestLine
  import opened RequestReader
  import opened WebBench

  /** A request target in origin form: section 3.2.1 of RFC 9112 starts it with a slash, and whitespace
      would end it. */
  predicate GoodTarget(target: string) {
    target != "" && target[0] == '/' && ' ' !in target && CR !in target
  }

  predicate Direct(m: BenchMethod) {
    m.BenchGet? || m.BenchHead?
  }

  /** What the server should take for the file. */
  function FileOf(target: string): string {
    if |target| <= 1 then "index.html" else UpTo(target[1..], '?')
  }

  /** A target names the file behind its slash, without a query; or the default one. */
  lemma FileIs(file: string, query: string)
    requires '?' !in file
    ensures FileOf("/") == "index.html" && (file != "" ==> FileOf("/" + file) == file)
    ensures FileOf("/" + file + "?" + query) == file
  {
    var target := "/" + file + "?" + query;
    assert target[1..] == file + ['?'] + query && ("/" + file)[1..] == file;
    SearchSplit(file, '?', query, 0);
    assert (file + ['?'] + query)[..|file|] == file;
    UpToIs(file, '?');
  }

  /** The verb ParseURI finds: the first of its names anywhere in the line, GET before POST before HEAD. */
  ghost function VerbRead(m: BenchMethod, target: string): Method {
    if m.BenchGet? || Contains(target, "GET") then Get else if Contains(target, "POST") then Post else Head
  }

  ghost predicate VerbSurvives(m: BenchMethod, target: string) {
    m.BenchHead? ==> !Contains(target, "GET") && !Contains(target, "POST")
  }

  // ---------------------------------------------------------------- the request line

  lemma LineParts(m: BenchMethod, target: string, v: Version) returns (line: string, n: nat)
    requires Direct(m) && GoodTarget(target)
    ensures line == PrintLine(m, target, v) && n == |MethodName(m)|
    ensures |line| == n + |target| + 10
    ensures line[..n] == MethodName(m) && line[n] == ' '
    ensures line[n + 1..n + 1 + |target|] == target
    ensures line[n + 1 + |target|..n + 7 + |target|] == " HTTP/"
    ensures line[n + 7 + |target|..] == VersionName(v)
  {
    line, n := PrintLine(m, target, v), |MethodName(m)|;
    hide MethodName, VersionName;
    assert |VersionName(v)| == 3 by { VersionLength(v); }
  }

  lemma VersionLength(v: Version)
    ensures |VersionName(v)| == 3 && CR !in VersionName(v) && ParseVersion(VersionName(v)) == Some(v)
  {
  }

  lemma TargetFound(m: BenchMethod, target: string, v: Version)
    requires Direct(m) && GoodTarget(target)
    ensures var line, start := PrintLine(m, target, v), |MethodName(m)| + 1;
      var end := start + |target|;
      && Search(line, "/", 0) == Some(start) && Search(line, " ", start) == Some(end)
      && Search(line, "/", end) == Some(end + 5)
  {
    var line, name, ver := PrintLine(m, target, v), MethodName(m), VersionName(v);
    assert '/' !in name;
    hide MethodName, VersionName, Search;
    SlashFound(name, target, ver);
    SpaceFound(name, target, ver);
    VersionSlashFound(name, target, ver);
  }

  lemma SlashFound(name: string, target: string, ver: string)
    requires GoodTarget(target) && '/' !in name
    ensures Search(name + " " + target + " HTTP/" + ver, "/", 0) == Some(|name| + 1)
  {
    hide Search;
    var a, b := name + " ", target[1..] + " HTTP/" + ver;
    SearchSplit(a, '/', b, 0);
    assert ['/'] + target[1..] == target;
    assert name + " " + target + " HTTP/" + ver == a + ['/'] + b;
  }

  lemma SpaceFound(name: string, target: string, ver: string)
    requires GoodTarget(target)
    ensures Search(name + " " + target + " HTTP/" + ver, " ", |name| + 1) == Some(|name| + 1 + |target|)
  {
    hide Search;
    var a, b := name + " " + target, "HTTP/" + ver;
    assert a[|name| + 1..] == target;
    SearchSplit(a, ' ', b, |name| + 1);
    assert a + " HTTP/" + ver == a + [' '] + b;
  }

  lemma VersionSlashFound(name: string, target: string, ver: string)
    ensures Search(name + " " + target + " HTTP/" + ver, "/", |name| + 1 + |target|) == Some(|name| + 6 + |target|)
  {
    hide Search;
    var b := name + " " + target;
    var a := b + " HTTP";
    assert a[|b|..] == " HTTP";
    SearchSplit(a, '/', ver, |b|);
    assert b + " HTTP/" + ver == a + ['/'] + ver;
  }

  lemma TargetParsed(m: BenchMethod, target: string, v: Version, u: Uri)
    requires Direct(m) && GoodTarget(target)
    ensures var line := PrintLine(m, target, v);
      |line| >= 3 && ParseTarget(line, 0, u) == u.(ok := true, file := FileOf(target), version := v)
  {
    var line, n := LineParts(m, target, v);
    TargetFound(m, target, v);
    hide Search, PrintLine, MethodName, VersionName, ParseTarget, FileOf;
    var end := n + 1 + |target|;
    assert line[end + 6..end + 9] == line[n + 7 + |target|..];
    assert line[n + 2..end] == line[n + 1..end][1..];
    PartsParsed(line, n + 1, end, target, v, u);
  }

  lemma PartsParsed(line: string, start: nat, end: nat, target: string, v: Version, u: Uri)
    requires Search(line, "/", 0) == Some(start) && Search(line, " ", start) == Some(end)
    requires Search(line, "/", end) == Some(end + 5)
    requires target != "" && end == start + |target| && |line| == end + 9
    requires line[start + 1..end] == target[1..] && line[end + 6..end + 9] == VersionName(v)
    ensures ParseTarget(line, 0, u) == u.(ok := true, file := FileOf(target), version := v)
  {
    VersionLength(v);
    hide Search, UpTo, VersionName, ParseVersion;
  }

  lemma NotContained(s: string, word: string, ch: char)
    requires ch in word && ch !in s
    ensures !Contains(s, word)
  {
    var k :| 0 <= k < |word| && word[k] == ch;
    forall at: nat | at + |word| <= |s| ensures !Occurs(s, word, at) {
      assert s[at..at + |word|][k] == s[at + k];
    }
  }

  lemma HeadLine(target: string, v: Version)
    ensures PrintLine(BenchHead, target, v) == ("HEAD" + [' '] + target) + [' '] + ("HTTP/" + VersionName(v))
  {
    hide VersionName;
  }

  lemma WordInLine(target: string, v: Version, word: string, ch: char)
    requires ch in word && ' ' !in word && (ch == 'G' || ch == 'O')
    ensures Contains(PrintLine(BenchHead, target, v), word) <==> Contains(target, word)
  {
    var tail := "HTTP/" + VersionName(v);
    assert ch !in "HEAD" && ch !in tail;
    HeadLine(target, v);
    hide PrintLine, VersionName, Contains;
    NotContained("HEAD", word, ch);
    NotContained(tail, word, ch);
    WordInPart("HEAD", target, word);
    WordInPart("HEAD" + [' '] + target, tail, word);
  }

  lemma VerbFound(m: BenchMethod, target: string, v: Version)
    requires Direct(m) && GoodTarget(target)
    ensures var f := FindMethod(PrintLine(m, target, v));
      f.Some? && f.value.0 == VerbRead(m, target) && (VerbSurvives(m, target) ==> f.value.1 == 0)
  {
    var line, n := LineParts(m, target, v);
    assert Occurs(line, MethodName(m), 0);
    SearchIs(line, MethodName(m), 0, 0);
    if m.BenchHead? {
      WordInLine(target, v, "GET", 'G');
      WordInLine(target, v, "POST", 'O');
    }
  }

  /** The request line read back, and what stays in the buffer. */
  lemma LineRead(m: BenchMethod, target: string, v: Version, rest: string, verb: Method, file: string, version: Version)
    requires Direct(m) && GoodTarget(target)
    ensures var u := ParseUri(PrintLine(m, target, v) + "\r" + rest, verb, file, version);
      && u.buffer == rest && u.verb == VerbRead(m, target)
      && (VerbSurvives(m, target) ==> u == Uri(true, rest, if m.BenchGet? then Get else Head, FileOf(target), v))
  {
    var line, n := LineParts(m, target, v);
    var text := line + "\r" + rest;
    NoCr(m, target, v);
    assert forall j | 0 <= j < |line| :: text[j] == line[j];
    assert text[|line|] == '\r';
    SearchChar(text, '\r', 0, |line|);
    assert text[..|line|] == line && text[|line| + 1..] == rest;
    VerbFound(m, target, v);
    hide Search, PrintLine, FindMethod, Contains;
    TargetParsed(m, target, v, Uri(true, rest, VerbRead(m, target), file, version));
  }

  lemma NoCr(m: BenchMethod, target: string, v: Version)
    requires CR !in target
    ensures CR !in PrintLine(m, target, v)
  {
  }

  // ---------------------------------------------------------------- the header block

  /** The headers the server should end up with. */
  function FieldMap(v: Version, host: string, keepAlive: bool): Headers {
    var m := map["User-Agent" := "WebBench 1.5", "Host" := host];
    if v.Http11? then m["Connection" := if keepAlive then "Keep-Alive" else "close"] else m
  }

  lemma Last(fs: seq<Field>, f: Field, headers: Headers)
    ensures LastWins(fs + [f], headers) == LastWins(fs, headers)[f.key := f.value]
  {
    assert (fs + [f])[..|fs|] == fs;
  }

  lemma FieldMapIs(v: Version, host: string, keepAlive: bool)
    ensures LastWins(RequestFields(v, Some(host), false, keepAlive), map[]) == FieldMap(v, host, keepAlive)
  {
    hide LastWins;
    assert USER_AGENT.value == "WebBench 1.5";
    var h: Headers := map[];
    assert LastWins([], h) == h by { LastWinsEmpty(h); }
    Last([], USER_AGENT, h);
    assert [] + [USER_AGENT] == [USER_AGENT];
    var two := [USER_AGENT] + [Field("Host", host)];
    Last([USER_AGENT], Field("Host", host), h);
    Last(two, Connection(keepAlive), h);
    assert two + [] == two;
    assert two + [Connection(keepAlive)] == [USER_AGENT] + [Field("Host", host)] + [Connection(keepAlive)];
  }

  lemma LastWinsEmpty(h: Headers)
    ensures LastWins([], h) == h
  {
  }

  lemma FieldsGood(v: Version, host: string, keepAlive: bool)
    requires GoodValue(host)
    ensures GoodBlock("\n", RequestFields(v, Some(host), false, keepAlive))
  {
    var fs := RequestFields(v, Some(host), false, keepAlive);
    assert KeyTail("ser-Agent") && KeyTail("ost") && KeyTail("onnection");
    assert "User-Agent"[1..] == "ser-Agent" && "Host"[1..] == "ost" && "Connection"[1..] == "onnection";
    assert CR !in "WebBench 1.5" && CR !in "close" && CR !in "Keep-Alive";
  }

  lemma {:induction false} ValuesGood(fs: seq<Field>)
    requires GoodFields(fs)
    ensures forall k | k in LastWins(fs, map[]) :: GoodValue(LastWins(fs, map[])[k])
    decreases |fs|
  {
    if fs != [] {
      assert GoodFields(fs[..|fs|-1]);
      ValuesGood(fs[..|fs|-1]);
      assert GoodValue(fs[|fs|-1].value);
    }
  }

  lemma HeadersRead(v: Version, host: string, keepAlive: bool)
    ensures var s := Block("\n", RequestFields(v, Some(host), false, keepAlive));
      Scan(Fresh(Start, map[]), s) == Success(FieldMap(v, host, keepAlive), "") <==> GoodValue(host)
    ensures GoodValue(host) <==> 1 <= |host| <= 256 && CR !in host[1..]
  {
    var fs := RequestFields(v, Some(host), false, keepAlive);
    var s, h := Block("\n", fs), FieldMap(v, host, keepAlive);
    assert h["Host"] == host;
    FieldMapIs(v, host, keepAlive);
    hide FieldMap, RequestFields, Scan, Block, LastWins;
    if GoodValue(host) {
      FieldsGood(v, host, keepAlive);
      BlockAccepted(map[], "\n", fs, "");
      assert s + "" == s;
    }
    if Scan(Fresh(Start, map[]), s) == Success(h, "") {
      ExactLanguage(s, map[]);
      var blank, read :| GoodBlock(blank, read) && Block(blank, read) <= s;
      assert LastWins(read, map[]) == h;
      ValuesGood(read);
    }
  }

  // ---------------------------------------------------------------- whole requests

  lemma PrintSplits(m: BenchMethod, target: string, v: Version, host: string, reload: bool, keepAlive: bool)
    ensures Print(m, target, Some(v), Some(host), reload, keepAlive)
         == PrintLine(m, target, v) + "\r" + Block("\n", RequestFields(v, Some(host), false, keepAlive))
  {
    hide PrintLine, Lines;
    var line, lines := PrintLine(m, target, v), Lines(RequestFields(v, Some(host), false, keepAlive));
    assert "\r\n" == "\r" + "\n";
    Assoc(line, "\r", "\n");
    Assoc(line + "\r", "\n", lines);
    Assoc(line + "\r", "\n" + lines, "\r\n");
  }

  /** What is printed is read back exactly, with nothing left over, if and only if the host is a value
      the parser takes and a HEAD request does not spell another verb in its target. */
  lemma PrintThenRead(m: BenchMethod, target: string, v: Version, host: string, reload: bool, keepAlive: bool)
    requires Direct(m) && GoodTarget(target)
    ensures ReadRequest(Print(m, target, Some(v), Some(host), reload, keepAlive))
         == Some(Request(if m.BenchGet? then Get else Head, FileOf(target), v, FieldMap(v, host, keepAlive), ""))
      <==> GoodValue(host) && VerbSurvives(m, target)
  {
    var block := Block("\n", RequestFields(v, Some(host), false, keepAlive));
    PrintSplits(m, target, v, host, reload, keepAlive);
    LineRead(m, target, v, block, Get, "", Http11);
    HeadersRead(v, host, keepAlive);
    hide Scan, Print, PrintLine, Block, RequestFields, FieldMap, ParseUri, Contains, UpTo;
  }

  /** An HTTP/0.9 request has no version, and is refused. */
  lemma OldRequestRefused(target: string, host: string, reload: bool, keepAlive: bool)
    requires GoodTarget(target)
    ensures ReadRequest(Print(BenchGet, target, None, Some(host), reload, keepAlive)).None?
  {
    var line := "GET " + target;
    var text := line + "\r\n";
    assert "GET" + " " == "GET " && CR !in "GET ";
    assert Print(BenchGet, target, None, Some(host), reload, keepAlive) == text;
    SearchSplit(line, '\r', "\n", 0);
    assert line + ['\r'] + "\n" == text && text[..|line|] == line && text[|line| + 1..] == "\n";
    OldLineRefused(target, Uri(true, "\n", Get, "", Http11));
    assert Occurs(line, "GET", 0);
    SearchIs(line, "GET", 0, 0);
    hide Search, ParseTarget, Scan, Print;
    assert ParseUri(text, Get, "", Http11) == ParseTarget(line, 0, Uri(true, "\n", Get, "", Http11));
  }

  lemma OldLineRefused(target: string, u: Uri)
    requires GoodTarget(target)
    ensures !ParseTarget("GET " + target, 0, u).ok
  {
    var line := "GET " + target;
    assert line == "GET " + ['/'] + target[1..];
    SearchSplit("GET ", '/', target[1..], 0);
    forall j | 4 <= j ensures !Occurs(line, " ", j) {
      if j < |line| { assert line[j..j + 1][0] == target[j - 4]; }
    }
    assert Search(line, " ", 4).None?;
    hide Search;
    assert line[..3] == "GET";
  }

  /** WebBench and the server, from the URL on: what `build_request` makes of it is read back exactly if and
      only if a version is sent, host and port fit the arrays they are copied to and there is a host, and a
      HEAD target spells no other verb. */
  lemma UrlRoundTrip(url: string, m: BenchMethod, asked: int, reload: bool, keepAlive: bool)
    requires GoodUrl(url) && ' ' !in url && CR !in url && Direct(m) && 0 <= asked <= 2
    ensures var b := Build(m, asked, reload, false, keepAlive, url);
      var v := if asked == 2 then Some(Http11) else if asked == 1 || m.BenchHead? then Some(Http10) else None;
      && (v.Some? && b.Printed? && ReadRequest(b.text) == Some(Request(
            if m.BenchGet? then Get else Head, FileOf(TargetOf(url)), v.value,
            FieldMap(v.value, HostOf(url), keepAlive), ""))
          <==> v.Some? && 1 <= |HostOf(url)| < HOST_SIZE && |PortOf(url)| < PORT_SIZE && VerbSurvives(m, TargetOf(url)))
      && (v.None? && b.Printed? ==> ReadRequest(b.text).None?)
  {
    var v := VersionFor(m, asked, false);
    UrlParts(url);
    var target, host := TargetOf(url), HostOf(url);
    hide UpTo, TargetOf, HostOf, PortOf, GoodUrl, ReadRequest, Print, FieldMap, FileOf, Contains;
    if v.Some? {
      PrintThenRead(m, target, v.value, host, reload, keepAlive);
    } else {
      OldRequestRefused(target, host, reload, keepAlive);
    }
  }

  lemma UrlParts(url: string)
    requires GoodUrl(url) && ' ' !in url && CR !in url
    ensures GoodTarget(TargetOf(url)) && CR !in HostOf(url)
  {
    var rest := url[7..];
    UpToIs(rest, '/');
    UpToIs(UpTo(rest, '/'), ':');
    assert TargetOf(url)[0] == '/';
    assert HostOf(url) <= rest;
    hide UpTo;
  }
}
