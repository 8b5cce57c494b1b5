/** `HttpData`: one connection. Reading, parsing, answering and writing; closing and timing are in `Epoll`. */
module HttpData {
  import opened Sequences
  import opened HeaderParser
  import opened RequestLine
  import opened RequestReader
  import opened SocketIo
  import opened ErrorPages
  import opened S = Session
  import opened Timer

  datatype HeaderState = HeaderSuccess | HeaderAgain | HeaderError | HeaderUndefined
  datatype ConnectionState = Connected | Disconnecting | Disconnected

  /** Of the epoll events, those that the server asks for. */
  datatype Mask = Mask(read: bool, write: bool, edge: bool, oneshot: bool)

  const NO_EVENTS := Mask(false, false, false, false)

  /** No flag is set that was not. */
  predicate FlagsKept(now: Mask, before: Mask) {
    (now.edge ==> before.edge) && (now.oneshot ==> before.oneshot)
  }

  function Asked(events: Mask, w: Wishes): Mask {
    events.(read := events.read || w.read, write := events.write || w.write)
  }

  // ---------------------------------------------------------------- indices and the text they delimit

  function Delimited(str: string, start: int, end: int): Option<string> {
    if 0 <= start <= end <= |str| then Some(str[start..end]) else None
  }

  /** The locals of ParseHeaders. */
  datatype Indices = Indices(keyStart: int, keyEnd: int, valueStart: int, valueEnd: int, lineBegin: int)

  /** The cursor `c` says in text what the code's indices say in positions, before character i. */
  ghost predicate Matches(c: Cursor, str: string, i: int, x: Indices) {
    && 0 <= x.lineBegin <= i <= |str| && c.line == str[x.lineBegin..i]
    && KeyMatches(c, str, i, x) && ValueMatches(c, str, i, x)
  }

  ghost predicate KeyMatches(c: Cursor, str: string, i: int, x: Indices) {
    && -1 <= x.keyStart && (c.key.None? ==> x.keyStart == -1)
    && c.key == Delimited(str, x.keyStart, if c.h.Key? then i else x.keyEnd)
    && (c.h.Key? ==> x.keyStart < i)
  }

  ghost predicate ValueMatches(c: Cursor, str: string, i: int, x: Indices) {
    && -1 <= x.valueStart < |str| && (c.value.None? ==> x.valueStart == -1)
    && c.value == Delimited(str, x.valueStart, if c.h.Value? then i else x.valueEnd)
    && (c.h.Value? ==> x.valueStart < i && c.length == i - x.valueStart)
  }

  /** What one turn of the loop does to the indices, if it goes on. */
  ghost function Moved(h: ParseState, ch: char, i: int, x: Indices): Indices {
    match h
    case Start => if ch == LF || ch == CR then x else x.(keyStart := i, lineBegin := i)
    case Key => if ch == ':' then x.(keyEnd := i) else x
    case Spaces => x.(valueStart := i)
    case Value => if ch == CR then x.(valueEnd := i) else x
    case Cr => x.(lineBegin := i)
    case Lf => if ch == CR then x else x.(keyStart := i)
    case _ => x
  }

  lemma Extend(str: string, start: int, i: int)
    requires 0 <= start <= i < |str|
    ensures str[start..i] + [str[i]] == str[start..i + 1]
  {
  }

  lemma StartMatches(h: ParseState, headers: Headers, str: string)
    ensures Matches(Fresh(h, headers), str, 0, Indices(-1, -1, -1, -1, 0))
  {
  }

  lemma KeyStillMatches(c: Cursor, str: string, i: int, x: Indices)
    requires KeyMatches(c, str, i, x) && 0 <= i < |str| && Feed(c, str[i]).Go?
    ensures KeyMatches(Feed(c, str[i]).c, str, i + 1, Moved(c.h, str[i], i, x))
  {
    assert str[i..i + 1] == [str[i]];
    if c.h.Key? && x.keyStart >= 0 { Extend(str, x.keyStart, i); }
  }

  lemma ValueStillMatches(c: Cursor, str: string, i: int, x: Indices)
    requires ValueMatches(c, str, i, x) && 0 <= i < |str| && Feed(c, str[i]).Go?
    ensures ValueMatches(Feed(c, str[i]).c, str, i + 1, Moved(c.h, str[i], i, x))
  {
    assert str[i..i + 1] == [str[i]];
    if c.h.Value? && x.valueStart >= 0 { Extend(str, x.valueStart, i); }
  }

  lemma StillMatches(c: Cursor, str: string, i: int, x: Indices)
    requires Matches(c, str, i, x) && i < |str| && Feed(c, str[i]).Go?
    ensures Matches(Feed(c, str[i]).c, str, i + 1, Moved(c.h, str[i], i, x))
  {
    KeyStillMatches(c, str, i, x);
    ValueStillMatches(c, str, i, x);
    hide KeyMatches, ValueMatches;
    Extend(str, x.lineBegin, i);
    assert str[i..i + 1] == [str[i]];
  }

  /** What the code uses of the indices besides moving them. */
  lemma IndicesInRange(c: Cursor, str: string, i: int, x: Indices)
    requires Matches(c, str, i, x)
    ensures 0 <= x.lineBegin <= i && c.line == str[x.lineBegin..i]
    ensures c.h.Key? ==> x.keyStart < i && c.key != Some("")
    ensures c.h.Value? ==> x.valueStart < i && c.length == i - x.valueStart
    ensures c.h.Cr? ==> (c.key.Some? <==> x.keyStart >= 0) && (c.value.Some? <==> x.valueStart >= 0)
    ensures c.h.Cr? && c.key.Some? ==> 0 <= x.keyStart <= x.keyEnd <= |str| && c.key.value == str[x.keyStart..x.keyEnd]
    ensures c.h.Cr? && c.value.Some? ==>
      0 <= x.valueStart <= x.valueEnd <= |str| && c.value.value == str[x.valueStart..x.valueEnd]
  {
  }

  lemma ScanOver(c: Cursor)
    ensures Scan(c, "") == if c.h.EndLf? then Success(c.headers, "") else Again(c)
  {
  }

  lemma ScanTurn(c: Cursor, str: string, i: int)
    requires 0 <= i < |str|
    ensures Scan(c, str[i..]) == match Feed(c, str[i])
      case Go(c') => Scan(c', str[i + 1..])
      case Stop => Success(c.headers, str[i + 1..])
      case Fail => Error(c)
      case Undef => Undefined
  {
    assert str[i..][1..] == str[i + 1..];
  }

  // ---------------------------------------------------------------- positions that may be npos

  /** A size_t position put into an int: npos becomes -1. */
  function ToInt(pos: nat): int {
    if pos == NPOS then -1 else pos
  }

  /** std::string::substr */
  function Substr(s: string, pos: nat, count: nat): string
    requires pos <= |s|
  {
    s[pos..if pos + count <= |s| then pos + count else |s|]
  }

  lemma FindIs(s: string, needle: string, from: nat)
    requires |s| <= MAX_INT
    ensures match Search(s, needle, from)
      case Some(at) => Find(s, needle, from) == at && from <= at && at + |needle| <= |s| && ToInt(at) == at
      case None => Find(s, needle, from) == NPOS
    ensures from > |s| ==> Search(s, needle, from).None?
  {
  }

  lemma UpToSubstr(s: string, ch: char)
    requires |s| <= MAX_INT
    ensures Substr(s, 0, Find(s, [ch], 0)) == UpTo(s, ch)
  {
    FindIs(s, [ch], 0);
    hide Search;
  }

  /** The file name: the calculation with wraparound finds what ParseTarget says. */
  lemma FileArithmetic(line: string, start: Option<nat>, end: Option<nat>, pos: nat, pos_: nat)
    requires 3 <= |line| <= MAX_INT
    requires match start case Some(at) => pos == at < |line| case None => pos == NPOS && end.None?
    requires match end case Some(at) => pos_ == at && pos < at < |line| case None => pos_ == NPOS
    ensures (pos_ - pos) % SIZE_MOD <= 1 <==> start.None? || (end.Some? && end.value == start.value + 1)
    ensures (pos_ - pos) % SIZE_MOD > 1 ==>
      && pos + 1 <= |line|
      && Substr(line, pos + 1, (pos_ - pos - 1) % SIZE_MOD)
      == line[start.value + 1..if end.Some? then end.value else |line|]
  {
    if start.Some? {
      assert (pos_ - pos) % SIZE_MOD == pos_ - pos;
      assert (pos_ - pos - 1) % SIZE_MOD == pos_ - pos - 1;
    }
  }

  /** The version: after a failed search, npos + 1 is 0. */
  lemma VersionArithmetic(line: string, slash: Option<nat>, pos: nat)
    requires 3 <= |line| <= MAX_INT
    requires match slash case Some(at) => pos == at < |line| case None => pos == NPOS
    ensures (|line| - pos) % SIZE_MOD <= 3 <==> VersionText(line, slash).None?
    ensures VersionText(line, slash).Some? ==>
      (pos + 1) % SIZE_MOD <= |line| && Substr(line, (pos + 1) % SIZE_MOD, 3) == VersionText(line, slash).value
  {
    if slash.Some? {
      assert (|line| - pos) % SIZE_MOD == |line| - pos;
      assert (pos + 1) % SIZE_MOD == pos + 1;
    } else {
      assert (|line| - pos) % SIZE_MOD == |line| + 1;
    }
  }

  class HttpData {
    const socket: Socket
    const site: Site

    var inBuffer: string
    var outBuffer: string
    var error: bool
    var connectionState: ConnectionState
    var verb: Method
    var version: Version
    var fileName: string
    var state: ProcessState
    var hState: ParseState
    var keepAlive: bool
    var headers: Headers
    var timer: TimerNode?<HttpData>

    // The channel.
    var events: Mask
    var lastEvents: Mask

    ghost var served: seq<Request>  // the requests that were answered
    ghost var answered: string      // all their answers
    ghost var dropped: nat          // how many bytes of answers were overwritten
    ghost var pages: seq<Page>      // the error pages that were sent
    ghost var closes: nat           // how often HandleClose ran

    constructor (socket: Socket, site: Site)
      requires socket.wire == ""
      ensures this.socket == socket && this.site == site && Live()
      ensures View() == Session(Parse(StateParseUri, "", Get, "", Http11, Start, map[]),
                                "", false, false, false, "", [], "", 0)
      ensures connectionState.Connected? && timer == null && events == lastEvents == NO_EVENTS && closes == 0
      ensures pages == []
    {
      this.socket, this.site := socket, site;
      inBuffer, outBuffer, error, connectionState := "", "", false, Connected;
      verb, version, fileName, state, hState, keepAlive, headers := Get, Http11, "", StateParseUri, Start, false, map[];
      timer, events, lastEvents := null, NO_EVENTS, NO_EVENTS;
      served, answered, dropped, pages, closes := [], "", 0, [], 0;
    }

    function ParseView(): Parse
      reads this`state, this`inBuffer, this`verb, this`fileName, this`version, this`hState, this`headers
    {
      Parse(state, inBuffer, verb, fileName, version, hState, headers)
    }

    ghost function View(): Session
      reads this`state, this`inBuffer, this`verb, this`fileName, this`version, this`hState, this`headers
      reads this`outBuffer, this`keepAlive, this`connectionState, this`error, socket`wire
      reads this`served, this`answered, this`dropped
    {
      Session(ParseView(), outBuffer, keepAlive, connectionState.Disconnecting?, error,
              socket.wire, served, answered, dropped)
    }

    /** Between two events: at rest, without error, not closed, and every byte of the answers accounted for. */
    ghost predicate Live()
      reads this`state, this`inBuffer, this`verb, this`fileName, this`version, this`hState, this`headers
      reads this`outBuffer, this`keepAlive, this`connectionState, this`error, socket`wire
      reads this`served, this`answered, this`dropped
    {
      Quiet(View()) && !connectionState.Disconnected?
    }

    /** The node of the weak pointer, if there is one. */
    ghost function Node(): set<TimerNode<HttpData>>
      reads this`timer
    {
      if timer == null then {} else {timer}
    }

    /** The weak link is as it was, or its node was cleared. */
    static ghost predicate NodeKept(nodes: set<TimerNode<HttpData>>,
                                    now: TimerNode?<HttpData>, before: TimerNode?<HttpData>)
      reads nodes
    {
      (now == before || now == null) && forall n <- nodes :: n == now || (n.deleted && n.http.None?)
    }

    /** Takes the request line out of the buffer; without a CR it stays there. */
    method TakeLine() returns (line: string)
      requires |inBuffer| <= MAX_INT
      modifies this`inBuffer
      ensures var str, cr := old(inBuffer), Search(old(inBuffer), "\r", 0);
        && line == (if cr.Some? then str[..cr.value] else str)
        && inBuffer == if cr.Some? then str[cr.value + 1..] else str
    {
      var str := inBuffer;
      // The test for pos < 0 behind this is never true of a size_t.
      var pos := Find(str, "\r", 0);
      FindIs(str, "\r", 0);
      hide Search, Find;
      line := Substr(str, 0, pos);
      var next := (pos + 1) % SIZE_MOD;
      if |str| > next {
        inBuffer := str[next..];
      } else {
        inBuffer := "";
      }
    }

    method ParseURI() returns (r: UriState)
      requires |inBuffer| <= MAX_INT
      modifies this`inBuffer, this`verb, this`fileName, this`version
      ensures Uri(r.UriSuccess?, inBuffer, verb, fileName, version)
           == ParseUri(old(inBuffer), old(verb), old(fileName), old(version))
      ensures !r.UriAgain?
    {
      hide Search, Find, ParseTarget;
      var requestLine := TakeLine();
      var pos;
      FindIs(requestLine, "GET", 0);
      FindIs(requestLine, "POST", 0);
      FindIs(requestLine, "HEAD", 0);
      var posGet, posPost := ToInt(Find(requestLine, "GET", 0)), ToInt(Find(requestLine, "POST", 0));
      var posHead := ToInt(Find(requestLine, "HEAD", 0));
      if posGet >= 0 {
        pos, verb := posGet, Get;
      } else if posPost >= 0 {
        pos, verb := posPost, Post;
      } else if posHead >= 0 {
        pos, verb := posHead, Head;
      } else {
        return UriError;
      }
      r := ParseTargetAndVersion(requestLine, pos);
    }

    /** The part of ParseURI under "filename"; the position it ends with is that of a space, or npos. */
    method ParseFileName(line: string, from: nat) returns (pos_: nat)
      requires 3 <= |line| <= MAX_INT
      modifies this`fileName
      ensures var (start, end) := TargetIn(line, from);
        fileName == FileName(line, start, end) && pos_ == if end.Some? then end.value else NPOS
    {
      var pos := Find(line, "/", from);
      pos_ := Find(line, " ", pos);
      FindIs(line, "/", from);
      FindIs(line, " ", pos);
      ghost var t := TargetIn(line, from);
      FileArithmetic(line, t.0, t.1, pos, pos_);
      hide Search, Find;
      if (pos_ - pos) % SIZE_MOD > 1 {
        fileName := Substr(line, pos + 1, (pos_ - pos - 1) % SIZE_MOD);
        UpToSubstr(fileName, '?');
        fileName := Substr(fileName, 0, Find(fileName, "?", 0));
      } else {
        fileName := "index.html";
      }
    }

    /** The rest of ParseURI, from the file name on. */
    method ParseTargetAndVersion(line: string, from: nat) returns (r: UriState)
      requires 3 <= |line| <= MAX_INT
      modifies this`fileName, this`version
      ensures Uri(r.UriSuccess?, inBuffer, verb, fileName, version)
           == ParseTarget(line, from, Uri(true, inBuffer, verb, old(fileName), old(version)))
      ensures !r.UriAgain?
    {
      hide TargetIn, FileName, Search, Find, VersionText;
      var pos_ := ParseFileName(line, from);
      var pos := Find(line, "/", pos_);
      FindIs(line, "/", pos_);
      ghost var end := TargetIn(line, from).1;
      VersionArithmetic(line, if end.Some? then Search(line, "/", end.value) else None, pos);
      if (|line| - pos) % SIZE_MOD <= 3 {
        return UriError;
      }
      var ver := Substr(line, (pos + 1) % SIZE_MOD, 3);
      if ver == "1.0" {
        version := Http10;
      } else if ver == "1.1" {
        version := Http11;
      } else {
        return UriError;
      }
      return UriSuccess;
    }

    method ParseHeaders() returns (r: HeaderState)
      modifies this`inBuffer, this`hState, this`headers
      ensures match Scan(Fresh(old(hState), old(headers)), old(inBuffer))
        case Success(h, rest) => r.HeaderSuccess? && hState.EndLf? && headers == h && inBuffer == rest
        case Again(c) => r.HeaderAgain? && hState == c.h && headers == c.headers && inBuffer == c.line
        case Error(c) => r.HeaderError? && hState == c.h && headers == c.headers && inBuffer == old(inBuffer)
        case Undefined => r.HeaderUndefined?
    {
      hide Scan, Matches, Delimited;
      var str := inBuffer;
      var keyStart, keyEnd, valueStart, valueEnd := -1, -1, -1, -1;
      var lineBegin := 0;
      var notFinished := true;
      var i := 0;
      ghost var c, x := Fresh(hState, headers), Indices(-1, -1, -1, -1, 0);
      assert str[0..] == str;
      StartMatches(hState, headers, str);
      while i < |str| && notFinished
        invariant str == old(inBuffer) == inBuffer && 0 <= i <= |str|
        invariant notFinished ==>
          && c.h == hState && c.headers == headers && x == Indices(keyStart, keyEnd, valueStart, valueEnd, lineBegin)
          && Matches(c, str, i, x) && Scan(Fresh(old(hState), old(headers)), str) == Scan(c, str[i..])
        invariant !notFinished ==>
          hState.EndLf? && Scan(Fresh(old(hState), old(headers)), str) == Success(headers, str[i..])
        decreases |str| - i
      {
        var ch := str[i];
        ghost var step := Feed(c, ch);
        ScanTurn(c, str, i);
        IndicesInRange(c, str, i, x);
        if step.Go? { StillMatches(c, str, i, x); }
        match hState {
          case Start =>
            if !(ch == LF || ch == CR) {
              hState := Key;
              keyStart := i;
              lineBegin := i;
            }
          case Key =>
            if ch == ':' {
              keyEnd := i;
              if keyEnd - keyStart <= 0 { assert false; }
              hState := Colon;
            } else if ch == LF || ch == CR {
              return HeaderError;
            }
          case Colon =>
            if ch == ' ' {
              hState := Spaces;
            } else {
              return HeaderError;
            }
          case Spaces =>
            hState := Value;
            valueStart := i;
          case Value =>
            if ch == CR {
              hState := Cr;
              valueEnd := i;
              if valueEnd - valueStart <= 0 { assert false; }
            } else if i - valueStart > 255 {
              return HeaderError;
            }
          case Cr =>
            if ch == LF {
              hState := Lf;
              if keyStart < 0 || valueStart < 0 { return HeaderUndefined; }
              var key, value := str[keyStart..keyEnd], str[valueStart..valueEnd];
              headers := headers[key := value];
              lineBegin := i;
            } else {
              return HeaderError;
            }
          case Lf =>
            if ch == CR {
              hState := EndCr;
            } else {
              keyStart := i;
              hState := Key;
            }
          case EndCr =>
            if ch == LF {
              hState := EndLf;
            } else {
              return HeaderError;
            }
          case EndLf =>
            notFinished := false;
            keyStart := i;
            lineBegin := i;
        }
        i := i + 1;
        if notFinished { c, x := step.c, Moved(c.h, ch, i - 1, x); }
      }
      if notFinished {
        IndicesInRange(c, str, i, x);
        ScanOver(c);
        assert str[i..] == "";
      }
      if hState.EndLf? {
        inBuffer := str[i..];
        return HeaderSuccess;
      }
      inBuffer := str[lineBegin..];
      return HeaderAgain;
    }

    /** The three parsing phases of HandleRead. */
    method ParseRequest() returns (v: Verdict)
      requires Resting(ParseView()) && |inBuffer| <= MAX_INT
      modifies this`inBuffer, this`verb, this`fileName, this`version, this`state, this`hState, this`headers
      ensures v == Advance(old(ParseView()), site.bodyLength)
      ensures !v.Crash? ==> ParseView() == v.p
    {
      hide ParseUri, Scan;
      if state.StateParseUri? {
        var flag := ParseURI();
        if flag.UriError? {
          inBuffer := "";
          return Refused(ParseView());
        }
        state := StateParseHeaders;
      }
      if state.StateParseHeaders? {
        var flag := ParseHeaders();
        match flag
        case HeaderAgain => return Blocked(ParseView());
        case HeaderError => return Refused(ParseView());
        case HeaderUndefined => return Crash;
        case HeaderSuccess =>
          if verb.Post? {
            state := StateRecvBody;
          } else {
            state := StateAnalysis;
          }
      }
      if state.StateRecvBody? {
        if "Content-length" !in headers {
          return Refused(ParseView());
        }
        var contentLength := site.bodyLength(headers["Content-length"]);
        if |inBuffer| < contentLength {
          return Blocked(ParseView());
        }
        state := StateAnalysis;
      }
      return Ready(ParseView());
    }

    /** An error page goes to the socket, past the buffer: header and body, each as far as the socket takes
        it. */
    method HandleError(code: nat, text: string)
      modifies this`pages, socket`outgoing, socket`wire
      ensures pages == old(pages) + [Page(code, text)] && old(socket.wire) <= socket.wire
      ensures var header, body := PageHeader(Page(code, text)), PageBody(Page(code, text));
        var w := Send(old(socket.outgoing), |header|);
        var w' := Send(w.left, |body|);
        socket.wire == old(socket.wire) + header[..w.sent] + body[..w'.sent] && socket.outgoing == w'.left
    {
      hide Send;
      var header, body := PageHeader(Page(code, text)), PageBody(Page(code, text));
      var sent := socket.WriteBytes(header);
      sent := socket.WriteBytes(body);
      pages := pages + [Page(code, text)];
    }

    /** AnalysisRequest. "hello" replaces what may still wait in the buffer. */
    method AnalysisRequest() returns (ok: bool)
      modifies this`outBuffer, this`keepAlive, this`answered, this`dropped, this`pages, socket`outgoing, socket`wire
      ensures keepAlive <==> old(keepAlive) || (!verb.Post? && "Connection" in headers
                                                && headers["Connection"] in {"Keep-Alive", "Keep-alive"})
      ensures ok <==> Answers(site, verb, fileName, keepAlive)
      ensures ok ==>
        outBuffer == (if fileName == "hello" then "" else old(outBuffer)) + Reply(site, verb, fileName, keepAlive)
      ensures ok ==> answered == old(answered) + Reply(site, verb, fileName, keepAlive)
      ensures dropped == old(dropped) + if ok && fileName == "hello" then |old(outBuffer)| else 0
      ensures !ok ==> answered == old(answered) && old(socket.wire) <= socket.wire
      ensures pages == old(pages) + if ok || verb.Post? then [] else [Page(404, "Not Found!")]
      ensures ok || verb.Post? ==> socket.wire == old(socket.wire) && socket.outgoing == old(socket.outgoing)
      ensures !ok ==>
        outBuffer == if !verb.Post? && site.files(fileName, verb, keepAlive).CannotOpen? then "" else old(outBuffer)
    {
      hide PageHeader, PageBody, Send;
      if verb.Post? {
        return false;
      }
      if "Connection" in headers && (headers["Connection"] == "Keep-Alive" || headers["Connection"] == "Keep-alive") {
        keepAlive := true;
      }
      if fileName == "hello" {
        answered, dropped := answered + HELLO, dropped + |outBuffer|;
        outBuffer := HELLO;
        return true;
      }
      match site.files(fileName, verb, keepAlive)
      case Text(response) =>
        outBuffer := outBuffer + response;
        answered := answered + response;
        return true;
      case NoSuchFile =>
        HandleError(404, "Not Found!");
        return false;
      case CannotOpen =>
        outBuffer := "";
        HandleError(404, "Not Found!");
        return false;
    }

    /** The last phase of HandleRead's do-while. */
    method AnswerRequest()
      requires !error
      modifies this`outBuffer, this`error, this`state, this`keepAlive, this`served, this`answered, this`dropped
      modifies this`pages, socket`outgoing, socket`wire
      ensures pages == old(pages) + VerdictPages(old(keepAlive), Ready(old(ParseView())), site)
      ensures Agrees(View(), Analyse(old(View()), site))
      ensures !error ==> socket.outgoing == old(socket.outgoing)
    {
      hide Reply, VerdictPages, Send;
      PagesOfReady(keepAlive, ParseView(), site);
      var ok := AnalysisRequest();
      if ok {
        state := StateFinish;
        served := served + [Request(verb, fileName, version, headers, inBuffer)];
      } else {
        error := true;
      }
    }

    /** A request that cannot be parsed. */
    method Refuse()
      requires !error
      modifies this`error, this`pages, socket`outgoing, socket`wire
      ensures error && Agrees(View(), old(View()).(error := true))
      ensures pages == old(pages)
        + [Page(400, if state.StateRecvBody? then "Bad Request: Lack of argument (Content-length)" else "Bad Request")]
    {
      hide PageHeader, PageBody, Send;
      error := true;
      HandleError(400, if state.StateRecvBody? then "Bad Request: Lack of argument (Content-length)"
                       else "Bad Request");
    }

    /** The middle of HandleRead: parse, answer. */
    method ParseAndAnswer() returns (undefined: bool)
      requires Resting(ParseView()) && !error && |inBuffer| <= MAX_INT
      modifies this`inBuffer, this`outBuffer, this`error, this`verb, this`fileName, this`version
      modifies this`state, this`hState, this`headers, this`keepAlive, this`served, this`answered, this`dropped
      modifies this`pages, socket`outgoing, socket`wire
      ensures pages == old(pages) + VerdictPages(old(keepAlive), Advance(old(ParseView()), site.bodyLength), site)
      ensures var t := Parsed(old(View()), site);
        if undefined then t.None? && served == old(served) else t.Some? && Agrees(View(), t.value)
      ensures !undefined && !error ==> socket.outgoing == old(socket.outgoing)
    {
      hide ParseUri, Scan, Advance, Analyse, VerdictPages, Resting;
      PagesOf(keepAlive, Advance(ParseView(), site.bodyLength), site);
      var v := ParseRequest();
      match v
      case Blocked(_) => return false;
      case Refused(_) =>
        Refuse();
        return false;
      case Crash => return true;
      case Ready(_) =>
        AnswerRequest();
        return false;
    }

    /** The first half of HandleRead, its do-while. */
    method ReadAndAnswer() returns (undefined: bool)
      requires Live() && Pending(View(), socket.incoming) <= MAX_INT
      modifies this`inBuffer, this`outBuffer, this`error, this`connectionState, this`verb, this`fileName, this`version
      modifies this`state, this`hState, this`headers, this`keepAlive, this`served, this`answered, this`dropped
      modifies this`pages, socket`incoming, socket`outgoing, socket`wire
      ensures pages == old(pages) + PassPages(old(View()), Receive(old(socket.incoming)), site)
      ensures var got := Receive(old(socket.incoming)); var t := Take(old(View()), got, site);
        && socket.incoming == got.left
        && (if undefined then t.None? && served == old(served) else t.Some? && Agrees(View(), t.value))
      ensures !undefined && !error ==> socket.outgoing == old(socket.outgoing)
      ensures !connectionState.Disconnected?
      ensures Receive(old(socket.incoming)).failed && old(connectionState.Connected?) ==>
        error && served == old(served) && outBuffer == old(outBuffer)
    {
      hide Receive, Unread, Parsed, PageHeader, PageBody, Send, VerdictPages;
      ReceiveCounts(socket.incoming);
      assert inBuffer + "" == inBuffer;
      var sum, buffer, zero := socket.ReadN(inBuffer);
      inBuffer := buffer;
      if connectionState.Disconnecting? {
        inBuffer := "";
        return false;
      }
      if sum < 0 {
        error := true;
        HandleError(400, "Bad Request");
        return false;
      } else if zero {
        connectionState := Disconnecting;
        if sum == 0 {
          return false;
        }
      }
      undefined := ParseAndAnswer();
    }

    method HandleWrite()
      requires !connectionState.Disconnected?
      modifies this`outBuffer, this`error, this`events, socket`outgoing, socket`wire
      ensures View() == Written(old(View()), old(socket.outgoing))
      ensures socket.outgoing == WritesLeft(old(View()), old(socket.outgoing))
      ensures events == (if error && !old(error) then NO_EVENTS else old(events)).(write := events.write)
      ensures !error ==> events == Asked(old(events), Wishes(false, outBuffer != ""))
      ensures !error ==>
        && socket.wire + outBuffer == old(socket.wire + outBuffer)
        && Uses(old(socket.outgoing), socket.outgoing)
        && (outBuffer != "" ==> Blocks(old(socket.outgoing), socket.outgoing))
    {
      if !error && !connectionState.Disconnected? {
        hide Send, Uses, Used, Blocks, Room;
        WrittenConserves(View(), socket.outgoing);
        var sum, buffer := socket.WriteN(outBuffer);
        outBuffer := buffer;
        if sum < 0 {
          events := NO_EVENTS;
          error := true;
        }
        if |outBuffer| > 0 {
          events := events.(write := true);
        }
      }
    }

    method SeperateTimer()
      modifies this`timer, Node()`http, Node()`deleted
      ensures timer == null
      ensures forall n <- old(Node()) :: n.deleted && n.http.None?
    {
      if timer != null {
        timer.ClearReq();
        timer := null;
      }
    }

    /** Ready for the next request; what was read beyond this one stays. */
    method Reset()
      modifies this`fileName, this`state, this`hState, this`headers, this`timer, Node()`http, Node()`deleted
      ensures ParseView() == NextRequest(old(ParseView()))
      ensures timer == null
      ensures forall n <- old(Node()) :: n.deleted && n.http.None?
    {
      fileName := "";
      state := StateParseUri;
      hState := Start;
      headers := map[];
      SeperateTimer();
    }

    method WritePending()
      requires !error && !connectionState.Disconnected?
      modifies this`outBuffer, this`error, this`events, socket`outgoing, socket`wire
      ensures View() == if old(outBuffer) != "" then Written(old(View()), old(socket.outgoing)) else old(View())
      ensures socket.outgoing == FinishLeft(old(View()), old(socket.outgoing))
      ensures events == (if error then NO_EVENTS else old(events)).(write := events.write)
      ensures !error ==> events == Asked(old(events), Wishes(false, outBuffer != ""))
    {
      hide Written, WritesLeft;
      if |outBuffer| > 0 {
        HandleWrite();
      }
    }

    method ResetOrAsk() returns (again: bool)
      requires !connectionState.Disconnected?
      modifies this`events, this`fileName, this`state, this`hState, this`headers
      modifies this`timer, Node()`http, Node()`deleted
      ensures View() == if !error && old(state.StateFinish?) then old(View()).(parse := NextRequest(old(ParseView())))
                        else old(View())
      ensures again <==> !error && old(state.StateFinish?) && inBuffer != "" && !connectionState.Disconnecting?
      ensures events == if error then old(events) else Asked(old(events), Wishes(!old(state.StateFinish?), false))
      ensures NodeKept(old(Node()), timer, old(timer))
      ensures forall n <- old(Node()) :: timer == n ==> unchanged(n)
    {
      hide NextRequest;
      again := false;
      if !error && state.StateFinish? {
        Reset();
        again := |inBuffer| > 0 && !connectionState.Disconnecting?;
      } else if !error && !connectionState.Disconnected? {
        events := events.(read := true);
      }
    }

    /** The second half of HandleRead: write, and be ready for the next request or the rest of this one. */
    method WriteAndReset() returns (again: bool)
      requires !error && !connectionState.Disconnected?
      modifies this`outBuffer, this`error, this`events, socket`outgoing, socket`wire
      modifies this`fileName, this`state, this`hState, this`headers, this`timer, Node()`http, Node()`deleted
      ensures View() == Finish(old(View()), old(socket.outgoing))
      ensures socket.outgoing == FinishLeft(old(View()), old(socket.outgoing))
      ensures again <==> GoesOn(old(View()), View())
      ensures !error ==> events == Asked(old(events), Wishes(!old(state.StateFinish?), outBuffer != ""))
      ensures NodeKept(old(Node()), timer, old(timer))
      ensures forall n <- old(Node()) :: timer == n ==> unchanged(n)
      ensures FlagsKept(events, old(events))
    {
      hide Written, WritesLeft;
      WritePending();
      again := ResetOrAsk();
    }

    /** HandleRead up to the call of itself. */
    method ReadOnce() returns (undefined: bool, again: bool)
      requires Live() && Pending(View(), socket.incoming) <= MAX_INT
      modifies this`inBuffer, this`outBuffer, this`error, this`connectionState, this`verb, this`fileName, this`version
      modifies this`state, this`hState, this`headers, this`keepAlive, this`served, this`answered, this`dropped
      modifies this`pages, this`events, this`timer, Node()`http, Node()`deleted, socket
      ensures match OnePass(old(View()), old(socket.incoming), old(socket.outgoing), site)
        case None => undefined && !again && served == old(served) && pages == old(pages)
        case Some(p) =>
          && !undefined && Agrees(View(), p.s) && socket.incoming == p.incoming && again == p.again
          && pages == old(pages) + p.pages
          && (!error ==> socket.outgoing == p.outgoing && events == Asked(old(events), p.wishes))
      ensures !connectionState.Disconnected?
      ensures NodeKept(old(Node()), timer, old(timer))
      ensures forall n <- old(Node()) :: timer == n ==> unchanged(n)
      ensures FlagsKept(events, old(events))
    {
      NoPages(View(), Receive(socket.incoming), site);
      OnePassIs(View(), socket.incoming, socket.outgoing, site);
      hide OnePass, Take, Receive, Finish, FinishLeft, Quiet, Written, Pending, PassPages;
      again := false;
      undefined := ReadAndAnswer();
      if undefined || error {
        return;
      }
      again := WriteAndReset();
    }

    /** The read callback. It calls itself for what is left in the buffer behind a request. */
    method HandleRead() returns (undefined: bool)
      requires Live() && Pending(View(), socket.incoming) <= MAX_INT
      modifies this`inBuffer, this`outBuffer, this`error, this`connectionState, this`verb, this`fileName, this`version
      modifies this`state, this`hState, this`headers, this`keepAlive, this`served, this`answered, this`dropped
      modifies this`pages, this`events, this`timer, Node()`http, Node()`deleted, socket
      ensures match ReadEvent(old(View()), old(socket.incoming), old(socket.outgoing), site)
        case Crashed(s) => undefined && served == s
        case Done(s, incoming, outgoing) =>
          && !undefined && Agrees(View(), s) && socket.incoming == incoming
          && (!error ==> socket.outgoing == outgoing)
      ensures pages == old(pages) + ReadPages(old(View()), old(socket.incoming), old(socket.outgoing), site)
      ensures !undefined && !error ==> Live()
      ensures !undefined && !error ==>
        events == Asked(old(events), ReadWishes(old(View()), old(socket.incoming), old(socket.outgoing), site))
      ensures !connectionState.Disconnected?
      ensures NodeKept(old(Node()), timer, old(timer))
      ensures forall n <- old(Node()) :: timer == n ==> unchanged(n)
      ensures FlagsKept(events, old(events))
      decreases Pending(View(), socket.incoming)
    {
      hide OnePass, ReadEvent, ReadWishes, ReadPages, Quiet, Pending;
      PassByPass(View(), socket.incoming, socket.outgoing, site);
      EventConservesIff(View(), socket.incoming, socket.outgoing, site);
      var again;
      undefined, again := ReadOnce();
      assert old(pages) + [] == old(pages);
      if again {
        undefined := HandleRead();
      }
    }
  }
}
