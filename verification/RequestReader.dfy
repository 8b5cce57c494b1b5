/** From bytes to a request: the parsing phases that `HttpData::HandleRead` goes through. */
module RequestReader {
  import opened Sequences
  import opened HeaderParser
  import opened RequestLine

  datatype ProcessState = StateParseUri | StateParseHeaders | StateRecvBody | StateAnalysis | StateFinish

  datatype Request = Request(verb: Method, file: string, version: Version, headers: Headers, rest: string)

  /** ParseURI and ParseHeaders on the first bytes of a request. */
  function ReadRequest(text: string): Option<Request> {
    var u := ParseUri(text, Get, "", Http11);
    if !u.ok then None
    else match Scan(Fresh(Start, map[]), u.buffer)
      case Success(headers, rest) => Some(Request(u.verb, u.file, u.version, headers, rest))
      case _ => None
  }

  /** What a connection remembers of a request it has not finished reading. */
  datatype Parse = Parse(phase: ProcessState, buffer: string, verb: Method, file: string, version: Version,
                         h: ParseState, headers: Headers)

  datatype Verdict =
    | Ready(p: Parse)    // a whole request
    | Blocked(p: Parse)  // wait for more
    | Refused(p: Parse)
    | Crash              // undefined behaviour

  /** One pass through the parsing phases. */
  function Advance(p: Parse, bodyLength: string -> int): Verdict {
    match p.phase
    case StateParseUri =>
      var u := ParseUri(p.buffer, p.verb, p.file, p.version);
      var q := p.(buffer := u.buffer, verb := u.verb, file := u.file, version := u.version);
      if u.ok then AdvanceHeaders(q.(phase := StateParseHeaders), bodyLength) else Refused(q.(buffer := ""))
    case StateParseHeaders => AdvanceHeaders(p, bodyLength)
    case StateRecvBody => AdvanceBody(p, bodyLength)
    case _ => Ready(p)
  }

  function AdvanceHeaders(p: Parse, bodyLength: string -> int): Verdict {
    match Scan(Fresh(p.h, p.headers), p.buffer)
    case Success(headers, rest) =>
      var q := p.(h := EndLf, headers := headers, buffer := rest);
      if p.verb.Post? then AdvanceBody(q.(phase := StateRecvBody), bodyLength) else Ready(q.(phase := StateAnalysis))
    case Again(c) => Blocked(p.(h := c.h, headers := c.headers, buffer := c.line))
    case Error(c) => Refused(p.(h := c.h, headers := c.headers))
    case Undefined => Crash
  }

  /** The body is only waited for. */
  function AdvanceBody(p: Parse, bodyLength: string -> int): Verdict {
    if "Content-length" !in p.headers then Refused(p)
    else if |p.buffer| < bodyLength(p.headers["Content-length"]) then Blocked(p)
    else Ready(p.(phase := StateAnalysis))
  }

  /** How a request rests between two events. */
  predicate Resting(p: Parse) {
    match p.phase
    case StateParseUri => p.h.Start? && p.headers == map[]
    case StateParseHeaders => !p.h.EndLf?
    case StateRecvBody => p.h.EndLf? && p.verb.Post?
    case _ => false
  }

  lemma {:induction false} ScanShrinks(c: Cursor, s: string)
    requires !c.h.EndLf?
    ensures Scan(c, s).Success? ==> |Scan(c, s).rest| < |s|
    ensures Scan(c, s).Again? ==> !Scan(c, s).c.h.EndLf?
    decreases |s|
  {
    if s != "" && Feed(c, s[0]).Go? {
      var next := Feed(c, s[0]).c;
      if next.h.EndLf? {
        if s[1..] != "" { assert Feed(next, s[1]).Stop?; }
      } else {
        ScanShrinks(next, s[1..]);
      }
    }
  }

  lemma {:induction false} AgainInBuffer(c: Cursor, s: string)
    ensures Scan(c, s).Again? ==> |Scan(c, s).c.line| <= |c.line| + |s|
    decreases |s|
  {
    if s != "" && Feed(c, s[0]).Go? { AgainInBuffer(Feed(c, s[0]).c, s[1..]); }
  }

  lemma UriShrinks(str: string, verb: Method, file: string, version: Version)
    ensures |ParseUri(str, verb, file, version).buffer| <= |str|
  {
  }

  /** Waiting for more, a request is at rest again, and no longer at its first line; and a whole request
      other than one with a body has taken something out of the buffer, which is why HandleRead, calling
      itself for the rest of the buffer, comes to an end. */
  lemma AdvanceRests(p: Parse, bodyLength: string -> int)
    requires Resting(p)
    ensures match Advance(p, bodyLength)
      case Blocked(q) => Resting(q) && !q.phase.StateParseUri? && |q.buffer| <= |p.buffer|
      case Ready(q) => q.phase.StateAnalysis? && |q.buffer| <= |p.buffer| && (!q.verb.Post? ==> |q.buffer| < |p.buffer|)
      case Refused(q) => |q.buffer| <= |p.buffer|
      case Crash => true
  {
    var q := p;
    if p.phase.StateParseUri? {
      UriShrinks(p.buffer, p.verb, p.file, p.version);
      var u := ParseUri(p.buffer, p.verb, p.file, p.version);
      q := p.(buffer := u.buffer, verb := u.verb, file := u.file, version := u.version, phase := StateParseHeaders);
    }
    hide ParseUri, Scan;
    if !p.phase.StateRecvBody? {
      ScanShrinks(Fresh(q.h, q.headers), q.buffer);
      AgainInBuffer(Fresh(q.h, q.headers), q.buffer);
    }
  }

  lemma ReadyShape(p: Parse, bodyLength: string -> int)
    requires Resting(p) && Advance(p, bodyLength).Ready?
    ensures var q := Advance(p, bodyLength).p; q.phase.StateAnalysis? && q.h.EndLf?
  {
    hide ParseUri, Scan;
  }

  /** What the fields were before the first line does not matter, unless it is refused. */
  lemma OldFieldsDoNotMatter(p: Parse, bodyLength: string -> int)
    requires Resting(p) && p.phase.StateParseUri?
    ensures var v := Advance(p, bodyLength);
      var w := Advance(Parse(StateParseUri, p.buffer, Get, "", Http11, Start, map[]), bodyLength);
      v == w || (v.Refused? && w.Refused?)
  {
    UriIgnoresOld(p.buffer, p.verb, p.file, p.version);
    hide ParseUri, Scan;
  }

  /** From its first line on, one pass reads what ReadRequest says. */
  lemma AdvanceReads(p: Parse, bodyLength: string -> int)
    requires Resting(p) && p.phase.StateParseUri?
    ensures var r := ReadRequest(p.buffer);
      && (r.Some? && !r.value.verb.Post? ==>
        Advance(p, bodyLength)
        == Ready(Parse(StateAnalysis, r.value.rest, r.value.verb, r.value.file, r.value.version, EndLf,
                       r.value.headers)))
      && (Advance(p, bodyLength).Ready? ==> r.Some? && r.value.verb == Advance(p, bodyLength).p.verb)
  {
    UriIgnoresOld(p.buffer, p.verb, p.file, p.version);
    hide ParseUri, Scan;
  }

  /** What the fields were before does not matter to a line that is parsed. */
  lemma UriIgnoresOld(str: string, verb: Method, file: string, version: Version)
    ensures var u, v := ParseUri(str, verb, file, version), ParseUri(str, Get, "", Http11);
      u.ok == v.ok && u.buffer == v.buffer && (u.ok ==> u == v)
  {
    hide Search, FileName, TargetIn, VersionText;
  }

  /** What one pass makes of the first bytes of a request, by the language of header blocks: refused, if the
      line is, or no block can come of what follows it; waiting, if one is begun; ready, if one is there,
      but with POST only once there is a length and as many bytes more. It is never undefined. */
  lemma FreshVerdict(p: Parse, bodyLength: string -> int)
    requires Resting(p) && p.phase.StateParseUri?
    ensures var u, v := ParseUri(p.buffer, Get, "", Http11), Advance(p, bodyLength);
      if !u.ok || (!HasBlock(u.buffer) && !Viable(u.buffer)) then v.Refused?
      else if !HasBlock(u.buffer) then v.Blocked? && v.p.verb == u.verb
      else
        && !v.Crash? && v.p.verb == u.verb
        && (!u.verb.Post? ==> v.Ready?)
        && (u.verb.Post? ==> PostVerdict(v, bodyLength))
  {
    UriIgnoresOld(p.buffer, p.verb, p.file, p.version);
    ExactLanguage(ParseUri(p.buffer, Get, "", Http11).buffer, map[]);
    hide ParseUri, Scan, HasBlock, Viable;
  }

  /** With all headers read, a POST is ready if and only if the bytes behind them are as many as it says. */
  predicate PostVerdict(v: Verdict, bodyLength: string -> int)
    requires !v.Crash?
  {
    var long := "Content-length" in v.p.headers && |v.p.buffer| >= bodyLength(v.p.headers["Content-length"]);
    (v.Ready? <==> long) && (v.Refused? <==> "Content-length" !in v.p.headers)
  }

  lemma WaitingPostVerdict(p: Parse, bodyLength: string -> int)
    requires Resting(p) && p.phase.StateRecvBody?
    ensures var v := Advance(p, bodyLength);
      !v.Crash? && PostVerdict(v, bodyLength) && v.p.buffer == p.buffer && v.p.headers == p.headers
  {
  }
}
