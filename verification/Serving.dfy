/** WebBench against the server: what the printed bytes make a connection do. */
module Serving {
  import opened Sequences
  import opened HeaderParser
  import opened RequestLine
  import opened RequestReader
  import opened SocketIo
  import opened S = Session
  import opened WebBench
  import opened RoundTrip
  import opened Segments
  import E = Epoll

  /** The request that a print stands for, with what follows it. */
  function Sent(m: BenchMethod, target: string, v: Version, host: string, keepAlive: bool, rest: string): Request {
    Request(if m.BenchGet? then Get else Head, FileOf(target), v, FieldMap(v, host, keepAlive), rest)
  }

  /** A connection between two requests. */
  predicate Free(s: Session) {
    Resting(s.parse) && s.parse.phase.StateParseUri? && s.parse.buffer == "" && !s.error && !s.closing
  }

  function Text(m: BenchMethod, target: string, v: Version, host: string, reload: bool, keepAlive: bool): string {
    Print(m, target, Some(v), Some(host), reload, keepAlive)
  }

  lemma KeepAliveWanted(v: Version, host: string, keepAlive: bool)
    ensures WantsKeepAlive(FieldMap(v, host, keepAlive)) <==> v.Http11? && keepAlive
  {
    assert "Keep-Alive" != "close" by { assert "Keep-Alive"[0] != "close"[0]; }
    assert "Keep-alive" != "close" by { assert "Keep-alive"[0] != "close"[0]; }
    assert "Connection" != "User-Agent" && "Connection" != "Host" by {
      assert "Connection"[0] != "User-Agent"[0] && "Connection"[0] != "Host"[0];
    }
  }

  /** A free connection that reads a request completes it. */
  lemma FreeReads(s: Session, got: Reading, site: Site, q: Request)
    requires Free(s) && !got.failed && got.data != "" && ReadRequest(got.data) == Some(q) && !q.verb.Post?
    ensures Looks(s, got)
    ensures Advance(WithData(s, got).parse, site.bodyLength)
         == Ready(Parse(StateAnalysis, q.rest, q.verb, q.file, q.version, EndLf, q.headers))
  {
    assert "" + got.data == got.data;
    AdvanceReads(WithData(s, got).parse, site.bodyLength);
    hide Advance, ReadRequest;
  }

  lemma PrintIsRead(m: BenchMethod, target: string, v: Version, host: string, reload: bool, keepAlive: bool)
    requires Readable(m, target, host)
    ensures var text := Text(m, target, v, host, reload, keepAlive);
      text != "" && ReadRequest(text) == Some(Sent(m, target, v, host, keepAlive, ""))
  {
    PrintThenRead(m, target, v, host, reload, keepAlive);
    PrintSplits(m, target, v, host, reload, keepAlive);
    hide Print, ReadRequest, FieldMap, FileOf, PrintLine, Block, Contains, GoodTarget, GoodValue;
  }

  /** A printed request that arrives whole on a free connection is served, alone, and the connection is
      free again, if the server has an answer for it. */
  lemma PrintedIsServed(s: Session, incoming: seq<ReadAnswer>, outgoing: seq<WriteAnswer>, site: Site,
                        m: BenchMethod, target: string, v: Version, host: string, reload: bool, keepAlive: bool)
    requires Free(s) && Readable(m, target, host)
    requires var got := Receive(incoming); !got.failed && got.data == Text(m, target, v, host, reload, keepAlive)
    requires var q := Sent(m, target, v, host, keepAlive, "");
      Answers(site, q.verb, q.file, s.keepAlive || (v.Http11? && keepAlive))
    ensures var r := ReadEvent(s, incoming, outgoing, site);
      && r.Done? && r.s.served == s.served + [Sent(m, target, v, host, keepAlive, "")]
      && (!r.s.error ==> r.s.parse.phase.StateParseUri? && r.s.parse.buffer == "")
  {
    PrintIsRead(m, target, v, host, reload, keepAlive);
    KeepAliveWanted(v, host, keepAlive);
    hide Text, FieldMap, FileOf, Readable, Answers, WantsKeepAlive, ReadEvent;
    FreeReads(s, Receive(incoming), site, Sent(m, target, v, host, keepAlive, ""));
    hide Advance, Receive, ReadRequest;
    FirstPass(s, incoming, outgoing, site);
  }

  /** The requests served after a second read event, if the first one leaves the connection open. */
  function ServedByTwo(s: Session, in1: seq<ReadAnswer>, out1: seq<WriteAnswer>,
                       in2: seq<ReadAnswer>, out2: seq<WriteAnswer>, site: Site): Option<seq<Request>>
    requires Resting(s.parse) && !s.error
  {
    var first := ReadEvent(s, in1, out1, site);
    if first.Done? && !first.s.error then
      ServedGrows(s, in1, out1, site);
      Some(ReadEvent(first.s, in2, out2, site).Served())
    else None
  }

  /** A printed request that arrives in two events is served by the second, as sent and alone, if and only
      if it was cut in the line break behind its first line. The first serves nothing. */
  lemma CutIsServedIff(s: Session, in1: seq<ReadAnswer>, out1: seq<WriteAnswer>,
                       in2: seq<ReadAnswer>, out2: seq<WriteAnswer>, site: Site,
                       m: BenchMethod, target: string, v: Version, host: string, reload: bool, keepAlive: bool, n: nat)
    requires Free(s) && s.out == "" && Readable(m, target, host)
    requires 0 < n < |Text(m, target, v, host, reload, keepAlive)|
    requires var got := Receive(in1);
      !got.failed && !got.zero && got.data == Text(m, target, v, host, reload, keepAlive)[..n]
    requires var got := Receive(in2); !got.failed && got.data == Text(m, target, v, host, reload, keepAlive)[n..]
    requires var q := Sent(m, target, v, host, keepAlive, "");
      Answers(site, q.verb, q.file, s.keepAlive || (v.Http11? && keepAlive))
    ensures ReadEvent(s, in1, out1, site).Served() == s.served
    ensures ServedByTwo(s, in1, out1, in2, out2, site) == Some(s.served + [Sent(m, target, v, host, keepAlive, "")])
      <==> |PrintLine(m, target, v)| < n <= |PrintLine(m, target, v)| + 2
  {
    var text, bl := Text(m, target, v, host, reload, keepAlive), site.bodyLength;
    var a, b, got := text[..n], text[n..], Receive(in1);
    var expected := Expected(m, target, v, host, keepAlive);
    CutRequest(m, target, v, host, reload, keepAlive, n, bl);
    NeverEarly(m, target, v, host, reload, keepAlive, n, bl);
    assert "" + a == a && a != "" && b != "";
    OldFieldsDoNotMatter(WithData(s, got).parse, bl);
    FirstPass(s, in1, out1, site);
    WaitingEvent(s, in1, out1, site);
    KeepAliveWanted(v, host, keepAlive);
    var w := Advance(Opened(a), bl);
    assert RequestOf(expected) == Sent(m, target, v, host, keepAlive, "");
    AdvanceRests(WithData(s, got).parse, bl);
    hide Text, Print, PrintLine, FieldMap, FileOf, Readable, Answers, WantsKeepAlive, ReadEvent;
    hide Receive, Advance, Resting;
    if w.Blocked? {
      SecondEvent(WithData(s, got).(parse := w.p), Receive(in2), site, expected);
      SecondServes(WithData(s, got).(parse := w.p), in2, out2, site, RequestOf(expected));
    }
  }

  /** A request with nothing behind it is all that an event serves if and only if it is the first. */
  lemma SecondServes(s: Session, incoming: seq<ReadAnswer>, outgoing: seq<WriteAnswer>, site: Site, q: Request)
    requires Resting(s.parse) && !s.error && q.rest == ""
    ensures ReadEvent(s, incoming, outgoing, site).Served() == s.served + [q]
      <==> FirstRequest(s, Receive(incoming), site) == Some(q)
  {
    FirstPass(s, incoming, outgoing, site);
    var served, first := ReadEvent(s, incoming, outgoing, site).Served(), FirstRequest(s, Receive(incoming), site);
    hide FirstRequest, ReadEvent, Receive, Advance, Refuses, Looks;
    if served == s.served + [q] && first.Some? {
      assert served[|s.served|] == first.value;
    }
  }

  /** What the second event completes is what two passes complete. */
  lemma SecondEvent(s: Session, got: Reading, site: Site, expected: Parse)
    requires Resting(s.parse) && !s.error && !s.closing && !got.failed && got.data != ""
    requires expected.phase.StateAnalysis? && expected.h.EndLf?
    requires Answers(site, expected.verb, expected.file, s.keepAlive || WantsKeepAlive(expected.headers))
    ensures FirstRequest(s, got, site) == Some(RequestOf(expected))
      <==> Advance(s.parse.(buffer := s.parse.buffer + got.data), site.bodyLength) == Ready(expected)
  {
    var p := s.parse.(buffer := s.parse.buffer + got.data);
    if Advance(p, site.bodyLength).Ready? { ReadyShape(p, site.bodyLength); }
    hide Advance, Answers, WantsKeepAlive;
  }

  // ---------------------------------------------------------------- two requests in one read

  /** What is served of a request behind another. */
  function ServedNext(site: Site, target: string, v: Version, host: string, keepAlive: bool, keep: bool)
    : Option<Request>
  {
    match Garbled(target)
    case None => None
    case Some(vf) =>
      if Answers(site, vf.0, vf.1, keep || (v.Http11? && keepAlive))
      then Some(Request(vf.0, vf.1, v, FieldMap(v, host, keepAlive), "")) else None
  }

  /** Of two printed requests in one read the first is served. The second is not what was sent: unless its
      target spells a verb, and the server has an answer for what is then read, the connection ends in an
      error. */
  lemma TwoPrintedAre(s: Session, incoming: seq<ReadAnswer>, outgoing: seq<WriteAnswer>, site: Site, p: Request,
                      m: BenchMethod, target: string, v: Version, host: string, reload: bool, keepAlive: bool)
    requires Free(s) && Direct(m) && GoodTarget(target) && GoodValue(host) && !p.verb.Post?
    requires var got := Receive(incoming);
      && !got.failed && !got.zero && got.data != "" && ReadRequest(got.data) == Some(p)
      && Receive(got.left).data == "" && !Receive(got.left).failed && !Receive(got.left).zero
    requires p.rest == Text(m, target, v, host, reload, keepAlive)[1..] != ""
    requires Answers(site, p.verb, p.file, s.keepAlive || WantsKeepAlive(p.headers))
    requires !Send(outgoing, |OutputWith(s, site, p)|).failed
    ensures var r := ReadEvent(s, incoming, outgoing, site);
      var next := ServedNext(site, target, v, host, keepAlive, s.keepAlive || WantsKeepAlive(p.headers));
      && r.Done? && r.s.served == s.served + [p] + (if next.Some? then [next.value] else [])
      && (next.None? ==> r.s.error)
  {
    FreeReads(s, Receive(incoming), site, p);
    var got := Receive(incoming);
    TakeShrinks(s, incoming, site);
    hide Advance, Receive, ReadRequest, Answers, WantsKeepAlive, Reply, Text;
    var t := Take(s, got, site).value;
    assert t.out == OutputWith(s, site, p) && !t.closing && !t.error && t.served == s.served + [p];
    var u, left := Finish(t, outgoing), FinishLeft(t, outgoing);
    assert !u.error && GoesOn(t, u) && u.served == t.served && u.keepAlive == t.keepAlive;
    assert u.parse == NextRequest(t.parse) && u.parse.buffer == p.rest;
    SecondPrinted(u, got.left, left, site, m, target, v, host, reload, keepAlive);
    hide Take, Finish, FinishLeft, OutputWith, Send, ServedNext;
  }

  lemma SecondPrinted(s: Session, incoming: seq<ReadAnswer>, outgoing: seq<WriteAnswer>, site: Site,
                      m: BenchMethod, target: string, v: Version, host: string, reload: bool, keepAlive: bool)
    requires Resting(s.parse) && s.parse.phase.StateParseUri? && !s.error && !s.closing
    requires var got := Receive(incoming); got.data == "" && !got.failed && !got.zero
    requires Direct(m) && GoodTarget(target) && GoodValue(host)
    requires var next := Text(m, target, v, host, reload, keepAlive); next != "" && s.parse.buffer == next[1..]
    ensures var r := ReadEvent(s, incoming, outgoing, site);
      var next := ServedNext(site, target, v, host, keepAlive, s.keepAlive);
      && r.Done? && r.s.served == s.served + (if next.Some? then [next.value] else [])
      && (next.None? ==> r.s.error)
  {
    SecondVerdict(s, Receive(incoming), site, m, target, v, host, reload, keepAlive);
    FirstPass(s, incoming, outgoing, site);
    hide Advance, Receive, Text, ServedNext, ReadEvent, Resting, GoodTarget, GoodValue, FirstRequest, Refuses, Looks;
  }

  lemma SecondVerdict(s: Session, got: Reading, site: Site,
                      m: BenchMethod, target: string, v: Version, host: string, reload: bool, keepAlive: bool)
    requires Resting(s.parse) && s.parse.phase.StateParseUri? && !s.error && !s.closing
    requires got.data == "" && !got.failed && !got.zero
    requires Direct(m) && GoodTarget(target) && GoodValue(host)
    requires var next := Text(m, target, v, host, reload, keepAlive); next != "" && s.parse.buffer == next[1..]
    ensures var next := ServedNext(site, target, v, host, keepAlive, s.keepAlive);
      && Looks(s, got) && FirstRequest(s, got, site) == next && (next.Some? ==> next.value.rest == "")
      && (next.None? ==> Refuses(s, Advance(WithData(s, got).parse, site.bodyLength), site))
  {
    assert WithData(s, got) == s by { assert s.parse.buffer + "" == s.parse.buffer; }
    AnswersNoPost(site);
    hide Advance, Text, FieldMap, Garbled, WantsKeepAlive, Resting, GoodTarget, GoodValue, WithData, Answers;
    NextVerdict(s.parse, m, target, v, host, reload, keepAlive, site.bodyLength);
    KeepAliveWanted(v, host, keepAlive);
  }

  lemma AnswersNoPost(site: Site)
    ensures forall verb, file, keep :: Answers(site, verb, file, keep) ==> !verb.Post?
  {
  }

  lemma NextVerdict(p: Parse, m: BenchMethod, target: string, v: Version, host: string, reload: bool,
                    keepAlive: bool, bodyLength: string -> int)
    requires Resting(p) && p.phase.StateParseUri? && Direct(m) && GoodTarget(target) && GoodValue(host)
    requires var next := Text(m, target, v, host, reload, keepAlive); next != "" && p.buffer == next[1..]
    ensures match Garbled(target)
      case None => Advance(p, bodyLength).Refused?
      case Some(vf) =>
        if vf.0.Post? then Advance(p, bodyLength).Refused?
        else Advance(p, bodyLength)
             == Ready(Parse(StateAnalysis, "", vf.0, vf.1, v, EndLf, FieldMap(v, host, keepAlive)))
  {
    NextAdvances(m, target, v, host, reload, keepAlive, bodyLength);
    OldFieldsDoNotMatter(p, bodyLength);
    hide Advance, Print, FieldMap, Garbled, Resting, GoodTarget, GoodValue;
  }

  // ---------------------------------------------------------------- a connection that is stranded

  /** The output of a connection that has answered q. */
  function OutputWith(s: Session, site: Site, q: Request): string
    requires Answers(site, q.verb, q.file, s.keepAlive || WantsKeepAlive(q.headers))
  {
    (if q.file == "hello" then "" else s.out) + Reply(site, q.verb, q.file, s.keepAlive || WantsKeepAlive(q.headers))
  }

  /** A printed request that arrives together with the end of file, and whose answer the socket does not take
      whole: the request is served, and the connection lingers, with the rest of the answer. */
  lemma ClosedPeerLingers(s: Session, incoming: seq<ReadAnswer>, outgoing: seq<WriteAnswer>, site: Site,
                          m: BenchMethod, target: string, v: Version, host: string, reload: bool, keepAlive: bool)
    requires Free(s) && Readable(m, target, host)
    requires var got := Receive(incoming);
      !got.failed && got.zero && got.data == Text(m, target, v, host, reload, keepAlive)
    requires var q := Sent(m, target, v, host, keepAlive, "");
      && Answers(site, q.verb, q.file, s.keepAlive || WantsKeepAlive(q.headers))
      && var w := Send(outgoing, |OutputWith(s, site, q)|); !w.failed && w.sent < |OutputWith(s, site, q)|
    ensures var r := ReadEvent(s, incoming, outgoing, site);
      var revents := E.Revents(true, false, false, false, false, false);
      && r.Done? && r.s.served == s.served + [Sent(m, target, v, host, keepAlive, "")] && r.s.out != ""
      && E.EventOutcome(s, revents, r, incoming, outgoing, site).Lingers?
  {
    var q := Sent(m, target, v, host, keepAlive, "");
    PrintIsRead(m, target, v, host, reload, keepAlive);
    hide Text, FieldMap, FileOf, Readable, Sent;
    LastRequestLingers(s, incoming, outgoing, site, q);
  }

  lemma LastRequestLingers(s: Session, incoming: seq<ReadAnswer>, outgoing: seq<WriteAnswer>, site: Site, q: Request)
    requires Free(s) && !q.verb.Post?
    requires var got := Receive(incoming);
      !got.failed && got.zero && got.data != "" && ReadRequest(got.data) == Some(q)
    requires Answers(site, q.verb, q.file, s.keepAlive || WantsKeepAlive(q.headers))
    requires var w := Send(outgoing, |OutputWith(s, site, q)|); !w.failed && w.sent < |OutputWith(s, site, q)|
    ensures var r := ReadEvent(s, incoming, outgoing, site);
      var revents := E.Revents(true, false, false, false, false, false);
      && r.Done? && r.s.served == s.served + [q] && r.s.out != ""
      && E.EventOutcome(s, revents, r, incoming, outgoing, site).Lingers?
  {
    FreeReads(s, Receive(incoming), site, q);
    hide Advance, Receive, ReadRequest, Answers, WantsKeepAlive, Reply;
    var t := Take(s, Receive(incoming), site).value;
    assert t.out == OutputWith(s, site, q) && t.closing && !t.error && t.served == s.served + [q];
    var u := Finish(t, outgoing);
    assert u.out != "" && u.closing && !u.error && u.served == t.served;
    hide Take, Finish, FinishLeft, OutputWith, Send, Resting;
  }

  // ---------------------------------------------------------------- an answer that is lost

  /** A printed request, a spare byte that ParseHeaders will swallow, and a request for hello, in one read. */
  function ThenHello(first: string, spare: char, second: string): string {
    first + ([spare] + second)
  }

  predicate BlocksFirst(script: seq<WriteAnswer>) {
    script != [] && script[0].WriteBlocked?
  }

  /** When the first write blocks, the answer to the first of them is lost: "hello" replaces it. */
  lemma HelloLosesAnswer(s: Session, spare: char, script: seq<WriteAnswer>, site: Site,
                         m: BenchMethod, target: string, v: Version, host: string, reload: bool, keepAlive: bool,
                         second: string, q: Request)
    requires Free(s) && Quiet(s) && Conserved(s) && s.out == "" && Readable(m, target, host)
    requires ReadRequest(second) == Some(q) && second != "" && q.rest == "" && q.file == "hello" && !q.verb.Post?
    requires var keep := s.keepAlive || (v.Http11? && keepAlive); var p := Sent(m, target, v, host, keepAlive, second);
      p.file != "hello" && Answers(site, p.verb, p.file, keep) && Reply(site, p.verb, p.file, keep) != ""
    ensures var text := ThenHello(Text(m, target, v, host, reload, keepAlive), spare, second);
      var r := ReadEvent(s, [Got(text)], [WriteBlocked] + script, site);
      && r.Done? && r.s.served == s.served + [Sent(m, target, v, host, keepAlive, second), q]
      && (!r.s.error ==> !Conserved(r.s)) && (BlocksFirst(script) ==> !r.s.error)
  {
    var first := Text(m, target, v, host, reload, keepAlive);
    var text, p := ThenHello(first, spare, second), Sent(m, target, v, host, keepAlive, second);
    NextLosesAByte(m, target, v, host, reload, keepAlive, [spare] + second);
    assert ([spare] + second)[1..] == second;
    KeepAliveWanted(v, host, keepAlive);
    assert text == first + ([spare] + second) && text != "";
    hide Text, Print, FieldMap, FileOf, Readable, Answers, WantsKeepAlive, ReadRequest, ReadEvent, Reply;
    hide Conserved, Free, Quiet, ThenHello;
    TwoInARow(s, text, script, site, p, q);
  }

  lemma TwoInARow(s: Session, text: string, script: seq<WriteAnswer>, site: Site, p: Request, q: Request)
    requires Free(s) && Quiet(s) && s.out == "" && text != "" && ReadRequest(text) == Some(p) && !p.verb.Post?
    requires Answers(site, p.verb, p.file, s.keepAlive || WantsKeepAlive(p.headers)) && p.file != "hello"
    requires Reply(site, p.verb, p.file, s.keepAlive || WantsKeepAlive(p.headers)) != "" && p.rest != ""
    requires ReadRequest(p.rest) == Some(q) && q.rest == "" && q.file == "hello" && !q.verb.Post?
    ensures var r := ReadEvent(s, [Got(text)], [WriteBlocked] + script, site);
      && r.Done? && r.s.served == s.served + [p, q]
      && (!r.s.error ==> !Conserved(r.s)) && (BlocksFirst(script) ==> !r.s.error)
  {
    FirstPassOver(s, text, script, site, p);
    FirstIsPending(s, site, p);
    SecondPassDrops(AfterFirst(s, site, p), script, site, q);
    assert s.served + [p] + [q] == s.served + [p, q];
    hide Answers, WantsKeepAlive, ReadRequest, ReadEvent, Reply, Conserved;
  }

  lemma FirstIsPending(s: Session, site: Site, p: Request)
    requires Free(s) && Quiet(s) && s.out == ""
    requires Answers(site, p.verb, p.file, s.keepAlive || WantsKeepAlive(p.headers))
    ensures Quiet(AfterFirst(s, site, p))
  {
    var t := AfterFirst(s, site, p);
    hide Answers, WantsKeepAlive, Reply;
    assert s.wire + s.out == s.wire;
    assert s.dropped == 0 ==> t.wire + t.out == t.answered;
  }

  lemma OneRead(text: string)
    requires text != ""
    ensures Receive([Got(text)]) == Reading(text, false, false, []) && Receive([]) == Reading("", false, false, [])
  {
    assert [Got(text)][1..] == [];
    assert text + "" == text;
  }

  /** The connection after the first pass: the answer to p waits, and so do the bytes behind p. */
  function AfterFirst(s: Session, site: Site, p: Request): Session
    requires Answers(site, p.verb, p.file, s.keepAlive || WantsKeepAlive(p.headers))
  {
    var keep := s.keepAlive || WantsKeepAlive(p.headers);
    var reply := Reply(site, p.verb, p.file, keep);
    s.(parse := Parse(StateParseUri, p.rest, p.verb, "", p.version, Start, map[]), keepAlive := keep,
       out := reply, served := s.served + [p], answered := s.answered + reply)
  }

  /** The same before it is written. */
  function Answered(s: Session, site: Site, p: Request): Session
    requires Answers(site, p.verb, p.file, s.keepAlive || WantsKeepAlive(p.headers))
  {
    AfterFirst(s, site, p).(parse := Parse(StateFinish, p.rest, p.verb, p.file, p.version, EndLf, p.headers))
  }

  lemma TakesFirst(s: Session, got: Reading, site: Site, p: Request)
    requires Free(s) && s.out == "" && !got.failed && !got.zero && got.data != "" && ReadRequest(got.data) == Some(p)
    requires !p.verb.Post? && p.file != "hello"
    requires Answers(site, p.verb, p.file, s.keepAlive || WantsKeepAlive(p.headers))
    ensures Take(s, got, site) == Some(Answered(s, site, p))
  {
    FreeReads(s, got, site, p);
    hide Advance, ReadRequest, Answers, WantsKeepAlive, Reply;
    var reply := AfterFirst(s, site, p).out;
    assert "" + reply == reply;
  }

  lemma BlockedWrite(s: Session, script: seq<WriteAnswer>)
    requires s.out != "" && !s.error && s.parse.phase.StateFinish?
    ensures Finish(s, [WriteBlocked] + script) == s.(parse := NextRequest(s.parse))
    ensures FinishLeft(s, [WriteBlocked] + script) == script
  {
    var outgoing := [WriteBlocked] + script;
    assert outgoing[1..] == script;
    assert Send(outgoing, |s.out|) == Writing(0, false, script);
    assert s.wire + s.out[..0] == s.wire && s.out[0..] == s.out;
  }

  lemma FirstPassOver(s: Session, text: string, script: seq<WriteAnswer>, site: Site, p: Request)
    requires Free(s) && s.out == "" && text != "" && ReadRequest(text) == Some(p) && !p.verb.Post? && p.file != "hello"
    requires Answers(site, p.verb, p.file, s.keepAlive || WantsKeepAlive(p.headers))
    requires Reply(site, p.verb, p.file, s.keepAlive || WantsKeepAlive(p.headers)) != "" && p.rest != ""
    ensures Resting(AfterFirst(s, site, p).parse)
    ensures ReadEvent(s, [Got(text)], [WriteBlocked] + script, site)
         == ReadEvent(AfterFirst(s, site, p), [], script, site)
  {
    OneRead(text);
    TakesFirst(s, Receive([Got(text)]), site, p);
    var t := Answered(s, site, p);
    BlockedWrite(t, script);
    assert t.(parse := NextRequest(t.parse)) == AfterFirst(s, site, p);
    hide Take, Finish, FinishLeft, ReadRequest, Receive, Answers, WantsKeepAlive, Reply;
  }

  /** A second request, for hello, while the answer to the first waits. */
  lemma SecondPassDrops(s: Session, script: seq<WriteAnswer>, site: Site, q: Request)
    requires Quiet(s) && s.parse.phase.StateParseUri? && !s.closing && s.out != ""
    requires ReadRequest(s.parse.buffer) == Some(q) && q.rest == "" && q.file == "hello" && !q.verb.Post?
    ensures var r := ReadEvent(s, [], script, site);
      && r.Done? && r.s.served == s.served + [q]
      && (!r.s.error ==> !Conserved(r.s)) && (BlocksFirst(script) ==> !r.s.error)
  {
    SecondIsFirst(s, site, q);
    if BlocksFirst(script) { SecondPassEnds(s, script, site, q); }
    FirstPass(s, [], script, site);
    HelloDrops(s, [], script, site);
    EventConservesIff(s, [], script, site);
    hide Advance, ReadRequest, Receive, WantsKeepAlive, ReadEvent, Drops, FirstRequest, Conserved;
    hide Looks, WithData, Refuses;
    var r := ReadEvent(s, [], script, site);
    if !r.s.error { ConservedIff(r.s); }
  }

  lemma SecondPassEnds(s: Session, script: seq<WriteAnswer>, site: Site, q: Request)
    requires Resting(s.parse) && !s.error && FirstRequest(s, Receive([]), site) == Some(q)
    requires q.rest == "" && q.file == "hello" && BlocksFirst(script)
    ensures var r := ReadEvent(s, [], script, site); r.Done? ==> !r.s.error
  {
    var t := Take(s, Receive([]), site).value;
    assert script == [WriteBlocked] + script[1..];
    hide Advance, Receive, WantsKeepAlive;
    assert t.out != "" && t.parse.phase.StateFinish? && !t.error && t.parse.buffer == "";
    BlockedWrite(t, script[1..]);
    hide Take, Finish, FinishLeft;
  }

  lemma SecondIsFirst(s: Session, site: Site, q: Request)
    requires Quiet(s) && s.parse.phase.StateParseUri? && !s.closing
    requires ReadRequest(s.parse.buffer) == Some(q) && q.file == "hello" && !q.verb.Post?
    ensures FirstRequest(s, Receive([]), site) == Some(q)
  {
    var got := Receive([]);
    assert s.parse.buffer + "" == s.parse.buffer;
    AdvanceReads(WithData(s, got).parse, site.bodyLength);
    hide Advance, ReadRequest, WantsKeepAlive;
  }

  lemma PlainFile(target: string, file: string)
    requires target == "/" + file && file != "" && '?' !in file
    ensures FileOf(target) == file
  {
    UpToIs(file, '?');
    assert target[1..] == file;
  }

  /** Such an input on a new connection, whose two writes block: a GET for a file, and behind it one for
      /hello. Both are served, there is no error, and an answer is gone. */
  lemma HelloExample(target: string, host: string, spare: char, site: Site)
    requires Readable(BenchGet, target, host) && FileOf(target) != "hello"
    requires site.files(FileOf(target), Get, false).Text? && site.files(FileOf(target), Get, false).response != ""
    ensures var s := Session(Opened(""), "", false, false, false, "", [], "", 0);
      var first := Text(BenchGet, target, Http10, host, false, false);
      var second := Text(BenchGet, "/hello", Http10, host, false, false);
      var r := ReadEvent(s, [Got(ThenHello(first, spare, second))], [WriteBlocked, WriteBlocked], site);
      r.Done? && |r.s.served| == 2 && !r.s.error && !Conserved(r.s)
  {
    var s := Session(Opened(""), "", false, false, false, "", [], "", 0);
    PlainFile("/hello", "hello");
    HelloReadable(target, host);
    NewIsFree(s);
    hide Free, Quiet, Conserved;
    PrintIsRead(BenchGet, "/hello", Http10, host, false, false);
    hide Text, ThenHello, FieldMap, FileOf, ReadRequest, ReadEvent, Readable, WantsKeepAlive;
    assert [WriteBlocked] + [WriteBlocked] == [WriteBlocked, WriteBlocked];
    HelloLosesAnswer(s, spare, [WriteBlocked], site, BenchGet, target, Http10, host, false, false,
                     Text(BenchGet, "/hello", Http10, host, false, false),
                     Sent(BenchGet, "/hello", Http10, host, false, ""));
  }

  lemma HelloReadable(target: string, host: string)
    requires Readable(BenchGet, target, host)
    ensures Readable(BenchGet, "/hello", host)
  {
    hide GoodValue, Contains;
  }

  lemma NewIsFree(s: Session)
    requires s == Session(Opened(""), "", false, false, false, "", [], "", 0)
    ensures Free(s) && Quiet(s) && Conserved(s)
  {
  }
}
