/** What one connection promises its peer, in terms of what the kernel answers: when a request is refused, an
    error ends it or its output goes out, and what it then waits for. */
module Delivery {
  import opened Sequences
  import opened HeaderParser
  import opened RequestLine
  import opened RequestReader
  import opened SocketIo
  import opened ErrorPages
  import opened S = Session
  import opened E = Epoll
  import Http = HttpData
  import opened WebBench
  import opened RoundTrip
  import opened Segments
  import V = Serving

  // ---------------------------------------------------------------- one pass

  /** What the parsers make of the buffer with what was read. */
  function VerdictOn(s: Session, got: Reading, site: Site): Verdict {
    Advance(s.parse.(buffer := s.parse.buffer + got.data), site.bodyLength)
  }

  /** The answer of the site to a request, if it has one. */
  function AnswerTo(s: Session, p: Parse, site: Site): Option<string> {
    var keep := s.keepAlive || AsksToStay(p.headers);
    if p.verb.Post? then None
    else if p.file == "hello" then Some("HTTP/1.1 200 OK\r\nContent-type: text/plain\r\n\r\nHello World")
    else match site.files(p.file, p.verb, keep)
      case Text(response) => Some(response)
      case _ => None
  }

  /** What there is to write at the end of a pass. */
  function ToWrite(s: Session, got: Reading, site: Site): string {
    var v := VerdictOn(s, got, site);
    if s.closing || (got.zero && got.data == "") || !v.Ready? || AnswerTo(s, v.p, site).None? then s.out
    else (if v.p.file == "hello" then "" else s.out) + AnswerTo(s, v.p, site).value
  }

  /** A pass ends in an error if and only if the peer is there and reading fails, or what was read is refused
      or has no answer; or writing fails. */
  lemma PassFailsIff(s: Session, incoming: seq<ReadAnswer>, outgoing: seq<WriteAnswer>, site: Site)
    requires Resting(s.parse) && !s.error
    ensures var got := Receive(incoming);
      var v, pass := VerdictOn(s, got, site), OnePass(s, incoming, outgoing, site);
      var looks := !s.closing && !got.failed && (got.data != "" || !got.zero);
      var refused := looks && (v.Refused? || (v.Ready? && AnswerTo(s, v.p, site).None?));
      && (pass.None? <==> looks && v.Crash?)
      && (pass.Some? ==>
            (pass.value.s.error <==>
               (!s.closing && got.failed) || refused || Send(outgoing, |ToWrite(s, got, site)|).failed))
  {
    var got := Receive(incoming);
    var t := Take(s, got, site);
    TakeFailsIff(s, got, site);
    TakeOutput(s, got, site);
    if t.Some? && !t.value.error { FinishWrites(t.value, outgoing); }
    hide Receive, Take, Finish, FinishLeft, Send, Resting, ToWrite, VerdictOn, AnswerTo;
  }

  lemma TakeFailsIff(s: Session, got: Reading, site: Site)
    requires Resting(s.parse) && !s.error
    ensures var v, t := VerdictOn(s, got, site), Take(s, got, site);
      var looks := !s.closing && !got.failed && (got.data != "" || !got.zero);
      && (t.None? <==> looks && v.Crash?)
      && (t.Some? ==>
            (t.value.error <==>
               (!s.closing && got.failed)
               || (looks && (v.Refused? || (v.Ready? && AnswerTo(s, v.p, site).None?)))))
  {
    AdvanceRests(WithData(s, got).parse, site.bodyLength);
    hide Advance, Resting;
  }

  /** An error page goes out for a failed read, for a request that is refused, and for one without an answer,
      except for a POST; and for nothing else. */
  lemma PassSendsPage(s: Session, incoming: seq<ReadAnswer>, outgoing: seq<WriteAnswer>, site: Site)
    requires Resting(s.parse) && !s.error && OnePass(s, incoming, outgoing, site).Some?
    ensures var got := Receive(incoming);
      var v, p := VerdictOn(s, got, site), OnePass(s, incoming, outgoing, site).value;
      var looks := !s.closing && !got.failed && (got.data != "" || !got.zero);
      p.pages ==
      if !s.closing && got.failed then [Page(400, "Bad Request")]
      else if looks && v.Refused? then
        [Page(400, if v.p.phase.StateRecvBody? then "Bad Request: Lack of argument (Content-length)"
                   else "Bad Request")]
      else if looks && v.Ready? && !v.p.verb.Post? && AnswerTo(s, v.p, site).None? then [Page(404, "Not Found!")]
      else []
  {
    AdvanceRests(WithData(s, Receive(incoming)).parse, site.bodyLength);
    hide Advance, Receive, Send, Resting;
  }

  /** So a read event sends at most one, at its end, and only in an error. */
  lemma {:induction false} EventSendsPage(s: Session, incoming: seq<ReadAnswer>, outgoing: seq<WriteAnswer>, site: Site)
    requires Quiet(s)
    ensures var r, pages := ReadEvent(s, incoming, outgoing, site), ReadPages(s, incoming, outgoing, site);
      |pages| <= 1 && (r.Crashed? || !r.s.error ==> pages == [])
    decreases Pending(s, incoming)
  {
    PassByPass(s, incoming, outgoing, site);
    var pass := OnePass(s, incoming, outgoing, site);
    if pass.Some? {
      PassSendsPage(s, incoming, outgoing, site);
      PassFailsIff(s, incoming, outgoing, site);
      var p := pass.value;
      hide OnePass, ReadEvent, ReadPages, ReadWishes, Quiet, Pending, Receive, VerdictOn, AnswerTo, ToWrite;
      if p.again { EventSendsPage(p.s, p.incoming, p.outgoing, site); }
    }
  }

  /** A pass serves the request that is complete, alone, and makes room for the next; waits in the middle of
      one that is not; and serves nothing of a peer that has closed, whose bytes it drops. */
  lemma PassServes(s: Session, incoming: seq<ReadAnswer>, outgoing: seq<WriteAnswer>, site: Site)
    requires Resting(s.parse) && !s.error && OnePass(s, incoming, outgoing, site).Some?
    ensures var got := Receive(incoming);
      var v, p := VerdictOn(s, got, site), OnePass(s, incoming, outgoing, site).value;
      var looks := !s.closing && (got.data != "" || !got.zero);
      !p.s.error ==>
        if looks && v.Ready? then
          && p.s.served == s.served + [Request(v.p.verb, v.p.file, v.p.version, v.p.headers, v.p.buffer)]
          && p.s.parse.phase.StateParseUri? && p.s.parse.buffer == v.p.buffer
          && (p.s.keepAlive <==> s.keepAlive || AsksToStay(v.p.headers))
        else
          && p.s.served == s.served && p.s.keepAlive == s.keepAlive
          && (looks ==> v.Blocked? && p.s.parse == v.p)
          && (!looks ==> p.s.parse == if s.closing then s.parse.(buffer := "") else s.parse)
    ensures var p := OnePass(s, incoming, outgoing, site).value; p.s.error ==> s.served <= p.s.served
  {
    var got := Receive(incoming);
    var t := Take(s, got, site);
    TakeServesIs(s, got, site);
    TakeShrinks(s, incoming, site);
    if t.Some? && !t.value.error { FinishKeeps(t.value, outgoing); FinishStays(t.value, outgoing); }
    hide Take, Receive, Finish, VerdictOn, Resting, AsksToStay;
  }

  predicate AsksToStay(headers: Headers) {
    "Connection" in headers && headers["Connection"] in {"Keep-Alive", "Keep-alive"}
  }

  lemma TakeServesIs(s: Session, got: Reading, site: Site)
    requires Resting(s.parse) && !s.error
    ensures var t, v := Take(s, got, site), VerdictOn(s, got, site);
      var looks := !s.closing && (got.data != "" || !got.zero);
      t.Some? ==> s.served <= t.value.served && (!t.value.error ==>
        if looks && v.Ready? then
          && t.value.served == s.served + [Request(v.p.verb, v.p.file, v.p.version, v.p.headers, v.p.buffer)]
          && t.value.parse == v.p.(phase := StateFinish)
          && (t.value.keepAlive <==> s.keepAlive || AsksToStay(v.p.headers))
        else
          && t.value.served == s.served && t.value.keepAlive == s.keepAlive
          && (looks ==> v.Blocked? && t.value.parse == v.p)
          && (!looks ==> t.value.parse == if s.closing then s.parse.(buffer := "") else s.parse)
          && !t.value.parse.phase.StateFinish?)
  {
    AdvanceRests(WithData(s, got).parse, site.bodyLength);
    assert got.data == "" ==> s.parse.buffer + got.data == s.parse.buffer;
    hide Advance;
  }

  lemma FinishStays(s: Session, script: seq<WriteAnswer>)
    ensures Finish(s, script).keepAlive == s.keepAlive
  {
    hide Send;
  }

  // ---------------------------------------------------------------- reading

  /** A pass uses up the answers to its reads; it sees the peer close, if it was not closed before, if and
      only if end of file is among them, and a failed read, unless the peer was gone, is an error. */
  lemma PassReads(s: Session, incoming: seq<ReadAnswer>, outgoing: seq<WriteAnswer>, site: Site)
    requires Resting(s.parse) && !s.error && OnePass(s, incoming, outgoing, site).Some?
    ensures var p := OnePass(s, incoming, outgoing, site).value;
      && Uses(incoming, p.incoming)
      && (!p.s.error ==> (p.s.closing <==> s.closing || Got("") in Used(incoming, p.incoming)))
      && (!s.closing && ReadFailed in Used(incoming, p.incoming) ==> p.s.error)
  {
    ReadingUses(incoming);
    FinishRestsAnyway(s, incoming, outgoing, site);
    hide Advance, Receive, Finish, Resting, Answers, WantsKeepAlive, Uses, Used;
  }

  lemma ReadingUses(incoming: seq<ReadAnswer>)
    ensures var r := Receive(incoming);
      && Uses(incoming, r.left) && (r.zero <==> Got("") in Used(incoming, r.left))
      && (r.failed <==> ReadFailed in Used(incoming, r.left))
  {
    var k := ReceiveIs(incoming);
    var r := Receive(incoming);
    hide Receive, Stream;
    assert Used(incoming, r.left) == if k < |incoming| then incoming[..k] + [incoming[k]] else incoming[..k];
  }

  lemma FinishRestsAnyway(s: Session, incoming: seq<ReadAnswer>, outgoing: seq<WriteAnswer>, site: Site)
    ensures var t := Take(s, Receive(incoming), site); t.Some? ==> Finish(t.value, outgoing).closing == t.value.closing
  {
    hide Take, Receive, Send;
  }

  /** The same for a whole read event, however often it reads. */
  lemma {:induction false} EventReads(s: Session, incoming: seq<ReadAnswer>, outgoing: seq<WriteAnswer>, site: Site)
    requires Quiet(s)
    ensures var r := ReadEvent(s, incoming, outgoing, site);
      r.Done? ==>
        && Uses(incoming, r.incoming)
        && (!r.s.error ==> (r.s.closing <==> s.closing || Got("") in Used(incoming, r.incoming)))
        && (!s.closing && ReadFailed in Used(incoming, r.incoming) ==> r.s.error)
    decreases Pending(s, incoming)
  {
    PassByPass(s, incoming, outgoing, site);
    var pass := OnePass(s, incoming, outgoing, site);
    if pass.Some? {
      PassReads(s, incoming, outgoing, site);
      PassGoesOn(s, incoming, outgoing, site);
      var p, r := pass.value, ReadEvent(s, incoming, outgoing, site);
      hide OnePass, ReadEvent, ReadWishes, Quiet, Pending, Uses, Used;
      if p.again {
        EventReads(p.s, p.incoming, p.outgoing, site);
        if r.Done? { UsesMore(incoming, p.incoming, r.incoming); }
      }
    }
  }

  /** There is another pass if and only if this one served a request, bytes are left and the peer is there. */
  lemma PassGoesOn(s: Session, incoming: seq<ReadAnswer>, outgoing: seq<WriteAnswer>, site: Site)
    requires Resting(s.parse) && !s.error && OnePass(s, incoming, outgoing, site).Some?
    ensures var p := OnePass(s, incoming, outgoing, site).value;
      p.again <==> !p.s.error && p.s.served != s.served && p.s.parse.buffer != "" && !p.s.closing
  {
    var t := Take(s, Receive(incoming), site);
    TakeServes(s, Receive(incoming), site);
    TakeShrinks(s, incoming, site);
    if t.Some? && !t.value.error { FinishKeeps(t.value, outgoing); }
    hide Take, Receive, Finish, FinishLeft, Resting, Unread;
  }

  lemma FirstStop(incoming: seq<ReadAnswer>, k: nat)
    requires k < |incoming| && !Continues(incoming[k]) && forall j | 0 <= j < k :: Continues(incoming[j])
    ensures var r := Receive(incoming);
      && r.data == Stream(incoming[..k]) && r.left == incoming[k + 1..]
      && (r.zero <==> incoming[k] == Got("")) && (r.failed <==> incoming[k].ReadFailed?)
  {
    var l := ReceiveIs(incoming);
    assert Continues(incoming[k]) || l <= k;
    assert l == |incoming| || !Continues(incoming[l]);
  }

  /** When reading fails before the peer has closed, that is an error: nothing is served or written, and the
      connection is closed. */
  lemma FailedReadCloses(s: Session, incoming: seq<ReadAnswer>, outgoing: seq<WriteAnswer>, site: Site,
                         revents: Revents, k: nat)
    requires Resting(s.parse) && !s.error && !s.closing && (revents.input || revents.pri || revents.rdhup)
    requires k < |incoming| && incoming[k].ReadFailed? && forall j | 0 <= j < k :: Continues(incoming[j])
    ensures var r := ReadEvent(s, incoming, outgoing, site);
      && r.Done? && r.s.error && r.s.served == s.served && r.s.wire == s.wire && r.s.out == s.out
      && r.outgoing == outgoing && ReadPages(s, incoming, outgoing, site) == [Page(400, "Bad Request")]
      && EventOutcome(s, revents, r, incoming, outgoing, site).Closes?
  {
    FirstStop(incoming, k);
    hide Receive, Resting, Stream;
  }

  lemma {:induction false} NoData(script: seq<ReadAnswer>)
    requires forall j | 0 <= j < |script| :: script[j].ReadInterrupted?
    ensures Stream(script) == ""
    decreases |script|
  {
    if script != [] { NoData(script[1..]); }
  }

  /** When the peer has closed and sent nothing before, nothing is served; and the connection is closed at
      once unless output waits that the socket does not take. */
  lemma EndOfFileCloses(s: Session, incoming: seq<ReadAnswer>, outgoing: seq<WriteAnswer>, site: Site, k: nat)
    requires Resting(s.parse) && !s.error && !s.closing
    requires k < |incoming| && incoming[k] == Got("") && forall j | 0 <= j < k :: incoming[j].ReadInterrupted?
    ensures var r := ReadEvent(s, incoming, outgoing, site);
      var w := Send(outgoing, |s.out|);
      && r.Done? && r.s.served == s.served && r.s.wire == s.wire + s.out[..w.sent] && (r.s.error <==> w.failed)
      && var o := EventOutcome(s, Revents(true, false, false, false, false, false), r, incoming, outgoing, site);
      if w.failed || w.sent == |s.out| then o.Closes? else o.Lingers?
  {
    FirstStop(incoming, k);
    NoData(incoming[..k]);
    hide Receive, Resting, Stream;
    assert s.out == "" ==> s.wire + s.out[..0] == s.wire;
    assert s.parse.buffer + "" == s.parse.buffer;
  }

  /** An idle connection whose peer closes is closed. */
  lemma IdlePeerCloses(s: Session, incoming: seq<ReadAnswer>, outgoing: seq<WriteAnswer>, site: Site)
    requires Resting(s.parse) && !s.error && !s.closing && s.out == "" && incoming != [] && incoming[0] == Got("")
    ensures var r := ReadEvent(s, incoming, outgoing, site);
      && r.Done? && !r.s.error
      && EventOutcome(s, Revents(true, false, false, false, false, false), r, incoming, outgoing, site).Closes?
  {
    EndOfFileCloses(s, incoming, outgoing, site, 0);
  }

  // ---------------------------------------------------------------- writing

  /** A pass writes what there is to write, as far as the socket takes it; what is left is in the buffer,
      only because the socket would block, and is asked to be written. */
  lemma PassWrites(s: Session, incoming: seq<ReadAnswer>, outgoing: seq<WriteAnswer>, site: Site)
    requires Resting(s.parse) && !s.error && OnePass(s, incoming, outgoing, site).Some?
    ensures var p, all := OnePass(s, incoming, outgoing, site).value, ToWrite(s, Receive(incoming), site);
      && Uses(outgoing, p.outgoing)
      && (WriteFailed in Used(outgoing, p.outgoing) ==> p.s.error)
      && (!p.s.error ==>
            && p.s.wire + p.s.out == s.wire + all
            && (if p.s.out != "" then |p.s.wire| == |s.wire| + Room(Used(outgoing, p.outgoing))
                else Room(Used(outgoing, p.outgoing)) >= |all|)
            && (p.s.out != "" ==> Blocks(outgoing, p.outgoing))
            && (WriteBlocked in Used(outgoing, p.outgoing) ==> p.s.out != "")
            && (p.wishes.write <==> p.s.out != ""))
  {
    var got := Receive(incoming);
    var t := Take(s, got, site);
    TakeOutput(s, got, site);
    if t.Some? && !t.value.error {
      SendUses(outgoing, |t.value.out|);
      FinishWrites(t.value, outgoing);
    }
    hide Receive, Take, Finish, FinishLeft, Send, Resting, ToWrite, Room;
  }

  lemma TakeOutput(s: Session, got: Reading, site: Site)
    requires Resting(s.parse) && !s.error
    ensures var t := Take(s, got, site);
      t.Some? && !t.value.error ==> t.value.out == ToWrite(s, got, site) && t.value.wire == s.wire
  {
    AdvanceRests(WithData(s, got).parse, site.bodyLength);
    hide Advance, Resting;
  }

  lemma FinishWrites(s: Session, script: seq<WriteAnswer>)
    requires !s.error
    ensures var w, u := Send(script, |s.out|), Finish(s, script);
      && FinishLeft(s, script) == w.left && (u.error <==> w.failed)
      && (!u.error ==> u.wire + u.out == s.wire + s.out && |u.out| == |s.out| - w.sent && |u.wire| == |s.wire| + w.sent)
  {
    var w := Send(script, |s.out|);
    assert s.out == s.out[..w.sent] + s.out[w.sent..];
    Assoc(s.wire, s.out[..w.sent], s.out[w.sent..]);
  }

  /** Without room on the socket, output that waits stays. */
  lemma {:induction false} OutputStays(s: Session, incoming: seq<ReadAnswer>, site: Site)
    requires Quiet(s) && s.out != ""
    ensures var r := ReadEvent(s, incoming, [], site); r.Done? && !r.s.error ==> r.s.out != "" && r.outgoing == []
    decreases Pending(s, incoming)
  {
    PassByPass(s, incoming, [], site);
    var pass := OnePass(s, incoming, [], site);
    if pass.Some? {
      PassWrites(s, incoming, [], site);
      SomethingToWrite(s, Receive(incoming), site);
      var p := pass.value;
      assert p.outgoing == [] && Room(Used([], [])) == 0;
      hide OnePass, ReadEvent, ReadWishes, Quiet, Pending, Receive, ToWrite;
      if p.again { OutputStays(p.s, p.incoming, site); }
    }
  }

  lemma SomethingToWrite(s: Session, got: Reading, site: Site)
    ensures s.out != "" ==> ToWrite(s, got, site) != ""
  {
    hide VerdictOn;
  }

  /** A whole read event uses up the answers to its writes. A failed write is an error. Output is left only
      because the socket would block; and the event asks to write if and only if output is left, or the
      socket would have blocked some pass. */
  lemma {:induction false} EventWrites(s: Session, incoming: seq<ReadAnswer>, outgoing: seq<WriteAnswer>, site: Site)
    requires Quiet(s)
    ensures var r, w := ReadEvent(s, incoming, outgoing, site), ReadWishes(s, incoming, outgoing, site);
      r.Done? ==>
        && Uses(outgoing, r.outgoing)
        && (WriteFailed in Used(outgoing, r.outgoing) ==> r.s.error)
        && (!r.s.error ==>
              && (r.s.out != "" ==> Blocks(outgoing, r.outgoing))
              && (w.write <==> r.s.out != "" || WriteBlocked in Used(outgoing, r.outgoing)))
    decreases Pending(s, incoming)
  {
    PassByPass(s, incoming, outgoing, site);
    var pass := OnePass(s, incoming, outgoing, site);
    if pass.Some? {
      PassWrites(s, incoming, outgoing, site);
      var p, r := pass.value, ReadEvent(s, incoming, outgoing, site);
      hide OnePass, ReadEvent, ReadWishes, Quiet, Pending, Uses, Receive, ToWrite, Room;
      if p.again {
        EventWrites(p.s, p.incoming, p.outgoing, site);
        if r.Done? {
          UsesMore(outgoing, p.outgoing, r.outgoing);
          BlocksMore(outgoing, p.outgoing, r.outgoing);
          if p.outgoing == [] && p.s.out != "" { OutputStays(p.s, p.incoming, site); }
        }
      }
    }
  }

  lemma BlocksMore(script: seq<WriteAnswer>, mid: seq<WriteAnswer>, left: seq<WriteAnswer>)
    requires Uses(script, mid) && Uses(mid, left)
    ensures Uses(script, left) && (Blocks(mid, left) ==> Blocks(script, left))
    ensures Blocks(script, mid) ==> mid == [] || WriteBlocked in Used(script, mid)
  {
  }

  // ---------------------------------------------------------------- waiting

  /** A pass that leaves the connection open asks to read if and only if it is in the middle of a request. */
  lemma PassAsks(s: Session, incoming: seq<ReadAnswer>, outgoing: seq<WriteAnswer>, site: Site)
    requires Resting(s.parse) && !s.error && OnePass(s, incoming, outgoing, site).Some?
    ensures var p := OnePass(s, incoming, outgoing, site).value;
      !p.s.error && !p.s.closing ==> (p.wishes.read <==> !p.s.parse.phase.StateParseUri?)
  {
    var got := Receive(incoming);
    AdvanceRests(WithData(s, got).parse, site.bodyLength);
    hide Advance, Receive, Send, Resting, Answers, WantsKeepAlive;
  }

  lemma {:induction false} EventAsks(s: Session, incoming: seq<ReadAnswer>, outgoing: seq<WriteAnswer>, site: Site)
    requires Quiet(s)
    ensures var r, w := ReadEvent(s, incoming, outgoing, site), ReadWishes(s, incoming, outgoing, site);
      r.Done? && !r.s.error && !r.s.closing ==> (w.read <==> !r.s.parse.phase.StateParseUri?)
    decreases Pending(s, incoming)
  {
    PassByPass(s, incoming, outgoing, site);
    var pass := OnePass(s, incoming, outgoing, site);
    if pass.Some? {
      PassAsks(s, incoming, outgoing, site);
      var p := pass.value;
      hide OnePass, ReadEvent, ReadWishes, Quiet, Pending;
      if p.again { EventAsks(p.s, p.incoming, p.outgoing, site); }
    }
  }

  /** How a connection that is still open waits after it has read: for writing, if output is left or the
      socket would have blocked, and for reading otherwise; and for how long. */
  lemma AfterReadingWaits(s: Session, incoming: seq<ReadAnswer>, outgoing: seq<WriteAnswer>, site: Site)
    requires Quiet(s)
    ensures var r := ReadEvent(s, incoming, outgoing, site);
      r.Done? && !r.s.error && !r.s.closing ==>
        && Uses(outgoing, r.outgoing)
        && var writes := r.s.out != "" || WriteBlocked in Used(outgoing, r.outgoing);
        EventOutcome(s, Revents(true, false, false, false, false, false), r, incoming, outgoing, site)
        == Waits(Http.Mask(!writes, writes, true, false),
                 if r.s.keepAlive then 300_000
                 else if writes || !r.s.parse.phase.StateParseUri? then 2_000
                 else 150_000)
  {
    EventWrites(s, incoming, outgoing, site);
    EventAsks(s, incoming, outgoing, site);
    hide ReadEvent, ReadWishes, Quiet, Uses, Used;
  }

  /** How it waits when it could be written to: the output went out as far as the socket took it. */
  lemma AfterWritingWaits(s: Session, r: EventResult, incoming: seq<ReadAnswer>, outgoing: seq<WriteAnswer>, site: Site)
    requires Quiet(s) && !s.closing
    ensures var revents := Revents(false, false, false, true, false, false);
      var t, w := AfterCallbacks(s, revents, r, outgoing), Send(outgoing, |s.out|);
      && (t.error <==> w.failed) && t.wire == s.wire + s.out[..w.sent] && t.served == s.served && t.parse == s.parse
      && (!t.error ==> t.wire + t.out == s.wire + s.out && |t.out| == |s.out| - w.sent)
      && EventOutcome(s, revents, r, incoming, outgoing, site)
         == if w.failed then Closes
            else Waits(Http.Mask(w.sent == |s.out|, w.sent < |s.out|, true, false),
                       if s.keepAlive then 300_000 else if w.sent < |s.out| then 2_000 else 150_000)
  {
    var w := Send(outgoing, |s.out|);
    assert s.out == s.out[..w.sent] + s.out[w.sent..];
    Assoc(s.wire, s.out[..w.sent], s.out[w.sent..]);
    hide Send;
  }

  /** Whenever an event says that the connection can be written to, what then waits, after a read if there
      is something to read, goes out as far as the socket takes it. */
  lemma CallbacksWrite(s: Session, revents: Revents, r: EventResult, outgoing: seq<WriteAnswer>)
    requires revents.output && !s.error && (revents.input || revents.pri || revents.rdhup ==> r.Done?)
    ensures var toRead := revents.input || revents.pri || revents.rdhup;
      var u, left := if toRead then r.s else s, if toRead then r.outgoing else outgoing;
      var t, w := AfterCallbacks(s, revents, r, outgoing), Send(left, |u.out|);
      if u.error then t == u
      else
        && (t.error <==> w.failed) && t.wire == u.wire + u.out[..w.sent]
        && (!t.error ==> t.wire + t.out == u.wire + u.out && t.closing == u.closing && t.served == u.served)
  {
    var toRead := revents.input || revents.pri || revents.rdhup;
    var u, left := if toRead then r.s else s, if toRead then r.outgoing else outgoing;
    WrittenConserves(u, left);
    hide Send, Uses, Blocks;
  }

  // ---------------------------------------------------------------- a request and its answer

  lemma {:induction false} ChunksAreRead(chunks: seq<ReadAnswer>, rest: seq<ReadAnswer>)
    requires (forall c <- chunks :: Continues(c)) && (rest == [] || rest[0].ReadBlocked?)
    ensures var r := Receive(chunks + rest); r.data == Stream(chunks) && !r.zero && !r.failed
    decreases |chunks|
  {
    if chunks == [] {
      assert chunks + rest == rest;
    } else {
      assert Continues(chunks[0]) && (chunks + rest)[1..] == chunks[1..] + rest;
      ChunksAreRead(chunks[1..], rest);
    }
  }

  /** The socket takes n bytes without ado. */
  predicate Willing(script: seq<WriteAnswer>, n: nat) {
    Room(script) >= n && WriteBlocked !in script && WriteFailed !in script
  }

  lemma WillingSends(script: seq<WriteAnswer>, m: nat, n: nat)
    requires Willing(script, m) && n <= m
    ensures var w := Send(script, n);
      && !w.failed && w.sent == n && Uses(script, w.left) && WriteBlocked !in Used(script, w.left)
  {
    SendUses(script, n);
    var w := Send(script, n);
    hide Send, Room;
    assert w.left == [] ==> Used(script, w.left) == script;
  }

  /** The pass that completes a request, alone, with a willing socket. */
  lemma PassDelivers(s: Session, incoming: seq<ReadAnswer>, outgoing: seq<WriteAnswer>, site: Site,
                     p: Parse, reply: string)
    requires Quiet(s) && !s.closing
    requires var got := Receive(incoming); !got.failed && !got.zero && VerdictOn(s, got, site) == Ready(p)
    requires p.buffer == "" && AnswerTo(s, p, site) == Some(reply) && Willing(outgoing, |s.out| + |reply|)
    ensures var pass := OnePass(s, incoming, outgoing, site);
      && pass.Some? && !pass.value.s.error && !pass.value.s.closing && !pass.value.again && pass.value.s.out == ""
      && pass.value.s.parse.phase.StateParseUri?
      && pass.value.s.wire == s.wire + ((if p.file == "hello" then "" else s.out) + reply)
      && pass.value.s.served == s.served + [Request(p.verb, p.file, p.version, p.headers, "")]
      && (pass.value.s.keepAlive <==> s.keepAlive || AsksToStay(p.headers))
      && Uses(outgoing, pass.value.outgoing) && WriteBlocked !in Used(outgoing, pass.value.outgoing)
  {
    var got := Receive(incoming);
    var all := (if p.file == "hello" then "" else s.out) + reply;
    assert ToWrite(s, got, site) == all by { hide AnswerTo, VerdictOn; }
    WillingSends(outgoing, |s.out| + |reply|, |all|);
    PassFailsIff(s, incoming, outgoing, site);
    PassServes(s, incoming, outgoing, site);
    PassGoesOn(s, incoming, outgoing, site);
    PassReads(s, incoming, outgoing, site);
    PassWrites(s, incoming, outgoing, site);
    ReadingUses(incoming);
    PassSends(s, incoming, outgoing, site);
    hide Receive, OnePass, AnswerTo, VerdictOn, ToWrite, Send, Room, Quiet, Used, Uses, Willing, AsksToStay;
  }

  lemma PassSends(s: Session, incoming: seq<ReadAnswer>, outgoing: seq<WriteAnswer>, site: Site)
    requires Resting(s.parse) && !s.error && OnePass(s, incoming, outgoing, site).Some?
    ensures var p, all := OnePass(s, incoming, outgoing, site).value, ToWrite(s, Receive(incoming), site);
      var w := Send(outgoing, |all|);
      !p.s.error ==> p.outgoing == w.left && |p.s.out| == |all| - w.sent
  {
    var got := Receive(incoming);
    var t := Take(s, got, site);
    TakeOutput(s, got, site);
    if t.Some? && !t.value.error { FinishWrites(t.value, outgoing); }
    hide Receive, Take, Finish, FinishLeft, Send, Resting, ToWrite;
  }

  /** The event then is this one pass; and the connection waits to read. */
  lemma EventDelivers(s: Session, incoming: seq<ReadAnswer>, outgoing: seq<WriteAnswer>, site: Site,
                      p: Parse, reply: string)
    requires Quiet(s) && !s.closing
    requires var got := Receive(incoming); !got.failed && !got.zero && VerdictOn(s, got, site) == Ready(p)
    requires p.buffer == "" && AnswerTo(s, p, site) == Some(reply) && Willing(outgoing, |s.out| + |reply|)
    ensures var r := ReadEvent(s, incoming, outgoing, site);
      && r.Done? && !r.s.error && r.s.out == ""
      && r.s.wire == s.wire + ((if p.file == "hello" then "" else s.out) + reply)
      && r.s.served == s.served + [Request(p.verb, p.file, p.version, p.headers, "")]
      && (r.s.keepAlive <==> s.keepAlive || AsksToStay(p.headers))
      && EventOutcome(s, Revents(true, false, false, false, false, false), r, incoming, outgoing, site)
         == Waits(Http.Mask(true, false, true, false), if r.s.keepAlive then 300_000 else 150_000)
  {
    PassDelivers(s, incoming, outgoing, site, p, reply);
    PassByPass(s, incoming, outgoing, site);
    AfterReadingWaits(s, incoming, outgoing, site);
    hide Receive, OnePass, AnswerTo, VerdictOn, Quiet, Willing, AsksToStay, ReadEvent, ReadWishes, EventOutcome;
    hide Uses, Used, Pending, Room;
  }

  /** A printed request, read in however many pieces by one event, with a willing socket: it is served, and
      its answer is what goes to the wire, behind what was pending; then the connection waits to read. */
  lemma PrintedIsDelivered(s: Session, chunks: seq<ReadAnswer>, rest: seq<ReadAnswer>, outgoing: seq<WriteAnswer>,
                           site: Site, m: BenchMethod, target: string, v: Version, host: string, reload: bool,
                           keepAlive: bool, reply: string)
    requires V.Free(s) && Quiet(s) && Readable(m, target, host)
    requires (forall c <- chunks :: Continues(c)) && (rest == [] || rest[0].ReadBlocked?)
    requires Stream(chunks) == V.Text(m, target, v, host, reload, keepAlive)
    requires AnswerTo(s, Expected(m, target, v, host, keepAlive), site) == Some(reply)
    requires Willing(outgoing, |s.out| + |reply|)
    ensures var q := V.Sent(m, target, v, host, keepAlive, "");
      var r := ReadEvent(s, chunks + rest, outgoing, site);
      && r.Done? && !r.s.error && r.s.served == s.served + [q] && r.s.out == ""
      && r.s.wire == s.wire + ((if q.file == "hello" then "" else s.out) + reply)
      && (r.s.keepAlive <==> s.keepAlive || (v.Http11? && keepAlive))
      && EventOutcome(s, Revents(true, false, false, false, false, false), r, chunks + rest, outgoing, site)
         == Waits(Http.Mask(true, false, true, false), if r.s.keepAlive then 300_000 else 150_000)
  {
    var incoming, p := chunks + rest, Expected(m, target, v, host, keepAlive);
    ChunksAreRead(chunks, rest);
    PrintIsReady(s, Receive(incoming), site, m, target, v, host, reload, keepAlive);
    assert V.Sent(m, target, v, host, keepAlive, "") == Request(p.verb, p.file, p.version, p.headers, "");
    assert p.buffer == "" && !s.closing;
    hide *;
    EventDelivers(s, incoming, outgoing, site, p, reply);
  }

  lemma PrintIsReady(s: Session, got: Reading, site: Site,
                     m: BenchMethod, target: string, v: Version, host: string, reload: bool, keepAlive: bool)
    requires V.Free(s) && Readable(m, target, host) && !got.failed
    requires got.data == V.Text(m, target, v, host, reload, keepAlive)
    ensures var p := Expected(m, target, v, host, keepAlive);
      VerdictOn(s, got, site) == Ready(p) && (AsksToStay(p.headers) <==> v.Http11? && keepAlive)
  {
    V.PrintIsRead(m, target, v, host, reload, keepAlive);
    V.FreeReads(s, got, site, V.Sent(m, target, v, host, keepAlive, ""));
    V.KeepAliveWanted(v, host, keepAlive);
    hide Advance, ReadRequest, Readable, V.Text, FieldMap, FileOf;
  }
}
