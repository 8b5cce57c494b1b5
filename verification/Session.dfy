/** One connection on values: what a read event makes of it, pass by pass, and what becomes of the
    answers. */
module Session {
  import opened Sequences
  import opened HeaderParser
  import opened RequestLine
  import opened RequestReader
  import opened SocketIo
  import opened ErrorPages

  /** What the file system has for a request: the response, or where it gives up. */
  datatype Answer = Text(response: string) | NoSuchFile | CannotOpen

  /** What is outside of the server: the file system, and std::stoi. */
  datatype Site = Site(files: (string, Method, bool) -> Answer, bodyLength: string -> int)

  const HELLO := "HTTP/1.1 200 OK\r\nContent-type: text/plain\r\n\r\nHello World"

  datatype Session = Session(
    parse: Parse,
    out: string,            // waits to be written
    keepAlive: bool,
    closing: bool,          // the peer has closed
    error: bool,
    wire: string,           // all that was ever written
    // History: the requests that were answered, all their answers, and how much of them was overwritten.
    served: seq<Request>,
    answered: string,
    dropped: nat)

  predicate WantsKeepAlive(headers: Headers) {
    "Connection" in headers && headers["Connection"] in {"Keep-Alive", "Keep-alive"}
  }

  /** Is there an answer other than an error page? */
  predicate Answers(site: Site, verb: Method, file: string, keepAlive: bool) {
    !verb.Post? && (file == "hello" || site.files(file, verb, keepAlive).Text?)
  }

  function Reply(site: Site, verb: Method, file: string, keepAlive: bool): string
    requires Answers(site, verb, file, keepAlive)
  {
    if file == "hello" then HELLO else site.files(file, verb, keepAlive).response
  }

  function RequestOf(p: Parse): Request {
    Request(p.verb, p.file, p.version, p.headers, p.buffer)
  }

  /** AnalysisRequest, and what HandleRead does with its result. "hello" replaces what waits. */
  function Analyse(s: Session, site: Site): Session {
    var p, keep := s.parse, s.keepAlive || WantsKeepAlive(s.parse.headers);
    if p.verb.Post? then s.(error := true)
    else if Answers(site, p.verb, p.file, keep) then
      var reply, hello := Reply(site, p.verb, p.file, keep), p.file == "hello";
      s.(parse := p.(phase := StateFinish), keepAlive := keep,
         out := (if hello then "" else s.out) + reply,
         served := s.served + [RequestOf(p)],
         answered := s.answered + reply,
         dropped := s.dropped + if hello then |s.out| else 0)
    else
      s.(error := true, keepAlive := keep, out := if site.files(p.file, p.verb, keep).CannotOpen? then "" else s.out)
  }

  /** The parsing phases and AnalysisRequest; None is undefined behaviour. */
  function Parsed(s: Session, site: Site): Option<Session> {
    match Advance(s.parse, site.bodyLength)
    case Crash => None
    case Blocked(p) => Some(s.(parse := p))
    case Refused(p) => Some(s.(parse := p, error := true))
    case Ready(p) => Some(Analyse(s.(parse := p), site))
  }

  /** Is what was read looked at, or does HandleRead give up before? */
  predicate Looks(s: Session, got: Reading) {
    !s.closing && !got.failed && !(got.zero && got.data == "")
  }

  function WithData(s: Session, got: Reading): Session {
    s.(parse := s.parse.(buffer := s.parse.buffer + got.data), closing := s.closing || got.zero)
  }

  /** The first half of HandleRead. */
  function Take(s: Session, got: Reading, site: Site): Option<Session> {
    if Looks(s, got) then Parsed(WithData(s, got), site)
    else if s.closing then Some(s.(parse := s.parse.(buffer := "")))
    else if got.failed then Some(s.(parse := s.parse.(buffer := s.parse.buffer + got.data), error := true))
    else Some(WithData(s, got))
  }

  /** HandleWrite. */
  function Written(s: Session, script: seq<WriteAnswer>): Session {
    if s.error then s
    else
      var w := Send(script, |s.out|);
      s.(wire := s.wire + s.out[..w.sent], out := if w.failed then s.out else s.out[w.sent..], error := w.failed)
  }

  function WritesLeft(s: Session, script: seq<WriteAnswer>): seq<WriteAnswer> {
    if s.error then script else Send(script, |s.out|).left
  }

  function NextRequest(p: Parse): Parse {
    p.(phase := StateParseUri, file := "", h := Start, headers := map[])
  }

  /** The second half of HandleRead, up to the call of itself. */
  function Finish(s: Session, script: seq<WriteAnswer>): Session {
    var t := if s.out != "" then Written(s, script) else s;
    if !t.error && t.parse.phase.StateFinish? then t.(parse := NextRequest(t.parse)) else t
  }

  function FinishLeft(s: Session, script: seq<WriteAnswer>): seq<WriteAnswer> {
    if s.out != "" then WritesLeft(s, script) else script
  }

  predicate GoesOn(before: Session, after: Session) {
    before.parse.phase.StateFinish? && !after.error && after.parse.buffer != "" && !after.closing
  }

  datatype EventResult =
    | Crashed(served: seq<Request>)  // undefined behaviour, and the requests answered before it
    | Done(s: Session, incoming: seq<ReadAnswer>, outgoing: seq<WriteAnswer>)
  {
    function Served(): seq<Request> {
      if Crashed? then served else s.served
    }
  }

  function Pending(s: Session, incoming: seq<ReadAnswer>): nat {
    |s.parse.buffer| + Unread(incoming)
  }

  /** HandleRead. */
  function ReadEvent(s: Session, incoming: seq<ReadAnswer>, outgoing: seq<WriteAnswer>, site: Site): EventResult
    requires Resting(s.parse) && !s.error
    decreases Pending(s, incoming)
  {
    var got := Receive(incoming);
    var taken := Take(s, got, site);
    if taken.None? then Crashed(s.served)
    else if taken.value.error then Done(taken.value, got.left, outgoing)
    else
      var t := taken.value;
      var u, left := Finish(t, outgoing), FinishLeft(t, outgoing);
      if GoesOn(t, u) then
        TakeShrinks(s, incoming, site);
        ReadEvent(u, got.left, left, site)
      else Done(u, got.left, left)
  }

  /** What the callbacks ask to be told of. */
  datatype Wishes = Wishes(read: bool, write: bool)

  /** What a read event asks for: to write, if some pass of it leaves output; to read, if its last pass does
      not complete a request. */
  function ReadWishes(s: Session, incoming: seq<ReadAnswer>, outgoing: seq<WriteAnswer>, site: Site): Wishes
    requires Resting(s.parse) && !s.error
    decreases Pending(s, incoming)
  {
    var got := Receive(incoming);
    var taken := Take(s, got, site);
    if taken.None? || taken.value.error then Wishes(false, false)
    else
      var t := taken.value;
      var u, left := Finish(t, outgoing), FinishLeft(t, outgoing);
      if GoesOn(t, u) then
        TakeShrinks(s, incoming, site);
        var w := ReadWishes(u, got.left, left, site);
        w.(write := u.out != "" || w.write)
      else Wishes(!t.parse.phase.StateFinish?, u.out != "")
  }

  /** The error page that a verdict leads to. */
  function VerdictPages(keepAlive: bool, v: Verdict, site: Site): seq<Page> {
    match v
    case Refused(p) =>
      [Page(400, if p.phase.StateRecvBody? then "Bad Request: Lack of argument (Content-length)" else "Bad Request")]
    case Ready(p) =>
      if p.verb.Post? || Answers(site, p.verb, p.file, keepAlive || WantsKeepAlive(p.headers)) then []
      else [Page(404, "Not Found!")]
    case _ => []
  }

  /** The error page that a pass sends, if it sends one: none for a POST, and none when writing fails. */
  function PassPages(s: Session, got: Reading, site: Site): seq<Page> {
    if s.closing then []
    else if got.failed then [Page(400, "Bad Request")]
    else if got.zero && got.data == "" then []
    else VerdictPages(s.keepAlive, Advance(WithData(s, got).parse, site.bodyLength), site)
  }

  /** The error pages that a read event sends. */
  function ReadPages(s: Session, incoming: seq<ReadAnswer>, outgoing: seq<WriteAnswer>, site: Site): seq<Page>
    requires Resting(s.parse) && !s.error
    decreases Pending(s, incoming)
  {
    var got := Receive(incoming);
    var taken := Take(s, got, site);
    if taken.None? || taken.value.error then PassPages(s, got, site)
    else
      var t := taken.value;
      var u, left := Finish(t, outgoing), FinishLeft(t, outgoing);
      if GoesOn(t, u) then
        TakeShrinks(s, incoming, site);
        ReadPages(u, got.left, left, site)
      else []
  }

  /** In an error the wire may have got an error page beyond what is described. */
  predicate Agrees(now: Session, s: Session) {
    now == s || (s.error && s.wire <= now.wire && now == s.(wire := now.wire))
  }

  /** A pass that completes a request leaves less to work on. */
  lemma TakeShrinks(s: Session, incoming: seq<ReadAnswer>, site: Site)
    requires Resting(s.parse) && !s.error
    ensures var got := Receive(incoming); var t := Take(s, got, site);
      t.Some? && !t.value.error ==>
        if t.value.parse.phase.StateFinish? then Pending(t.value, got.left) < Pending(s, incoming)
        else Pending(t.value, got.left) <= Pending(s, incoming) && Resting(t.value.parse)
  {
    ReceiveCounts(incoming);
    var got := Receive(incoming);
    AdvanceRests(WithData(s, got).parse, site.bodyLength);
    hide Advance, Receive, Unread, Answers, WantsKeepAlive;
  }

  // ---------------------------------------------------------------- what becomes of the answers

  /** All answers are on the wire or wait to be written. */
  predicate Conserved(s: Session) {
    s.wire + s.out == s.answered
  }

  predicate Accounted(s: Session) {
    && |s.wire| + |s.out| + s.dropped == |s.answered|
    && (s.dropped == 0 ==> Conserved(s))
  }

  /** Between two events. */
  predicate Quiet(s: Session) {
    Resting(s.parse) && !s.error && Accounted(s)
  }

  lemma ConservedIff(s: Session)
    requires Accounted(s)
    ensures Conserved(s) <==> s.dropped == 0
  {
    assert |s.wire + s.out| == |s.wire| + |s.out|;
  }

  /** A request keeps the answers together if and only if it is not "hello" while output waits. */
  lemma AnalyseConservesIff(s: Session, site: Site)
    requires Accounted(s) && !s.error && !Analyse(s, site).error
    ensures Accounted(Analyse(s, site))
    ensures Conserved(s) ==> (Conserved(Analyse(s, site)) <==> !(s.parse.file == "hello" && s.out != ""))
  {
    var t := Analyse(s, site);
    var reply := t.answered[|s.answered|..];
    assert t.answered == s.answered + reply;
    hide Answers, WantsKeepAlive;
    Assoc(s.wire, s.out, reply);
    assert s.out == "" ==> s.wire + s.out == s.wire;
    assert Accounted(t);
    ConservedIff(s);
    ConservedIff(t);
  }

  lemma WrittenAccounts(s: Session, script: seq<WriteAnswer>)
    requires Accounted(s)
    ensures !Written(s, script).error ==> Accounted(Written(s, script))
  {
    if !s.error {
      var n := Send(script, |s.out|).sent;
      assert s.out == s.out[..n] + s.out[n..];
      Assoc(s.wire, s.out[..n], s.out[n..]);
    }
  }

  lemma WrittenConserves(s: Session, script: seq<WriteAnswer>)
    ensures var t := Written(s, script);
      !t.error ==>
        && t.wire + t.out == s.wire + s.out && Uses(script, WritesLeft(s, script))
        && (t.out != "" ==> Blocks(script, WritesLeft(s, script)))
  {
    SendUses(script, |s.out|);
    if !s.error {
      var n := Send(script, |s.out|).sent;
      assert s.out == s.out[..n] + s.out[n..];
      Assoc(s.wire, s.out[..n], s.out[n..]);
    }
  }

  lemma WrittenRests(s: Session, script: seq<WriteAnswer>)
    ensures var t := Written(s, script);
      && t.parse == s.parse && t.closing == s.closing && t.served == s.served && t.dropped == s.dropped
      && (s.error ==> t.error)
  {
  }

  lemma TakeAccounts(s: Session, got: Reading, site: Site)
    requires Accounted(s) && !s.error
    ensures var t := Take(s, got, site); t.Some? && !t.value.error ==> Accounted(t.value)
  {
    var v := Advance(WithData(s, got).parse, site.bodyLength);
    if Looks(s, got) && v.Ready? {
      var r := WithData(s, got).(parse := v.p);
      if !Analyse(r, site).error { AnalyseConservesIff(r, site); }
    }
    hide Advance, Analyse;
  }

  lemma FinishAccounts(s: Session, script: seq<WriteAnswer>)
    requires Accounted(s)
    ensures !Finish(s, script).error ==> Accounted(Finish(s, script))
  {
    WrittenAccounts(s, script);
    FinishIs(s, script);
    hide Written, Accounted, Finish;
    SameAccounts(if s.out != "" then Written(s, script) else s, Finish(s, script));
  }

  lemma FinishIs(s: Session, script: seq<WriteAnswer>)
    ensures var t, u := if s.out != "" then Written(s, script) else s, Finish(s, script);
      u.wire == t.wire && u.out == t.out && u.dropped == t.dropped && u.answered == t.answered && u.error == t.error
  {
    hide Written;
  }

  lemma SameAccounts(s: Session, t: Session)
    requires s.wire == t.wire && s.out == t.out && s.dropped == t.dropped && s.answered == t.answered
    ensures Accounted(s) <==> Accounted(t)
  {
  }

  /** Does some pass of a read event answer "hello" while output waits? */
  predicate Drops(s: Session, incoming: seq<ReadAnswer>, outgoing: seq<WriteAnswer>, site: Site)
    requires Resting(s.parse) && !s.error
    decreases Pending(s, incoming)
  {
    var got := Receive(incoming);
    var taken := Take(s, got, site);
    taken.Some? && !taken.value.error && taken.value.parse.phase.StateFinish? &&
    (var t := taken.value;
     var u, left := Finish(t, outgoing), FinishLeft(t, outgoing);
     (t.parse.file == "hello" && s.out != "") ||
     (GoesOn(t, u) && (TakeShrinks(s, incoming, site); Drops(u, got.left, left, site))))
  }

  /** A first pass that answers "hello" while output waits. */
  lemma HelloDrops(s: Session, incoming: seq<ReadAnswer>, outgoing: seq<WriteAnswer>, site: Site)
    requires Resting(s.parse) && !s.error && s.out != ""
    ensures var first := FirstRequest(s, Receive(incoming), site);
      first.Some? && first.value.file == "hello" ==> Drops(s, incoming, outgoing, site)
  {
    var got := Receive(incoming);
    var t := Take(s, got, site);
    hide Advance, Receive, WantsKeepAlive, Finish, FinishLeft;
    if FirstRequest(s, got, site).Some? {
      assert t.Some? && !t.value.error && t.value.parse.phase.StateFinish?;
      assert t.value.parse.file == FirstRequest(s, got, site).value.file;
    }
  }

  lemma TakeDrops(s: Session, got: Reading, site: Site)
    requires Resting(s.parse) && !s.error
    ensures var t := Take(s, got, site);
      t.Some? && !t.value.error ==>
        && s.dropped <= t.value.dropped
        && (t.value.dropped > s.dropped <==>
              t.value.parse.phase.StateFinish? && t.value.parse.file == "hello" && s.out != "")
  {
    AdvanceRests(WithData(s, got).parse, site.bodyLength);
    hide Advance, Answers, WantsKeepAlive;
  }

  /** A read event that ends without error leaves the connection at rest, with all bytes accounted for. It
      keeps the answers together if and only if none of its passes answers "hello" while output waits. */
  lemma {:induction false} EventConservesIff(s: Session, incoming: seq<ReadAnswer>, outgoing: seq<WriteAnswer>,
                                             site: Site)
    requires Quiet(s)
    ensures var r := ReadEvent(s, incoming, outgoing, site);
      r.Done? && !r.s.error ==>
        && Quiet(r.s) && Pending(r.s, r.incoming) <= Pending(s, incoming)
        && s.dropped <= r.s.dropped
        && (r.s.dropped == s.dropped <==> !Drops(s, incoming, outgoing, site))
        && (Conserved(s) ==> (Conserved(r.s) <==> !Drops(s, incoming, outgoing, site)))
    decreases Pending(s, incoming)
  {
    var got := Receive(incoming);
    var taken := Take(s, got, site);
    TakeShrinks(s, incoming, site);
    TakeAccounts(s, got, site);
    TakeDrops(s, got, site);
    if taken.Some? && !taken.value.error {
      var t := taken.value;
      var u, left := Finish(t, outgoing), FinishLeft(t, outgoing);
      FinishAccounts(t, outgoing);
      FinishRests(t, outgoing);
      if GoesOn(t, u) { EventConservesIff(u, got.left, left, site); }
    }
    var r := ReadEvent(s, incoming, outgoing, site);
    hide Take, Finish, Conserved, Receive, Unread, Resting;
    if r.Done? && !r.s.error && Accounted(r.s) {
      ConservedIff(s);
      ConservedIff(r.s);
    }
  }

  lemma FinishRests(s: Session, script: seq<WriteAnswer>)
    requires s.parse.phase.StateFinish? || Resting(s.parse)
    ensures var t := Finish(s, script);
      && t.dropped == s.dropped && t.closing == s.closing && t.parse.buffer == s.parse.buffer
      && (!t.error ==> Resting(t.parse))
      && (!t.error ==> if s.parse.phase.StateFinish? then t.parse == NextRequest(s.parse) else t.parse == s.parse)
  {
  }

  /** With nothing waiting and one request at most, nothing is dropped. */
  lemma SoleRequestKeeps(s: Session, incoming: seq<ReadAnswer>, outgoing: seq<WriteAnswer>, site: Site)
    requires Resting(s.parse) && !s.error && s.out == ""
    ensures var t := Take(s, Receive(incoming), site);
      (t.Some? && t.value.parse.phase.StateFinish? ==> t.value.parse.buffer == "") ==>
        !Drops(s, incoming, outgoing, site)
  {
    var t := Take(s, Receive(incoming), site);
    TakeShrinks(s, incoming, site);
    hide Take, Receive, Unread;
    if t.Some? && !t.value.error && t.value.parse.phase.StateFinish? { FinishRests(t.value, outgoing); }
    hide Finish, FinishLeft;
  }

  // ---------------------------------------------------------------- the first pass

  predicate Refuses(s: Session, v: Verdict, site: Site) {
    v.Refused? || (v.Ready? && !Answers(site, v.p.verb, v.p.file, s.keepAlive || WantsKeepAlive(v.p.headers)))
  }

  /** The request that the first pass completes and answers, whichever event its first byte came with. */
  function FirstRequest(s: Session, got: Reading, site: Site): Option<Request> {
    var v := Advance(WithData(s, got).parse, site.bodyLength);
    if Looks(s, got) && v.Ready? && !Refuses(s, v, site) then Some(RequestOf(v.p)) else None
  }

  /** How a read event turns out is decided by its first pass: undefined behaviour, an error, waiting, or
      a request served, before any other and, if no byte follows it, alone. */
  lemma FirstPass(s: Session, incoming: seq<ReadAnswer>, outgoing: seq<WriteAnswer>, site: Site)
    requires Resting(s.parse) && !s.error
    ensures var got := Receive(incoming); var v := Advance(WithData(s, got).parse, site.bodyLength);
      var r, first := ReadEvent(s, incoming, outgoing, site), FirstRequest(s, got, site);
      && (first.Some? ==> s.served + [first.value] <= r.Served())
      && (first.Some? && first.value.rest == "" ==>
            && r.Done? && r.s.served == s.served + [first.value]
            && (!r.s.error ==> r.s.parse == NextRequest(r.s.parse) && r.s.parse.buffer == ""))
      && (first.None? ==> r.Served() == s.served)
      && (Looks(s, got) && v.Crash? ==> r.Crashed?)
      && (Looks(s, got) && Refuses(s, v, site) ==> r.Done? && r.s.error)
      && (Looks(s, got) && v.Blocked? ==> r.Done? && (!r.s.error ==> r.s.parse == v.p))
      && (!Looks(s, got) ==> r.Done?)
  {
    var got := Receive(incoming);
    var v := Advance(WithData(s, got).parse, site.bodyLength);
    AdvanceRests(WithData(s, got).parse, site.bodyLength);
    TakeShrinks(s, incoming, site);
    var taken := Take(s, got, site);
    hide Advance, Receive, Unread, Answers, WantsKeepAlive, Resting;
    if taken.Some? && !taken.value.error {
      var t := taken.value;
      var u, left := Finish(t, outgoing), FinishLeft(t, outgoing);
      FinishKeeps(t, outgoing);
      if GoesOn(t, u) { ServedGrows(u, got.left, left, site); }
    }
    hide Finish, FinishLeft;
  }

  /** An event that finds a part of a request, with nothing to write, only remembers it. */
  lemma WaitingEvent(s: Session, incoming: seq<ReadAnswer>, outgoing: seq<WriteAnswer>, site: Site)
    requires Resting(s.parse) && !s.error && s.out == ""
    ensures var got := Receive(incoming); var v := Advance(WithData(s, got).parse, site.bodyLength);
      Looks(s, got) && v.Blocked? ==>
        ReadEvent(s, incoming, outgoing, site) == Done(WithData(s, got).(parse := v.p), got.left, outgoing)
  {
    AdvanceRests(WithData(s, Receive(incoming)).parse, site.bodyLength);
    hide Advance, Receive;
  }

  lemma FinishKeeps(s: Session, script: seq<WriteAnswer>)
    requires s.parse.phase.StateFinish? || Resting(s.parse)
    ensures var t := Finish(s, script);
      && t.served == s.served && t.parse.buffer == s.parse.buffer && (!t.error ==> Resting(t.parse))
      && (!t.error ==> t.parse == if s.parse.phase.StateFinish? then NextRequest(s.parse) else s.parse)
  {
  }

  lemma {:induction false} ServedGrows(s: Session, incoming: seq<ReadAnswer>, outgoing: seq<WriteAnswer>, site: Site)
    requires Resting(s.parse) && !s.error
    ensures var r := ReadEvent(s, incoming, outgoing, site);
      s.served <= r.Served() && (r.Done? && !r.s.error ==> Resting(r.s.parse))
    decreases Pending(s, incoming)
  {
    var got := Receive(incoming);
    var taken := Take(s, got, site);
    TakeShrinks(s, incoming, site);
    assert taken.Some? ==> s.served <= taken.value.served by { hide Advance, Answers, WantsKeepAlive; }
    hide Take, Receive, Unread;
    if taken.Some? && !taken.value.error {
      var t := taken.value;
      var u, left := Finish(t, outgoing), FinishLeft(t, outgoing);
      FinishKeeps(t, outgoing);
      if GoesOn(t, u) { ServedGrows(u, got.left, left, site); }
    }
  }

  /** One pass of a read event, and what the next one, if there is one, can rely on. */
  lemma BetweenPasses(s: Session, incoming: seq<ReadAnswer>, outgoing: seq<WriteAnswer>, site: Site)
    requires Quiet(s)
    ensures var got := Receive(incoming); var taken := Take(s, got, site);
      var r, w := ReadEvent(s, incoming, outgoing, site), ReadWishes(s, incoming, outgoing, site);
      if taken.None? then r == Crashed(s.served)
      else if taken.value.error then r == Done(taken.value, got.left, outgoing)
      else
        var t := taken.value;
        var u, left := Finish(t, outgoing), FinishLeft(t, outgoing);
        && (!u.error ==> Quiet(u))
        && (if GoesOn(t, u) then
              Pending(u, got.left) < Pending(s, incoming) && r == ReadEvent(u, got.left, left, site)
            else r == Done(u, got.left, left))
        && w == (if GoesOn(t, u) then
                   var w' := ReadWishes(u, got.left, left, site); w'.(write := u.out != "" || w'.write)
                 else Wishes(!t.parse.phase.StateFinish?, u.out != ""))
        && (t.parse.phase.StateFinish? <==> t.served != s.served) && s.served <= t.served <= r.Served()
  {
    var got := Receive(incoming);
    TakeShrinks(s, incoming, site);
    TakeAccounts(s, got, site);
    var taken := Take(s, got, site);
    TakeServes(s, got, site);
    hide Take, Receive, Unread, Accounted;
    if taken.Some? && !taken.value.error {
      FinishAccounts(taken.value, outgoing);
      FinishRests(taken.value, outgoing);
      FinishKeeps(taken.value, outgoing);
      var u, left := Finish(taken.value, outgoing), FinishLeft(taken.value, outgoing);
      if GoesOn(taken.value, u) { ServedGrows(u, got.left, left, site); }
      hide Finish, FinishLeft;
    }
  }

  datatype Pass = Pass(s: Session, incoming: seq<ReadAnswer>, outgoing: seq<WriteAnswer>, again: bool,
                       wishes: Wishes, pages: seq<Page>)

  /** One pass of HandleRead, up to the call of itself; None is undefined behaviour. */
  function OnePass(s: Session, incoming: seq<ReadAnswer>, outgoing: seq<WriteAnswer>, site: Site): Option<Pass> {
    var got := Receive(incoming);
    match Take(s, got, site)
    case None => None
    case Some(t) =>
      if t.error then Some(Pass(t, got.left, outgoing, false, Wishes(false, false), PassPages(s, got, site)))
      else
        var u := Finish(t, outgoing);
        Some(Pass(u, got.left, FinishLeft(t, outgoing), GoesOn(t, u),
                  Wishes(!t.parse.phase.StateFinish?, u.out != ""), []))
  }

  lemma OnePassIs(s: Session, incoming: seq<ReadAnswer>, outgoing: seq<WriteAnswer>, site: Site)
    ensures var got := Receive(incoming); var t, pass := Take(s, got, site), OnePass(s, incoming, outgoing, site);
      && (pass.None? <==> t.None?)
      && (t.Some? ==>
            && pass.value.incoming == got.left
            && if t.value.error then
                 pass.value.s == t.value && !pass.value.again && pass.value.pages == PassPages(s, got, site)
               else
                 var u := Finish(t.value, outgoing);
                 && pass.value.s == u && pass.value.outgoing == FinishLeft(t.value, outgoing)
                 && pass.value.again == GoesOn(t.value, u) && pass.value.pages == []
                 && pass.value.wishes == Wishes(!t.value.parse.phase.StateFinish?, u.out != ""))
  {
    hide Take, Receive, Finish, FinishLeft, PassPages;
  }

  /** A read event is a pass, and another if it calls for one. */
  lemma PassByPass(s: Session, incoming: seq<ReadAnswer>, outgoing: seq<WriteAnswer>, site: Site)
    requires Quiet(s)
    ensures var pass := OnePass(s, incoming, outgoing, site);
      var r, w := ReadEvent(s, incoming, outgoing, site), ReadWishes(s, incoming, outgoing, site);
      var pages := ReadPages(s, incoming, outgoing, site);
      match pass
      case None => r == Crashed(s.served) && pages == []
      case Some(p) =>
        && (!p.s.error ==> Quiet(p.s))
        && if p.again then
          && !p.s.error && Pending(p.s, p.incoming) < Pending(s, incoming)
          && r == ReadEvent(p.s, p.incoming, p.outgoing, site)
          && p.pages == [] && pages == ReadPages(p.s, p.incoming, p.outgoing, site)
          && var w' := ReadWishes(p.s, p.incoming, p.outgoing, site);
             !p.wishes.read && w == w'.(write := p.wishes.write || w'.write)
        else r == Done(p.s, p.incoming, p.outgoing) && w == p.wishes && pages == p.pages
  {
    BetweenPasses(s, incoming, outgoing, site);
    PagesBetween(s, incoming, outgoing, site);
    NoPages(s, Receive(incoming), site);
    hide Take, Receive, Finish, FinishLeft, Quiet, Pending, PassPages, ReadPages;
  }

  lemma PagesOf(keepAlive: bool, v: Verdict, site: Site)
    ensures v.Blocked? || v.Crash? ==> VerdictPages(keepAlive, v, site) == []
    ensures v.Refused? ==> VerdictPages(keepAlive, v, site) == [Page(400,
      if v.p.phase.StateRecvBody? then "Bad Request: Lack of argument (Content-length)" else "Bad Request")]
  {
  }

  lemma PagesOfReady(keepAlive: bool, p: Parse, site: Site)
    ensures VerdictPages(keepAlive, Ready(p), site)
         == if p.verb.Post? || Answers(site, p.verb, p.file, keepAlive || WantsKeepAlive(p.headers)) then []
            else [Page(404, "Not Found!")]
  {
  }

  lemma NoPages(s: Session, got: Reading, site: Site)
    requires Resting(s.parse) && !s.error
    ensures var t := Take(s, got, site); t.None? || !t.value.error ==> PassPages(s, got, site) == []
  {
    AdvanceRests(WithData(s, got).parse, site.bodyLength);
    hide Advance;
  }

  lemma PagesBetween(s: Session, incoming: seq<ReadAnswer>, outgoing: seq<WriteAnswer>, site: Site)
    requires Quiet(s)
    ensures var got := Receive(incoming); var taken := Take(s, got, site);
      var pages := ReadPages(s, incoming, outgoing, site);
      if taken.None? || taken.value.error then pages == PassPages(s, got, site)
      else
        var u, left := Finish(taken.value, outgoing), FinishLeft(taken.value, outgoing);
        if GoesOn(taken.value, u) then Resting(u.parse) && !u.error && pages == ReadPages(u, got.left, left, site)
        else pages == []
  {
    BetweenPasses(s, incoming, outgoing, site);
    hide Take, Receive, Finish, FinishLeft, PassPages;
  }

  /** Output that is left in the end is asked to be written, and an event that serves nothing asks for more
      to read. */
  lemma {:induction false} WishesFit(s: Session, incoming: seq<ReadAnswer>, outgoing: seq<WriteAnswer>, site: Site)
    requires Quiet(s)
    ensures var r, w := ReadEvent(s, incoming, outgoing, site), ReadWishes(s, incoming, outgoing, site);
      r.Done? && !r.s.error ==> (r.s.out != "" ==> w.write) && (r.s.served == s.served ==> w.read)
    decreases Pending(s, incoming)
  {
    BetweenPasses(s, incoming, outgoing, site);
    var got := Receive(incoming);
    var taken := Take(s, got, site);
    hide Take, Receive, Finish, FinishLeft, ReadEvent, ReadWishes, Quiet, Pending;
    if taken.Some? && !taken.value.error {
      var t := taken.value;
      var u, left := Finish(t, outgoing), FinishLeft(t, outgoing);
      if !u.error {
        FinishServes(t, outgoing);
        if GoesOn(t, u) { WishesFit(u, got.left, left, site); }
      }
    }
  }

  lemma FinishServes(s: Session, script: seq<WriteAnswer>)
    ensures Finish(s, script).served == s.served
  {
  }

  lemma TakeServes(s: Session, got: Reading, site: Site)
    requires Resting(s.parse) && !s.error
    ensures var t := Take(s, got, site);
      t.Some? && !t.value.error ==>
        s.served <= t.value.served && (t.value.parse.phase.StateFinish? <==> t.value.served != s.served)
  {
    AdvanceRests(WithData(s, got).parse, site.bodyLength);
    hide Advance, Answers, WantsKeepAlive;
  }
}
