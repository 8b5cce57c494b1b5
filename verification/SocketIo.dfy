/** `ReadN` and `WriteN` of util.cpp on a non-blocking socket.

    What the kernel answers is a script. A script that has run out means that the call would block. */
module SocketIo {
  import opened Sequences

  datatype ReadAnswer =
    | Got(data: string)  // no data: end of file
    | ReadInterrupted
    | ReadBlocked
    | ReadFailed

  datatype WriteAnswer =
    | Took(n: nat)  // at most what was offered
    | WriteInterrupted
    | WriteBlocked
    | WriteFailed

  // ---------------------------------------------------------------- reading

  datatype Reading = Reading(data: string, zero: bool, failed: bool, left: seq<ReadAnswer>)

  /** All the data up to the first answer that ends the reading. */
  function Receive(script: seq<ReadAnswer>): Reading {
    if script == [] then Reading("", false, false, [])
    else match script[0]
      case Got(data) =>
        if data == "" then Reading("", true, false, script[1..])
        else var r := Receive(script[1..]); r.(data := data + r.data)
      case ReadInterrupted => Receive(script[1..])
      case ReadBlocked => Reading("", false, false, script[1..])
      case ReadFailed => Reading("", false, true, script[1..])
  }

  /** Bytes the peer has sent and nobody has read. */
  function Unread(script: seq<ReadAnswer>): nat {
    if script == [] then 0
    else (if script[0].Got? then |script[0].data| else 0) + Unread(script[1..])
  }

  lemma {:induction false} ReceiveCounts(script: seq<ReadAnswer>)
    ensures var r := Receive(script); |r.data| + Unread(r.left) == Unread(script)
    decreases |script|
  {
    if script != [] && (script[0].ReadInterrupted? || (script[0].Got? && script[0].data != "")) {
      ReceiveCounts(script[1..]);
    }
  }

  /** All that the peer sends, in the order it sends it. */
  function Stream(script: seq<ReadAnswer>): string {
    if script == [] then "" else (if script[0].Got? then script[0].data else "") + Stream(script[1..])
  }

  /** Does the read loop go on behind this answer? */
  predicate Continues(answer: ReadAnswer) {
    answer.ReadInterrupted? || (answer.Got? && answer.data != "")
  }

  /** Reading goes on up to the first answer that is an end of file, would block or is a failure, and takes
      all the data up to there, in order; it reports an end of file or a failure if and only if that is the
      answer. */
  lemma {:induction false} ReceiveIs(script: seq<ReadAnswer>) returns (k: nat)
    ensures k <= |script| && forall j | 0 <= j < k :: Continues(script[j])
    ensures k < |script| ==> script[k] == Got("") || script[k].ReadBlocked? || script[k].ReadFailed?
    ensures var r := Receive(script);
      && r.data == Stream(script[..k]) && r.left == (if k < |script| then script[k + 1..] else [])
      && (r.zero <==> k < |script| && script[k] == Got("")) && (r.failed <==> k < |script| && script[k].ReadFailed?)
    decreases |script|
  {
    if script != [] && Continues(script[0]) {
      k := ReceiveIs(script[1..]);
      k := k + 1;
      assert script[..k][1..] == script[1..][..k - 1];
    } else {
      k := 0;
    }
  }

  /** No byte is lost, doubled or moved between what is read and what is still to be read. */
  lemma {:induction false} ReceiveInOrder(script: seq<ReadAnswer>)
    ensures Receive(script).data + Stream(Receive(script).left) == Stream(script)
    decreases |script|
  {
    if script != [] && Continues(script[0]) {
      ReceiveInOrder(script[1..]);
      if script[0].Got? {
        var r := Receive(script[1..]);
        Assoc(script[0].data, r.data, Stream(r.left));
      }
    }
  }

  // ---------------------------------------------------------------- writing

  datatype Writing = Writing(sent: nat, failed: bool, left: seq<WriteAnswer>)

  /** How many of n bytes go out. */
  function Send(script: seq<WriteAnswer>, n: nat): (w: Writing)
    ensures w.sent <= n
  {
    if n == 0 || script == [] then Writing(0, false, script)
    else match script[0]
      case Took(k) =>
        var now := if k <= n then k else n;
        var w := Send(script[1..], n - now);
        w.(sent := now + w.sent)
      case WriteInterrupted => Send(script[1..], n)
      case WriteBlocked => Writing(0, false, script[1..])
      case WriteFailed => Writing(0, true, script[1..])
  }

  /** How much the socket takes in all. */
  function Room(script: seq<WriteAnswer>): nat {
    if script == [] then 0 else (if script[0].Took? then script[0].n else 0) + Room(script[1..])
  }

  /** Writing goes on until all is out or an answer is that it would block or a failure; what goes out is
      what the socket takes up to there, and it fails if and only if that is the answer. */
  lemma {:induction false} SendIs(script: seq<WriteAnswer>, n: nat) returns (k: nat)
    ensures k <= |script| && forall j | 0 <= j < k - 1 :: script[j].Took? || script[j].WriteInterrupted?
    ensures k > 0 ==> Room(script[..k - 1]) < n
    ensures var w := Send(script, n);
      && w.left == script[k..] && w.sent == (if Room(script[..k]) < n then Room(script[..k]) else n)
      && (w.failed <==> k > 0 && script[k - 1].WriteFailed?)
      && (w.sent < n && !w.failed ==> k == |script| || (k > 0 && script[k - 1].WriteBlocked?))
    decreases |script|
  {
    if n == 0 || script == [] {
      k := 0;
    } else {
      var took := if script[0].Took? then script[0].n else 0;
      if script[0].WriteBlocked? || script[0].WriteFailed? {
        k := 1;
      } else {
        k := SendIs(script[1..], if took <= n then n - took else 0);
        k := k + 1;
        if k > 1 { assert script[..k - 1][1..] == script[1..][..k - 2]; }
      }
      assert script[..k][1..] == script[1..][..k - 1];
    }
  }

  /** What is left of a script once its first answers are used. */
  predicate Uses<T(==)>(script: seq<T>, left: seq<T>) {
    |left| <= |script| && left == script[|script| - |left|..]
  }

  function Used<T(==)>(script: seq<T>, left: seq<T>): seq<T>
    requires Uses(script, left)
  {
    script[..|script| - |left|]
  }

  /** The last answer used is that writing would block; or there are no more. */
  predicate Blocks(script: seq<WriteAnswer>, left: seq<WriteAnswer>)
    requires Uses(script, left)
  {
    left == [] || (|left| < |script| && script[|script| - |left| - 1].WriteBlocked?)
  }

  lemma UsesMore<T>(script: seq<T>, mid: seq<T>, left: seq<T>)
    requires Uses(script, mid) && Uses(mid, left)
    ensures Uses(script, left) && Used(script, left) == Used(script, mid) + Used(mid, left)
  {
  }

  lemma SendUses(script: seq<WriteAnswer>, n: nat)
    ensures var w := Send(script, n);
      && Uses(script, w.left) && (WriteFailed in Used(script, w.left) <==> w.failed)
      && (w.sent < n ==> w.sent == Room(Used(script, w.left))) && (w.sent == n ==> Room(Used(script, w.left)) >= n)
      && (w.sent < n && !w.failed ==> Blocks(script, w.left))
      && (WriteBlocked in Used(script, w.left) ==> w.sent < n && !w.failed)
  {
    var k := SendIs(script, n);
    var w := Send(script, n);
    assert Used(script, w.left) == script[..k];
    if k > 0 {
      RoomOfLast(script, k);
      assert script[..k] == script[..k - 1] + [script[k - 1]];
    }
    hide Send;
  }

  lemma {:induction false} RoomOfLast(script: seq<WriteAnswer>, k: nat)
    requires 0 < k <= |script|
    ensures Room(script[..k]) == Room(script[..k - 1]) + if script[k - 1].Took? then script[k - 1].n else 0
    decreases k
  {
    if k > 1 {
      RoomOfLast(script[1..], k - 1);
      assert script[..k][1..] == script[1..][..k - 1] && script[..k - 1][1..] == script[1..][..k - 2];
    } else {
      assert script[..1][1..] == [] && script[..0] == [];
    }
  }

  class Socket {
    var incoming: seq<ReadAnswer>
    var outgoing: seq<WriteAnswer>
    ghost var wire: string  // all that was ever written

    constructor ()
      ensures incoming == [] && outgoing == [] && wire == ""
    {
      incoming, outgoing, wire := [], [], "";
    }

    /** ReadN(int, std::string&, bool&): what was read is appended even if the call fails in the end. */
    method ReadN(buffer: string) returns (sum: int, buffer': string, zero: bool)
      modifies this`incoming
      ensures var r := Receive(old(incoming));
        && incoming == r.left && buffer' == buffer + r.data && zero == r.zero
        && sum == if r.failed then -1 else |r.data|
      ensures buffer' + Stream(incoming) == buffer + Stream(old(incoming))
    {
      ReceiveInOrder(incoming);
      Assoc(buffer, Receive(incoming).data, Stream(Receive(incoming).left));
      sum, buffer', zero := 0, buffer, false;
      assert buffer + Receive(incoming).data == buffer' + Receive(incoming).data;
      while incoming != []
        invariant var r, now := Receive(old(incoming)), Receive(incoming);
          && buffer + r.data == buffer' + now.data && sum + |now.data| == |r.data|
          && now.zero == r.zero && now.failed == r.failed && now.left == r.left
        invariant !zero && sum >= 0
        decreases |incoming|
      {
        var answer := incoming[0];
        incoming := incoming[1..];
        match answer
        case ReadInterrupted => continue;
        case ReadBlocked => return;
        case ReadFailed => sum := -1; return;
        case Got(data) =>
          if data == "" {
            zero := true;
            return;
          }
          Assoc(buffer', data, Receive(incoming).data);
          sum := sum + |data|;
          buffer' := buffer' + data;
      }
    }

    /** WriteN(int, std::string&): when the call fails, the buffer keeps even what went out. */
    method WriteN(buffer: string) returns (sum: int, buffer': string)
      modifies this`outgoing, this`wire
      ensures var w := Send(old(outgoing), |buffer|);
        && outgoing == w.left && wire == old(wire) + buffer[..w.sent]
        && sum == (if w.failed then -1 else w.sent)
        && buffer' == if w.failed then buffer else buffer[w.sent..]
    {
      var left := |buffer|;
      sum, buffer' := 0, buffer;
      while left > 0 && outgoing != []
        invariant sum + left == |buffer| && 0 <= sum && 0 <= left
        invariant var w, now := Send(old(outgoing), |buffer|), Send(outgoing, left);
          now.failed == w.failed && now.left == w.left && sum + now.sent == w.sent
        invariant wire == old(wire) + buffer[..sum]
        decreases |outgoing|
      {
        var answer := outgoing[0];
        outgoing := outgoing[1..];
        match answer
        case WriteInterrupted => continue;
        case WriteBlocked => break;
        case WriteFailed => sum := -1; return;
        case Took(k) =>
          var n := if k <= left then k else left;
          wire := wire + buffer[sum..sum + n];
          sum := sum + n;
          left := left - n;
      }
      if sum == |buffer| {
        buffer' := "";
      } else {
        buffer' := buffer[sum..];
      }
    }

    /** WriteN(int, void*, size_t): what does not go out is not kept. */
    method WriteBytes(text: string) returns (sum: int)
      modifies this`outgoing, this`wire
      ensures var w := Send(old(outgoing), |text|);
        && outgoing == w.left && wire == old(wire) + text[..w.sent]
        && sum == (if w.failed then -1 else w.sent)
    {
      var left := |text|;
      sum := 0;
      while left > 0 && outgoing != []
        invariant sum + left == |text| && 0 <= sum && 0 <= left
        invariant var w, now := Send(old(outgoing), |text|), Send(outgoing, left);
          now.failed == w.failed && now.left == w.left && sum + now.sent == w.sent
        invariant wire == old(wire) + text[..sum]
        decreases |outgoing|
      {
        var answer := outgoing[0];
        outgoing := outgoing[1..];
        match answer
        case WriteInterrupted => continue;
        case WriteBlocked => return;
        case WriteFailed => sum := -1; return;
        case Took(k) =>
          var n := if k <= left then k else left;
          wire := wire + text[sum..sum + n];
          sum := sum + n;
          left := left - n;
      }
    }
  }

  // ---------------------------------------------------------------- conservation

  /** Output is appended to the buffer, and from time to time the buffer is written. */
  datatype Event = Append(data: string) | Write(script: seq<WriteAnswer>)

  datatype Output = Output(wire: string, buffer: string, error: bool, appended: string)

  /** After an error HandleWrite does nothing any more. */
  function StepOutput(o: Output, e: Event): Output {
    match e
    case Append(data) => o.(buffer := o.buffer + data, appended := o.appended + data)
    case Write(script) =>
      if o.error then o
      else
        var w := Send(script, |o.buffer|);
        o.(wire := o.wire + o.buffer[..w.sent],
           buffer := if w.failed then o.buffer else o.buffer[w.sent..],
           error := w.failed)
  }

  function Run(events: seq<Event>): Output {
    if events == [] then Output("", "", false, "") else StepOutput(Run(events[..|events|-1]), events[|events|-1])
  }

  ghost predicate Conserves(o: Output) {
    (!o.error ==> o.wire + o.buffer == o.appended) && o.wire <= o.appended
  }

  lemma StepConserves(o: Output, e: Event)
    requires Conserves(o)
    ensures Conserves(StepOutput(o, e))
  {
    match e
    case Append(data) => if !o.error { Assoc(o.wire, o.buffer, data); }
    case Write(script) =>
      if !o.error {
        var n := Send(script, |o.buffer|).sent;
        assert o.buffer == o.buffer[..n] + o.buffer[n..];
        Assoc(o.wire, o.buffer[..n], o.buffer[n..]);
      }
  }

  /** Whatever is appended in between and however the kernel answers: what is on the wire is a prefix of
      all that was appended, and unless a write has failed the rest is exactly what is in the buffer. */
  lemma {:induction false} WireIsPrefix(events: seq<Event>)
    ensures var o := Run(events); (!o.error ==> o.wire + o.buffer == o.appended) && o.wire <= o.appended
    decreases |events|
  {
    if events != [] {
      WireIsPrefix(events[..|events|-1]);
      StepConserves(Run(events[..|events|-1]), events[|events|-1]);
    }
  }

  /** Something stays in the buffer only if the kernel said that it would block. */
  lemma {:induction false} LeftOnlyIfBlocked(script: seq<WriteAnswer>, n: nat) returns (k: nat)
    requires var w := Send(script, n); !w.failed && w.sent < n
    ensures k <= |script| && Send(script, n).left == script[k..]
    ensures k == |script| || (k > 0 && script[k - 1].WriteBlocked?)
    decreases |script|
  {
    if script == [] { return 0; }
    match script[0]
    case Took(took) =>
      k := LeftOnlyIfBlocked(script[1..], n - if took <= n then took else n);
      k := k + 1;
    case WriteInterrupted =>
      k := LeftOnlyIfBlocked(script[1..], n);
      k := k + 1;
    case _ => k := 1;
  }
}
