/** `Epoll` with its timer queue, and what connections do to it: register, wait for events, be timed out
    and closed. */
module Epoll {
  import opened Sequences
  import opened SocketIo
  import opened Timer
  import opened TimerSpec
  import opened Http = HttpData
  import RequestLine
  import opened RequestReader
  import opened S = Session

  type Conn = Http.HttpData
  type Node = TimerNode<Conn>

  const DEFAULT_EVENT := Mask(true, false, true, true)
  const DEFAULT_EXPIRED_TIME: nat := 2000
  const DEFAULT_KEEP_ALIVE_TIME: nat := 5 * 60 * 1000

  /** What the kernel does with a registered descriptor; a one-shot watch is disarmed by its event. */
  datatype Watch = Armed(mask: Mask) | Disarmed

  /** The events that epoll reports. */
  datatype Revents = Revents(input: bool, pri: bool, rdhup: bool, output: bool, err: bool, hup: bool)

  /** With which events, and for how long, HandleConn waits next. */
  function NextMask(events: Mask): Mask {
    if events == NO_EVENTS then Mask(true, false, true, false)
    else if events.read && events.write then Mask(false, true, true, false)
    else events.(edge := true)
  }

  function NextTimeout(events: Mask, keepAlive: bool): nat {
    if keepAlive then DEFAULT_KEEP_ALIVE_TIME
    else if events == NO_EVENTS then DEFAULT_KEEP_ALIVE_TIME / 2
    else DEFAULT_EXPIRED_TIME
  }

  predicate Reads(revents: Revents) {
    revents.input || revents.pri || revents.rdhup
  }

  /** What the callbacks of an event make of a connection `s`, if `r` is what reading makes of it. */
  function AfterCallbacks(s: Session, revents: Revents, r: EventResult, outgoing: seq<WriteAnswer>): Session
    requires Reads(revents) ==> r.Done?
  {
    var t, left := if Reads(revents) then r.s else s, if Reads(revents) then r.outgoing else outgoing;
    if revents.output then Written(t, left) else t
  }

  /** What the callbacks ask for. */
  function CallbackWishes(s: Session, revents: Revents, r: EventResult, incoming: seq<ReadAnswer>,
                          outgoing: seq<WriteAnswer>, site: Site): Wishes
    requires Resting(s.parse) && !s.error && (Reads(revents) ==> r.Done?)
  {
    var w := if Reads(revents) then ReadWishes(s, incoming, outgoing, site) else Wishes(false, false);
    w.(write := w.write || (revents.output && AfterCallbacks(s, revents, r, outgoing).out != ""))
  }

  /** Epoll reports what the mask asks for, and errors and hang-ups. */
  predicate Reported(mask: Mask, revents: Revents) {
    (Reads(revents) ==> mask.read) && (revents.output ==> mask.write)
  }

  /** How a connection leaves its event. */
  datatype Outcome =
    | Waits(mask: Mask, timeout: nat)  // armed again, with a timer
    | Lingers                          // its peer has closed, and it has asked to write
    | Closes

  /** HandleConn, for a connection `s` whose callbacks have asked for `events`. */
  function AtEnd(s: Session, events: Mask): Outcome {
    if !s.error && !s.closing then Waits(NextMask(events), NextTimeout(events, s.keepAlive))
    else if !s.error && events.write then Lingers
    else Closes
  }

  function EventOutcome(s: Session, revents: Revents, r: EventResult, incoming: seq<ReadAnswer>,
                        outgoing: seq<WriteAnswer>, site: Site): Outcome
    requires Resting(s.parse) && !s.error && (Reads(revents) ==> r.Done?)
  {
    AtEnd(AfterCallbacks(s, revents, r, outgoing),
          Asked(NO_EVENTS, CallbackWishes(s, revents, r, incoming, outgoing, site)))
  }

  /** A connection that waits with output left is watched for writing if and only if a callback ran. */
  lemma OutputIsWatchedIff(s: Session, revents: Revents, r: EventResult, incoming: seq<ReadAnswer>,
                           outgoing: seq<WriteAnswer>, site: Site)
    requires Quiet(s) && r == ReadEvent(s, incoming, outgoing, site) && (Reads(revents) ==> r.Done?)
    requires var t := AfterCallbacks(s, revents, r, outgoing); !t.error && !t.closing && t.out != ""
    ensures var o := EventOutcome(s, revents, r, incoming, outgoing, site);
      o.Waits? && (o.mask.write <==> Reads(revents) || revents.output)
  {
    WishesFit(s, incoming, outgoing, site);
    hide ReadEvent, ReadWishes, Quiet, Send;
  }

  /** So after a report of an error alone, output waits and nobody asks to write it; it stays so until there
      is something to read, or the timer ends the connection. */
  lemma ErrorForgetsOutput(s: Session, r: EventResult, incoming: seq<ReadAnswer>, outgoing: seq<WriteAnswer>,
                           site: Site)
    requires Quiet(s) && !s.closing && s.out != ""
    ensures var revents := Revents(false, false, false, false, true, false);
      && AfterCallbacks(s, revents, r, outgoing) == s
      && EventOutcome(s, revents, r, incoming, outgoing, site)
         == Waits(Mask(true, false, true, false),
                  if s.keepAlive then DEFAULT_KEEP_ALIVE_TIME else DEFAULT_KEEP_ALIVE_TIME / 2)
  {
  }

  /** A peer that has closed stays closed: the connection lingers on or is closed. */
  lemma ClosingNeverWaits(s: Session, revents: Revents, r: EventResult, incoming: seq<ReadAnswer>,
                          outgoing: seq<WriteAnswer>, site: Site)
    requires Quiet(s) && s.closing && r == ReadEvent(s, incoming, outgoing, site) && (Reads(revents) ==> r.Done?)
    ensures AfterCallbacks(s, revents, r, outgoing).closing
    ensures !EventOutcome(s, revents, r, incoming, outgoing, site).Waits?
  {
    if Reads(revents) { FinishRests(s.(parse := s.parse.(buffer := "")), outgoing); }
    hide Finish, Written, Receive, ReadWishes, Quiet;
  }

  /** The first branch of HandleConn: writing goes first, and reading is the default. */
  lemma NextIs(events: Mask, keepAlive: bool)
    requires !events.edge && !events.oneshot
    ensures NextMask(events) == Mask(!events.write, events.write, true, false)
    ensures NextTimeout(events, keepAlive)
         == if keepAlive then 300_000 else if events.read || events.write then 2_000 else 150_000
  {
  }

  lemma OutcomeAgrees(c: Conn, s: Session, events: Mask)
    requires Agrees(c.View(), s) && (!c.error ==> c.events == events)
    ensures AtEnd(c.View(), c.events) == AtEnd(s, events)
  {
  }

  /** Whatever the callbacks ask for, a connection that waits is watched edge-triggered for one thing, for a
      time. */
  lemma WaitsForOneThing(s: Session, w: Wishes)
    ensures var o := AtEnd(s, Asked(NO_EVENTS, w));
      o.Waits? ==> o.mask.edge && !o.mask.oneshot && o.mask.read != o.mask.write && o.timeout > 0
  {
  }

  class Epoll {
    var channels: set<Conn>             // fd2channel_, fd2http_
    var queue: seq<Node>                // timer_node_queue_
    var clock: nat
    ghost var kernel: map<Conn, Watch>
    ghost var conns: set<Conn>          // all that were ever registered
    ghost var history: seq<Op<Conn>>

    ghost function Sockets(): set<Socket>
      reads this`conns
    {
      set c <- conns :: c.socket
    }

    // ---------------------------------------------------------------- what always holds

    /** A node is deleted if and only if it has given up its connection; if it has one, it is the one
        that connection's weak link names. */
    ghost predicate NodeOk(n: Node)
      reads this`conns, this`channels, this`clock, n, conns`timer
    {
      && (n.deleted <==> n.http.None?)
      && n.expiredTime == Deadline(n.armedAt, n.timeout).Wrapped() && n.armedAt <= clock
      && (n.http.Some? ==> n.http.value in conns && n.http.value in channels && n.http.value.timer == n)
    }

    ghost predicate LinkOk(c: Conn)
      reads this`channels, this`queue, this`kernel, c`timer, c.Node()`http, c`closes, c`connectionState, c`lastEvents
    {
      && (c.timer != null ==> c.timer in queue && c.timer.http == Some(c))
      && (if c in channels then
            && c.closes == 0 && !c.connectionState.Disconnected? && WatchOk(kernel, c, c.lastEvents)
            && (c.connectionState.Disconnecting? ==> !c.lastEvents.write)
          else c.closes == 1 && c.connectionState.Disconnected?)
    }

    /** The cached mask is the kernel's, unless a one-shot has disarmed it; and it asks for one thing. */
    static ghost predicate WatchOk(kernel: map<Conn, Watch>, c: Conn, last: Mask) {
      && last.edge && last.read != last.write && !(last.oneshot && last.write)
      && c in kernel && (kernel[c] == Armed(last) || (kernel[c].Disarmed? && last.oneshot))
    }

    ghost predicate NodesOk()
      reads this`conns, this`channels, this`clock, this`queue, queue, conns`timer
    {
      (forall i, j | 0 <= i < j < |queue| :: queue[i] != queue[j]) && (forall n <- queue :: NodeOk(n))
    }

    ghost predicate LinksOk()
      reads this`conns, this`channels, this`queue, this`kernel
      reads conns`timer, (set c <- conns, n <- c.Node() :: n)`http
      reads conns`closes, conns`connectionState, conns`lastEvents
    {
      channels <= conns && kernel.Keys == channels && forall c <- conns :: LinkOk(c)
    }

    /** An open connection has a timer unless its peer has closed. */
    static ghost predicate Open(c: Conn)
      reads c, c.socket`wire
    {
      c.Live() && (c.timer != null <==> c.connectionState.Connected?)
    }

    /** Every open connection but those in the middle of their events. */
    ghost predicate LivesOk(hole: set<Conn>)
      reads this`conns, this`channels, conns, Sockets()`wire
    {
      && (forall c <- channels :: c in conns && (c !in hole ==> Open(c)))
      && (forall c, d | c in conns && d in conns && c != d :: c.socket != d.socket)
    }

    /** The connections that will be closed unless they are disarmed, and when. */
    ghost function Table(): Table<Conn>
      reads this`conns, conns`timer
    {
      map c | c in conns && c.timer != null :: Deadline(c.timer.armedAt, c.timer.timeout)
    }

    ghost predicate Valid()
      reads this, conns, queue, Sockets()`wire, set c <- conns, n <- c.Node() :: n
    {
      NodesOk() && LinksOk() && LivesOk({}) && Table() == TableAfter(history) && LegalRun(history)
    }

    /** What Valid means for timers, closing and watching, in every state the methods reach. */
    lemma Discipline()
      requires Valid()
      ensures forall n, m | n in queue && m in queue && n.http.Some? && n.http == m.http :: n == m
      ensures forall n <- queue :: (n.deleted <==> n.http.None?) && (n.http.Some? ==> n.http.value.timer == n)
      ensures forall c <- conns :: c.closes <= 1 && (c.closes == 1 <==> c !in channels)
      ensures forall c <- channels :: c in conns && !c.error && (c.timer != null <==> c.connectionState.Connected?)
      ensures forall c <- channels :: c in kernel
      ensures forall c <- channels ::
        && (kernel[c] == Armed(c.lastEvents) || (kernel[c].Disarmed? && c.lastEvents.oneshot))
        && c.lastEvents.read != c.lastEvents.write
        && (kernel[c].Armed? && kernel[c].mask.write <==> c.lastEvents.write)
      ensures forall c <- channels :: (Stranded(c) <==> c.connectionState.Disconnecting?)
    {
      forall n <- queue ensures (n.deleted <==> n.http.None?) && (n.http.Some? ==> n.http.value.timer == n) {
        assert NodeOk(n);
      }
      forall c <- conns
        ensures c.closes <= 1 && (c.closes == 1 <==> c !in channels)
        ensures c in channels ==> WatchOk(kernel, c, c.lastEvents)
      {
        assert LinkOk(c);
      }
      assert forall c <- channels :: Open(c);
      forall c <- channels ensures Stranded(c) <==> c.connectionState.Disconnecting? { StrandedIff(c); }
    }

    /** A connection that is open but has no timer, and of which epoll will not report that it can be written
        to. */
    ghost predicate Stranded(c: Conn)
      reads this`channels, this`kernel, this`conns, conns`timer
    {
      c in channels && c !in Table() && !(c in kernel && kernel[c].Armed? && kernel[c].mask.write)
    }

    lemma StrandedIff(c: Conn)
      requires Valid()
      ensures Stranded(c) <==> c in channels && c.connectionState.Disconnecting?
    {
      if c in channels { assert LinkOk(c) && Open(c); }
    }

    constructor ()
      ensures Valid() && channels == conns == {} && queue == []
    {
      channels, queue, clock := {}, [], 0;
      kernel, conns, history := map[], {}, [];
    }

    /** gettimeofday: the clock never goes back. */
    method Now(elapsed: nat) returns (t: nat)
      modifies this`clock
      ensures t == clock == old(clock) + elapsed
    {
      clock := clock + elapsed;
      t := clock;
    }

    /** The history follows the table. */
    ghost method Extend(op: Op<Conn>)
      requires LegalRun(history) && Legal(TableAfter(history), op)
      requires Table() == Step(TableAfter(history), op)
      modifies this`history
      ensures history == old(history) + [op] && Table() == TableAfter(history) && LegalRun(history)
    {
      assert (history + [op])[..|history|] == history;
      history := history + [op];
    }

    /** The others do not notice what a connection does in its callbacks. */
    twostate lemma Undisturbed(c: Conn)
      requires old(LivesOk({c})) && unchanged(this`conns) && unchanged(this`channels)
      requires forall d <- conns :: d != c ==> unchanged(d) && unchanged(d.socket`wire)
      ensures LivesOk({c})
    {
      hide Open;
    }

    twostate lemma AllUndisturbed()
      requires old(LivesOk({})) && unchanged(this`conns) && unchanged(this`channels)
      requires forall d <- conns :: unchanged(d) && unchanged(d.socket`wire)
      ensures LivesOk({})
    {
      hide Open;
    }

    /** A connection may have given up its timer. */
    twostate lemma Detached(c: Conn)
      requires old(NodesOk() && LinksOk()) && c in old(channels)
      requires unchanged(this) && unchanged(c`closes) && unchanged(c`lastEvents) && !c.connectionState.Disconnected?
      requires c.connectionState.Disconnecting? ==> !c.lastEvents.write
      requires forall d <- conns :: d != c ==> unchanged(d)
      requires Conn.NodeKept(old(c.Node()), c.timer, old(c.timer))
      requires forall n <- old(c.Node()) :: c.timer == n ==> unchanged(n)
      requires forall n <- queue :: n in old(c.Node()) || unchanged(n)
      requires forall n <- queue :: unchanged(n`expiredTime)
      ensures NodesOk() && LinksOk()
      ensures Table() - {c} == old(Table()) - {c}
    {
      forall n <- queue ensures NodeOk(n) {
        assert old(NodeOk(n));
        if n !in old(c.Node()) { assert n.http != Some(c); }
      }
    }

    // ---------------------------------------------------------------- the timer queue

    /** A connection that has no timer gets one. */
    method AddTimer(c: Conn, timeout: nat, elapsed: nat)
      requires c in channels && c.timer == null
      requires NodesOk() && LinksOk()
      modifies this`queue, this`clock, c`timer
      ensures c.timer != null && fresh(c.timer) && clock == old(clock) + elapsed
      ensures NodesOk() && LinksOk()
      ensures Table() == old(Table())[c := Deadline(clock, timeout)]
    {
      var now := Now(elapsed);
      hide NodesOk, LinksOk, Table;
      var node := new TimerNode<Conn>(c, now, timeout);
      queue := queue + [node];
      c.timer := node;
      Attached(c, node);
    }

    /** A connection without a timer is linked to a new node. */
    twostate lemma Attached(c: Conn, new node: Node)
      requires old(NodesOk() && LinksOk()) && c in old(channels) && old(c.timer) == null && clock >= old(clock)
      requires unchanged(this`conns) && unchanged(this`channels) && unchanged(this`kernel)
      requires queue == old(queue) + [node] && !old(allocated(node)) && c.timer == node
      requires !node.deleted && node.http == Some(c) && node.armedAt == clock
      requires node.expiredTime == Deadline(node.armedAt, node.timeout).Wrapped()
      requires unchanged(c`closes) && unchanged(c`connectionState) && unchanged(c`lastEvents)
      requires forall n <- old(queue) :: unchanged(n)
      requires forall d <- conns :: d != c ==> unchanged(d)
      ensures NodesOk() && LinksOk() && Table() == old(Table())[c := Deadline(clock, node.timeout)]
    {
      forall n <- old(queue) ensures NodeOk(n) { assert old(NodeOk(n)); }
      forall d <- conns ensures LinkOk(d) { assert old(LinkOk(d)); }
    }

    /** A connection gives up its timer; the node stays in the queue. */
    method SeperateTimer(c: Conn)
      requires c in channels
      requires NodesOk() && LinksOk()
      modifies c`timer, c.Node()`http, c.Node()`deleted
      ensures c.timer == null
      ensures NodesOk() && LinksOk()
      ensures Table() == old(Table()) - {c}
    {
      hide NodesOk, LinksOk;
      InChannels(c);
      c.SeperateTimer();
      Detached(c);
      assert c !in Table();
      assert Table() == Table() - {c};
    }

    lemma InChannels(c: Conn)
      requires LinksOk() && c in channels
      ensures c in conns && !c.connectionState.Disconnected? && c.lastEvents.read != c.lastEvents.write
      ensures c.connectionState.Disconnecting? ==> !c.lastEvents.write
    {
      assert LinkOk(c);
    }

    /** Closes a connection that has no timer any more. */
    method HandleClose(c: Conn)
      requires c in channels && c.timer == null
      requires NodesOk() && LinksOk()
      modifies this`channels, this`kernel, c`connectionState, c`closes
      ensures channels == old(channels) - {c} && kernel == old(kernel) - {c}
      ensures c.connectionState.Disconnected? && c.closes == 1
      ensures NodesOk() && LinksOk()
    {
      c.connectionState := Disconnected;
      c.closes := c.closes + 1;
      EpollDel(c);
    }

    method EpollDel(c: Conn)
      modifies this`channels, this`kernel
      ensures channels == old(channels) - {c} && kernel == old(kernel) - {c}
    {
      kernel := kernel - {c};
      channels := channels - {c};
    }

    /** The kernel is only told of a mask if it is another than the cached one. */
    method UpdateWatch(c: Conn)
      requires c in channels && !c.events.oneshot && c.events.edge && c.events.read != c.events.write
      requires c.connectionState.Disconnecting? ==> !c.events.write
      requires NodesOk() && LinksOk()
      modifies this`kernel, c`lastEvents
      ensures NodesOk() && LinksOk()
      ensures kernel == old(kernel)[c := Armed(c.events)]
    {
      var equal := EqualAndUpdateLastEvents(c);
      assert WatchOk(old(kernel), c, old(c.lastEvents));
      if !equal {
        kernel := kernel[c := Armed(c.events)];
      }
    }

    method EqualAndUpdateLastEvents(c: Conn) returns (equal: bool)
      modifies c`lastEvents
      ensures equal <==> old(c.lastEvents) == c.events
      ensures c.lastEvents == c.events
    {
      equal := c.lastEvents == c.events;
      c.lastEvents := c.events;
    }

    /** EpollMod; without a timeout, no timer is added. */
    method EpollMod(c: Conn, timeout: nat, elapsed: nat)
      requires c in channels && (timeout > 0 ==> c.timer == null)
      requires !c.events.oneshot && c.events.edge && c.events.read != c.events.write
      requires c.connectionState.Disconnecting? ==> !c.events.write
      requires NodesOk() && LinksOk()
      modifies this`queue, this`clock, this`kernel, c`timer, c`lastEvents
      ensures NodesOk() && LinksOk() && kernel == old(kernel)[c := Armed(c.events)]
      ensures timeout > 0 ==>
        c.timer != null && clock == old(clock) + elapsed && Table() == old(Table())[c := Deadline(clock, timeout)]
      ensures timeout == 0 ==> c.timer == old(c.timer) && clock == old(clock) && Table() == old(Table())
    {
      hide NodesOk, LinksOk, Table;
      if timeout > 0 {
        AddTimer(c, timeout, elapsed);
      }
      UpdateWatch(c);
    }

    /** The channel becomes known to epoll. */
    method Register(c: Conn)
      requires NodesOk() && LinksOk() && c !in conns
      requires c.timer == null && c.closes == 0 && !c.connectionState.Disconnected?
      requires c.events.edge && c.events.read != c.events.write && !(c.events.oneshot && c.events.write)
      requires c.connectionState.Disconnecting? ==> !c.events.write
      modifies this`conns, this`channels, this`kernel, c`lastEvents
      ensures channels == old(channels) + {c} && conns == old(conns) + {c}
      ensures kernel == old(kernel)[c := Armed(c.events)]
      ensures NodesOk() && LinksOk() && Table() == old(Table())
    {
      conns, channels := conns + {c}, channels + {c};
      c.lastEvents := c.events;
      kernel := kernel[c := Armed(c.events)];
      assert Table() == old(Table()) by {
        hide NodesOk, LinksOk;
      }
    }

    /** EpollAdd; without a timeout, no timer is added. */
    method EpollAdd(c: Conn, timeout: nat, elapsed: nat)
      requires NodesOk() && LinksOk() && c !in conns
      requires c.timer == null && c.closes == 0 && !c.connectionState.Disconnected?
      requires c.events.edge && c.events.read != c.events.write && !(c.events.oneshot && c.events.write)
      requires c.connectionState.Disconnecting? ==> !c.events.write
      modifies this`conns, this`channels, this`kernel, this`queue, this`clock, c`timer, c`lastEvents
      ensures channels == old(channels) + {c} && conns == old(conns) + {c}
      ensures NodesOk() && LinksOk() && kernel == old(kernel)[c := Armed(c.events)]
      ensures timeout > 0 ==>
        c.timer != null && clock == old(clock) + elapsed && Table() == old(Table())[c := Deadline(clock, timeout)]
      ensures timeout == 0 ==> c.timer == null && clock == old(clock) && Table() == old(Table())
    {
      hide NodesOk, LinksOk, Table;
      Register(c);
      if timeout > 0 {
        AddTimer(c, timeout, elapsed);
      }
    }

    method NewEvent(c: Conn, elapsed: nat)
      requires Valid() && c !in conns && c.Live() && c.connectionState.Connected? && c.closes == 0 && c.timer == null
      requires forall d <- conns :: d.socket != c.socket
      modifies this, c`timer, c`events, c`lastEvents
      ensures Valid() && channels == old(channels) + {c} && conns == old(conns) + {c}
      ensures kernel == old(kernel)[c := Armed(Mask(true, false, true, true))] && clock == old(clock) + elapsed
      ensures history == old(history) + [Arm(c, Deadline(clock, 2_000))]
    {
      hide NodesOk, LinksOk, Table, TableAfter, LegalRun;
      c.events := DEFAULT_EVENT;
      EpollAdd(c, DEFAULT_EXPIRED_TIME, elapsed);
      assert LivesOk({}) by {
        hide Open;
        assert Open(c);
      }
      Extend(Arm(c, Deadline(clock, DEFAULT_EXPIRED_TIME)));
    }

    /** A connection at the end of its event is open again or gone; the others are as they were. */
    twostate lemma Restored(c: Conn)
      requires old(LivesOk({c}) || LivesOk({})) && conns == old(conns)
      requires channels == old(channels) || channels == old(channels) - {c}
      requires c in channels ==> Open(c)
      requires forall d <- conns :: d != c ==> unchanged(d) && unchanged(d.socket`wire)
      ensures LivesOk({})
    {
      hide Open;
    }

    // ---------------------------------------------------------------- events

    /** The first branch of HandleConn: the connection waits again, with a timer. */
    method WaitAgain(c: Conn, elapsed: nat)
      requires NodesOk() && LinksOk() && c in channels && c.timer == null
      requires LegalRun(history) && Table() == TableAfter(history)
      requires !c.events.edge && !c.events.oneshot && c.connectionState.Connected?
      modifies this`kernel, this`queue, this`clock, this`history, c`timer, c`events, c`lastEvents
      ensures NodesOk() && LinksOk() && c.timer != null && LegalRun(history) && Table() == TableAfter(history)
      ensures kernel == old(kernel)[c := Armed(NextMask(old(c.events)))] && clock == old(clock) + elapsed
      ensures history == old(history) + [Arm(c, Deadline(clock, NextTimeout(old(c.events), c.keepAlive)))]
      ensures Table() == old(Table())[c := Deadline(clock, NextTimeout(old(c.events), c.keepAlive))]
    {
      hide NodesOk, LinksOk, Table, TableAfter, LegalRun;
      var timeout;
      if c.events != NO_EVENTS {
        timeout := DEFAULT_EXPIRED_TIME;
        if c.keepAlive {
          timeout := DEFAULT_KEEP_ALIVE_TIME;
        }
        if c.events.read && c.events.write {
          c.events := NO_EVENTS.(write := true);
        }
        c.events := c.events.(edge := true);
      } else if c.keepAlive {
        c.events := c.events.(read := true, edge := true);
        timeout := DEFAULT_KEEP_ALIVE_TIME;
      } else {
        c.events := c.events.(read := true, edge := true);
        timeout := DEFAULT_KEEP_ALIVE_TIME / 2;
      }
      assert c.events == NextMask(old(c.events)) && timeout == NextTimeout(old(c.events), c.keepAlive);
      EpollMod(c, timeout, elapsed);
      Extend(Arm(c, Deadline(clock, timeout)));
    }

    /** What an outcome means for timers and watches. */
    twostate predicate Follows(c: Conn, new outcome: Outcome, new elapsed: nat)
      reads this`channels, this`kernel, this`clock, this`history, this`conns, conns`timer, c`connectionState
    {
      match outcome
      case Waits(mask, timeout) =>
        && channels == old(channels) && kernel == old(kernel)[c := Armed(mask)] && clock == old(clock) + elapsed
        && c.connectionState.Connected? && c in Table() && Table()[c] == Deadline(clock, timeout)
        && history == old(history) + [Disarm(c)] + [Arm(c, Table()[c])]
      case Lingers =>
        && channels == old(channels) && kernel == old(kernel) && clock == old(clock)
        && c.connectionState.Disconnecting? && c !in Table() && history == old(history) + [Disarm(c)]
      case Closes =>
        && channels == old(channels) - {c} && kernel == old(kernel) - {c} && clock == old(clock)
        && c.connectionState.Disconnected? && c !in Table() && history == old(history) + [Disarm(c)]
    }

    /** Stranded it stays, watched for what it was, whatever happens to another connection: an event, or being
        new or closed. */
    twostate lemma StrandedStays(c: Conn, d: Conn)
      requires old(Stranded(c) && c in kernel) && c != d
      requires old(channels) - {d} <= channels && kernel - {d} == old(kernel) - {d}
      requires Table() - {d} == old(Table()) - {d}
      ensures Stranded(c) && c in kernel && kernel[c] == old(kernel[c])
    {
      assert c in (kernel - {d}).Keys && (kernel - {d})[c] == kernel[c];
      assert c in old(kernel - {d}).Keys && old((kernel - {d})[c]) == old(kernel[c]);
      assert c !in (Table() - {d}).Keys;
    }

    /** HandleConn changes of the connection itself only whether it is closed. */
    twostate lemma OnlyClosing(c: Conn)
      requires unchanged(c`state) && unchanged(c`inBuffer) && unchanged(c`verb) && unchanged(c`fileName)
      requires unchanged(c`version) && unchanged(c`hState) && unchanged(c`headers) && unchanged(c`outBuffer)
      requires unchanged(c`keepAlive) && unchanged(c`error) && unchanged(c.socket`wire)
      requires unchanged(c`served) && unchanged(c`answered) && unchanged(c`dropped)
      ensures c.View() == old(c.View()).(closing := c.connectionState.Disconnecting?)
    {
    }

    /** HandleConn: what happens to a connection at the end of its event. */
    method HandleConn(c: Conn, elapsed: nat)
      requires NodesOk() && LinksOk() && LivesOk({c}) && c in channels
      requires LegalRun(history) && Table() - {c} == TableAfter(history) - {c}
      requires (c.error || c.Live()) && !c.events.edge && !c.events.oneshot
      modifies this`channels, this`kernel, this`queue, this`clock, this`history
      modifies c`timer, c.Node()`http, c.Node()`deleted, c`events, c`lastEvents, c`connectionState, c`closes
      ensures Valid() && Table() - {c} == old(Table()) - {c} && kernel - {c} == old(kernel) - {c}
      ensures Follows(c, AtEnd(old(c.View()), old(c.events)), elapsed)
      ensures c in channels <==> !old(c.error) && (old(c.connectionState.Connected?) || old(c.events.write))
      ensures !old(c.error) && old(c.connectionState.Connected?) ==>
        && c in kernel && kernel[c] == Armed(Mask(!old(c.events.write), old(c.events.write), true, false))
        && c in Table()
        && Table()[c] == Deadline(clock, if c.keepAlive then 300_000
                                         else if old(c.events.read || c.events.write) then 2_000 else 150_000)
    {
      hide Valid, NodesOk, LinksOk, LivesOk, Table, TableAfter, LegalRun, NextMask, NextTimeout, Conn.Live, WatchOk;
      SeperateTimer(c);
      label Separated:
      NextIs(c.events, c.keepAlive);
      ViewShows(c);
      WaitOrClose(c, elapsed);
      assert Follows@Separated(c, AtEnd(old(c.View()), old(c.events)), elapsed);
      Restored(c);
      AllHold();
    }

    /** What HandleConn decides, once the timer is given up. */
    method WaitOrClose(c: Conn, elapsed: nat)
      requires NodesOk() && LinksOk() && c in channels && c.timer == null && !c.events.edge && !c.events.oneshot
      requires LegalRun(history) && Table() == TableAfter(history) - {c}
      modifies this`channels, this`kernel, this`queue, this`clock, this`history
      modifies c`timer, c`events, c`lastEvents, c`connectionState, c`closes
      ensures NodesOk() && LinksOk() && LegalRun(history) && Table() == TableAfter(history)
      ensures Table() - {c} == old(Table()) - {c} && kernel - {c} == old(kernel) - {c}
      ensures Follows(c, AtEnd(old(c.View()), old(c.events)), elapsed)
      ensures c.timer != null <==> c.connectionState.Connected?
      ensures c in channels ==> c.connectionState == old(c.connectionState) && !c.error
      ensures c in channels <==> !old(c.error) && (old(c.connectionState.Connected?) || old(c.events.write))
    {
      hide NodesOk, LinksOk, Table, TableAfter, LegalRun, NextMask, NextTimeout, WatchOk, Conn.View;
      ViewShows(c);
      InChannels(c);
      Extend(Disarm(c));
      if !c.error && c.connectionState.Connected? {
        WaitAgain(c, elapsed);
      } else if !c.error && c.connectionState.Disconnecting? && c.events.write {
        c.events := Mask(false, true, true, false);
      } else {
        HandleClose(c);
      }
    }

    lemma AllHold()
      requires NodesOk() && LinksOk() && LivesOk({}) && Table() == TableAfter(history) && LegalRun(history)
      ensures Valid()
    {
    }

    lemma ViewShows(c: Conn)
      ensures c.View().error == c.error && c.View().closing == c.connectionState.Disconnecting?
      ensures c.View().keepAlive == c.keepAlive
    {
    }

    lemma LiveRests(c: Conn)
      requires c.Live()
      ensures Resting(c.View().parse) && !c.View().error
    {
    }

    lemma SocketsApart(c: Conn)
      requires LivesOk({c}) && c in conns
      ensures forall d <- conns :: d != c ==> d.socket != c.socket
    {
    }

    /** The read callback, seen from the timer queue: the connection may have given up its timer. `r` is
        what the event makes of the connection. */
    method Read(c: Conn, ghost r: EventResult) returns (undefined: bool)
      requires NodesOk() && LinksOk() && LivesOk({c}) && c in channels
      requires c.Live() && Pending(c.View(), c.socket.incoming) <= RequestLine.MAX_INT && c.events == NO_EVENTS
      requires r == ReadEvent(c.View(), c.socket.incoming, c.socket.outgoing, c.site) && !c.lastEvents.write
      modifies c`inBuffer, c`outBuffer, c`error, c`connectionState, c`verb, c`fileName, c`version
      modifies c`state, c`hState, c`headers, c`keepAlive, c`served, c`answered, c`dropped, c`pages, c`events
      modifies c`timer, c.Node()`http, c.Node()`deleted, c.socket
      ensures NodesOk() && LinksOk() && LivesOk({c}) && Table() - {c} == old(Table()) - {c}
      ensures c.Node() <= old(c.Node())
      ensures if r.Crashed? then undefined else !undefined && Agrees(c.View(), r.s)
      ensures !undefined && !c.error ==> c.Live() && c.socket.outgoing == r.outgoing
      ensures !undefined && !c.error ==>
        c.events == Asked(NO_EVENTS, ReadWishes(old(c.View()), old(c.socket.incoming), old(c.socket.outgoing), c.site))
      ensures !c.events.edge && !c.events.oneshot && !c.connectionState.Disconnected?
    {
      hide NodesOk, LinksOk, LivesOk, Table, ReadEvent, ReadWishes, Pending, Conn.Live, Conn.View, Agrees;
      InChannels(c);
      SocketsApart(c);
      undefined := c.HandleRead();
      Undisturbed(c);
      Detached(c);
    }

    /** The write callback. */
    method Write(c: Conn)
      requires NodesOk() && LinksOk() && LivesOk({c}) && c in channels && !c.connectionState.Disconnected?
      requires !c.events.edge && !c.events.oneshot && (c.error || c.Live())
      modifies c`outBuffer, c`error, c`events, c.socket`outgoing, c.socket`wire
      ensures NodesOk() && LinksOk() && LivesOk({c}) && !c.events.edge && !c.events.oneshot
      ensures c.View() == Written(old(c.View()), old(c.socket.outgoing))
      ensures !c.error ==> c.Live() && c.events == Asked(old(c.events), Wishes(false, c.outBuffer != ""))
      ensures !c.error ==>
        && c.socket.wire + c.outBuffer == old(c.socket.wire + c.outBuffer)
        && Uses(old(c.socket.outgoing), c.socket.outgoing)
        && (c.outBuffer != "" ==> Blocks(old(c.socket.outgoing), c.socket.outgoing))
    {
      hide NodesOk, LivesOk, Resting, Written, Accounted;
      InChannels(c);
      SocketsApart(c);
      if !c.error { WrittenAccounts(c.View(), c.socket.outgoing); }
      WrittenRests(c.View(), c.socket.outgoing);
      c.HandleWrite();
      Undisturbed(c);
    }

    /** The read and the write callback, as far as they apply. */
    method RunCallbacks(c: Conn, revents: Revents, ghost r: EventResult) returns (undefined: bool)
      requires NodesOk() && LinksOk() && LivesOk({c}) && c in channels
      requires c.Live() && Pending(c.View(), c.socket.incoming) <= RequestLine.MAX_INT && c.events == NO_EVENTS
      requires r == ReadEvent(c.View(), c.socket.incoming, c.socket.outgoing, c.site)
      requires Reported(c.lastEvents, revents)
      modifies c`inBuffer, c`outBuffer, c`error, c`connectionState, c`verb, c`fileName, c`version
      modifies c`state, c`hState, c`headers, c`keepAlive, c`served, c`answered, c`dropped, c`pages, c`events
      modifies c`timer, c.Node()`http, c.Node()`deleted, c.socket
      ensures NodesOk() && LinksOk() && LivesOk({c}) && Table() - {c} == old(Table()) - {c}
      ensures c.Node() <= old(c.Node())
      ensures undefined <==> Reads(revents) && r.Crashed?
      ensures !undefined ==> Agrees(c.View(), AfterCallbacks(old(c.View()), revents, r, old(c.socket.outgoing)))
      ensures !undefined && !c.error ==> c.Live()
      ensures !undefined && !c.error ==>
        c.events == Asked(NO_EVENTS, CallbackWishes(old(c.View()), revents, r, old(c.socket.incoming),
                                                    old(c.socket.outgoing), c.site))
      ensures !c.events.edge && !c.events.oneshot
      ensures revents.output && !(revents.input || revents.pri || revents.rdhup) && !c.error ==>
        && c.socket.wire + c.outBuffer == old(c.socket.wire + c.outBuffer)
        && Uses(old(c.socket.outgoing), c.socket.outgoing)
        && (c.outBuffer != "" ==> Blocks(old(c.socket.outgoing), c.socket.outgoing))
    {
      hide NodesOk, LinksOk, LivesOk, Table, ReadEvent, ReadWishes, Pending, Written, Uses, Blocks;
      InChannels(c);
      undefined := false;
      if revents.input || revents.pri || revents.rdhup {
        undefined := Read(c, r);
      }
      if !undefined && revents.output {
        Write(c);
      }
    }

    /** `events_ = 0` */
    method ClearEvents(c: Conn)
      requires Valid() && c in channels
      modifies c`events
      ensures Valid() && NodesOk() && LinksOk() && LivesOk({c}) && c.Live()
      ensures LegalRun(history) && Table() == TableAfter(history)
      ensures c.events == NO_EVENTS
    {
      hide NodesOk, LinksOk, Table, TableAfter, LegalRun;
      assert Open(c);
      c.events := NO_EVENTS;
      assert Open(c) && LivesOk({c});
      hide LivesOk;
      Restored(c);
    }

    /** Channel::HandleEvents. There is no error handler. `r` is what reading now would make of the
        connection. */
    method HandleEvents(c: Conn, revents: Revents, elapsed: nat, ghost r: EventResult) returns (undefined: bool)
      requires Valid() && c in channels && c.Live()
      requires Pending(c.View(), c.socket.incoming) <= RequestLine.MAX_INT
      requires r == ReadEvent(c.View(), c.socket.incoming, c.socket.outgoing, c.site)
      requires Reported(c.lastEvents, revents)
      modifies this`channels, this`kernel, this`queue, this`clock, this`history
      modifies c, c.Node()`http, c.Node()`deleted, c.socket
      ensures !undefined ==> Valid()
      ensures old(channels) - {c} <= channels <= old(channels)
      ensures undefined <==>
        !(revents.hup && !revents.input) && (revents.input || revents.pri || revents.rdhup) && r.Crashed?
      ensures kernel - {c} == old(kernel) - {c} && Table() - {c} == old(Table()) - {c}
      ensures revents.hup && !revents.input ==>
        && history == old(history) && channels == old(channels) && kernel == old(kernel)
        && c.View() == old(c.View()) && (Stranded(c) <==> old(Stranded(c)))
      ensures !undefined && !(revents.hup && !revents.input) ==>
        var s := AfterCallbacks(old(c.View()), revents, r, old(c.socket.outgoing));
        var o := EventOutcome(old(c.View()), revents, r, old(c.socket.incoming), old(c.socket.outgoing), c.site);
        && Agrees(c.View(), s.(closing := c.connectionState.Disconnecting?))
        && Follows(c, o, elapsed) && (Stranded(c) <==> o.Lingers?) && (c in channels <==> !o.Closes?)
      ensures revents.output && !(revents.input || revents.pri || revents.rdhup || revents.hup) && !c.error ==>
        && c.socket.wire + c.outBuffer == old(c.socket.wire + c.outBuffer)
        && Uses(old(c.socket.outgoing), c.socket.outgoing)
        && (c.outBuffer != "" ==> Blocks(old(c.socket.outgoing), c.socket.outgoing))
    {
      hide Valid, NodesOk, LinksOk, LivesOk, Table, TableAfter, LegalRun, ReadEvent, Pending;
      hide AfterCallbacks, AtEnd, CallbackWishes, Conn.View, Conn.Live, NextMask, NextTimeout, Stranded;
      LiveRests(c);
      ClearEvents(c);
      undefined := false;
      if revents.hup && !revents.input {
        StrandedIff(c);
        return;
      }
      undefined := RunCallbacks(c, revents, r);
      if !undefined {
        ghost var s := AfterCallbacks(old(c.View()), revents, r, old(c.socket.outgoing));
        ghost var w := CallbackWishes(old(c.View()), revents, r, old(c.socket.incoming), old(c.socket.outgoing),
                                      c.site);
        ghost var outcome := AtEnd(s, Asked(NO_EVENTS, w));
        OutcomeAgrees(c, s, Asked(NO_EVENTS, w));
        label Before:
        HandleConn(c, elapsed);
        assert Follows@Before(c, outcome, elapsed);
        OnlyClosing@Before(c);
        StrandedIff(c);
      }
    }

    /** GetEventsRequest: the kernel has reported an event, and has disarmed a one-shot watch. */
    method GetEventsRequest(c: Conn, ghost revents: Revents)
      requires Valid() && c in channels && kernel[c].Armed? && Reported(kernel[c].mask, revents)
      modifies this`kernel, c`events
      ensures Valid() && c.events == NO_EVENTS && Reported(c.lastEvents, revents)
      ensures kernel == if old(kernel)[c].mask.oneshot then old(kernel)[c := Disarmed] else old(kernel)
    {
      hide NodesOk, Table, TableAfter, LegalRun;
      if kernel[c].mask.oneshot {
        kernel := kernel[c := Disarmed];
      }
      assert LinksOk() && Open(c);
      hide LinksOk, LivesOk;
      Restored(c);
      ClearEvents(c);
    }

    // ---------------------------------------------------------------- expiry

    function Without<T>(s: seq<T>, i: nat): seq<T>
      requires i < |s|
    {
      s[..i] + s[i + 1..]
    }

    /** A deleted node on top is only removed. */
    method PopDeleted(i: nat)
      requires NodesOk() && LinksOk() && i < |queue| && queue[i].deleted
      modifies this`queue
      ensures queue == old(Without(queue, i))
      ensures NodesOk() && LinksOk()
    {
      queue := Without(queue, i);
      assert forall n <- old(queue) :: n in queue || n == old(queue[i]);
    }

    lemma TopHolds(i: nat)
      requires NodesOk() && LinksOk() && i < |queue| && !queue[i].deleted
      ensures queue[i].http.Some?
      ensures var c := queue[i].http.value;
        && c in conns && c in channels && c.timer == queue[i] && c in Table()
        && Table()[c].Wrapped() == queue[i].expiredTime && Table()[c].armedAt <= clock
    {
      assert NodeOk(queue[i]);
    }

    /** Another node on top is asked whether its time has come; then it is marked, but still has its
        connection. */
    method AskTop(i: nat, elapsed: nat, ghost node: Node) returns (valid: bool)
      requires NodesOk() && LinksOk() && i < |queue| && node == queue[i] && !node.deleted
      modifies this`clock, node`deleted
      ensures clock == old(clock) + elapsed && (valid <==> clock % WINDOW < node.expiredTime)
      ensures NodesOkBut(node) && LinksOk() && (valid ==> NodesOk())
      ensures Table() == old(Table())
    {
      hide NodesOk, LinksOk, Table, NodesOkBut;
      var t := Now(elapsed);
      valid := queue[i].IsValid(t);
      TopAsked(node);
    }

    twostate lemma TopAsked(node: Node)
      requires old(NodesOk() && LinksOk()) && clock >= old(clock)
      requires unchanged(this`queue) && unchanged(this`conns) && unchanged(this`channels) && unchanged(this`kernel)
      requires unchanged(node`http) && unchanged(node`expiredTime)
      requires forall n <- queue :: n != node ==> unchanged(n)
      requires forall d <- conns :: unchanged(d)
      ensures NodesOkBut(node) && LinksOk() && Table() == old(Table())
      ensures node.deleted == old(node.deleted) ==> NodesOk()
    {
      forall n <- queue ensures (n == node && node.deleted != old(node.deleted)) || NodeOk(n) { assert old(NodeOk(n)); }
      forall d <- conns ensures LinkOk(d) { assert old(LinkOk(d)); }
    }

    ghost predicate NodesOkBut(node: Node)
      reads this`conns, this`channels, this`clock, this`queue, queue, conns`timer
    {
      (forall i, j | 0 <= i < j < |queue| :: queue[i] != queue[j]) && (forall n <- queue :: n == node || NodeOk(n))
    }

    /** An expired node leaves the queue, and the weak link to it is void. */
    method PopExpired(i: nat, ghost c: Conn)
      requires i < |queue| && NodesOkBut(queue[i]) && LinksOk()
      requires queue[i].http == Some(c) && c in conns && c.timer == queue[i]
      modifies this`queue, c`timer
      ensures NodesOk() && LinksOk() && queue == old(Without(queue, i)) && c.timer == null
      ensures Table() == old(Table()) - {c}
    {
      hide NodesOk, LinksOk, Table;
      var held := queue[i].http.value;
      queue := Without(queue, i);
      assert forall n <- old(queue) :: n in queue || n == old(queue[i]);
      held.timer := null;
      Popped(c);
    }

    twostate lemma Popped(c: Conn)
      requires old(c.timer) != null && c.timer == null
      requires forall j, k | 0 <= j < k < |queue| :: queue[j] != queue[k]
      requires forall n <- queue :: n in old(queue) && n != old(c.timer)
      requires forall n <- old(queue) :: unchanged(n) && (n in queue || n == old(c.timer))
      requires c in conns && unchanged(this`conns) && unchanged(this`channels)
      requires unchanged(this`clock) && unchanged(this`kernel)
      requires forall d <- conns :: d != c ==> unchanged(d)
      requires unchanged(c`closes) && unchanged(c`connectionState) && unchanged(c`lastEvents)
      requires old(NodesOkBut(c.timer) && LinksOk())
      ensures NodesOk() && LinksOk() && Table() == old(Table()) - {c}
    {
      forall n <- queue ensures NodeOk(n) {
        assert old(NodeOk(n));
      }
      forall d <- conns ensures LinkOk(d) {
        assert old(LinkOk(d));
        if d != c && d.timer != null { assert d.timer in queue; }
      }
    }

    /** The end of an expired node: its destructor closes the connection. */
    method CloseTop(i: nat, ghost c: Conn)
      requires i < |queue| && NodesOkBut(queue[i]) && LinksOk()
      requires queue[i].http == Some(c) && c in conns && c in channels && c.timer == queue[i]
      modifies this`queue, this`channels, this`kernel, c`timer, c`connectionState, c`closes
      ensures NodesOk() && LinksOk() && queue == old(Without(queue, i))
      ensures channels == old(channels) - {c} && kernel == old(kernel) - {c} && Table() == old(Table()) - {c}
    {
      hide NodesOk, LinksOk, Table, NodesOkBut;
      var held := queue[i].http.value;
      PopExpired(i, c);
      HandleClose(held);
    }

    lemma MinExists(s: seq<Node>) returns (k: nat)
      requires s != []
      ensures k < |s| && forall n <- s :: s[k].expiredTime <= n.expiredTime
      decreases |s|
    {
      k := 0;
      if |s| > 1 {
        k := MinExists(s[1..]);
        k := if s[0].expiredTime <= s[k + 1].expiredTime then 0 else k + 1;
        forall n <- s ensures s[k].expiredTime <= n.expiredTime {
          assert n == s[0] || n in s[1..];
        }
      }
    }

    /** When the earliest node's time has not come, no connection's has. */
    lemma NothingDue(i: nat)
      requires NodesOk() && LinksOk() && i < |queue| && clock % WINDOW < queue[i].expiredTime
      requires forall n <- queue :: queue[i].expiredTime <= n.expiredTime
      ensures NoneDue(Table(), clock)
    {
      forall c <- Table().Keys ensures Table()[c].Wrapped() > clock % WINDOW {
        assert LinkOk(c) && NodeOk(c.timer);
      }
    }

    static ghost predicate NoneDue(table: Table<Conn>, now: nat) {
      forall c <- table.Keys :: table[c].Wrapped() > now % WINDOW
    }

    /** One turn of the loop in HandleExpiredEvent; `gone` is whom it closes. */
    method ExpireTop(i: nat, tick: nat, ghost top: Node) returns (done: bool, ghost gone: set<Conn>)
      requires NodesOk() && LinksOk() && LivesOk({}) && i < |queue| && top == queue[i]
      requires forall n <- queue :: queue[i].expiredTime <= n.expiredTime
      modifies this`queue, this`clock, this`channels, this`kernel
      modifies top`deleted, conns`timer, conns`connectionState, conns`closes
      ensures NodesOk() && LinksOk() && LivesOk({}) && clock == old(clock) + if old(top.deleted) then 0 else tick
      ensures old(top.deleted) ==> gone == {} && !done && top.deleted
      ensures if done then queue == old(queue) && NoneDue(Table(), clock) else queue == old(Without(queue, i))
      ensures gone <= old(channels) && gone <= old(Table()).Keys
      ensures forall c <- gone :: old(Table())[c].Due() <= clock && old(Table())[c].Wrapped() <= clock % WINDOW
      ensures channels == old(channels) - gone && kernel == old(kernel) - gone && Table() == old(Table()) - gone
    {
      hide NodesOk, LinksOk, LivesOk, Table, NodesOkBut, NoneDue;
      done, gone := false, {};
      if queue[i].deleted {
        PopDeleted(i);
        AllUndisturbed();
      } else {
        TopHolds(i);
        ghost var c := queue[i].http.value;
        var valid := AskTop(i, tick, queue[i]);
        if valid {
          NothingDue(i);
          AllUndisturbed();
          done := true;
        } else {
          NeverEarly(Table()[c], clock);
          CloseTop(i, c);
          Restored(c);
          gone := {c};
        }
      }
    }

    /** While the earliest node is deleted or its time has come, it goes. `ticks` says how far the clock moves
        up to each reading, `turns` how many there are; `first` is the first of them. */
    method HandleExpiredEvent(ticks: nat -> nat) returns (ghost turns: nat, ghost first: nat, ghost closed: set<Conn>)
      requires NodesOk() && LinksOk() && LivesOk({})
      modifies this`queue, this`clock, this`channels, this`kernel
      modifies queue`deleted, conns`timer, conns`connectionState, conns`closes
      ensures NodesOk() && LinksOk() && LivesOk({}) && clock >= old(clock) && NoneDue(Table(), clock)
      ensures if turns == 0 then first == clock == old(clock) else first == old(clock) + ticks(0)
      ensures Carried(old(Table()), Table(), closed, first, clock)
      ensures Removed(old(channels), old(kernel), channels, kernel, closed)
    {
      hide NodesOk, LinksOk, LivesOk, Table, NoneDue, Carried, Removed;
      NothingYet(Table(), clock);
      NoneRemoved();
      var turn: nat, done := 0, false;
      first, closed := clock, {};
      while queue != [] && !done
        invariant NodesOk() && LinksOk() && LivesOk({}) && clock >= old(clock) && conns == old(conns)
        invariant forall n <- queue :: n in old(queue)
        invariant Removed(old(channels), old(kernel), channels, kernel, closed)
        invariant Carried(old(Table()), Table(), closed, first, clock)
        invariant if turn == 0 then first == clock == old(clock) && closed == {}
                  else first == old(clock) + ticks(0) <= clock
        invariant done ==> NoneDue(Table(), clock)
        decreases |queue|, !done
      {
        ghost var least := MinExists(queue);
        var i: nat :| i < |queue| && forall n <- queue :: queue[i].expiredTime <= n.expiredTime;
        ghost var gone;
        assert queue[i] in queue;
        var asks := !queue[i].deleted;
        ghost var t, table, before, watches := clock, Table(), channels, kernel;
        done, gone := ExpireTop(i, ticks(turn), queue[i]);
        CarriedOn(old(Table()), table, closed, gone, first, t);
        RemovedOn(old(channels), old(kernel), before, watches, closed, gone);
        if asks {
          if turn == 0 { first := clock; }
          turn := turn + 1;
        }
        closed := closed + gone;
      }
      turns := turn;
      if !done { EmptyTable(); }
    }

    method HandleExpired(ticks: nat -> nat) returns (ghost turns: nat, ghost first: nat)
      requires Valid()
      modifies this`queue, this`clock, this`channels, this`kernel, this`history
      modifies queue`deleted, conns`timer, conns`connectionState, conns`closes
      ensures Valid() && clock >= old(clock)
      ensures if turns == 0 then first == clock == old(clock) else first == old(clock) + ticks(0)
      ensures var closed := old(channels) - channels;
        && channels <= old(channels) && kernel == old(kernel) - closed && Table() == old(Table()) - closed
        && history == old(history) + [Expire(closed, first, clock)]
        && Legal(old(Table()), Expire(closed, first, clock))
      ensures forall c <- old(channels) :: old(Stranded(c)) ==> Stranded(c)
    {
      hide NodesOk, LinksOk, LivesOk, Table, TableAfter, LegalRun, NoneDue, Carried, Removed, Stranded;
      ghost var closed;
      turns, first, closed := HandleExpiredEvent(ticks);
      Expired(old(Table()), closed, first);
      AllRemoved(old(channels), old(kernel), closed);
      label Closed:
      Extend(Expire(closed, first, clock));
      AllUndisturbed@Closed();
      OthersStranded(closed);
    }

    static ghost predicate Removed(before: set<Conn>, watches: map<Conn, Watch>,
                                   now: set<Conn>, nowWatches: map<Conn, Watch>, closed: set<Conn>) {
      closed <= before && now == before - closed && nowWatches == watches - closed
    }

    lemma NoneRemoved()
      ensures Removed(channels, kernel, channels, kernel, {})
    {
      assert kernel - {} == kernel;
    }

    lemma RemovedOn(before: set<Conn>, watches: map<Conn, Watch>, mid: set<Conn>, midWatches: map<Conn, Watch>,
                    closed: set<Conn>, gone: set<Conn>)
      requires Removed(before, watches, mid, midWatches, closed)
      requires gone <= mid && channels == mid - gone && kernel == midWatches - gone
      ensures Removed(before, watches, channels, kernel, closed + gone)
    {
      assert midWatches - gone == watches - (closed + gone);
    }

    lemma AllRemoved(before: set<Conn>, watches: map<Conn, Watch>, closed: set<Conn>)
      requires Removed(before, watches, channels, kernel, closed)
      ensures before - channels == closed && channels == before - closed && kernel == watches - closed
    {
    }

    twostate lemma OthersStranded(closed: set<Conn>)
      requires channels == old(channels) - closed && kernel == old(kernel) - closed
      requires closed <= old(Table()).Keys && Table() == old(Table()) - closed
      ensures forall c <- old(channels) :: old(Stranded(c)) ==> Stranded(c)
    {
      hide Table;
    }

    static ghost predicate Reached(table: Table<Conn>, closed: set<Conn>, now: nat)
      requires closed <= table.Keys
    {
      forall c <- closed :: table[c].Wrapped() <= now % WINDOW
    }

    lemma EmptyTable()
      requires LinksOk() && queue == []
      ensures NoneDue(Table(), clock)
    {
      assert forall c <- conns :: LinkOk(c);
    }

    /** What an expiry has done so far: nothing too early, and nothing that is not reached, unless the clock
        has wrapped around since its first reading. */
    static ghost predicate Carried(before: Table<Conn>, now: Table<Conn>, closed: set<Conn>, first: nat, clock: nat) {
      && closed <= before.Keys && now == before - closed && (forall c <- closed :: before[c].Due() <= clock)
      && (first / WINDOW == clock / WINDOW ==> Reached(before, closed, clock))
    }

    lemma NothingYet(table: Table<Conn>, first: nat)
      ensures Carried(table, table, {}, first, first)
    {
      assert table - {} == table;
    }

    /** One turn more, from reading `t` to the present one; it is the first if none was before. */
    lemma CarriedOn(before: Table<Conn>, mid: Table<Conn>, closed: set<Conn>, gone: set<Conn>, first: nat, t: nat)
      requires Carried(before, mid, closed, first, t) && first <= t <= clock
      requires gone <= mid.Keys && Table() == mid - gone
      requires forall c <- gone :: mid[c].Due() <= clock && mid[c].Wrapped() <= clock % WINDOW
      ensures Carried(before, Table(), closed + gone, first, clock)
      ensures closed == {} ==> Carried(before, Table(), closed + gone, clock, clock)
    {
      assert mid - gone == before - (closed + gone);
      if first / WINDOW == clock / WINDOW { Later(first, t, clock); }
    }

    lemma Expired(before: Table<Conn>, closed: set<Conn>, first: nat)
      requires Carried(before, Table(), closed, first, clock) && NoneDue(Table(), clock)
      ensures Legal(before, Expire(closed, first, clock)) && Table() == before - closed
    {
      hide Table;
      forall c <- before.Keys | c !in closed
        ensures before[c].Wrapped() > clock % WINDOW
      {
        assert c in (before - closed).Keys;
      }
    }
  }
}
