/** The cross-thread functor queue of `EventLoop` as a state machine.

    Any number of threads push functors and then wake the loop through an eventfd that epoll watches
    edge-triggered; the loop thread polls, reads the eventfd, swaps the queue out and runs the batch.
    Locked sections and single calls are the actions, so a run is one interleaving. */
module EventLoopSpec {

  type Functor = nat
  type Thread = nat

  datatype Phase =
    | Starting                // before Loop()
    | Polling
    | Handling(wakeup: bool)  // events came back; `wakeup`: the eventfd is among them, unread
    | Running                 // past the swap
    | Done

  datatype State = State(
    pending: seq<Functor>,
    batch: seq<Functor>,      // swapped out, not yet run
    counter: nat,             // the eventfd
    edge: bool,               // it was written since epoll last reported it
    phase: Phase,
    calling: bool,            // calling_pending_functors_
    quit: bool,
    pushing: set<Thread>,     // threads between their push and their WakeUp
    quitting: set<Thread>,    // threads between setting quit_ and their WakeUp
    loopWaking: bool,         // the loop thread, between the two inside a functor
    // History: what was queued and run, and in which round (number of swaps so far).
    enqueued: seq<Functor>,
    executed: seq<Functor>,
    round: nat,
    enqueuedIn: seq<nat>,
    executedIn: seq<nat>)

  datatype Action =
    | Push(t: Thread, f: Functor)
    | Wake(t: Thread)
    | AskQuit(t: Thread)
    | WakeQuit(t: Thread)
    | LoopPush(f: Functor)  // QueueInLoop by the loop's own thread: before Loop(), in a callback or a functor
    | LoopWake
    | LoopQuit
    | Start                 // Loop() up to its loop
    | Poll(wakeup: bool)
    | Read
    | Swap
    | Run
    | Finish

  const Init := State([], [], 0, false, Starting, false, false, {}, {}, false, [], [], 0, [], [])

  /** The loop's own thread runs code that may call the loop. */
  predicate OwnThreadFree(s: State) {
    (s.phase.Starting? || s.phase.Handling? || s.phase.Running?) && !s.loopWaking
  }

  predicate Enabled(s: State, a: Action) {
    match a
    case Push(t, _) => t !in s.pushing && t !in s.quitting
    case Wake(t) => t in s.pushing
    case AskQuit(t) => t !in s.pushing && t !in s.quitting
    case WakeQuit(t) => t in s.quitting
    case LoopPush(_) => OwnThreadFree(s)
    case LoopWake => s.loopWaking
    case LoopQuit => OwnThreadFree(s)
    case Start => s.phase.Starting?
    case Poll(wakeup) => s.phase.Polling? && (wakeup ==> s.edge && s.counter > 0)
    case Read => s.phase == Handling(true)
    case Swap => s.phase == Handling(false) && !s.loopWaking
    case Run => s.phase.Running? && s.batch != [] && !s.loopWaking
    case Finish => s.phase.Running? && s.batch == [] && !s.loopWaking
  }

  function Enqueue(s: State, f: Functor): State {
    s.(pending := s.pending + [f], enqueued := s.enqueued + [f], enqueuedIn := s.enqueuedIn + [s.round])
  }

  function Write(s: State): State {
    s.(counter := s.counter + 1, edge := true)
  }

  function Apply(s: State, a: Action): State
    requires Enabled(s, a)
  {
    match a
    case Push(t, f) => Enqueue(s, f).(pushing := s.pushing + {t})
    case Wake(t) => Write(s).(pushing := s.pushing - {t})
    case AskQuit(t) => s.(quit := true, quitting := s.quitting + {t})
    case WakeQuit(t) => Write(s).(quitting := s.quitting - {t})
    case LoopPush(f) => Enqueue(s, f).(loopWaking := s.calling)
    case LoopWake => Write(s).(loopWaking := false)
    case LoopQuit => s.(quit := true)
    case Start => s.(phase := Polling, quit := false)
    case Poll(wakeup) => s.(phase := Handling(wakeup), edge := s.edge && !wakeup)
    case Read => s.(phase := Handling(false), counter := 0)
    case Swap => s.(phase := Running, calling := true, batch := s.pending, pending := [], round := s.round + 1)
    case Run => s.(executed := s.executed + [s.batch[0]], executedIn := s.executedIn + [s.round], batch := s.batch[1..])
    case Finish => s.(phase := if s.quit then Done else Polling, calling := false)
  }

  ghost predicate Legal(s: State, run: seq<Action>)
    decreases |run|
  {
    run != [] ==> Enabled(s, run[0]) && Legal(Apply(s, run[0]), run[1..])
  }

  ghost function After(s: State, run: seq<Action>): State
    requires Legal(s, run)
    decreases |run|
  {
    if run == [] then s else After(Apply(s, run[0]), run[1..])
  }

  // ---------------------------------------------------------------- invariants

  /** epoll_wait returns at once: the eventfd is readable and its edge has not been consumed. */
  predicate Signalled(s: State) {
    s.edge && s.counter > 0
  }

  predicate PhaseInv(s: State) {
    && (s.calling <==> s.phase.Running?)
    && (!s.phase.Running? ==> s.batch == [])
    && (s.loopWaking ==> s.phase.Running?)
    && (s.phase == Handling(true) ==> s.counter > 0)
  }

  predicate Fifo(s: State) {
    s.enqueued == s.executed + s.batch + s.pending
  }

  /** The round a functor runs in is the one after the round it was queued in. */
  predicate Rounds(s: State) {
    && |s.enqueuedIn| == |s.enqueued| && |s.executedIn| == |s.executed|
    && (forall i | 0 <= i < |s.executed| && i < |s.enqueuedIn| :: s.executedIn[i] == s.enqueuedIn[i] + 1)
    && (forall i | |s.executed| <= i < |s.executed| + |s.batch| && i < |s.enqueuedIn| :: s.round == s.enqueuedIn[i] + 1)
    && (forall i | |s.executed| + |s.batch| <= i < |s.enqueuedIn| :: s.round == s.enqueuedIn[i])
  }

  /** While the loop polls, or once it is past its swap, a waiting functor has made epoll ready or is
      about to. */
  predicate WakeKept(s: State) {
    s.pending != [] && (s.phase.Polling? || s.phase.Running?) ==> Signalled(s) || s.pushing != {} || s.loopWaking
  }

  predicate QuitKept(s: State) {
    s.quit && s.phase.Polling? ==> Signalled(s) || s.quitting != {}
  }

  predicate Inv(s: State) {
    PhaseInv(s) && Fifo(s) && Rounds(s) && QuitKept(s)
  }

  lemma StepKeepsFifo(s: State, a: Action)
    requires Fifo(s) && Enabled(s, a) && (a.Swap? ==> s.batch == [])
    ensures Fifo(Apply(s, a))
  {
    match a
    case Run => assert s.batch == [s.batch[0]] + s.batch[1..];
    case _ =>
  }

  lemma StepKeepsRounds(s: State, a: Action)
    requires Fifo(s) && Rounds(s) && Enabled(s, a) && (a.Swap? ==> s.batch == [])
    ensures Rounds(Apply(s, a))
  {
    match a
    case Run => assert s.enqueuedIn[|s.executed|] + 1 == s.round;
    case Push(_, _) =>
    case LoopPush(_) =>
    case _ =>
  }

  lemma StepKeepsInv(s: State, a: Action)
    requires Inv(s) && Enabled(s, a)
    ensures Inv(Apply(s, a))
  {
    StepKeepsFifo(s, a);
    StepKeepsRounds(s, a);
    hide Fifo, Rounds;
  }

  lemma {:induction false} RunKeepsInv(s: State, run: seq<Action>)
    requires Inv(s) && Legal(s, run)
    ensures Inv(After(s, run))
    decreases |run|
  {
    if run != [] {
      StepKeepsInv(s, run[0]);
      RunKeepsInv(Apply(s, run[0]), run[1..]);
    }
  }

  // ---------------------------------------------------------------- wakeups

  /** What Loop() should find when it is entered: nothing queued yet, or the eventfd written or about to
      be. */
  predicate StartSafe(s: State) {
    s.pending == [] || Signalled(s) || s.pushing != {}
  }

  ghost predicate AlwaysKept(s: State, run: seq<Action>)
    requires Legal(s, run)
    decreases |run|
  {
    WakeKept(s) && (run != [] ==> AlwaysKept(Apply(s, run[0]), run[1..]))
  }

  ghost predicate StartsSafely(s: State, run: seq<Action>)
    requires Legal(s, run)
    decreases |run|
  {
    run != [] ==> (run[0].Start? ==> StartSafe(s)) && StartsSafely(Apply(s, run[0]), run[1..])
  }

  /** The loop's own thread queues functors only in callbacks and in functors. */
  ghost predicate PushesInside(s: State, run: seq<Action>)
    requires Legal(s, run)
    decreases |run|
  {
    run != [] ==> (run[0].LoopPush? ==> !s.phase.Starting?) && PushesInside(Apply(s, run[0]), run[1..])
  }

  /** Entering Loop() is the only step that can leave a functor without its wakeup. */
  lemma StepKeepsWake(s: State, a: Action)
    requires Inv(s) && WakeKept(s) && Enabled(s, a)
    ensures WakeKept(Apply(s, a)) <==> (a.Start? ==> StartSafe(s))
  {
    hide Fifo, Rounds;
  }

  /** In any run, no wakeup is ever lost if and only if Loop() is entered in a state as it should be. */
  lemma {:induction false} WakeupsKeptIff(s: State, run: seq<Action>)
    requires Inv(s) && WakeKept(s) && Legal(s, run)
    ensures AlwaysKept(s, run) <==> StartsSafely(s, run)
    decreases |run|
  {
    if run != [] {
      StepKeepsWake(s, run[0]);
      StepKeepsInv(s, run[0]);
      if WakeKept(Apply(s, run[0])) {
        WakeupsKeptIff(Apply(s, run[0]), run[1..]);
      } else {
        assert !AlwaysKept(Apply(s, run[0]), run[1..]);
      }
    }
  }

  lemma {:induction false} InsideStartsSafely(s: State, run: seq<Action>)
    requires Inv(s) && Legal(s, run) && PushesInside(s, run) && (s.phase.Starting? ==> StartSafe(s))
    ensures StartsSafely(s, run)
    decreases |run|
  {
    if run != [] {
      StepKeepsInv(s, run[0]);
      StillStartSafe(s, run[0]);
      InsideStartsSafely(Apply(s, run[0]), run[1..]);
    }
  }

  lemma StillStartSafe(s: State, a: Action)
    requires Inv(s) && Enabled(s, a) && (s.phase.Starting? ==> StartSafe(s))
    requires a.LoopPush? ==> !s.phase.Starting?
    ensures Apply(s, a).phase.Starting? ==> StartSafe(Apply(s, a))
  {
    hide Fifo, Rounds;
  }

  /** No wakeup is lost, whatever the interleaving, as long as the loop's own thread queues functors only
      in callbacks and functors: while the loop polls, or once it is past its swap, a waiting functor has
      made epoll ready or is about to; and so has a request to quit. */
  lemma NoLostWakeup(run: seq<Action>)
    requires Legal(Init, run)
    ensures PushesInside(Init, run) ==> AlwaysKept(Init, run)
    ensures QuitKept(After(Init, run))
  {
    RunKeepsInv(Init, run);
    WakeupsKeptIff(Init, run);
    if PushesInside(Init, run) { InsideStartsSafely(Init, run); }
  }

  /** Queued by its own thread before Loop(), a functor waits without a wakeup: all the loop can do is
      return from epoll for some other event. */
  lemma EarlyPushIsLost(f: Functor) returns (run: seq<Action>)
    ensures run == [LoopPush(f), Start] && Legal(Init, run)
    ensures var s := After(Init, run);
      && s.phase.Polling? && s.pending == [f] && !WakeKept(s)
      && forall a | Control(a) && Enabled(s, a) :: a == Poll(false)
  {
    run := [LoopPush(f), Start];
    assert run[1..] == [Start] && [Start][1..] == [];
  }

  /** What happens before Loop() is entered. */
  ghost function Before(run: seq<Action>): seq<Action> {
    if run == [] || run[0].Start? then [] else [run[0]] + Before(run[1..])
  }

  ghost predicate LoopQueues(actions: seq<Action>) {
    exists a <- actions :: a.LoopPush?
  }

  ghost predicate OthersSignal(actions: seq<Action>) {
    exists a <- actions :: a.Push? || a.WakeQuit?
  }

  /** So exactly these runs lose a wakeup: Loop() is entered after the loop's own thread has queued a
      functor, and by then no other thread has queued one or woken the loop in order to quit. */
  lemma WakeupIsLostIff(run: seq<Action>)
    requires Legal(Init, run)
    ensures !AlwaysKept(Init, run) <==> Start in run && LoopQueues(Before(run)) && !OthersSignal(Before(run))
  {
    WakeupsKeptIff(Init, run);
    UnsafeStartIff(Init, run);
  }

  lemma {:induction false} UnsafeStartIff(s: State, run: seq<Action>)
    requires Inv(s) && s.phase.Starting? && Legal(s, run)
    ensures !StartsSafely(s, run) <==>
      && Start in run && (s.pending != [] || LoopQueues(Before(run)))
      && !(Signalled(s) || s.pushing != {} || OthersSignal(Before(run)))
    decreases |run|
  {
    if run != [] {
      var a, t, rest := run[0], Apply(s, run[0]), run[1..];
      StepKeepsInv(s, a);
      assert run == [a] + rest;
      if a.Start? {
        StartsOnce(t, rest);
      } else {
        UnsafeStartIff(t, rest);
        BeforeStep(s, a);
        assert LoopQueues(Before(run)) <==> a.LoopPush? || LoopQueues(Before(rest));
        assert OthersSignal(Before(run)) <==> a.Push? || a.WakeQuit? || OthersSignal(Before(rest));
      }
    }
  }

  lemma BeforeStep(s: State, a: Action)
    requires Inv(s) && s.phase.Starting? && Enabled(s, a) && !a.Start?
    ensures var t := Apply(s, a);
      && t.phase.Starting? && (t.pending != [] <==> s.pending != [] || a.LoopPush? || a.Push?)
      && (Signalled(t) || t.pushing != {} <==> Signalled(s) || s.pushing != {} || a.Push? || a.WakeQuit?)
  {
    hide Fifo, Rounds;
  }

  lemma {:induction false} StartsOnce(s: State, run: seq<Action>)
    requires !s.phase.Starting? && Legal(s, run)
    ensures StartsSafely(s, run)
    decreases |run|
  {
    if run != [] { StartsOnce(Apply(s, run[0]), run[1..]); }
  }

  /** Every functor runs once, in the order queued, and in the batch after the one (if any) that was
      running when it was queued. */
  lemma ExactlyOnceInOrder(run: seq<Action>)
    requires Legal(Init, run)
    ensures var s := After(Init, run);
      && s.enqueued == s.executed + s.batch + s.pending
      && |s.executedIn| == |s.executed| <= |s.enqueuedIn|
      && forall i | 0 <= i < |s.executed| :: s.executedIn[i] == s.enqueuedIn[i] + 1
  {
    RunKeepsInv(Init, run);
  }

  // ---------------------------------------------------------------- progress

  /** The steps of the loop itself, as opposed to what other threads and callbacks do. */
  predicate Control(a: Action) {
    a.Start? || a.Poll? || a.Read? || a.Swap? || a.Run? || a.Finish?
  }

  /** At most this many more steps of the loop until functor k (counting from the first queued) has run. */
  function Rank(s: State, k: nat): nat {
    if k < |s.executed| then 0
    else if k < |s.executed| + |s.batch| then k + 1 - |s.executed|
    else k + 1 - |s.executed| + UntilSwap(s.phase)
  }

  function UntilSwap(p: Phase): nat {
    match p
    case Starting => 4
    case Polling => 3
    case Handling(wakeup) => if wakeup then 2 else 1
    case Running => 4
    case Done => 0
  }

  function ControlSteps(run: seq<Action>): nat {
    if run == [] then 0 else (if Control(run[0]) then 1 else 0) + ControlSteps(run[1..])
  }

  lemma StepLowersRank(s: State, a: Action, k: nat)
    requires Inv(s) && Enabled(s, a) && k < |s.enqueued| && !Apply(s, a).phase.Done?
    ensures k < |Apply(s, a).enqueued|
    ensures Rank(Apply(s, a), k) + (if Control(a) then 1 else 0) <= Rank(s, k) || k < |s.executed|
    ensures k < |s.executed| ==> k < |Apply(s, a).executed|
  {
  }

  /** Bounded response: unless the loop ends, functor k has run after Rank steps of the loop, at most
      four more than there are functors up to it, however many other actions come in between. */
  lemma {:induction false} BoundedResponse(s: State, run: seq<Action>, k: nat)
    requires Inv(s) && Legal(s, run) && k < |s.enqueued|
    requires !After(s, run).phase.Done? && ControlSteps(run) >= Rank(s, k)
    ensures k < |After(s, run).executed|
    decreases |run|
  {
    if run != [] {
      StepKeepsInv(s, run[0]);
      if Apply(s, run[0]).phase.Done? {
        DoneStays(Apply(s, run[0]), run[1..]);
      } else {
        StepLowersRank(s, run[0], k);
        BoundedResponse(Apply(s, run[0]), run[1..], k);
      }
    }
  }

  lemma {:induction false} DoneStays(s: State, run: seq<Action>)
    requires Inv(s) && s.phase.Done? && Legal(s, run)
    ensures After(s, run).phase.Done?
    decreases |run|
  {
    if run != [] {
      StepKeepsInv(s, run[0]);
      DoneStays(Apply(s, run[0]), run[1..]);
    }
  }

  /** The loop is never stuck on waiting functors: one of its steps is possible, or becomes so with
      the WakeUp some thread, already past its push, is about to do. */
  lemma NeverStuck(s: State) returns (a: Action, next: Action)
    requires Inv(s) && WakeKept(s) && !s.phase.Done? && s.batch + s.pending != []
    ensures Enabled(s, a) && (Control(a) || a.Wake? || a.LoopWake?)
    ensures !Control(a) ==> Control(next) && Enabled(Apply(s, a), next)
  {
    next := Poll(true);
    match s.phase {
      case Starting =>
        a := Start;
      case Polling =>
        if Signalled(s) {
          a := Poll(true);
        } else {
          var t :| t in s.pushing;
          a := Wake(t);
        }
      case Handling(wakeup) =>
        a := if wakeup then Read else Swap;
      case Running =>
        next := if s.batch != [] then Run else Finish;
        a := if s.loopWaking then LoopWake else next;
    }
  }

  function Writes(run: seq<Action>): nat {
    if run == [] then 0
    else (if run[0].Wake? || run[0].WakeQuit? || run[0].LoopWake? then 1 else 0) + Writes(run[1..])
  }

  function Wakeups(run: seq<Action>): nat {
    if run == [] then 0 else (if run[0] == Poll(true) then 1 else 0) + Wakeups(run[1..])
  }

  /** The loop is not woken for nothing: epoll reports the eventfd at most once for each time it was
      written, and reading it leaves nothing there. */
  lemma NoBusyLoop(run: seq<Action>)
    requires Legal(Init, run)
    ensures Wakeups(run) <= Writes(run)
    ensures forall s: State | s.phase == Handling(true) :: Apply(s, Read).counter == 0
  {
    WakeupsCount(Init, run);
  }

  lemma {:induction false} WakeupsCount(s: State, run: seq<Action>)
    requires Legal(s, run)
    ensures Wakeups(run) + (if After(s, run).edge then 1 else 0) <= Writes(run) + if s.edge then 1 else 0
    decreases |run|
  {
    if run != [] { WakeupsCount(Apply(s, run[0]), run[1..]); }
  }

  // ---------------------------------------------------------------- quitting

  predicate Quits(a: Action) {
    a.AskQuit? || a.LoopQuit?
  }

  /** Some request to quit was not followed by Loop(). */
  ghost predicate AskedInTime(run: seq<Action>) {
    exists i | 0 <= i < |run| :: Quits(run[i]) && Start !in run[i + 1..]
  }

  /** A request to quit stands if and only if it was not made before Loop(): entering Loop() forgets it. */
  lemma QuitStandsIff(run: seq<Action>)
    requires Legal(Init, run)
    ensures After(Init, run).quit <==> AskedInTime(run)
  {
    QuitAfter(Init, run);
  }

  lemma {:induction false} QuitAfter(s: State, run: seq<Action>)
    requires Legal(s, run)
    ensures After(s, run).quit <==> AskedInTime(run) || (s.quit && Start !in run)
    decreases |run|
  {
    if run != [] {
      var a, rest := run[0], run[1..];
      QuitAfter(Apply(s, a), rest);
      assert run == [a] + rest;
      assert Quits(a) && Start !in rest ==> Quits(run[0]) && Start !in run[1..];
      if AskedInTime(rest) {
        var i :| 0 <= i < |rest| && Quits(rest[i]) && Start !in rest[i + 1..];
        assert Quits(run[i + 1]) && run[i + 1 + 1..] == rest[i + 1..];
      }
      if AskedInTime(run) && !(Quits(a) && Start !in rest) {
        var i :| 0 <= i < |run| && Quits(run[i]) && Start !in run[i + 1..];
        assert i > 0 && Quits(rest[i - 1]) && rest[i - 1 + 1..] == run[i + 1..];
      }
    }
  }

  /** At most this many steps of the loop are left once it is to quit, if nothing more is queued. */
  function UntilEnd(s: State): nat {
    match s.phase
    case Starting => |s.pending| + 5
    case Polling => |s.pending| + 4
    case Handling(wakeup) => |s.pending| + if wakeup then 3 else 2
    case Running => |s.batch| + 1
    case Done => 0
  }

  function Queued(run: seq<Action>): nat {
    if run == [] then 0 else (if run[0].Push? || run[0].LoopPush? then 1 else 0) + Queued(run[1..])
  }

  lemma StepNearsEnd(s: State, a: Action)
    requires Inv(s) && s.quit && !s.phase.Starting? && Enabled(s, a)
    ensures var t := Apply(s, a);
      && t.quit && !t.phase.Starting?
      && UntilEnd(t) + (if Control(a) then 1 else 0) <= UntilEnd(s) + if a.Push? || a.LoopPush? then 1 else 0
  {
    hide Fifo, Rounds;
  }

  /** Once it is asked to quit, the loop ends: after at most five steps and one more for each functor that
      waits or is queued in the meantime, whatever else happens. */
  lemma {:induction false} QuitEndsTheLoop(s: State, run: seq<Action>)
    requires Inv(s) && s.quit && !s.phase.Starting? && Legal(s, run)
    ensures UntilEnd(After(s, run)) + ControlSteps(run) <= UntilEnd(s) + Queued(run)
    ensures ControlSteps(run) >= UntilEnd(s) + Queued(run) ==> After(s, run).phase.Done?
    decreases |run|
  {
    if run != [] {
      StepKeepsInv(s, run[0]);
      StepNearsEnd(s, run[0]);
      QuitEndsTheLoop(Apply(s, run[0]), run[1..]);
    }
  }

  /** And it can take these steps: one is possible that is not a return of epoll for some other event, or
      becomes so with a WakeUp that a thread owes. */
  lemma QuitIsHeard(s: State) returns (a: Action, next: Action)
    requires Inv(s) && s.quit && !s.phase.Starting? && !s.phase.Done?
    ensures Enabled(s, a) && a != Poll(false) && (Control(a) || a.WakeQuit? || a.LoopWake?)
    ensures !Control(a) ==> Control(next) && next != Poll(false) && Enabled(Apply(s, a), next)
  {
    next := Poll(true);
    match s.phase {
      case Polling =>
        if Signalled(s) {
          a := Poll(true);
        } else {
          var t :| t in s.quitting;
          a := WakeQuit(t);
        }
      case Handling(wakeup) =>
        next := Swap;
        a := if wakeup then Read else if s.loopWaking then LoopWake else Swap;
      case Running =>
        next := if s.batch != [] then Run else Finish;
        a := if s.loopWaking then LoopWake else next;
    }
  }
}
