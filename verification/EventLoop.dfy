/** `EventLoop`: its queue, flags and eventfd, with one method for each atomic piece of its code. */
module EventLoop {
  import opened EventLoopSpec

  /** The eventfd and epoll's edge-triggered watch on it. */
  class EventFd {
    var counter: nat
    var edge: bool

    constructor ()
      ensures counter == 0 && !edge
    {
      counter, edge := 0, false;
    }

    method Write()
      modifies this
      ensures counter == old(counter) + 1 && edge
    {
      counter, edge := counter + 1, true;
    }

    /** Reading takes the whole count. */
    method Read() returns (n: nat)
      modifies this`counter
      ensures n == old(counter) && counter == 0
    {
      n, counter := counter, 0;
    }
  }

  class Loop {
    const wakeupFd: EventFd
    const threadId: Thread
    var pendingFunctors: seq<Functor>
    var callingPendingFunctors: bool
    var quit: bool

    // Locals of the loop thread: where it is, and the batch with its index.
    var phase: Phase
    var functors: seq<Functor>
    var i: nat

    // Where the threads are, and the history.
    ghost var pushing: set<Thread>
    ghost var quitting: set<Thread>
    ghost var loopWaking: bool
    ghost var enqueued: seq<Functor>
    ghost var executed: seq<Functor>
    ghost var round: nat
    ghost var enqueuedIn: seq<nat>
    ghost var executedIn: seq<nat>

    ghost function View(): State
      requires i <= |functors|
      reads this, wakeupFd
    {
      State(pendingFunctors, functors[i..], wakeupFd.counter, wakeupFd.edge, phase, callingPendingFunctors, quit,
            pushing, quitting, loopWaking, enqueued, executed, round, enqueuedIn, executedIn)
    }

    ghost predicate Valid()
      reads this, wakeupFd
    {
      && i <= |functors| && Inv(View())
      && threadId !in pushing && threadId !in quitting
    }

    constructor (self: Thread)
      ensures Valid() && View() == Init && threadId == self && fresh(wakeupFd)
    {
      wakeupFd := new EventFd();
      threadId := self;
      pendingFunctors, callingPendingFunctors, quit, phase, functors, i := [], false, false, Starting, [], 0;
      pushing, quitting, loopWaking := {}, {}, false;
      enqueued, executed, round, enqueuedIn, executedIn := [], [], 0, [], [];
    }

    /** Which action a QueueInLoop by thread `self` starts with. */
    ghost function PushBy(self: Thread, cb: Functor): Action
      reads this
    {
      if self == threadId then LoopPush(cb) else Push(self, cb)
    }

    /** The locked part of QueueInLoop, and the test whether a WakeUp must follow. */
    method QueueInLoop(self: Thread, cb: Functor) returns (mustWake: bool)
      requires Valid() && Enabled(View(), PushBy(self, cb))
      modifies this
      ensures Valid() && View() == Apply(old(View()), old(PushBy(self, cb)))
      ensures mustWake <==> if self == threadId then loopWaking else self in pushing
      ensures mustWake <==> self != threadId || old(callingPendingFunctors)
    {
      hide Inv;
      StepKeepsInv(View(), PushBy(self, cb));
      pendingFunctors := pendingFunctors + [cb];
      mustWake := self != threadId || callingPendingFunctors;
      enqueued, enqueuedIn := enqueued + [cb], enqueuedIn + [round];
      if self == threadId {
        loopWaking := mustWake;
      } else {
        pushing := pushing + {self};
      }
    }

    method WakeUp(self: Thread)
      requires Valid() && Enabled(View(), if self == threadId then LoopWake else Wake(self))
      modifies this, wakeupFd
      ensures Valid() && View() == Apply(old(View()), if self == threadId then LoopWake else Wake(self))
      ensures wakeupFd.edge && wakeupFd.counter == old(wakeupFd.counter) + 1
    {
      hide Inv;
      StepKeepsInv(View(), if self == threadId then LoopWake else Wake(self));
      wakeupFd.Write();
      if self == threadId {
        loopWaking := false;
      } else {
        pushing := pushing - {self};
      }
    }

    /** `quit_ = true`; another thread owes a WakeUp after it. */
    method Quit(self: Thread) returns (mustWake: bool)
      requires Valid() && Enabled(View(), if self == threadId then LoopQuit else AskQuit(self))
      modifies this
      ensures Valid() && View() == Apply(old(View()), if self == threadId then LoopQuit else AskQuit(self))
      ensures quit && (mustWake <==> self in quitting) && (mustWake <==> self != threadId)
    {
      hide Inv;
      StepKeepsInv(View(), if self == threadId then LoopQuit else AskQuit(self));
      quit := true;
      mustWake := self != threadId;
      if mustWake {
        quitting := quitting + {self};
      }
    }

    method WakeUpToQuit(self: Thread)
      requires Valid() && self in quitting
      modifies this, wakeupFd
      ensures Valid() && View() == Apply(old(View()), WakeQuit(self))
      ensures wakeupFd.edge && wakeupFd.counter == old(wakeupFd.counter) + 1
    {
      hide Inv;
      StepKeepsInv(View(), WakeQuit(self));
      wakeupFd.Write();
      quitting := quitting - {self};
    }

    /** The beginning of Loop(): an earlier request to quit is forgotten. */
    method EnterLoop()
      requires Valid() && phase.Starting?
      modifies this`phase, this`quit
      ensures Valid() && View() == Apply(old(View()), Start)
    {
      hide Inv;
      StepKeepsInv(View(), Start);
      phase, quit := Polling, false;
    }

    /** `poller_->Poll()` returns with some events; `wakeup` says whether the eventfd is among them. */
    method Poll(wakeup: bool)
      requires Valid() && phase.Polling? && (wakeup ==> wakeupFd.edge && wakeupFd.counter > 0)
      modifies this`phase, wakeupFd`edge
      ensures Valid() && View() == Apply(old(View()), EventLoopSpec.Poll(wakeup))
      ensures wakeupFd.edge == (old(wakeupFd.edge) && !wakeup)
    {
      hide Inv;
      StepKeepsInv(View(), EventLoopSpec.Poll(wakeup));
      phase := Handling(wakeup);
      if wakeup {
        wakeupFd.edge := false;
      }
    }

    /** The read callback of the wakeup channel. */
    method HandleRead()
      requires Valid() && phase == Handling(true)
      modifies this`phase, wakeupFd`counter
      ensures Valid() && View() == Apply(old(View()), Read)
      ensures wakeupFd.counter == 0
    {
      StepKeepsInv(View(), Read);
      var n := wakeupFd.Read();
      assert n > 0;
      phase := Handling(false);
    }

    /** DoPendingFunctors up to its loop. */
    method SwapFunctors()
      requires Valid() && Enabled(View(), Swap)
      modifies this
      ensures Valid() && View() == Apply(old(View()), Swap)
      ensures functors == old(pendingFunctors) && pendingFunctors == [] && callingPendingFunctors
    {
      hide Inv;
      StepKeepsInv(View(), Swap);
      functors, i := [], 0;
      callingPendingFunctors := true;
      functors, pendingFunctors := pendingFunctors, functors;
      phase, round := Running, round + 1;
    }

    /** One turn of the loop in DoPendingFunctors: `functors[i]()`. What the functor queues follows. */
    method RunFunctor() returns (f: Functor)
      requires Valid() && Enabled(View(), Run)
      modifies this
      ensures Valid() && View() == Apply(old(View()), Run)
      ensures executed == old(executed) + [f]
    {
      hide Inv;
      StepKeepsInv(View(), Run);
      f := functors[i];
      executed, executedIn := executed + [f], executedIn + [round];
      i := i + 1;
    }

    /** The end of DoPendingFunctors and the test of the outer loop. */
    method FinishRound()
      requires Valid() && Enabled(View(), Finish)
      modifies this
      ensures Valid() && View() == Apply(old(View()), Finish)
      ensures !callingPendingFunctors && phase == if quit then Done else Polling
    {
      hide Inv;
      StepKeepsInv(View(), Finish);
      callingPendingFunctors := false;
      phase := if quit then Done else Polling;
    }

    /** DoPendingFunctors as a whole, when nothing comes in between: what was queued runs in order. */
    method DoPendingFunctors()
      requires Valid() && Enabled(View(), Swap)
      modifies this
      ensures Valid() && pendingFunctors == [] && !callingPendingFunctors
      ensures executed == old(executed) + old(pendingFunctors) && enqueued == old(enqueued)
      ensures phase == if quit then Done else Polling
      ensures quit == old(quit)
    {
      hide Inv, Apply;
      SwapStep(View());
      SwapFunctors();
      while i < |functors|
        invariant Valid() && phase.Running? && !loopWaking
        invariant pendingFunctors == [] && quit == old(quit) && enqueued == old(enqueued)
        invariant executed + View().batch == old(executed) + old(pendingFunctors)
        decreases |View().batch|
      {
        RunStep(View());
        var f := RunFunctor();
      }
      FinishStep(View());
      FinishRound();
    }
  }

  lemma SwapStep(s: State)
    requires Enabled(s, Swap)
    ensures Apply(s, Swap)
         == s.(phase := Running, calling := true, batch := s.pending, pending := [], round := s.round + 1)
  {
  }

  lemma RunStep(s: State)
    requires Enabled(s, Run)
    ensures var t := Apply(s, Run);
      && t.executed + t.batch == s.executed + s.batch && |t.batch| < |s.batch|
      && t == s.(executed := t.executed, executedIn := t.executedIn, batch := t.batch)
  {
    assert s.batch == [s.batch[0]] + s.batch[1..];
  }

  lemma FinishStep(s: State)
    requires Enabled(s, Finish)
    ensures Apply(s, Finish) == s.(phase := if s.quit then Done else Polling, calling := false)
  {
  }
}
