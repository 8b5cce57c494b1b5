/** The bounded thread pool as a state machine on values: one task queue, N workers, one condition
    variable, and two ways to shut down. Every locked section is one action. */
module ThreadPoolSpec {
  import opened Sequences

  type Task = nat

  const QUEUE_FULL := -3
  const SHUT_DOWN := -4

  datatype Worker =
    | Ready             // about to take the lock: new, back from a task, or woken
    | Asleep            // in pthread_cond_wait
    | Busy(task: Task)  // executing, outside the lock
    | Gone              // exited

  datatype Shutdown = Open | Immediate | Graceful

  datatype State = State(
    capacity: nat,
    queue: seq<Task>,
    shutdown: Shutdown,
    workers: seq<Worker>,
    started: nat,
    lockKept: bool,      // a second destroy has left with the lock
    // History: tasks whose Add returned 0, tasks taken, tasks finished.
    accepted: seq<Task>,
    dequeued: seq<Task>,
    executed: seq<Task>)

  datatype Action =
    | Add(task: Task, woken: Option<nat>)  // the signal wakes one sleeper, of the system's choice
    | Enter(w: nat)                        // a worker's locked section
    | Execute(w: nat)
    | Spurious(w: nat)
    | Destroy(how: Shutdown)
    | DestroyAgain

  function Init(threads: nat, capacity: nat): State {
    State(capacity, [], Open, seq(threads, _ => Ready), threads, false, [], [], [])
  }

  function AddResult(s: State): int {
    if |s.queue| == s.capacity then QUEUE_FULL else if !s.shutdown.Open? then SHUT_DOWN else 0
  }

  predicate IsAsleep(s: State, w: nat) {
    w < |s.workers| && s.workers[w] == Asleep
  }

  predicate Enabled(s: State, a: Action) {
    match a
    case Add(_, woken) =>
      && !s.lockKept
      && (woken.Some? ==> AddResult(s) == 0 && IsAsleep(s, woken.value))
      && (woken.None? && AddResult(s) == 0 ==> Asleep !in s.workers)
    case Enter(w) => !s.lockKept && w < |s.workers| && s.workers[w] == Ready
    case Execute(w) => w < |s.workers| && s.workers[w].Busy?
    case Spurious(w) => IsAsleep(s, w)
    case Destroy(how) => !s.lockKept && s.shutdown.Open? && !how.Open?
    case DestroyAgain => !s.lockKept && !s.shutdown.Open?
  }

  function WakeAll(ws: seq<Worker>): (r: seq<Worker>)
    ensures |r| == |ws|
  {
    seq(|ws|, i requires 0 <= i < |ws| => if ws[i] == Asleep then Ready else ws[i])
  }

  function EnterPool(s: State, w: nat): State
    requires w < |s.workers|
  {
    if s.queue == [] && s.shutdown.Open? then
      s.(workers := s.workers[w := Asleep])
    else if s.shutdown.Immediate? || (s.shutdown.Graceful? && s.queue == []) then
      s.(workers := s.workers[w := Gone], started := if s.started > 0 then s.started - 1 else 0)
    else
      s.(queue := s.queue[1..], dequeued := s.dequeued + [s.queue[0]], workers := s.workers[w := Busy(s.queue[0])])
  }

  function Apply(s: State, a: Action): State
    requires Enabled(s, a)
  {
    match a
    case Add(task, woken) =>
      if AddResult(s) != 0 then s
      else s.(queue := s.queue + [task], accepted := s.accepted + [task],
              workers := if woken.Some? then s.workers[woken.value := Ready] else s.workers)
    case Enter(w) => EnterPool(s, w)
    case Execute(w) => s.(executed := s.executed + [s.workers[w].task], workers := s.workers[w := Ready])
    case Spurious(w) => s.(workers := s.workers[w := Ready])
    case Destroy(how) => s.(shutdown := how, workers := WakeAll(s.workers))
    case DestroyAgain => s.(lockKept := true)
  }

  ghost predicate Legal(s: State, run: seq<Action>)
    decreases |run|
  {
    run != [] ==> Enabled(s, run[0]) && Legal(Apply(s, run[0]), run[1..])
  }

  ghost function After(s: State, run: seq<Action>): State
    requires Legal(s, run)
    decreases |run|
  {
    if run == [] then s else After(Apply(s, run[0]), run[1..])
  }

  // ---------------------------------------------------------------- counting workers

  datatype Tally = Alive | Awake | Effort | Carrying(task: Task)

  function Worth(w: Worker, t: Tally): nat {
    match t
    case Alive => if w.Gone? then 0 else 1
    case Awake => if w.Gone? || w.Asleep? then 0 else 1
    case Effort => if w.Gone? then 0 else if w.Busy? then 2 else 1
    case Carrying(task) => if w == Busy(task) then 1 else 0
  }

  function Count(ws: seq<Worker>, t: Tally): nat {
    if ws == [] then 0 else Count(ws[..|ws|-1], t) + Worth(ws[|ws|-1], t)
  }

  lemma {:induction false} CountUpdate(ws: seq<Worker>, i: nat, w: Worker, t: Tally)
    requires i < |ws|
    ensures Count(ws[i := w], t) + Worth(ws[i], t) == Count(ws, t) + Worth(w, t)
    decreases |ws|
  {
    var init := ws[..|ws|-1];
    if i == |ws| - 1 {
      assert ws[i := w][..|ws|-1] == init;
    } else {
      CountUpdate(init, i, w, t);
      assert ws[i := w][..|ws|-1] == init[i := w];
    }
  }

  lemma {:induction false} WakeAllCounts(ws: seq<Worker>, t: Tally)
    ensures !t.Awake? ==> Count(WakeAll(ws), t) == Count(ws, t)
    ensures Asleep !in WakeAll(ws)
    decreases |ws|
  {
    if ws != [] {
      WakeAllCounts(ws[..|ws|-1], t);
      assert WakeAll(ws)[..|ws|-1] == WakeAll(ws[..|ws|-1]);
    }
  }

  /** If nobody sleeps, everyone alive is awake; if nobody is left, nothing is carried. */
  lemma {:induction false} CountBounds(ws: seq<Worker>, t: Tally)
    ensures Asleep !in ws ==> Count(ws, Awake) == Count(ws, Alive)
    ensures Gone !in ws ==> Count(ws, Alive) == |ws|
    ensures Count(ws, Alive) == 0 ==> Count(ws, t) == 0 && (ws != [] ==> Gone in ws)
    decreases |ws|
  {
    if ws != [] {
      var init := ws[..|ws|-1];
      CountBounds(init, t);
      assert forall w | w in init :: w in ws;
    }
  }

  lemma {:induction false} SomeoneAwake(ws: seq<Worker>) returns (i: nat)
    requires Count(ws, Awake) > 0
    ensures i < |ws| && (ws[i].Ready? || ws[i].Busy?)
    decreases |ws|
  {
    i := |ws| - 1;
    if Worth(ws[i], Awake) == 0 {
      i := SomeoneAwake(ws[..|ws|-1]);
    }
  }

  // ---------------------------------------------------------------- invariants

  function Min(a: nat, b: nat): nat {
    if a < b then a else b
  }

  predicate QueueInv(s: State) {
    |s.queue| <= s.capacity && s.accepted == s.dequeued + s.queue
  }

  /** Of task t, as many have been taken as have been executed or are being executed. */
  predicate Balanced(s: State, t: Task) {
    multiset(s.dequeued)[t] == multiset(s.executed)[t] + Count(s.workers, Carrying(t))
  }

  ghost predicate TaskInv(s: State) {
    forall t: Task :: Balanced(s, t)
  }

  predicate WorkerInv(s: State) {
    && s.workers != []
    && s.started == Count(s.workers, Alive)
    && (s.shutdown.Open? ==>
          Gone !in s.workers && Count(s.workers, Awake) >= Min(|s.queue|, |s.workers|))
    && (!s.shutdown.Open? ==> Asleep !in s.workers)
    && (s.shutdown.Graceful? && Gone in s.workers ==> s.queue == [])
  }

  ghost predicate Inv(s: State) {
    QueueInv(s) && TaskInv(s) && WorkerInv(s)
  }

  lemma StepKeepsQueue(s: State, a: Action)
    requires QueueInv(s) && Enabled(s, a)
    ensures QueueInv(Apply(s, a))
  {
    if s.queue != [] { assert s.queue == [s.queue[0]] + s.queue[1..]; }
  }

  lemma StepKeepsBalance(s: State, a: Action, t: Task)
    requires Balanced(s, t) && Enabled(s, a)
    ensures Balanced(Apply(s, a), t)
  {
    var s' := Apply(s, a);
    match a
    case Add(_, woken) => if woken.Some? { CountUpdate(s.workers, woken.value, Ready, Carrying(t)); }
    case Enter(w) => CountUpdate(s.workers, w, s'.workers[w], Carrying(t));
    case Execute(w) => CountUpdate(s.workers, w, Ready, Carrying(t));
    case Spurious(w) => CountUpdate(s.workers, w, Ready, Carrying(t));
    case Destroy(_) => WakeAllCounts(s.workers, Carrying(t));
    case DestroyAgain =>
  }

  lemma StepKeepsTasks(s: State, a: Action)
    requires TaskInv(s) && Enabled(s, a)
    ensures TaskInv(Apply(s, a))
  {
    forall t: Task ensures Balanced(Apply(s, a), t) {
      StepKeepsBalance(s, a, t);
    }
  }

  lemma UpdateWorker(ws: seq<Worker>, i: nat, w: Worker)
    requires i < |ws|
    ensures Count(ws[i := w], Alive) + Worth(ws[i], Alive) == Count(ws, Alive) + Worth(w, Alive)
    ensures Count(ws[i := w], Awake) + Worth(ws[i], Awake) == Count(ws, Awake) + Worth(w, Awake)
    ensures forall x | x in ws[i := w] :: x == w || x in ws
  {
    CountUpdate(ws, i, w, Alive);
    CountUpdate(ws, i, w, Awake);
  }

  lemma EnterKeepsWorkers(s: State, w: nat)
    requires WorkerInv(s) && Enabled(s, Enter(w))
    ensures WorkerInv(Apply(s, Enter(w)))
  {
    var s' := Apply(s, Enter(w));
    UpdateWorker(s.workers, w, s'.workers[w]);
  }

  lemma AddKeepsWorkers(s: State, task: Task, woken: Option<nat>)
    requires WorkerInv(s) && Enabled(s, Add(task, woken))
    ensures WorkerInv(Apply(s, Add(task, woken)))
  {
    if woken.Some? {
      UpdateWorker(s.workers, woken.value, Ready);
    } else {
      CountBounds(s.workers, Alive);
    }
  }

  lemma StepKeepsWorkers(s: State, a: Action)
    requires WorkerInv(s) && Enabled(s, a)
    ensures WorkerInv(Apply(s, a))
  {
    match a
    case Add(task, woken) => AddKeepsWorkers(s, task, woken);
    case Enter(w) => EnterKeepsWorkers(s, w);
    case Execute(w) => UpdateWorker(s.workers, w, Ready);
    case Spurious(w) => UpdateWorker(s.workers, w, Ready);
    case Destroy(_) =>
      WakeAllCounts(s.workers, Alive);
      assert forall i | 0 <= i < |s.workers| :: s.workers[i] in s.workers;
    case DestroyAgain =>
  }

  lemma StepKeepsInv(s: State, a: Action)
    requires Inv(s) && Enabled(s, a)
    ensures Inv(Apply(s, a))
  {
    StepKeepsQueue(s, a);
    StepKeepsTasks(s, a);
    StepKeepsWorkers(s, a);
  }

  lemma {:induction false} RunKeepsInv(s: State, run: seq<Action>)
    requires Inv(s) && Legal(s, run)
    ensures Inv(After(s, run))
    decreases |run|
  {
    if run != [] {
      StepKeepsInv(s, run[0]);
      RunKeepsInv(Apply(s, run[0]), run[1..]);
    }
  }

  lemma {:induction false} InitCounts(threads: nat)
    ensures var ws := seq(threads, _ => Ready);
      Count(ws, Alive) == threads && Count(ws, Awake) == threads && forall t :: Count(ws, Carrying(t)) == 0
  {
    if threads > 0 {
      InitCounts(threads - 1);
      assert seq(threads, _ => Ready)[..threads - 1] == seq(threads - 1, _ => Ready);
    }
  }

  lemma InitInv(threads: nat, capacity: nat)
    requires threads > 0
    ensures Inv(Init(threads, capacity))
  {
    InitCounts(threads);
  }

  // ---------------------------------------------------------------- what the pool promises

  /** Tasks are taken in the order they were accepted, and each one taken is finished once or being
      carried by one worker; under either shutdown the tasks taken are a prefix of those accepted. */
  lemma TakenInOrder(threads: nat, capacity: nat, run: seq<Action>)
    requires threads > 0 && Legal(Init(threads, capacity), run)
    ensures var s := After(Init(threads, capacity), run);
      && s.dequeued <= s.accepted && s.accepted[|s.dequeued|..] == s.queue && |s.queue| <= capacity
      && forall t: Task :: Balanced(s, t)
  {
    InitInv(threads, capacity);
    RunKeepsInv(Init(threads, capacity), run);
    CapacityStays(Init(threads, capacity), run);
  }

  lemma {:induction false} CapacityStays(s: State, run: seq<Action>)
    requires Legal(s, run)
    ensures After(s, run).capacity == s.capacity && |After(s, run).workers| == |s.workers|
    decreases |run|
  {
    if run != [] { CapacityStays(Apply(s, run[0]), run[1..]); }
  }

  /** A signal for every task and one broadcast are enough: before the shutdown at least as many
      workers are awake as there are tasks (or workers), and after it nobody sleeps. */
  lemma NoStrandedTask(threads: nat, capacity: nat, run: seq<Action>)
    requires threads > 0 && Legal(Init(threads, capacity), run)
    ensures var s := After(Init(threads, capacity), run);
      if s.shutdown.Open? then Count(s.workers, Awake) >= Min(|s.queue|, threads) else Asleep !in s.workers
  {
    InitInv(threads, capacity);
    RunKeepsInv(Init(threads, capacity), run);
    CapacityStays(Init(threads, capacity), run);
  }

  /** Whoever waits for the workers does not wait for nothing: while a task is queued, or the pool is
      shut down and a worker is left, some worker can take its next step. */
  lemma SomeWorkerCanStep(s: State) returns (a: Action)
    requires Inv(s) && !s.lockKept
    requires if s.shutdown.Open? then s.queue != [] else s.started > 0
    ensures (a.Enter? || a.Execute?) && Enabled(s, a)
  {
    CountBounds(s.workers, Alive);
    var w := SomeoneAwake(s.workers);
    a := if s.workers[w].Ready? then Enter(w) else Execute(w);
  }

  /** When a graceful shutdown has joined all workers, every accepted task has run exactly once. */
  lemma GracefulDrains(threads: nat, capacity: nat, run: seq<Action>)
    requires threads > 0 && Legal(Init(threads, capacity), run)
    ensures var s := After(Init(threads, capacity), run);
      s.shutdown.Graceful? && (forall w | w in s.workers :: w.Gone?)
      ==> s.queue == [] && s.started == 0 && multiset(s.executed) == multiset(s.accepted)
  {
    var s := After(Init(threads, capacity), run);
    InitInv(threads, capacity);
    RunKeepsInv(Init(threads, capacity), run);
    if forall w | w in s.workers :: w.Gone? {
      AllJoined(s);
    }
  }

  lemma AllJoined(s: State)
    requires Inv(s) && forall w | w in s.workers :: w.Gone?
    ensures s.started == 0
    ensures s.shutdown.Graceful? ==> s.queue == [] && multiset(s.executed) == multiset(s.accepted)
  {
    AllGone(s.workers);
    CountBounds(s.workers, Alive);
    if s.shutdown.Graceful? {
      assert s.accepted == s.dequeued;
      forall t: Task ensures multiset(s.accepted)[t] == multiset(s.executed)[t] {
        CountBounds(s.workers, Carrying(t));
        assert Balanced(s, t);
      }
    }
  }

  lemma {:induction false} AllGone(ws: seq<Worker>)
    requires forall w | w in ws :: w.Gone?
    ensures Count(ws, Alive) == 0
    decreases |ws|
  {
    if ws != [] {
      assert forall w | w in ws[..|ws|-1] :: w in ws;
      AllGone(ws[..|ws|-1]);
    }
  }

  /** Work left once the pool is shut down. */
  function Measure(s: State): nat {
    2 * |s.queue| + Count(s.workers, Effort)
  }

  function WorkerSteps(run: seq<Action>): nat {
    if run == [] then 0 else (if run[0].Enter? || run[0].Execute? then 1 else 0) + WorkerSteps(run[1..])
  }

  lemma StepLowersMeasure(s: State, a: Action)
    requires Inv(s) && !s.shutdown.Open? && Enabled(s, a)
    ensures Apply(s, a).shutdown != Open
    ensures Measure(Apply(s, a)) + (if a.Enter? || a.Execute? then 1 else 0) <= Measure(s)
  {
    match a
    case Enter(w) => CountUpdate(s.workers, w, Apply(s, a).workers[w], Effort);
    case Execute(w) => CountUpdate(s.workers, w, Ready, Effort);
    case _ =>
  }

  /** After the shutdown every step of a worker lowers the measure, so the workers take no more steps
      than it says, whoever is scheduled and whatever is still submitted. */
  lemma {:induction false} ShutdownIsBounded(s: State, run: seq<Action>)
    requires Inv(s) && !s.shutdown.Open? && Legal(s, run)
    ensures WorkerSteps(run) + Measure(After(s, run)) <= Measure(s)
    decreases |run|
  {
    if run != [] {
      StepLowersMeasure(s, run[0]);
      StepKeepsInv(s, run[0]);
      ShutdownIsBounded(Apply(s, run[0]), run[1..]);
    }
  }

  /** The exception: a second destroy keeps the lock. From then on no worker takes a task or leaves, and
      all of them have left, which the first one's join waits for, if and only if they had by then. */
  lemma SecondDestroyBlocksJoin(s: State, run: seq<Action>)
    requires Inv(s) && s.lockKept && Legal(s, run)
    ensures After(s, run).started == s.started && After(s, run).queue == s.queue
    ensures (forall w <- After(s, run).workers :: w.Gone?) <==> s.started == 0
  {
    LockKeptStays(s, run);
    RunKeepsInv(s, run);
    var t := After(s, run);
    if s.started == 0 { NoneAlive(t.workers); }
    if forall w <- t.workers :: w.Gone? { AllJoined(t); }
  }

  lemma {:induction false} LockKeptStays(s: State, run: seq<Action>)
    requires Inv(s) && s.lockKept && Legal(s, run)
    ensures After(s, run).started == s.started && After(s, run).queue == s.queue
    decreases |run|
  {
    if run != [] {
      StepKeepsInv(s, run[0]);
      LockKeptStays(Apply(s, run[0]), run[1..]);
    }
  }

  lemma {:induction false} NoneAlive(ws: seq<Worker>)
    requires Count(ws, Alive) == 0
    ensures forall w <- ws :: w.Gone?
    decreases |ws|
  {
    if ws != [] {
      NoneAlive(ws[..|ws|-1]);
      assert ws == ws[..|ws|-1] + [ws[|ws|-1]];
    }
  }

  /** Once the pool is shut down nothing more is accepted; and once it is shut down at once, nothing more is
      taken either: what is queued stays, and only what workers carry is still finished. */
  lemma {:induction false} ShutdownStops(s: State, run: seq<Action>)
    requires !s.shutdown.Open? && Legal(s, run)
    ensures After(s, run).shutdown == s.shutdown && After(s, run).accepted == s.accepted
    ensures s.shutdown.Immediate? ==> After(s, run).dequeued == s.dequeued && After(s, run).queue == s.queue
    decreases |run|
  {
    if run != [] { ShutdownStops(Apply(s, run[0]), run[1..]); }
  }

  /** A worker with the lock takes the oldest task if and only if there is one and the pool is not shut down
      at once; else it leaves if the pool is shut down, and sleeps if not. */
  lemma EntersAs(s: State, w: nat)
    requires Inv(s) && Enabled(s, Enter(w))
    ensures var t := Apply(s, Enter(w));
      if s.queue != [] && !s.shutdown.Immediate? then
        t.workers[w] == Busy(s.queue[0]) && s.queue == [s.queue[0]] + t.queue && t.dequeued == s.dequeued + [s.queue[0]]
      else
        && t.queue == s.queue && t.dequeued == s.dequeued
        && (t.workers[w].Gone? <==> !s.shutdown.Open?) && (t.workers[w].Asleep? <==> s.shutdown.Open?)
  {
    hide TaskInv;
    if s.queue != [] { assert s.queue == [s.queue[0]] + s.queue[1..]; }
  }
}
