/** `ThreadPool` over its ring buffer: the circular slice behaves as the task queue of the model. */
module ThreadPool {
  import opened Sequences
  import opened ThreadPoolSpec

  const MAX_THREADS := 1024
  const MAX_QUEUE := 65535
  const DEFAULT_THREADS := 4
  const DEFAULT_QUEUE := 1024
  const IMMEDIATE_SHUTDOWN := 1
  const GRACEFUL_SHUTDOWN := 2

  datatype Slot = Empty | Filled(task: Task)

  function Code(how: Shutdown): int {
    match how
    case Open => 0
    case Immediate => IMMEDIATE_SHUTDOWN
    case Graceful => GRACEFUL_SHUTDOWN
  }

  /** A position up to one lap ahead, brought back into the ring. */
  function Wrap(i: nat, size: nat): nat {
    if i < size then i else i - size
  }

  lemma ModIsWrap(i: nat, size: nat)
    requires size > 0 && i < 2 * size
    ensures i % size == Wrap(i, size)
  {
    if i >= size {
      assert i == size + (i - size);
      assert (size + (i - size)) % size == (i - size) % size;
    }
  }

  // ---------------------------------------------------------------- the ring, on values

  /** The k-th slot counted from `begin`. */
  function SlotAt(buf: seq<Slot>, begin: nat, k: nat): Slot
    requires begin < |buf| && k < |buf|
  {
    buf[Wrap(begin + k, |buf|)]
  }

  /** Both ends and the count agree; exactly the slots of the circular slice are filled. */
  predicate Ring(buf: seq<Slot>, begin: nat, end: nat, count: nat) {
    && begin < |buf| && count <= |buf|
    && end == Wrap(begin + count, |buf|)
    && (forall k | 0 <= k < |buf| :: SlotAt(buf, begin, k).Filled? <==> k < count)
  }

  /** The tasks of the circular slice, oldest first. */
  function Slice(buf: seq<Slot>, begin: nat, end: nat, count: nat): (tasks: seq<Task>)
    requires Ring(buf, begin, end, count)
    ensures |tasks| == count && forall k | 0 <= k < count :: tasks[k] == SlotAt(buf, begin, k).task
  {
    seq(count, k requires 0 <= k < count => SlotAt(buf, begin, k).task)
  }

  /** Writing at `end` appends, through any wraparound. */
  lemma PushBack(buf: seq<Slot>, begin: nat, end: nat, count: nat, task: Task)
    requires Ring(buf, begin, end, count) && count < |buf|
    ensures end < |buf|
    ensures var next, buf' := (end + 1) % |buf|, buf[end := Filled(task)];
      && Ring(buf', begin, next, count + 1)
      && Slice(buf', begin, next, count + 1) == Slice(buf, begin, end, count) + [task]
  {
    ModIsWrap(end + 1, |buf|);
    var buf' := buf[end := Filled(task)];
    assert forall k | 0 <= k < |buf| ::
      SlotAt(buf', begin, k) == if k == count then Filled(task) else SlotAt(buf, begin, k);
  }

  /** Clearing the slot at `begin` removes the oldest task. */
  lemma PopFront(buf: seq<Slot>, begin: nat, end: nat, count: nat)
    requires Ring(buf, begin, end, count) && count > 0
    ensures begin < |buf| && buf[begin].Filled?
    ensures var next, buf' := (begin + 1) % |buf|, buf[begin := Empty];
      Ring(buf', next, end, count - 1)
      && [buf[begin].task] + Slice(buf', next, end, count - 1) == Slice(buf, begin, end, count)
  {
    var n := |buf|;
    ModIsWrap(begin + 1, n);
    var next, buf' := Wrap(begin + 1, n), buf[begin := Empty];
    assert SlotAt(buf, begin, 0) == buf[begin] && SlotAt(buf', next, n - 1) == Empty;
    assert forall k | 0 <= k < n - 1 :: SlotAt(buf', next, k) == SlotAt(buf, begin, k + 1);
  }

  class Pool {
    const queue: array<Slot>
    const queueSize: nat
    var begin: nat
    var end: nat
    var count: nat
    var shutdown: int
    var started: nat
    // Where the worker threads are.
    var workers: seq<Worker>

    ghost var how: Shutdown
    ghost var lockKept: bool
    ghost var accepted: seq<Task>
    ghost var dequeued: seq<Task>
    ghost var executed: seq<Task>

    ghost function View(): State
      requires Ring(queue[..], begin, end, count)
      reads this, queue
    {
      State(queueSize, Slice(queue[..], begin, end, count), how, workers, started, lockKept,
            accepted, dequeued, executed)
    }

    ghost predicate Valid()
      reads this, queue
    {
      queue.Length == queueSize && Ring(queue[..], begin, end, count) && shutdown == Code(how) && Inv(View())
    }

    /** ThreadPoolCreate: out-of-range arguments are both replaced by the defaults. */
    constructor (threadCount: int, size: int)
      ensures Valid() && fresh(queue)
      ensures var legal := 0 < threadCount <= MAX_THREADS && 0 < size <= MAX_QUEUE;
        View() == if legal then Init(threadCount, size) else Init(DEFAULT_THREADS, DEFAULT_QUEUE)
    {
      var n, m := threadCount, size;
      if threadCount <= 0 || threadCount > MAX_THREADS || size <= 0 || size > MAX_QUEUE {
        n, m := DEFAULT_THREADS, DEFAULT_QUEUE;
      }
      queueSize, queue := m, new Slot[m](_ => Empty);
      begin, end, count, shutdown, started := 0, 0, 0, 0, n;
      workers := seq(n, _ => Ready);
      how, lockKept, accepted, dequeued, executed := Open, false, [], [], [];
      new;
      InitInv(n, m);
      assert Slice(queue[..], 0, 0, 0) == [];
    }

    /** ThreadPoolAdd; `woken` is the sleeper pthread_cond_signal picks, if it is called and there is one. */
    method Add(task: Task, woken: Option<nat>) returns (err: int)
      requires Valid() && Enabled(View(), ThreadPoolSpec.Add(task, woken))
      modifies this, queue
      ensures Valid() && View() == Apply(old(View()), ThreadPoolSpec.Add(task, woken))
      ensures err == AddResult(old(View()))
      ensures err == if old(count) == queueSize then -3 else if old(shutdown) != 0 then -4 else 0
    {
      hide Inv;
      StepKeepsInv(View(), ThreadPoolSpec.Add(task, woken));
      assert count <= queueSize;
      hide Ring;
      err := 0;
      if count == queueSize {
        err := QUEUE_FULL;
      } else if shutdown != 0 {
        err := SHUT_DOWN;
      } else {
        PushBack(queue[..], begin, end, count, task);
        var next := (end + 1) % queueSize;
        queue[end] := Filled(task);
        assert queue[..] == old(queue[..])[end := Filled(task)];
        end := next;
        count := count + 1;
        if woken.Some? {
          workers := workers[woken.value := Ready];
        }
        accepted := accepted + [task];
      }
    }

    /** What worker w does from pthread_mutex_lock to where it sleeps, leaves, or unlocks with a task. */
    method Enter(w: nat)
      requires Valid() && Enabled(View(), ThreadPoolSpec.Enter(w))
      modifies this, queue
      ensures Valid() && View() == Apply(old(View()), ThreadPoolSpec.Enter(w))
    {
      hide Inv, Ring;
      StepKeepsInv(View(), ThreadPoolSpec.Enter(w));
      if count == 0 && shutdown == 0 {
        workers := workers[w := Asleep];
      } else if shutdown == IMMEDIATE_SHUTDOWN || (shutdown == GRACEFUL_SHUTDOWN && count == 0) {
        StartedPositive(w);
        started := started - 1;
        workers := workers[w := Gone];
      } else {
        PopFront(queue[..], begin, end, count);
        var task := queue[begin].task;
        queue[begin] := Empty;
        assert queue[..] == old(queue[..])[begin := Empty];
        begin := (begin + 1) % queueSize;
        count := count - 1;
        workers := workers[w := Busy(task)];
        dequeued := dequeued + [task];
      }
    }

    lemma StartedPositive(w: nat)
      requires Valid() && w < |workers| && workers[w] == Ready
      ensures started > 0
    {
      CountUpdate(workers, w, Gone, Alive);
    }

    /** `(task.func)(task.args)` */
    method Execute(w: nat)
      requires Valid() && Enabled(View(), ThreadPoolSpec.Execute(w))
      modifies this
      ensures Valid() && View() == Apply(old(View()), ThreadPoolSpec.Execute(w))
    {
      hide Inv, Ring;
      StepKeepsInv(View(), ThreadPoolSpec.Execute(w));
      executed := executed + [workers[w].task];
      workers := workers[w := Ready];
    }

    method WakeSpuriously(w: nat)
      requires Valid() && Enabled(View(), Spurious(w))
      modifies this`workers
      ensures Valid() && View() == Apply(old(View()), Spurious(w))
    {
      hide Inv, Ring;
      StepKeepsInv(View(), Spurious(w));
      workers := workers[w := Ready];
    }

    /** ThreadPoolDestroy up to the joins. Called again, it returns with the lock held. */
    method Destroy(option: Shutdown) returns (err: int)
      requires Valid() && !lockKept && !option.Open?
      modifies this
      ensures Valid()
      ensures var s := old(View());
        View() == Apply(s, if s.shutdown.Open? then ThreadPoolSpec.Destroy(option) else DestroyAgain)
      ensures err == if old(how).Open? then 0 else SHUT_DOWN
    {
      if shutdown != 0 {
        StepKeepsInv(View(), DestroyAgain);
        err, lockKept := SHUT_DOWN, true;
      } else {
        StepKeepsInv(View(), ThreadPoolSpec.Destroy(option));
        shutdown, how := Code(option), option;
        workers := WakeAll(workers);
        err := 0;
      }
    }

    /** ThreadPoolFree, once the joins have returned: it finds no thread started, and after a graceful
        shutdown every accepted task has been executed once. */
    method Free() returns (result: int)
      requires Valid() && !how.Open? && forall w | w in workers :: w.Gone?
      ensures result == 0 && started == 0
      ensures how.Graceful? ==> count == 0 && multiset(executed) == multiset(accepted)
    {
      AllJoined(View());
      result := if started > 0 then -1 else 0;
    }
  }
}
