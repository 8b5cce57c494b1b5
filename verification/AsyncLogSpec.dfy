/** The asynchronous logger as a state machine on values.

    Producers append under a mutex; one backend thread takes the filled buffers in a locked swap,
    drops part of a batch that is too long, writes the rest, and hands two buffers back.
    Every locked section and every backend step between two of them is one action, so a run of
    actions is one interleaving of the threads. */
module AsyncLogSpec {
  import opened Sequences

  const BUFFER_SIZE := 4_000_000
  const MAX_BATCH := 25
  const KEPT_BUFFERS := 2
  // The longest message a `LogStream` can hold.
  const MAX_RECORD := 3999

  type Record = string
  type Block = seq<Record>  // the messages in one buffer

  datatype Phase =
    | Top                 // at the loop test
    | Ready               // past the test, before the lock
    | Waiting             // asleep on the condition variable
    | Taken               // past the swap
    | Writing(next: nat)  // past the drop; buffers [0, next) are in the file
    | Stopped

  datatype State = State(
    current: Option<Block>,
    next: Option<Block>,
    buffers: seq<Block>,
    spare1: Option<Block>,
    spare2: Option<Block>,
    toWrite: seq<Block>,
    file: seq<Record>,
    phase: Phase,
    running: bool,
    // History: all messages in lock order, and what each swap took.
    appended: seq<Record>,
    batches: seq<seq<Block>>)

  datatype Action =
    | Append(record: Record)  // a producer
    | Test                    // while (running_)
    | Lock                    // takes the mutex; waits when nothing is filled, else swaps
    | Wake                    // notified, timed out, or spurious: swaps
    | Erase                   // the drop rule
    | WriteOne                // one buffer to the file
    | Recycle                 // hands buffers back
    | Stop

  const Init := State(Some([]), Some([]), [], Some([]), Some([]), [], [], Top, true, [], [])

  // ---------------------------------------------------------------- the actions

  function Bytes(b: Block): nat {
    SumLengths(b)
  }

  /** `Avail() > len` */
  predicate Fits(b: Block, r: Record) {
    Bytes(b) + |r| < BUFFER_SIZE
  }

  function Put(b: Block, r: Record): Block {
    if Fits(b, r) then b + [r] else b
  }

  function Content(b: Option<Block>): Block {
    if b.Some? then b.value else []
  }

  function AppendRecord(s: State, r: Record): State {
    var s := s.(appended := s.appended + [r]);
    if Fits(Content(s.current), r) then
      s.(current := Some(Put(Content(s.current), r)))
    else
      s.(buffers := s.buffers + [Content(s.current)], current := Some(Put(Content(s.next), r)), next := None)
  }

  function Swap(s: State): State {
    var batch := s.buffers + [Content(s.current)];
    s.(current := s.spare1, spare1 := None,
       toWrite := batch, buffers := s.toWrite,
       next := if s.next.None? then s.spare2 else s.next,
       spare2 := if s.next.None? then None else s.spare2,
       phase := Taken, batches := s.batches + [batch])
  }

  function Kept(batch: seq<Block>): seq<Block> {
    if |batch| > MAX_BATCH then batch[..KEPT_BUFFERS] else batch
  }

  function Pop(w: seq<Block>): seq<Block> {
    if w == [] then [] else w[..|w|-1]
  }

  function HandBack(s: State): State {
    s.(spare1 := if s.spare1.None? then Some([]) else s.spare1,
       spare2 := if s.spare2.None? then Some([]) else s.spare2,
       toWrite := [], phase := Top)
  }

  predicate Enabled(s: State, a: Action) {
    match a
    case Append(_) => true
    case Test => s.phase.Top?
    case Lock => s.phase.Ready?
    case Wake => s.phase.Waiting?
    case Erase => s.phase.Taken?
    case WriteOne => s.phase.Writing? && s.phase.next < |s.toWrite|
    case Recycle => s.phase.Writing? && s.phase.next >= |s.toWrite|
    case Stop => true
  }

  function Apply(s: State, a: Action): State
    requires Enabled(s, a)
  {
    match a
    case Append(r) => AppendRecord(s, r)
    case Test => s.(phase := if s.running then Ready else Stopped)
    case Lock => if s.buffers == [] then s.(phase := Waiting) else Swap(s)
    case Wake => Swap(s)
    case Erase => s.(toWrite := Kept(s.toWrite), phase := Writing(0))
    case WriteOne => s.(file := s.file + s.toWrite[s.phase.next], phase := Writing(s.phase.next + 1))
    case Recycle => HandBack(s)
    case Stop => s.(running := false)
  }

  /** The pointers the action follows are set, and the assertions it passes hold. */
  predicate Safe(s: State, a: Action) {
    match a
    case Append(_) => s.current.Some? && (s.next.Some? ==> s.next.value == [])
    case Test => s.running ==> s.spare1 == Some([]) && s.spare2 == Some([]) && s.toWrite == []
    case Lock => s.current.Some?
    case Wake => s.current.Some?
    case Erase => s.toWrite != []
    case WriteOne => true
    case Recycle =>
      var left := if |s.toWrite| > KEPT_BUFFERS then s.toWrite[..KEPT_BUFFERS] else s.toWrite;
      && (s.spare1.None? ==> left != [])
      && (s.spare2.None? ==> (if s.spare1.None? then Pop(left) else left) != [])
    case Stop => true
  }

  ghost predicate Legal(s: State, run: seq<Action>)
    decreases |run|
  {
    run != [] ==> Enabled(s, run[0]) && Legal(Apply(s, run[0]), run[1..])
  }

  ghost function After(s: State, run: seq<Action>): State
    requires Legal(s, run)
    decreases |run|
  {
    if run == [] then s else After(Apply(s, run[0]), run[1..])
  }

  // ---------------------------------------------------------------- invariants

  /** The messages the logger takes: all but those that no empty buffer can hold. */
  function Accepted(rs: seq<Record>): seq<Record> {
    if rs == [] then []
    else Accepted(rs[..|rs|-1]) + if |rs[|rs|-1]| < BUFFER_SIZE then [rs[|rs|-1]] else []
  }

  /** What the file should hold once these batches are written. */
  function Disk(batches: seq<seq<Block>>): seq<Record> {
    if batches == [] then [] else Disk(batches[..|batches|-1]) + Flatten(Kept(batches[|batches|-1]))
  }

  ghost predicate Idle(s: State) {
    && s.spare1 == Some([]) && s.spare2 == Some([])
    && s.toWrite == []
    && s.file == Disk(s.batches)
  }

  ghost predicate Busy(s: State, taken: seq<Block>, written: seq<Record>) {
    && s.batches != []
    && s.spare1.None?
    && (s.spare2 == Some([]) || (s.spare2.None? && |s.toWrite| >= 2))
    && s.toWrite == taken && taken != []
    && s.file == Disk(s.batches[..|s.batches|-1]) + written
  }

  function LastBatch(s: State): seq<Block> {
    if s.batches == [] then [] else s.batches[|s.batches|-1]
  }

  ghost predicate PhaseInv(s: State) {
    match s.phase
    case Taken => Busy(s, LastBatch(s), [])
    case Writing(i) => i <= |s.toWrite| && Busy(s, Kept(LastBatch(s)), Flatten(s.toWrite[..i]))
    case _ => Idle(s)
  }

  ghost predicate Shape(s: State) {
    && s.current.Some?
    && (if s.next.Some? then s.next.value == [] else s.buffers != [])
    && PhaseInv(s)
  }

  ghost predicate Conserved(s: State) {
    Accepted(s.appended) == Flatten(Flatten(s.batches)) + Flatten(s.buffers) + Content(s.current)
  }

  ghost predicate Inv(s: State) {
    Shape(s) && Conserved(s)
  }

  lemma AcceptedPush(rs: seq<Record>, r: Record)
    ensures Accepted(rs + [r]) == Accepted(rs) + if |r| < BUFFER_SIZE then [r] else []
  {
    assert (rs + [r])[..|rs|] == rs;
  }

  lemma AppendKeepsShape(s: State, r: Record)
    requires Shape(s)
    ensures Shape(AppendRecord(s, r))
  {
    PhaseFrame(s, AppendRecord(s, r));
  }

  lemma PhaseFrame(s: State, s': State)
    requires PhaseInv(s)
    requires s'.spare1 == s.spare1 && s'.spare2 == s.spare2 && s'.toWrite == s.toWrite
    requires s'.file == s.file && s'.batches == s.batches && s'.phase == s.phase
    ensures PhaseInv(s')
  {
  }

  lemma AppendConserves(s: State, r: Record)
    requires s.current.Some? && (s.next.Some? ==> s.next.value == []) && Conserved(s)
    ensures Conserved(AppendRecord(s, r))
  {
    var s' := AppendRecord(s, r);
    var base, queued, mine := Flatten(Flatten(s.batches)), Flatten(s.buffers), s.current.value;
    var taken := if |r| < BUFFER_SIZE then [r] else [];
    AcceptedPush(s.appended, r);
    FlattenPush(s.buffers, mine);
    assert Bytes([]) == 0 && [] + [r] == [r];
    hide Accepted, Flatten, SumLengths;
    if Fits(mine, r) {
      Assoc(base + queued, mine, [r]);
    } else {
      Assoc(base, queued, mine);
      assert s'.current == Some(taken);
    }
  }

  lemma SwapConserves(s: State)
    requires s.current.Some? && s.spare1 == Some([]) && s.toWrite == [] && Conserved(s)
    ensures Conserved(Swap(s))
  {
    var batch := s.buffers + [s.current.value];
    FlattenPush(s.batches, batch);
    FlattenConcat(Flatten(s.batches), batch);
    FlattenPush(s.buffers, s.current.value);
    Assoc(Flatten(Flatten(s.batches)), Flatten(s.buffers), s.current.value);
    var all := Flatten(Flatten(Swap(s).batches));
    assert all + Flatten([]) + [] == all;
  }

  lemma SwapKeepsInv(s: State)
    requires Inv(s) && Idle(s)
    ensures Inv(Swap(s))
  {
    SwapConserves(s);
    hide Conserved, Flatten;
    var s' := Swap(s);
    assert s'.batches[..|s'.batches|-1] == s.batches;
    assert s'.file + [] == s'.file;
  }

  lemma EraseKeepsInv(s: State)
    requires Inv(s) && Enabled(s, Erase)
    ensures Inv(Apply(s, Erase))
  {
    var s' := Apply(s, Erase);
    assert LastBatch(s') == LastBatch(s) && s'.toWrite[..0] == [];
    assert PhaseInv(s');
  }

  lemma WriteKeepsInv(s: State)
    requires Inv(s) && Enabled(s, WriteOne)
    ensures Inv(Apply(s, WriteOne))
  {
    var i := s.phase.next;
    var before := Disk(s.batches[..|s.batches|-1]);
    WriteNext(before, s.toWrite, i);
    assert PhaseInv(Apply(s, WriteOne));
  }

  lemma WriteNext(before: seq<Record>, parts: seq<Block>, i: nat)
    requires i < |parts|
    ensures before + Flatten(parts[..i]) + parts[i] == before + Flatten(parts[..i + 1])
  {
    assert parts[..i + 1] == parts[..i] + [parts[i]];
    FlattenPush(parts[..i], parts[i]);
  }

  lemma RecycleKeepsInv(s: State)
    requires Inv(s) && Enabled(s, Recycle)
    ensures Inv(Apply(s, Recycle))
  {
    assert s.toWrite[..s.phase.next] == s.toWrite;
    assert s.file == Disk(s.batches);
  }

  lemma StepKeepsInv(s: State, a: Action)
    requires Inv(s) && Enabled(s, a)
    ensures Inv(Apply(s, a))
  {
    match a
    case Append(r) => AppendConserves(s, r); AppendKeepsShape(s, r);
    case Lock => SwapKeepsInv(s);
    case Wake => SwapKeepsInv(s);
    case Erase => EraseKeepsInv(s);
    case WriteOne => WriteKeepsInv(s);
    case Recycle => RecycleKeepsInv(s);
    case Test =>
    case Stop =>
  }

  lemma {:induction false} RunKeepsInv(s: State, run: seq<Action>)
    requires Inv(s) && Legal(s, run)
    ensures Inv(After(s, run))
    decreases |run|
  {
    if run != [] {
      StepKeepsInv(s, run[0]);
      RunKeepsInv(Apply(s, run[0]), run[1..]);
    }
  }

  lemma InitInv()
    ensures Inv(Init)
  {
  }

  /** No run dereferences a null buffer or fails an assertion of the backend loop. */
  lemma AssertsNeverFail(run: seq<Action>, a: Action)
    requires Legal(Init, run) && Enabled(After(Init, run), a)
    ensures Safe(After(Init, run), a)
  {
    RunKeepsInv(Init, run);
    InvSafe(After(Init, run), a);
  }

  lemma InvSafe(s: State, a: Action)
    requires Inv(s) && Enabled(s, a)
    ensures Safe(s, a)
  {
  }

  lemma ReadyToSwap(s: State)
    requires Inv(s) && (s.phase.Ready? || s.phase.Waiting?)
    ensures s.current.Some? && s.spare1.Some?
  {
  }

  // ---------------------------------------------------------------- conservation

  /** The part of the current batch that is still to be written. */
  function Unwritten(s: State): seq<Block> {
    match s.phase
    case Taken => s.toWrite
    case Writing(i) => if i <= |s.toWrite| then s.toWrite[i..] else []
    case _ => []
  }

  /** The batches the drop rule has been applied to. */
  function Cut(s: State): seq<seq<Block>> {
    if s.phase.Taken? && s.batches != [] then s.batches[..|s.batches|-1] else s.batches
  }

  /** All messages in the file and in memory, oldest first. */
  function Held(s: State): seq<Record> {
    s.file + Flatten(Unwritten(s)) + Flatten(s.buffers) + Content(s.current)
  }

  /** Over every run, the messages taken are the swapped batches, the filled buffers and the current
      one, in lock order; and the file with what is left of the batch is the batches with exactly
      buffers 3 onward missing from those longer than 25. */
  lemma Conservation(run: seq<Action>)
    requires Legal(Init, run)
    ensures var s := After(Init, run);
      && Accepted(s.appended) == Flatten(Flatten(s.batches)) + Flatten(s.buffers) + Content(s.current)
      && s.file + Flatten(Unwritten(s)) == Disk(Cut(s)) + JustTaken(s)
  {
    RunKeepsInv(Init, run);
    WrittenAndUnwritten(After(Init, run));
  }

  lemma WrittenAndUnwritten(s: State)
    requires Shape(s)
    ensures s.file + Flatten(Unwritten(s)) == Disk(Cut(s)) + JustTaken(s)
  {
    match s.phase
    case Writing(i) => SplitAt(Disk(s.batches[..|s.batches|-1]), s.toWrite, i);
    case Taken => assert s.file == Disk(Cut(s));
    case _ => assert s.file == Disk(Cut(s)) && Flatten(Unwritten(s)) == [];
  }

  lemma SplitAt(before: seq<Record>, parts: seq<Block>, i: nat)
    requires i <= |parts|
    ensures before + Flatten(parts[..i]) + Flatten(parts[i..]) == before + Flatten(parts)
  {
    var a, b := parts[..i], parts[i..];
    assert a + b == parts;
    FlattenConcat(a, b);
    hide Flatten;
    Assoc(before, Flatten(a), Flatten(b));
  }

  // ---------------------------------------------------------------- when the drop rule loses messages

  ghost predicate AllShort(rs: seq<Record>) {
    forall i | 0 <= i < |rs| :: |rs[i]| <= MAX_RECORD
  }

  ghost predicate ShortRun(run: seq<Action>) {
    forall i | 0 <= i < |run| :: run[i].Append? ==> |run[i].record| <= MAX_RECORD
  }

  /** Buffers are only set aside when a message of at most 3999 bytes did not fit. */
  ghost predicate AllFull(blocks: seq<Block>) {
    forall i | 0 <= i < |blocks| :: Bytes(blocks[i]) + MAX_RECORD >= BUFFER_SIZE
  }

  ghost predicate BatchFull(batch: seq<Block>) {
    batch != [] && AllFull(batch[..|batch|-1])
  }

  ghost predicate FullInv(s: State) {
    && AllShort(s.appended)
    && AllFull(s.buffers)
    && forall k | 0 <= k < |s.batches| :: BatchFull(s.batches[k])
  }

  lemma AppendKeepsFull(s: State, r: Record)
    requires FullInv(s) && |r| <= MAX_RECORD
    ensures FullInv(AppendRecord(s, r))
  {
    var s' := AppendRecord(s, r);
    assert forall i | 0 <= i < |s'.buffers| :: i < |s.buffers| || s'.buffers[i] == Content(s.current);
  }

  lemma SwapKeepsFull(s: State)
    requires FullInv(s) && s.toWrite == []
    ensures FullInv(Swap(s))
  {
    var batch := s.buffers + [Content(s.current)];
    assert batch[..|batch|-1] == s.buffers;
  }

  lemma StepKeepsFull(s: State, a: Action)
    requires Shape(s) && FullInv(s) && Enabled(s, a)
    requires a.Append? ==> |a.record| <= MAX_RECORD
    ensures FullInv(Apply(s, a))
  {
    match a
    case Append(r) => AppendKeepsFull(s, r);
    case Lock => SwapKeepsFull(s);
    case Wake => SwapKeepsFull(s);
    case _ => assert Apply(s, a).buffers == s.buffers && Apply(s, a).batches == s.batches;
  }

  lemma {:induction false} RunKeepsFull(s: State, run: seq<Action>)
    requires Inv(s) && FullInv(s) && Legal(s, run) && ShortRun(run)
    ensures FullInv(After(s, run))
    decreases |run|
  {
    if run != [] {
      StepKeepsInv(s, run[0]);
      StepKeepsFull(s, run[0]);
      RunKeepsFull(Apply(s, run[0]), run[1..]);
    }
  }

  lemma {:induction false} FullBytes(blocks: seq<Block>)
    requires AllFull(blocks)
    ensures SumLengths(Flatten(blocks)) >= |blocks| * (BUFFER_SIZE - MAX_RECORD)
    ensures |Flatten(blocks)| >= |blocks|
    decreases |blocks|
  {
    if blocks != [] {
      var init, last := blocks[..|blocks|-1], blocks[|blocks|-1];
      FullBytes(init);
      SumConcat(Flatten(init), last);
      assert Bytes(last) > 0;
    }
  }

  lemma {:induction false} SumConcat(a: seq<Record>, b: seq<Record>)
    ensures SumLengths(a + b) == SumLengths(a) + SumLengths(b)
    decreases |b|
  {
    if b == [] {
      assert a + b == a;
    } else {
      SumConcat(a, b[..|b|-1]);
      assert (a + b)[..|a + b|-1] == a + b[..|b|-1];
    }
  }

  /** The messages taken since the last swap. */
  function SinceSwap(s: State): seq<Record> {
    Flatten(s.buffers) + Content(s.current)
  }

  /** A batch can only become too long for the drop rule, from one swap to the next, under a load of
      25 buffers' worth of messages, short by less than one longest message each. */
  lemma LossThreshold(run: seq<Action>)
    requires Legal(Init, run) && ShortRun(run)
    ensures var s := After(Init, run);
      && s.appended == Flatten(Flatten(s.batches)) + SinceSwap(s)
      && (|Swap(s).toWrite| > MAX_BATCH
          ==> SumLengths(SinceSwap(s)) >= MAX_BATCH * (BUFFER_SIZE - MAX_RECORD))
  {
    RunKeepsInv(Init, run);
    RunKeepsFull(Init, run);
    Load(After(Init, run));
  }

  lemma Load(s: State)
    requires Conserved(s) && AllShort(s.appended) && AllFull(s.buffers)
    ensures s.appended == Flatten(Flatten(s.batches)) + SinceSwap(s)
    ensures SumLengths(SinceSwap(s)) >= |s.buffers| * (BUFFER_SIZE - MAX_RECORD)
  {
    AllAccepted(s.appended);
    FullBytes(s.buffers);
    SumConcat(Flatten(s.buffers), Content(s.current));
    Assoc(Flatten(Flatten(s.batches)), Flatten(s.buffers), Content(s.current));
  }

  lemma {:induction false} AllAccepted(rs: seq<Record>)
    requires AllShort(rs)
    ensures Accepted(rs) == rs
    decreases |rs|
  {
    if rs != [] { AllAccepted(rs[..|rs|-1]); }
  }

  /** Nothing is lost exactly when no batch was too long: the file and the buffers then hold every
      message ever appended, once, whole and in order. */
  lemma CompleteIffNoLongBatch(run: seq<Action>)
    requires Legal(Init, run) && ShortRun(run)
    ensures var s := After(Init, run);
      Held(s) == s.appended <==> forall k | 0 <= k < |Cut(s)| :: |Cut(s)[k]| <= MAX_BATCH
  {
    var s := After(Init, run);
    RunKeepsInv(Init, run);
    RunKeepsFull(Init, run);
    AllAccepted(s.appended);
    WrittenAndUnwritten(s);
    TakenLast(s);
    DiskIsAllIff(Cut(s));
    SameHead(Disk(Cut(s)), Flatten(Flatten(Cut(s))), JustTaken(s), Flatten(s.buffers), Content(s.current));
  }

  /** The batch between the swap and the drop rule. */
  function JustTaken(s: State): seq<Record> {
    if s.phase.Taken? then Flatten(s.toWrite) else []
  }

  lemma TakenLast(s: State)
    requires Shape(s)
    ensures Flatten(Flatten(s.batches)) == Flatten(Flatten(Cut(s))) + JustTaken(s)
  {
    if s.phase.Taken? {
      assert s.batches == Cut(s) + [s.toWrite];
      FlattenPush(Cut(s), s.toWrite);
      FlattenConcat(Flatten(Cut(s)), s.toWrite);
    }
  }

  lemma SameHead(a: seq<Record>, b: seq<Record>, t: seq<Record>, u: seq<Record>, v: seq<Record>)
    ensures a + t + u + v == b + t + u + v <==> a == b
  {
    if a + t + u + v == b + t + u + v {
      assert |a| == |b|;
      assert a == (a + t + u + v)[..|a|] == (b + t + u + v)[..|b|] == b;
    }
  }

  lemma {:induction false} DiskIsAllIff(batches: seq<seq<Block>>)
    requires forall k | 0 <= k < |batches| :: BatchFull(batches[k])
    ensures |Disk(batches)| <= |Flatten(Flatten(batches))|
    ensures if forall k | 0 <= k < |batches| :: |batches[k]| <= MAX_BATCH
            then Disk(batches) == Flatten(Flatten(batches))
            else |Disk(batches)| < |Flatten(Flatten(batches))|
    decreases |batches|
  {
    if batches != [] {
      var init, last := batches[..|batches|-1], batches[|batches|-1];
      DiskIsAllIff(init);
      FlattenConcat(Flatten(init), last);
      if |last| > MAX_BATCH {
        assert |Flatten(Kept(last))| < |Flatten(last)| by { LongBatchLoses(last); }
      }
    }
  }

  lemma LongBatchLoses(batch: seq<Block>)
    requires BatchFull(batch) && |batch| > MAX_BATCH
    ensures |Flatten(batch[..KEPT_BUFFERS])| < |Flatten(batch)|
  {
    var kept, dropped, last := batch[..KEPT_BUFFERS], batch[KEPT_BUFFERS..|batch|-1], batch[|batch|-1..];
    assert batch == kept + (dropped + last);
    FlattenConcat(kept, dropped + last);
    FlattenConcat(dropped, last);
    assert forall i | 0 <= i < |dropped| :: dropped[i] == batch[..|batch|-1][i + KEPT_BUFFERS];
    FullBytes(dropped);
  }

  // ---------------------------------------------------------------- stopping

  predicate Backend(a: Action) {
    !a.Append? && !a.Stop?
  }

  function BackendSteps(run: seq<Action>): nat {
    if run == [] then 0 else (if Backend(run[0]) then 1 else 0) + BackendSteps(run[1..])
  }

  /** At most this many more steps of the backend once it is to stop. */
  function UntilStopped(s: State): nat {
    match s.phase
    case Stopped => 0
    case Top => 1
    case Writing(next) => if next <= |s.toWrite| then 2 + |s.toWrite| - next else 2
    case Taken => 28
    case Waiting => 29
    case Ready => 30
  }

  lemma StepNearsStop(s: State, a: Action)
    requires Inv(s) && !s.running && Enabled(s, a)
    ensures var t := Apply(s, a);
      !t.running && UntilStopped(t) + (if Backend(a) then 1 else 0) <= UntilStopped(s) <= 30
  {
    hide Conserved, Disk, Flatten;
    assert s.phase.Taken? ==> |Kept(s.toWrite)| <= 25;
  }

  /** Once it is stopped the backend ends, after at most 30 steps of its own, whatever producers do: it is
      its thread that Stop() joins. */
  lemma {:induction false} StopEndsTheBackend(s: State, run: seq<Action>)
    requires Inv(s) && !s.running && Legal(s, run)
    ensures BackendSteps(run) + UntilStopped(After(s, run)) <= UntilStopped(s) <= 30
    ensures BackendSteps(run) >= 30 ==> After(s, run).phase.Stopped?
    decreases |run|
  {
    if run != [] {
      StepNearsStop(s, run[0]);
      StepKeepsInv(s, run[0]);
      StopEndsTheBackend(Apply(s, run[0]), run[1..]);
    } else {
      hide Conserved, Disk, Flatten;
    }
  }

  /** Until then it can always take its next step. */
  lemma BackendCanStep(s: State) returns (a: Action)
    requires !s.phase.Stopped?
    ensures Backend(a) && Enabled(s, a)
  {
    match s.phase
    case Top => a := Test;
    case Ready => a := Lock;
    case Waiting => a := Wake;
    case Taken => a := Erase;
    case Writing(i) => a := if i < |s.toWrite| then WriteOne else Recycle;
  }

  /** It ends only if it was told to, and is told to only by Stop(). */
  lemma EndsOnlyIfStopped(run: seq<Action>)
    requires Legal(Init, run)
    ensures After(Init, run).running <==> Stop !in run
    ensures After(Init, run).phase.Stopped? ==> Stop in run
  {
    RunningUntilStop(Init, run);
  }

  lemma {:induction false} RunningUntilStop(s: State, run: seq<Action>)
    requires Legal(s, run) && (s.phase.Stopped? ==> !s.running)
    ensures After(s, run).running <==> s.running && Stop !in run
    ensures After(s, run).phase.Stopped? ==> !After(s, run).running
    decreases |run|
  {
    if run != [] {
      assert run == [run[0]] + run[1..];
      RunningUntilStop(Apply(s, run[0]), run[1..]);
    }
  }

  /** With the mutex, the backend sleeps if and only if no buffer is filled. */
  lemma SleepsIff(s: State)
    requires s.phase.Ready?
    ensures var t := Apply(s, Lock);
      (t.phase.Waiting? <==> s.buffers == []) && (t.phase.Waiting? ==> t == s.(phase := Waiting))
  {
  }

  /** Else, and whenever it wakes, it takes all filled buffers and the current one, in order, and leaves two
      empty ones. */
  lemma TakesAll(s: State, a: Action)
    requires Inv(s) && ((s.phase.Ready? && s.buffers != [] && a == Lock) || (s.phase.Waiting? && a == Wake))
    ensures var t := Apply(s, a);
      && t.phase.Taken? && t.toWrite == s.buffers + [s.current.value] && t.buffers == []
      && t.current == Some([]) && t.next == Some([]) && t.appended == s.appended && t.file == s.file
  {
    hide Conserved, Disk, Flatten;
  }

  /** A message goes to the current buffer if more than its length is free there; else that buffer is filled,
      the next one, or a new one, takes its place, and the message goes there if it can. */
  lemma AppendsAs(s: State, r: Record)
    requires Inv(s)
    ensures var t, free := Apply(s, Append(r)), 4_000_000 - SumLengths(s.current.value);
      && t.phase == s.phase && t.file == s.file && t.toWrite == s.toWrite && t.appended == s.appended + [r]
      && if free > |r| then t.buffers == s.buffers && t.current == Some(s.current.value + [r]) && t.next == s.next
         else
           && t.buffers == s.buffers + [s.current.value] && t.next.None?
           && t.current == Some(if |r| < 4_000_000 then [r] else [])
  {
    assert [] + [r] == [r] && SumLengths<char>([]) == 0;
    hide Conserved, Disk, Flatten;
  }
}
