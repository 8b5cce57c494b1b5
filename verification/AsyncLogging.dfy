/** The asynchronous logger over real buffer objects: the fields of `AsyncLogging`, the locals of
    its backend thread, and one method for each action of the state machine. */
module AsyncLogging {
  import opened Sequences
  import opened LogStream
  import opened AsyncLogSpec

  /** The pointer that owns a buffer. */
  datatype Place = Current | Next | Queue(i: nat) | Spare1 | Spare2 | Out(i: nat)

  function Cell(s: State, p: Place): Option<Block> {
    match p
    case Current => s.current
    case Next => s.next
    case Queue(i) => if i < |s.buffers| then Some(s.buffers[i]) else None
    case Spare1 => s.spare1
    case Spare2 => s.spare2
    case Out(i) => if i < |s.toWrite| then Some(s.toWrite[i]) else None
  }

  class Logger {
    var current: FixedBuffer?
    var next: FixedBuffer?
    var buffers: seq<FixedBuffer>
    var running: bool

    // Locals of the backend thread.
    var newBuffer1: FixedBuffer?
    var newBuffer2: FixedBuffer?
    var buffersToWrite: seq<FixedBuffer>
    var phase: Phase
    var file: string

    // The state on values, who owns each buffer, and which buffer each array belongs to.
    ghost var model: State
    ghost var place: map<FixedBuffer, Place>
    ghost var owner: map<array<char>, FixedBuffer>
    ghost var Repr: set<object>

    /** The buffer a pointer leads to. */
    ghost function Slot(p: Place): FixedBuffer?
      reads this
    {
      match p
      case Current => current
      case Next => next
      case Queue(i) => if i < |buffers| then buffers[i] else null
      case Spare1 => newBuffer1
      case Spare2 => newBuffer2
      case Out(i) => if i < |buffersToWrite| then buffersToWrite[i] else null
    }

    /** Each pointer leads to a buffer of its own, filled as the model says. */
    ghost predicate At(p: Place)
      reads this, Repr
    {
      var b := Slot(p);
      if b == null then Cell(model, p).None?
      else b in Repr && b in place && place[b] == p && Cell(model, p) == Some(b.records)
    }

    ghost predicate Placed()
      reads this, Repr
    {
      && |buffers| == |model.buffers| && |buffersToWrite| == |model.toWrite|
      && forall p :: At(p)
    }

    /** Every buffer is well formed and has its array to itself. */
    ghost predicate Intact()
      reads this, Repr
    {
      && this in Repr
      && forall b | b in place ::
        && b in Repr && b.data in Repr
        && b.data in owner && owner[b.data] == b
        && b.data.Length == BUFFER_SIZE && b.Valid()
    }

    ghost predicate Ownership()
      reads this, Repr
    {
      Placed() && Intact()
    }

    ghost predicate Valid()
      reads this, Repr
    {
      && Ownership() && Inv(model)
      && file == Flatten(model.file) && phase == model.phase && running == model.running
    }

    // What the fields have in common with the model, for code that does not look inside `Ownership`.
    lemma Links()
      requires Ownership()
      ensures current != null <==> model.current.Some?
      ensures next != null <==> model.next.Some?
      ensures newBuffer1 != null <==> model.spare1.Some?
      ensures newBuffer2 != null <==> model.spare2.Some?
      ensures |buffers| == |model.buffers| && |buffersToWrite| == |model.toWrite|
      ensures this in Repr
      ensures (newBuffer1 != null ==> newBuffer1 in Repr) && (newBuffer2 != null ==> newBuffer2 in Repr)
      ensures current != null ==>
        && current in Repr && current.data in Repr && current in place
        && current.Valid() && current.data.Length == BUFFER_SIZE && model.current == Some(current.records)
    {
      hide FixedBuffer.Valid;
      assert At(Current) && At(Next) && At(Spare1) && At(Spare2);
    }

    /** A buffer that the model has as empty is empty. */
    lemma EmptyAt(p: Place)
      requires Ownership() && Cell(model, p) == Some([])
      ensures Slot(p) != null && Slot(p).cur == 0
    {
      assert At(p);
      assert Slot(p).Valid();
    }

    // ---------------------------------------------------------------- how ownership is kept

    /** A change that leaves every pointer, every buffer and the model's cells as they were. */
    twostate lemma Unmoved()
      requires old(Ownership()) && Repr == old(Repr) && place == old(place) && owner == old(owner)
      requires |buffers| == |model.buffers| && |buffersToWrite| == |model.toWrite|
      requires forall p :: Slot(p) == old(Slot(p)) && Cell(model, p) == old(Cell(model, p))
      requires forall o <- Repr :: o != this ==> unchanged(o)
      ensures Ownership()
    {
      hide FixedBuffer.Valid;
      forall p ensures At(p) { assert old(At(p)); }
    }

    /** A buffer (if there is one) moves from one place to another. */
    twostate lemma Moved(new from: Place, new to: Place)
      requires old(Ownership()) && from != to && Repr == old(Repr) && owner == old(owner)
      requires old(Cell(model, to)) == None && Cell(model, to) == old(Cell(model, from)) && Cell(model, from) == None
      requires Slot(to) == old(Slot(from)) && Slot(from) == null
      requires |buffers| == |model.buffers| && |buffersToWrite| == |model.toWrite|
      requires forall p | p != from && p != to :: Slot(p) == old(Slot(p)) && Cell(model, p) == old(Cell(model, p))
      requires place == if Slot(to) == null then old(place) else old(place)[Slot(to) := to]
      requires forall o <- Repr :: o != this ==> unchanged(o)
      ensures Ownership()
    {
      hide FixedBuffer.Valid;
      assert old(At(from)) && old(At(to));
      assert Intact() by { hide At, Placed; }
      hide Intact;
      forall p ensures At(p) { assert old(At(p)); }
    }

    /** A buffer that is owned already is put in its place. */
    twostate lemma Filled(new to: Place, b: FixedBuffer)
      requires old(Ownership()) && Repr == old(Repr) && place == old(place) && owner == old(owner)
      requires old(Cell(model, to)) == None && Cell(model, to) == Some(b.records)
      requires b in place && place[b] == to && Slot(to) == b
      requires |buffers| == |model.buffers| && |buffersToWrite| == |model.toWrite|
      requires forall p | p != to :: Slot(p) == old(Slot(p)) && Cell(model, p) == old(Cell(model, p))
      requires forall o <- Repr :: o != this ==> unchanged(o)
      ensures Ownership()
    {
      hide FixedBuffer.Valid;
      forall p | p != to ensures At(p) { assert old(At(p)); }
    }

    /** The current buffer is written; no other buffer sees it. */
    twostate lemma Written()
      requires old(Ownership()) && Repr == old(Repr) && place == old(place) && owner == old(owner)
      requires current == old(current) && current != null && current.data == old(current.data)
      requires current.Valid() && Cell(model, Current) == Some(current.records)
      requires |buffers| == |model.buffers| && |buffersToWrite| == |model.toWrite|
      requires forall p | p != Current :: Slot(p) == old(Slot(p)) && Cell(model, p) == old(Cell(model, p))
      requires forall o <- Repr :: o != this && o != current && o != current.data ==> unchanged(o)
      ensures Ownership()
    {
      assert old(At(Current));
      forall b | b in place && b != current ensures b.Valid() { assert b.data != current.data; }
      hide FixedBuffer.Valid;
      forall p | p != Current ensures At(p) { assert old(At(p)); }
    }

    // ---------------------------------------------------------------- pointer moves

    constructor ()
      ensures Valid() && fresh(Repr) && model == Init
    {
      current, next, newBuffer1, newBuffer2 := null, null, null, null;
      running, buffers, buffersToWrite, phase, file := true, [], [], Top, "";
      model := Init.(current := None, next := None, spare1 := None, spare2 := None);
      place, owner, Repr := map[], map[], {this};
      new;
      InitInv();
      assert Ownership();
      hide Ownership;
      NewCurrent();
      NewNext();
      NewSpare1();
      NewSpare2();
    }

    method NewBuffer(p: Place) returns (b: FixedBuffer)
      requires Ownership()
      modifies this`place, this`owner, this`Repr
      ensures Ownership() && b in place && b.records == []
      ensures fresh(b) && fresh(b.data) && Repr == old(Repr) + {b, b.data}
      ensures place == old(place)[b := p]
    {
      hide FixedBuffer.Valid;
      b := new FixedBuffer(BUFFER_SIZE);
      place, owner, Repr := place[b := p], owner[b.data := b], Repr + {b, b.data};
      forall q ensures At(q) { assert old(At(q)); }
    }

    method NewCurrent()
      requires Ownership() && model.current.None?
      modifies this`current, this`place, this`owner, this`Repr, this`model
      ensures Ownership() && fresh(Repr - old(Repr))
      ensures model == old(model).(current := Some([]))
    {
      hide Ownership;
      var b := NewBuffer(Current);
      Links();
      label Made:
      current := b;
      model := model.(current := Some([]));
      Filled@Made(Current, b);
    }

    method NewNext()
      requires Ownership() && model.next.None?
      modifies this`next, this`place, this`owner, this`Repr, this`model
      ensures Ownership() && fresh(Repr - old(Repr))
      ensures model == old(model).(next := Some([]))
    {
      hide Ownership;
      var b := NewBuffer(Next);
      Links();
      label Made:
      next := b;
      model := model.(next := Some([]));
      Filled@Made(Next, b);
    }

    method NewSpare1()
      requires Ownership() && model.spare1.None?
      modifies this`newBuffer1, this`place, this`owner, this`Repr, this`model
      ensures Ownership() && fresh(Repr - old(Repr))
      ensures model == old(model).(spare1 := Some([]))
    {
      hide Ownership;
      var b := NewBuffer(Spare1);
      Links();
      label Made:
      newBuffer1 := b;
      model := model.(spare1 := Some([]));
      Filled@Made(Spare1, b);
    }

    method NewSpare2()
      requires Ownership() && model.spare2.None?
      modifies this`newBuffer2, this`place, this`owner, this`Repr, this`model
      ensures Ownership() && fresh(Repr - old(Repr))
      ensures model == old(model).(spare2 := Some([]))
    {
      hide Ownership;
      var b := NewBuffer(Spare2);
      Links();
      label Made:
      newBuffer2 := b;
      model := model.(spare2 := Some([]));
      Filled@Made(Spare2, b);
    }

    method PushCurrent()
      requires Ownership() && model.current.Some?
      modifies this`current, this`buffers, this`place, this`model
      ensures Ownership()
      ensures model == old(model).(buffers := old(model.buffers + [model.current.value]), current := None)
    {
      Links();
      hide Ownership;
      ghost var n := |buffers|;
      place := place[current := Queue(n)];
      buffers, current := buffers + [current], null;
      model := model.(buffers := model.buffers + [model.current.value], current := None);
      Moved(Current, Queue(n));
    }

    method NextToCurrent()
      requires Ownership() && model.current.None?
      modifies this`current, this`next, this`place, this`model
      ensures Ownership()
      ensures model == old(model).(current := old(model.next), next := None)
    {
      Links();
      hide Ownership;
      if next != null { place := place[next := Current]; }
      current, next := next, null;
      model := model.(current := model.next, next := None);
      Moved(Next, Current);
    }

    lemma RoomIs(logline: string)
      requires Ownership() && current != null
      ensures current.cur <= current.data.Length
      ensures current.Avail() > |logline| <==> Fits(current.records, logline)
    {
      Links();
      FlattenLength(current.records);
      hide Ownership;
    }

    /** `current_buffer_->Append`: no other buffer sees the write. */
    method AppendToCurrent(logline: string)
      requires Ownership() && model.current.Some?
      modifies Repr
      ensures Ownership() && Repr == old(Repr)
      ensures phase == old(phase) && file == old(file) && running == old(running)
      ensures model == old(model).(current := Some(Put(old(model.current.value), logline)),
                                   appended := old(model.appended) + [logline])
    {
      hide Ownership, Fits, Flatten, SumLengths, FixedBuffer.Valid;
      Links();
      RoomIs(logline);
      current.Append(logline);
      model := model.(current := Some(current.records), appended := model.appended + [logline]);
      Written();
    }

    method Spare1ToCurrent()
      requires Ownership() && model.current.None?
      modifies this`current, this`newBuffer1, this`place, this`model
      ensures Ownership()
      ensures model == old(model).(current := old(model.spare1), spare1 := None)
    {
      Links();
      hide Ownership;
      if newBuffer1 != null { place := place[newBuffer1 := Current]; }
      current, newBuffer1 := newBuffer1, null;
      model := model.(current := model.spare1, spare1 := None);
      Moved(Spare1, Current);
    }

    method Spare2ToNext()
      requires Ownership() && model.next.None?
      modifies this`next, this`newBuffer2, this`place, this`model
      ensures Ownership()
      ensures model == old(model).(next := old(model.spare2), spare2 := None)
    {
      Links();
      hide Ownership;
      if newBuffer2 != null { place := place[newBuffer2 := Next]; }
      next, newBuffer2 := newBuffer2, null;
      model := model.(next := model.spare2, spare2 := None);
      Moved(Spare2, Next);
    }

    /** `buffers_to_write.swap(buffers_)` */
    method SwapQueues()
      requires Ownership()
      modifies this`buffers, this`buffersToWrite, this`place, this`model
      ensures Ownership()
      ensures model == old(model).(buffers := old(model.toWrite), toWrite := old(model.buffers))
    {
      hide FixedBuffer.Valid, At;
      assert forall p :: At(p);
      buffers, buffersToWrite := buffersToWrite, buffers;
      place := map b | b in place :: Swapped(place[b]);
      model := model.(buffers := model.toWrite, toWrite := model.buffers);
      forall p ensures At(p) { SwappedAt(p); }
    }

    /** The buffer behind a pointer of the swapped queues is where its new name says. */
    twostate lemma SwappedAt(p: Place)
      requires old(At(Swapped(p))) && Repr == old(Repr)
      requires unchanged(this`current) && unchanged(this`next)
      requires unchanged(this`newBuffer1) && unchanged(this`newBuffer2)
      requires buffers == old(buffersToWrite) && buffersToWrite == old(buffers)
      requires place == map b | b in old(place) :: Swapped(old(place)[b])
      requires model == old(model).(buffers := old(model.toWrite), toWrite := old(model.buffers))
      requires forall b <- place.Keys :: b.records == old(b.records)
      ensures At(p)
    {
    }

    /** Keeps the first n buffers of the batch; the others are freed. */
    method Shrink(n: nat)
      requires Ownership() && n <= |model.toWrite|
      modifies this`buffersToWrite, this`model
      ensures Ownership()
      ensures model == old(model).(toWrite := old(model.toWrite)[..n])
      ensures n <= |old(buffersToWrite)| && buffersToWrite == old(buffersToWrite)[..n]
    {
      hide FixedBuffer.Valid;
      buffersToWrite := buffersToWrite[..n];
      model := model.(toWrite := model.toWrite[..n]);
      forall p ensures At(p) { assert old(At(p)); }
    }

    /** `new_buffer_1 = buffers_to_write.back(); buffers_to_write.pop_back()` */
    method PopToSpare1()
      requires Ownership() && model.spare1.None? && model.toWrite != []
      modifies this`newBuffer1, this`buffersToWrite, this`place, this`model
      ensures Ownership()
      ensures model == old(model).(spare1 := Some(old(model.toWrite[|model.toWrite|-1])),
                                   toWrite := old(Pop(model.toWrite)))
    {
      Links();
      hide Ownership;
      var n := |buffersToWrite| - 1;
      newBuffer1 := buffersToWrite[n];
      place := place[newBuffer1 := Spare1];
      buffersToWrite := buffersToWrite[..n];
      model := model.(spare1 := Some(model.toWrite[n]), toWrite := Pop(model.toWrite));
      Moved(Out(n), Spare1);
    }

    method ResetSpare1()
      requires Ownership() && model.spare1.Some?
      modifies newBuffer1, this`model
      ensures Ownership()
      ensures model == old(model).(spare1 := Some([]))
    {
      hide FixedBuffer.Valid;
      assert At(Spare1);
      newBuffer1.Reset();
      model := model.(spare1 := Some([]));
      forall p | p != Spare1 ensures At(p) { assert old(At(p)) && old(At(Spare1)); }
    }

    /** `new_buffer_2 = buffers_to_write.back(); buffers_to_write.pop_back()` */
    method PopToSpare2()
      requires Ownership() && model.spare2.None? && model.toWrite != []
      modifies this`newBuffer2, this`buffersToWrite, this`place, this`model
      ensures Ownership()
      ensures model == old(model).(spare2 := Some(old(model.toWrite[|model.toWrite|-1])),
                                   toWrite := old(Pop(model.toWrite)))
    {
      Links();
      hide Ownership;
      var n := |buffersToWrite| - 1;
      newBuffer2 := buffersToWrite[n];
      place := place[newBuffer2 := Spare2];
      buffersToWrite := buffersToWrite[..n];
      model := model.(spare2 := Some(model.toWrite[n]), toWrite := Pop(model.toWrite));
      Moved(Out(n), Spare2);
    }

    method ResetSpare2()
      requires Ownership() && model.spare2.Some?
      modifies newBuffer2, this`model
      ensures Ownership()
      ensures model == old(model).(spare2 := Some([]))
    {
      hide FixedBuffer.Valid;
      assert At(Spare2);
      newBuffer2.Reset();
      model := model.(spare2 := Some([]));
      forall p | p != Spare2 ensures At(p) { assert old(At(p)) && old(At(Spare2)); }
    }

    method Goto(p: Phase)
      requires Ownership()
      modifies this`phase, this`model
      ensures Ownership() && phase == p
      ensures model == old(model).(phase := p)
    {
      Links();
      hide Ownership;
      phase, model := p, model.(phase := p);
      Unmoved();
    }

    method SetRunning(r: bool)
      requires Ownership()
      modifies this`running, this`model
      ensures Ownership() && running == r
      ensures model == old(model).(running := r)
    {
      Links();
      hide Ownership;
      running, model := r, model.(running := r);
      Unmoved();
    }

    lemma OutText(i: nat)
      requires Ownership() && i < |buffersToWrite|
      ensures var b := buffersToWrite[i];
        i < |model.toWrite| && b.cur <= b.data.Length && b.Text() == Flatten(model.toWrite[i])
    {
      assert At(Out(i)) && buffersToWrite[i].Valid();
    }

    method WriteBuffer(i: nat)
      requires Ownership() && i < |buffersToWrite| && file == Flatten(model.file)
      modifies this`file, this`model
      ensures Ownership() && file == Flatten(model.file)
      ensures model == old(model).(file := old(model.file + model.toWrite[i]))
    {
      hide Ownership, Flatten, FixedBuffer.Valid, FixedBuffer.Text;
      OutText(i);
      Links();
      ghost var records := model.toWrite[i];
      FlattenConcat(model.file, records);
      file := file + buffersToWrite[i].Text();
      model := model.(file := model.file + records);
      Unmoved();
    }

    // ---------------------------------------------------------------- the actions

    /** The current buffer is full: it is queued, and the next one, or a new one, takes its place. */
    method Rotate()
      requires Ownership() && model.current.Some?
      modifies this
      ensures Ownership() && fresh(Repr - old(Repr))
      ensures model == old(model).(buffers := old(model.buffers + [model.current.value]), next := None,
                                   current := Some(Content(old(model.next))))
      ensures phase == old(phase) && file == old(file) && running == old(running)
    {
      hide Ownership;
      PushCurrent();
      Links();
      if next != null {
        NextToCurrent();
      } else {
        NewCurrent();
      }
    }

    method AppendLocked(logline: string)
      requires Ownership() && model.current.Some?
      modifies Repr
      ensures Ownership() && fresh(Repr - old(Repr))
      ensures model == AppendRecord(old(model), logline)
      ensures model.phase == old(model.phase) && model.file == old(model.file) && model.running == old(model.running)
      ensures phase == old(phase) && file == old(file) && running == old(running)
    {
      Links();
      FlattenLength(current.records);
      var fits := current.Avail() > |logline|;
      assert fits <==> Fits(model.current.value, logline);
      hide Ownership, Fits;
      if !fits {
        Rotate();
      }
      AppendToCurrent(logline);
    }

    method Append(logline: string)
      requires Valid()
      modifies Repr
      ensures model == Apply(old(model), AsyncLogSpec.Append(logline))
      ensures Valid() && fresh(Repr - old(Repr))
    {
      hide Ownership, Inv, AppendRecord, Swap, HandBack, Flatten;
      InvSafe(model, AsyncLogSpec.Append(logline));
      StepKeepsInv(model, AsyncLogSpec.Append(logline));
      AppendLocked(logline);
    }

    method Stop()
      requires Valid()
      modifies this`running, this`model
      ensures model == Apply(old(model), AsyncLogSpec.Stop)
      ensures Valid() && !running
    {
      hide Ownership, Inv, AppendRecord, Swap, HandBack, Flatten;
      StepKeepsInv(model, AsyncLogSpec.Stop);
      SetRunning(false);
    }

    method Test()
      requires Valid() && phase.Top?
      modifies this`phase, this`model
      ensures model == Apply(old(model), AsyncLogSpec.Test)
      ensures Valid() && phase == if running then Ready else Stopped
      ensures phase.Ready? ==>
        && newBuffer1 != null && newBuffer1.cur == 0 && newBuffer2 != null && newBuffer2.cur == 0
        && buffersToWrite == []
    {
      hide Ownership, Inv, AppendRecord, Swap, HandBack, Flatten;
      Links();
      InvSafe(model, AsyncLogSpec.Test);
      StepKeepsInv(model, AsyncLogSpec.Test);
      if running {
        EmptyAt(Spare1);
        EmptyAt(Spare2);
        assert newBuffer1 != null && newBuffer1.cur == 0;
        assert newBuffer2 != null && newBuffer2.cur == 0;
        assert buffersToWrite == [];
        Goto(Ready);
      } else {
        Goto(Stopped);
      }
    }

    method SwapLocked()
      requires Ownership() && model.current.Some? && model.spare1.Some?
      modifies this`current, this`next, this`buffers, this`newBuffer1, this`newBuffer2, this`buffersToWrite,
               this`place, this`model, this`phase
      ensures Ownership() && phase == model.phase && phase.Taken?
      ensures model == Swap(old(model)) && model.file == old(model.file) && model.running == old(model.running)
    {
      hide Ownership;
      PushCurrent();
      Spare1ToCurrent();
      SwapQueues();
      Links();
      if next == null {
        Spare2ToNext();
      }
      NoteBatch();
      Goto(Taken);
    }

    ghost method NoteBatch()
      requires Ownership()
      modifies this`model
      ensures Ownership()
      ensures model == old(model).(batches := old(model.batches) + [old(model.toWrite)])
    {
      Links();
      hide Ownership;
      model := model.(batches := model.batches + [model.toWrite]);
      Unmoved();
    }

    /** Takes the mutex; waits when no buffer is filled. */
    method Lock()
      requires Valid() && phase.Ready?
      modifies this
      ensures model == Apply(old(model), AsyncLogSpec.Lock)
      ensures Valid() && Repr == old(Repr)
      ensures if old(buffers) == [] then phase.Waiting? else phase.Taken?
    {
      hide Ownership, Inv, AppendRecord, Swap, HandBack, Flatten;
      Links();
      StepKeepsInv(model, AsyncLogSpec.Lock);
      ReadyToSwap(model);
      if buffers == [] {
        Goto(Waiting);
      } else {
        SwapLocked();
      }
    }

    method Wake()
      requires Valid() && phase.Waiting?
      modifies this
      ensures model == Apply(old(model), AsyncLogSpec.Wake)
      ensures Valid() && Repr == old(Repr) && phase.Taken?
    {
      hide Ownership, Inv, AppendRecord, Swap, HandBack, Flatten;
      StepKeepsInv(model, AsyncLogSpec.Wake);
      ReadyToSwap(model);
      SwapLocked();
    }

    /** The drop rule. */
    method Erase()
      requires Valid() && phase.Taken?
      modifies this`buffersToWrite, this`phase, this`model
      ensures model == Apply(old(model), AsyncLogSpec.Erase)
      ensures Valid()
      ensures buffersToWrite == if |old(buffersToWrite)| > 25 then old(buffersToWrite)[..2] else old(buffersToWrite)
    {
      hide Ownership, Inv, AppendRecord, Swap, HandBack, Flatten;
      Links();
      InvSafe(model, AsyncLogSpec.Erase);
      StepKeepsInv(model, AsyncLogSpec.Erase);
      assert buffersToWrite != [];
      if |buffersToWrite| > MAX_BATCH {
        Shrink(KEPT_BUFFERS);
      }
      Goto(Writing(0));
    }

    /** One turn of the write loop: `output.Append(buffers_to_write[i]->data(), ->length())`. */
    method WriteOne()
      requires Valid() && phase.Writing? && phase.next < |buffersToWrite|
      modifies this`file, this`phase, this`model
      ensures model == Apply(old(model), AsyncLogSpec.WriteOne)
      ensures Valid()
    {
      hide Ownership, Inv, AppendRecord, Swap, HandBack, Flatten;
      Links();
      StepKeepsInv(model, AsyncLogSpec.WriteOne);
      var i := phase.next;
      WriteBuffer(i);
      Goto(Writing(i + 1));
    }

    method Refill1()
      requires Ownership() && (model.spare1.None? ==> model.toWrite != [])
      modifies Repr
      ensures Ownership() && Repr == old(Repr)
      ensures phase == old(phase) && file == old(file) && running == old(running)
      ensures model == if old(model.spare1.None?)
                       then old(model).(spare1 := Some([]), toWrite := Pop(old(model.toWrite))) else old(model)
    {
      Links();
      hide Ownership;
      if newBuffer1 == null {
        assert buffersToWrite != [];
        PopToSpare1();
        Links();
        ResetSpare1();
      }
    }

    method Refill2()
      requires Ownership() && (model.spare2.None? ==> model.toWrite != [])
      modifies Repr
      ensures Ownership() && Repr == old(Repr)
      ensures phase == old(phase) && file == old(file) && running == old(running)
      ensures model == if old(model.spare2.None?)
                       then old(model).(spare2 := Some([]), toWrite := Pop(old(model.toWrite))) else old(model)
    {
      Links();
      hide Ownership;
      if newBuffer2 == null {
        assert buffersToWrite != [];
        PopToSpare2();
        Links();
        ResetSpare2();
      }
    }

    method GiveBack()
      requires Ownership() && Safe(model, AsyncLogSpec.Recycle)
      modifies Repr
      ensures Ownership() && Repr == old(Repr) && phase == model.phase
      ensures file == old(file) && running == old(running)
      ensures model == HandBack(old(model)) && model.file == old(model.file) && model.running == old(model.running)
    {
      Links();
      hide Ownership;
      if |buffersToWrite| > KEPT_BUFFERS {
        Shrink(KEPT_BUFFERS);
      }
      Refill1();
      Refill2();
      Shrink(0);
      Goto(Top);
    }

    /** Two of the written buffers become the backend's spare ones again. */
    method Recycle()
      requires Valid() && phase.Writing? && phase.next >= |buffersToWrite|
      modifies Repr
      ensures Enabled(old(model), AsyncLogSpec.Recycle) && model == Apply(old(model), AsyncLogSpec.Recycle)
      ensures Valid() && Repr == old(Repr)
    {
      hide Ownership, Inv, AppendRecord, Swap, HandBack, Flatten;
      Links();
      InvSafe(model, AsyncLogSpec.Recycle);
      StepKeepsInv(model, AsyncLogSpec.Recycle);
      GiveBack();
    }
  }

  function Swapped(p: Place): Place {
    match p
    case Queue(i) => Out(i)
    case Out(i) => Queue(i)
    case _ => p
  }
}
