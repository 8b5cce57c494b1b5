/** What the lazily cleaned timer queue stands for: a table from connections to deadlines. */
module TimerSpec {
  import opened Timer

  /** When a connection was armed, on a clock that does not wrap, and for how long. */
  datatype Deadline = Deadline(armedAt: nat, timeout: nat) {
    function Due(): nat { armedAt + timeout }

    /** The same as the code calculates it. */
    function Wrapped(): nat { armedAt % WINDOW + timeout }
  }

  type Table<C> = map<C, Deadline>

  datatype Op<C> =
    | Arm(c: C, d: Deadline)
    | Disarm(c: C)
    | Expire(closed: set<C>, first: nat, now: nat)  // its first and last reading of the clock

  function Step<C>(table: Table<C>, op: Op<C>): Table<C> {
    match op
    case Arm(c, d) => table[c := d]
    case Disarm(c) => table - {c}
    case Expire(closed, _, _) => table - closed
  }

  function TableAfter<C>(ops: seq<Op<C>>): Table<C> {
    if ops == [] then map[] else Step(TableAfter(ops[..|ops|-1]), ops[|ops|-1])
  }

  /** What may expire: nothing before it is due; all whose wrapped deadline the last reading has reached;
      and nothing else, unless the clock wraps around in between. */
  ghost predicate Legal<C>(table: Table<C>, op: Op<C>) {
    op.Expire? ==>
      && op.closed <= table.Keys
      && (forall c <- op.closed :: table[c].Due() <= op.now)
      && (forall c <- table.Keys :: table[c].Wrapped() <= op.now % WINDOW ==> c in op.closed)
      && (op.first / WINDOW == op.now / WINDOW ==> forall c <- op.closed :: table[c].Wrapped() <= op.now % WINDOW)
  }

  ghost predicate LegalRun<C>(ops: seq<Op<C>>) {
    ops == [] || (LegalRun(ops[..|ops|-1]) && Legal(TableAfter(ops[..|ops|-1]), ops[|ops|-1]))
  }

  predicate Touches<C>(op: Op<C>, c: C) {
    match op
    case Arm(c', _) => c' == c
    case Disarm(c') => c' == c
    case Expire(closed, _, _) => c in closed
  }

  /** Operation j arms c, and up to operation i nothing has changed that. */
  predicate ArmedSince<C>(ops: seq<Op<C>>, c: C, j: nat, i: nat) {
    j < i <= |ops| && ops[j].Arm? && ops[j].c == c && forall k | j < k < i :: !Touches(ops[k], c)
  }

  /** The table holds a connection's latest arming that has been neither disarmed nor carried out. */
  lemma {:induction false} InTable<C>(ops: seq<Op<C>>, c: C) returns (j: nat)
    ensures c in TableAfter(ops) ==> ArmedSince(ops, c, j, |ops|) && TableAfter(ops)[c] == ops[j].d
    ensures c !in TableAfter(ops) ==> forall k: nat :: !ArmedSince(ops, c, k, |ops|)
    decreases |ops|
  {
    j := 0;
    if ops != [] {
      var n := |ops| - 1;
      j := InTable(ops[..n], c);
      if ops[n].Arm? && ops[n].c == c {
        j := n;
      } else if c !in TableAfter(ops) {
        forall k: nat ensures !ArmedSince(ops, c, k, |ops|) {
          if ArmedSince(ops, c, k, |ops|) && k < n {
            assert ops[..n][k] == ops[k] && !Touches(ops[n], c);
            assert forall l | k < l < n :: ops[..n][l] == ops[l];
            assert ArmedSince(ops[..n], c, k, n);
          }
        }
      }
    }
  }

  lemma {:induction false} LegalAt<C>(ops: seq<Op<C>>, i: nat)
    requires LegalRun(ops) && i < |ops|
    ensures Legal(TableAfter(ops[..i]), ops[i])
    decreases |ops|
  {
    var n := |ops| - 1;
    if i < n {
      LegalAt(ops[..n], i);
      assert ops[..n][..i] == ops[..i];
    }
  }

  lemma ArmedOnce<C>(ops: seq<Op<C>>, c: C, j: nat, k: nat, i: nat)
    requires ArmedSince(ops, c, j, i) && ArmedSince(ops, c, k, i)
    ensures j == k
  {
    assert Touches(ops[j], c) && Touches(ops[k], c);
  }

  /** Over every run: an expiry closes only connections whose latest arming is due and was never undone;
      unless the clock wraps around while it is read, it closes exactly those whose wrapped deadline is
      reached; and of those armed since the clock last wrapped around, exactly the due ones. */
  lemma ExpiryIsExact<C>(ops: seq<Op<C>>, i: nat, c: C) returns (j: nat)
    requires LegalRun(ops) && i < |ops| && ops[i].Expire?
    ensures c in ops[i].closed ==> ArmedSince(ops, c, j, i) && ops[j].d.Due() <= ops[i].now
    ensures forall k: nat | ArmedSince(ops, c, k, i) ::
      var d, e := ops[k].d, ops[i];
      && (d.Wrapped() <= e.now % WINDOW ==> c in e.closed)
      && (e.first / WINDOW == e.now / WINDOW ==> (c in e.closed <==> d.Wrapped() <= e.now % WINDOW))
      && (d.armedAt / WINDOW == e.now / WINDOW ==> (c in e.closed <==> d.Due() <= e.now))
  {
    LegalAt(ops, i);
    j := InTable(ops[..i], c);
    assert forall k | 0 <= k < i :: ops[..i][k] == ops[k];
    forall k: nat | ArmedSince(ops, c, k, i)
      ensures c in TableAfter(ops[..i]) && k == j
    {
      assert ArmedSince(ops[..i], c, k, i);
      assert ArmedSince(ops, c, j, i);
      ArmedOnce(ops, c, j, k, i);
    }
    hide TableAfter, LegalRun;
    assert c in ops[i].closed ==> ArmedSince(ops[..i], c, j, i);
  }

  // ---------------------------------------------------------------- the clock

  /** A deadline that the wrapped clock has reached is due. */
  lemma NeverEarly(d: Deadline, now: nat)
    requires d.armedAt <= now && d.Wrapped() <= now % WINDOW
    ensures d.Due() <= now
  {
  }

  /** Later in the same window, a reading is not lower. */
  lemma Later(first: nat, t: nat, now: nat)
    requires first <= t <= now && first / WINDOW == now / WINDOW
    ensures t / WINDOW == now / WINDOW && t % WINDOW <= now % WINDOW
  {
  }

  lemma ExactInWindow(d: Deadline, now: nat)
    requires d.armedAt <= now && d.armedAt / WINDOW == now / WINDOW
    ensures d.Wrapped() <= now % WINDOW <==> d.Due() <= now
  {
  }

  /** Some deadlines the clock never reaches: those behind the point where it wraps around. */
  lemma CanExpireIff(d: Deadline)
    ensures (exists now: nat :: d.armedAt <= now && d.Wrapped() <= now % WINDOW) <==> d.Wrapped() < WINDOW
  {
    if d.Wrapped() < WINDOW {
      assert d.armedAt <= d.Due() && d.Wrapped() <= d.Due() % WINDOW;
    }
  }
}
