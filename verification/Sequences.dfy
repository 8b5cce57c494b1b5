/** Options and the few sequence functions the other modules share. */
module Sequences {

  datatype Option<+T> = None | Some(value: T)

  function Flatten<T>(parts: seq<seq<T>>): seq<T> {
    if parts == [] then [] else Flatten(parts[..|parts|-1]) + parts[|parts|-1]
  }

  lemma Assoc<T>(a: seq<T>, b: seq<T>, c: seq<T>)
    ensures (a + b) + c == a + (b + c)
  {
  }

  lemma FlattenPush<T>(parts: seq<seq<T>>, last: seq<T>)
    ensures Flatten(parts + [last]) == Flatten(parts) + last
  {
    assert (parts + [last])[..|parts|] == parts;
  }

  lemma {:induction false} FlattenConcat<T>(a: seq<seq<T>>, b: seq<seq<T>>)
    ensures Flatten(a + b) == Flatten(a) + Flatten(b)
    decreases |b|
  {
    if b == [] {
      assert a + b == a;
    } else {
      var init, last := b[..|b|-1], b[|b|-1];
      assert a + b == (a + init) + [last];
      FlattenPush(a + init, last);
      FlattenConcat(a, init);
      Assoc(Flatten(a), Flatten(init), last);
    }
  }

  function SumLengths<T>(parts: seq<seq<T>>): nat {
    if parts == [] then 0 else SumLengths(parts[..|parts|-1]) + |parts[|parts|-1]|
  }

  lemma {:induction false} FlattenLength<T>(parts: seq<seq<T>>)
    ensures |Flatten(parts)| == SumLengths(parts)
    decreases |parts|
  {
    if parts != [] { FlattenLength(parts[..|parts|-1]); }
  }
}
