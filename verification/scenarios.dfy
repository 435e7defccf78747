/** Whole traversals of a spliterator, as the stream framework and the
    repository's tests drive it. */
module Scenarios {
  import opened Batching
  import opened Iterators
  import opened Spliterators

  /** The divide-and-conquer schedule, run sequentially: split while a split
      is granted, traverse the sibling (the earlier elements) first, then the
      rest of this cursor, and drain every leaf. The concatenated leaves are
      exactly the elements the cursor had. */
  method SplitAndDrain<T(0)>(s: BatchingSpliterator<T>) returns (out: seq<T>)
    requires s.Valid()
    modifies s, s.it
    ensures out == old(s.Rest())
    decreases |s.Rest()|
  {
    var sibling := s.TrySplit();
    if sibling == null {
      out := s.ForEachRemaining();
    } else {
      var lower := SplitAndDrain(sibling);
      var upper := SplitAndDrain(s);
      out := lower + upper;
    }
  }

  /** The same schedule with the split exactly as the Java code has it. A
      live cursor must have an element left, since that split throws
      otherwise; every cursor the schedule then reaches meets this again,
      so no split on the way throws. */
  method SplitAndDrainAsWritten<T(0)>(s: BatchingSpliterator<T>) returns (out: seq<T>)
    requires s.Valid() && (s.it != null ==> s.it.HasNext())
    modifies s, s.it
    ensures out == old(s.Rest())
    decreases |s.Rest()|
  {
    var thrown, sibling := s.TrySplitAsWritten();
    assert !thrown;
    if sibling == null {
      out := s.ForEachRemaining();
    } else {
      var lower := SplitAndDrainAsWritten(sibling);
      var upper := SplitAndDrainAsWritten(s);
      out := lower + upper;
    }
  }

  /** A spliterator built over any iterator, split as far as the guarded
      split allows and drained leaf by leaf in split order, yields every
      element exactly once, in the iterator's order; so any sum over the
      leaves equals the sequential one. */
  method TraverseSplit<T(0)>(source: seq<T>, flavor: Flavor) returns (out: seq<T>)
    ensures out == source
  {
    var src := new SeqIterator(source);
    var s := new BatchingSpliterator.FromIterator(src, flavor);
    out := SplitAndDrain(s);
  }

  /** The same traversal with the split exactly as the Java code has it,
      over any non-empty iterator: no split throws, and the leaves again
      yield the source exactly. */
  method TraverseSplitAsWritten<T(0)>(source: seq<T>, flavor: Flavor) returns (out: seq<T>)
    requires source != []
    ensures out == source
  {
    var src := new SeqIterator(source);
    var s := new BatchingSpliterator.FromIterator(src, flavor);
    out := SplitAndDrainAsWritten(s);
  }

  /** 100 elements 0..99: two advances visit 0 and 1; the split adopts the
      remaining 98 as one batch and halves it 49/49; one more advance on
      each half visits 51 and 2, leaving 48/48; the visited values add up
      to 54. */
  method AdvanceThenSplit(flavor: Flavor) returns (estimates: seq<int>, count: int)
    ensures estimates == [LONG_MAX, LONG_MAX, 49, 49, 48, 48]
    ensures count == 54
  {
    var input := seq(100, i => i);
    var src := new SeqIterator(input);
    var s := new BatchingSpliterator.FromIterator(src, flavor);
    var e0 := s.EstimateSize();
    var first := AdvanceTwice(s);
    var e1 := s.EstimateSize();
    var s2 := SplitInHalves(s);
    var e2, e3 := s.EstimateSize(), s2.EstimateSize();
    var x, y := AdvanceBoth(s, s2);
    var e4, e5 := s.EstimateSize(), s2.EstimateSize();
    estimates := [e0, e1, e2, e3, e4, e5];
    count := first[0] + first[1] + x + y;
  }

  /** Two advances on a live cursor visit its first two elements; the
      cursor stays live. */
  method AdvanceTwice<T(0)>(s: BatchingSpliterator<T>) returns (visited: seq<T>)
    requires s.Valid() && s.it != null && |s.Rest()| >= 2
    modifies s, s.it
    ensures s.Valid() && s.it == old(s.it) && s.fence == old(s.fence) && s.index == old(s.index)
    ensures visited == old(s.Rest())[..2] && s.Rest() == old(s.Rest())[2..]
  {
    var r1 := s.TryAdvance(false);
    var r2 := s.TryAdvance(false);
    visited := [r1.x, r2.x];
  }

  /** The first split of a live cursor with 98 elements left (fewer than the
      first batch of 1024) adopts them all and halves them; the split as
      written does not throw here. */
  method SplitInHalves<T(0)>(s: BatchingSpliterator<T>) returns (sibling: BatchingSpliterator<T>)
    requires s.Valid() && s.it != null && s.index == 0 && s.fence == 0 && |s.Rest()| == 98
    modifies s, s.it
    ensures s.Valid() && fresh(sibling) && sibling.Valid()
    ensures s.it == null && sibling.it == null
    ensures sibling.Rest() == old(s.Rest())[..49] && s.Rest() == old(s.Rest())[49..]
  {
    ghost var rest := s.Rest();
    var thrown, s2 := s.TrySplitAsWritten();
    assert !thrown;
    assert s.it == null && s2 != null && |s2.Rest()| == 49;
    sibling := s2;
  }

  /** One advance on each of two distinct buffered cursors visits the first
      element of each. */
  method AdvanceBoth<T(0)>(s: BatchingSpliterator<T>, t: BatchingSpliterator<T>) returns (x: T, y: T)
    requires s != t && s.Valid() && t.Valid() && s.it == null && t.it == null
    requires s.Rest() != [] && t.Rest() != []
    modifies s, t
    ensures s.Valid() && t.Valid() && s.it == null && t.it == null
    ensures x == old(s.Rest())[0] && s.Rest() == old(s.Rest())[1..]
    ensures y == old(t.Rest())[0] && t.Rest() == old(t.Rest())[1..]
  {
    var r := s.TryAdvance(false);
    assert t.Rest() == old(t.Rest());
    var q := t.TryAdvance(false);
    x, y := r.x, q.x;
  }

  /** 5000 elements: the first two splits hand off full batches of 1024 and
      2048 elements while the cursor stays live (size unknown); the third
      batch of up to 3072 drains the remaining 1928, which the cursor adopts
      and halves 964/964. The split is the one written in the Java code,
      and none of the three throws. */
  method BatchGrowth(flavor: Flavor) returns (sizes: seq<int>, live: seq<bool>)
    ensures sizes == [1024, 2048, 964, 964]
    ensures live == [true, true, false]
  {
    var input := seq(5000, i => i);
    var src := new SeqIterator(input);
    var s := new BatchingSpliterator.FromIterator(src, flavor);
    var thrown1, b1 := s.TrySplitAsWritten();
    assert !thrown1;
    assert BatchSize(0) == 1024;
    assert s.it != null && b1 != null && s.fence == 1024 && |s.Rest()| == 3976;
    var live1 := s.it != null;
    var thrown2, b2 := s.TrySplitAsWritten();
    assert !thrown2;
    assert BatchSize(1024) == 2048;
    assert s.it != null && b2 != null && s.fence == 2048 && |s.Rest()| == 1928;
    var live2 := s.it != null;
    var thrown3, b3 := s.TrySplitAsWritten();
    assert !thrown3;
    assert BatchSize(2048) == 3072;
    assert s.it == null && b3 != null && |b3.Rest()| == 964;
    var live3 := s.it != null;
    var n1, n2 := b1.EstimateSize(), b2.EstimateSize();
    assert n1 == 1024 && n2 == 2048;
    var n3, n4 := b3.EstimateSize(), s.EstimateSize();
    assert n3 == 964 && n4 == 964;
    sizes := [n1, n2, n3, n4];
    live := [live1, live2, live3];
  }

  /** The Java code's `trySplit` on a live cursor over an empty iterator
      throws NoSuchElementException, although the cursor reports an unknown
      size; guarded by `hasNext()`, the same call grants no split. */
  method SplitOfEmptySource(flavor: Flavor) returns (estimate: int, thrown: bool, guardedSplit: bool)
    ensures estimate == LONG_MAX
    ensures thrown
    ensures !guardedSplit
  {
    var empty := new SeqIterator<int>([]);
    var s := new BatchingSpliterator.FromIterator(empty, flavor);
    estimate := s.EstimateSize();
    var sibling;
    thrown, sibling := s.TrySplitAsWritten();
    sibling := s.TrySplit();
    guardedSplit := sibling != null;
  }

  /** The same happens once `tryAdvance` has taken the last element: the
      cursor is still live, so the Java code's `trySplit` throws. */
  method SplitAfterLastAdvance(flavor: Flavor) returns (estimate: int, thrown: bool, guardedSplit: bool)
    ensures estimate == LONG_MAX
    ensures thrown
    ensures !guardedSplit
  {
    var one := new SeqIterator([7]);
    var s := new BatchingSpliterator.FromIterator(one, flavor);
    var r := s.TryAdvance(false);
    assert s.it != null && s.Rest() == [];
    estimate := s.EstimateSize();
    var sibling;
    thrown, sibling := s.TrySplitAsWritten();
    sibling := s.TrySplit();
    guardedSplit := sibling != null;
  }
}
