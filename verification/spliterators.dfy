/** The adapter from an iterator of unknown length to a splittable cursor.
    The repository ships it twice, as `IteratorSpliterator` and
    `UnknownSizeSpliterator`; one class with a `flavor` constant covers both. */
module Spliterators {
  import opened Batching
  import opened Iterators

  /** `Long.MAX_VALUE`: the size reported while the length is unknown. */
  const LONG_MAX: int := 0x7fff_ffff_ffff_ffff

  /** Characteristic bits of `java.util.Spliterator`. */
  const ORDERED: bv32 := 0x0000_0010
  const SIZED: bv32 := 0x0000_0040
  const SUBSIZED: bv32 := 0x0000_4000

  /** The two copies of the class. They differ only in `tryAdvance`:
      `IteratorSpliterator` rejects a null action before doing anything. */
  datatype Flavor = IteratorSpliterator | UnknownSizeSpliterator

  /** What one `tryAdvance` call does: hand an element to the action and
      return true, return false, or throw NullPointerException. */
  datatype Advance<T> = Visited(x: T) | NotAdvanced | NullPointer

  /** A cursor in one of two modes.
      Live (`it != null`): the elements are the iterator's remaining ones and
      `fence` only remembers the size of the previous batch.
      Buffered (`it == null`): the elements are `buffer[index..fence]`; the
      buffer may be shared with siblings but is never written after the fill. */
  class BatchingSpliterator<T(0)> {
    const flavor: Flavor
    var it: SeqIterator?<T>
    var buffer: array?<T>  // the Java field `array`
    var index: nat
    var fence: nat

    ghost predicate Valid()
      reads this, it
    {
      index <= fence &&
      (it != null ==>
         it.Valid() && buffer == null && fence <= MAX_BATCH &&
         // index is only moved off 0 by a drain, which empties the iterator
         (index == 0 || !it.HasNext())) &&
      (it == null ==>
         (buffer == null ==> index == fence) &&
         (buffer != null ==> fence <= buffer.Length))
    }

    /** The elements this cursor has still to deliver, in encounter order. */
    ghost function Rest(): seq<T>
      reads this, it, buffer
      requires Valid()
    {
      if it != null then it.Remaining()
      else if buffer == null then []
      else buffer[index..fence]
    }

    /** `new IteratorSpliterator<>(iterator)`: a live cursor. */
    constructor FromIterator(source: SeqIterator<T>, flavor: Flavor)
      requires source.Valid()
      ensures Valid() && this.flavor == flavor
      ensures it == source && buffer == null && index == 0 && fence == 0
      ensures Rest() == source.Remaining()
    {
      this.flavor := flavor;
      it := source;
      buffer := null;
      index, fence := 0, 0;
    }

    /** `new IteratorSpliterator<>(array, index, fence)`: a buffered cursor
        over `a[index..fence]`. */
    constructor FromArray(a: array<T>, index: nat, fence: nat, flavor: Flavor)
      requires index <= fence <= a.Length
      ensures Valid() && this.flavor == flavor
      ensures it == null && buffer == a && this.index == index && this.fence == fence
      ensures Rest() == a[index..fence]
    {
      this.flavor := flavor;
      it := null;
      buffer := a;
      this.index, this.fence := index, fence;
    }

    /** `trySplit` exactly as the Java code has it: the fill loop calls `next()`
        before its first `hasNext()`, so a live cursor whose iterator is
        exhausted throws NoSuchElementException (`thrown`), leaving every
        field as it was. Otherwise:
        - live, and the iterator outlasts the batch of `BatchSize(fence)`
          elements: the batch becomes a buffered sibling, this cursor stays
          live and records the batch size in `fence`;
        - live, and the iterator runs dry during the fill: this cursor adopts
          the batch as its buffer and falls through to the buffered split;
        - buffered: the range is halved, the sibling takes the lower half.
        In every case the sibling's elements followed by this cursor's are
        the elements this cursor had before. */
    method TrySplitAsWritten() returns (thrown: bool, sibling: BatchingSpliterator?<T>)
      requires Valid()
      modifies this, it
      ensures Valid()
      ensures it == null || it == old(it)
      ensures thrown <==> old(it) != null && old(Rest()) == []
      ensures thrown ==> sibling == null && unchanged(this) && Rest() == old(Rest())
      // conservation: nothing lost, nothing duplicated, order kept
      ensures sibling == null ==> Rest() == old(Rest())
      ensures sibling != null ==>
        fresh(sibling) && sibling.Valid() && sibling.it == null && sibling.buffer != null &&
        sibling.flavor == flavor &&
        sibling.Rest() != [] && Rest() != [] &&
        sibling.Rest() + Rest() == old(Rest())
      // live mode: the fill takes min(n, remaining) elements, n = BatchSize(fence)
      ensures old(it) != null && !thrown ==>
        fence == Min(BatchSize(old(fence)), |old(Rest())|) &&
        (it != null <==> |old(Rest())| > BatchSize(old(fence)))
      ensures old(it) != null && it != null && !thrown ==>
        sibling != null && sibling.index == 0 && sibling.fence == fence &&
        |sibling.Rest()| == fence == BatchSize(old(fence))
      ensures old(it) != null && it == null && !thrown ==>
        buffer != null && fresh(buffer) && index == (if sibling == null then 0 else |sibling.Rest()|)
      // buffered mode (entered or already in): halving at the midpoint
      ensures it == null ==>
        (sibling == null <==> |old(Rest())| <= 1) &&
        (sibling != null ==> |sibling.Rest()| == |old(Rest())| / 2)
      ensures old(it) == null ==>
        buffer == old(buffer) && fence == old(fence) &&
        (sibling != null ==>
           sibling.buffer == buffer && sibling.index == old(index) &&
           sibling.fence == index == Midpoint(old(index), fence))
    {
      thrown, sibling := false, null;
      if it != null {
        if !it.HasNext() {
          // the fill's first call to next() throws NoSuchElementException
          thrown := true;
          return;
        }
        sibling := SplitLive();
      } else {
        sibling := SplitBuffered();
      }
    }

    /** The live half of `trySplit`, on an iterator that holds at least one
        element: a batch of `min(n, remaining)` elements is pulled, with
        `n = BatchSize(fence)`, and `fence` records its size. If the iterator
        outlasts the batch, the batch is handed off as a buffered sibling
        over `[0, fence)` and this cursor stays live; otherwise this cursor
        adopts the batch and splits it as a buffered cursor would. */
    method SplitLive() returns (sibling: BatchingSpliterator?<T>)
      requires Valid() && it != null && it.HasNext()
      modifies this, it
      ensures Valid() && (it == null || it == old(it))
      ensures fence == Min(BatchSize(old(fence)), |old(Rest())|)
      ensures it != null <==> |old(Rest())| > BatchSize(old(fence))
      ensures it != null ==>
        sibling != null && fresh(sibling) && sibling.Valid() && sibling.it == null &&
        sibling.buffer != null && sibling.flavor == flavor &&
        sibling.index == 0 && sibling.fence == fence && fence == BatchSize(old(fence)) &&
        sibling.Rest() == old(Rest())[..fence] && Rest() == old(Rest())[fence..]
      ensures it == null ==>
        buffer != null && fresh(buffer) &&
        (sibling == null <==> |old(Rest())| <= 1) &&
        (sibling == null ==> index == 0 && Rest() == old(Rest())) &&
        (sibling != null ==>
           fresh(sibling) && sibling.Valid() && sibling.it == null && sibling.buffer == buffer &&
           sibling.flavor == flavor &&
           |sibling.Rest()| == |old(Rest())| / 2 == index &&
           sibling.Rest() != [] && Rest() != [] &&
           sibling.Rest() + Rest() == old(Rest()))
    {
      var i := it;
      var n := fence + BATCH_UNIT;
      if n > MAX_BATCH {
        n := MAX_BATCH;
      }
      ghost var R := i.Remaining();
      var a, j := FillBatch(i, n);
      fence := j;
      if i.HasNext() {
        sibling := new BatchingSpliterator.FromArray(a, 0, j, flavor);
        return;
      }
      it := null;
      buffer := a;
      assert Rest() == a[..j] == R;
      sibling := SplitBuffered();
    }

    /** The fill loop of a live `trySplit`: a fresh array of `n` slots
        receives the iterator's next elements, in order, until it is full or
        the iterator runs dry. As in the Java code, `next()` is called once
        before `hasNext()` is first asked. */
    static method FillBatch(i: SeqIterator<T>, n: nat) returns (a: array<T>, j: nat)
      requires i.Valid() && i.HasNext() && n >= 1
      modifies i
      ensures i.Valid() && fresh(a) && a.Length == n
      ensures 1 <= j == Min(n, |old(i.Remaining())|)
      ensures a[..j] == old(i.Remaining())[..j]
      ensures i.Remaining() == old(i.Remaining())[j..]
    {
      ghost var R := i.Remaining();
      a := new T[n];
      var x := i.Next();
      a[0] := x;
      j := 1;
      while j < n && i.HasNext()
        invariant 1 <= j <= n && j <= |R|
        invariant i.Valid() && i.Remaining() == R[j..]
        invariant a[..j] == R[..j]
        decreases n - j
      {
        x := i.Next();
        a[j] := x;
        j := j + 1;
      }
    }

    /** The buffered half of `trySplit`: `[index, fence)` is cut at its
        midpoint; the sibling takes the lower half `[index, mid)` over the
        same array and this cursor keeps `[mid, fence)`. No split is granted
        exactly when at most one element is left. */
    method SplitBuffered() returns (sibling: BatchingSpliterator?<T>)
      requires Valid() && it == null
      modifies this
      ensures Valid() && it == null && buffer == old(buffer) && fence == old(fence)
      ensures sibling == null <==> |old(Rest())| <= 1
      ensures sibling == null ==> unchanged(this)
      ensures sibling != null ==>
        fresh(sibling) && sibling.Valid() && sibling.it == null && sibling.flavor == flavor &&
        sibling.buffer == buffer && sibling.index == old(index) &&
        sibling.fence == index == Midpoint(old(index), fence)
      ensures sibling != null ==>
        |sibling.Rest()| == |old(Rest())| / 2 &&
        sibling.Rest() != [] && Rest() != [] &&
        sibling.Rest() + Rest() == old(Rest())
    {
      var lo := index;
      var mid := Midpoint(lo, fence);
      if lo < mid {
        sibling := new BatchingSpliterator.FromArray(buffer, lo, mid, flavor);
        index := mid;
      } else {
        sibling := null;
      }
    }

    /** `trySplit` with the fill guarded by `hasNext()`: a live cursor whose
        iterator is exhausted grants no split and changes nothing; in every
        other case it behaves as `TrySplitAsWritten`. */
    method TrySplit() returns (sibling: BatchingSpliterator?<T>)
      requires Valid()
      modifies this, it
      ensures Valid()
      ensures it == null || it == old(it)
      ensures old(it) != null && old(Rest()) == [] ==> sibling == null && unchanged(this)
      ensures sibling == null ==> Rest() == old(Rest())
      ensures sibling != null ==>
        fresh(sibling) && sibling.Valid() && sibling.it == null && sibling.buffer != null &&
        sibling.flavor == flavor &&
        sibling.Rest() != [] && Rest() != [] &&
        sibling.Rest() + Rest() == old(Rest())
      ensures old(it) != null && old(Rest()) != [] ==>
        fence == Min(BatchSize(old(fence)), |old(Rest())|) &&
        (it != null <==> |old(Rest())| > BatchSize(old(fence)))
      ensures old(it) != null && it != null && old(Rest()) != [] ==>
        sibling != null && sibling.index == 0 && sibling.fence == fence &&
        |sibling.Rest()| == fence == BatchSize(old(fence))
      ensures old(it) != null && it == null && old(Rest()) != [] ==>
        buffer != null && fresh(buffer) && index == (if sibling == null then 0 else |sibling.Rest()|)
      ensures it == null ==>
        (sibling == null <==> |old(Rest())| <= 1) &&
        (sibling != null ==> |sibling.Rest()| == |old(Rest())| / 2)
      ensures old(it) == null ==>
        buffer == old(buffer) && fence == old(fence) &&
        (sibling != null ==>
           sibling.buffer == buffer && sibling.index == old(index) &&
           sibling.fence == index == Midpoint(old(index), fence))
    {
      if it != null && !it.HasNext() {
        return null;
      }
      var thrown;
      thrown, sibling := TrySplitAsWritten();
    }

    /** `forEachRemaining(action)`: the action receives every remaining
        element once, in order (returned as `visited`); afterwards nothing is
        left and `index == fence`. A live cursor forwards to the iterator. */
    method ForEachRemaining() returns (visited: seq<T>)
      requires Valid()
      modifies this, it
      ensures Valid()
      ensures visited == old(Rest()) && Rest() == []
      ensures it == old(it) && buffer == old(buffer) && fence == old(fence) && index == fence
    {
      if it != null {
        visited := it.ForEachRemaining();
      } else {
        visited := [];
        var a := buffer;
        var i, hi := index, fence;
        if i < hi && a.Length >= hi {
          visited := visited + [a[i]];
          i := i + 1;
          while i < hi
            invariant index < i <= hi
            invariant visited == a[index..i]
          {
            visited := visited + [a[i]];
            i := i + 1;
          }
        }
      }
      index := fence;
    }

    /** `tryAdvance(action)`, the action being null or not. With a non-null
        action: the first remaining element is visited and true returned, or,
        with nothing left, false is returned and the cursor becomes buffered
        and empty (a live cursor sets `it = null`, `index = fence`).
        With a null action `IteratorSpliterator` throws at once; the
        `UnknownSizeSpliterator` copy throws only when it calls the action,
        after the element has been taken. */
    method TryAdvance(actionIsNull: bool) returns (r: Advance<T>)
      requires Valid()
      modifies this, it
      ensures Valid()
      ensures it == null || it == old(it)
      ensures r != NotAdvanced ==> it == old(it)
      ensures old(it) != null && r != NotAdvanced ==> index == old(index)
      ensures buffer == old(buffer) && fence == old(fence)
      ensures actionIsNull && flavor == IteratorSpliterator ==>
        r == NullPointer && unchanged(this) && Rest() == old(Rest())
      ensures !(actionIsNull && flavor == IteratorSpliterator) ==>
        (r == NotAdvanced <==> old(Rest()) == []) &&
        (old(Rest()) == [] ==> it == null && index == fence && Rest() == []) &&
        (old(Rest()) != [] ==>
           Rest() == old(Rest())[1..] &&
           r == if actionIsNull then NullPointer else Visited(old(Rest())[0]))
      ensures old(it) == null && old(Rest()) != [] && !(actionIsNull && flavor == IteratorSpliterator) ==>
        index == old(index) + 1
    {
      if actionIsNull && flavor == IteratorSpliterator {
        return NullPointer;
      }
      if it != null {
        if it.HasNext() {
          var x := it.Next();
          return if actionIsNull then NullPointer else Visited(x);
        } else {
          it := null;
          index := fence;
        }
      } else if index < fence {
        var x := buffer[index];
        index := index + 1;
        return if actionIsNull then NullPointer else Visited(x);
      }
      return NotAdvanced;
    }

    /** `estimateSize()`: exact once buffered, `Long.MAX_VALUE` while live. */
    function EstimateSize(): (size: int)
      reads this, it, buffer
      requires Valid()
      ensures it == null ==> size == |Rest()|
      ensures it != null ==> size == LONG_MAX
    {
      if it == null then fence - index else LONG_MAX
    }

    /** `characteristics()`: always ORDERED; SIZED and SUBSIZED exactly when
        buffered, that is exactly when the size estimate is the true count. */
    function Characteristics(): (c: bv32)
      reads this, it, buffer
      requires Valid()
      ensures (c & ORDERED) == ORDERED
      ensures (c & !(ORDERED | SIZED | SUBSIZED)) == 0
      ensures ((c & SIZED) == SIZED) <==> it == null
      ensures ((c & SUBSIZED) == SUBSIZED) <==> it == null
      ensures ((c & SIZED) == SIZED) ==> EstimateSize() == |Rest()|
      ensures ((c & SIZED) != SIZED) ==> EstimateSize() == LONG_MAX
    {
      if it == null then SIZED | SUBSIZED | ORDERED else ORDERED
    }
  }
}
