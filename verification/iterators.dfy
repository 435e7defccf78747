/** The pull source that the spliterator wraps: a `java.util.Iterator` whose
    elements are given up front as a sequence and read from a moving position.
    Only the three operations the spliterator calls are modelled. */
module Iterators {

  class SeqIterator<T> {
    /** Every element the iterator will ever produce, in order. */
    const elems: seq<T>
    /** How many of them `Next` has already handed out. */
    var pos: nat

    ghost predicate Valid()
      reads this
    {
      pos <= |elems|
    }

    /** The elements still to come, in encounter order. */
    ghost function Remaining(): seq<T>
      reads this
      requires Valid()
    {
      elems[pos..]
    }

    constructor (elems: seq<T>)
      ensures Valid() && this.elems == elems && Remaining() == elems
    {
      this.elems := elems;
      pos := 0;
    }

    /** `hasNext()`: reads the iterator without advancing it. */
    predicate HasNext()
      reads this
      requires Valid()
      ensures HasNext() <==> Remaining() != []
    {
      pos < |elems|
    }

    /** `next()`. On an exhausted iterator Java throws NoSuchElementException;
        callers that may reach that case test `HasNext()` first and model the
        exception themselves. */
    method Next() returns (x: T)
      requires Valid() && HasNext()
      modifies this
      ensures Valid()
      ensures x == old(Remaining())[0] && Remaining() == old(Remaining())[1..]
    {
      x := elems[pos];
      pos := pos + 1;
    }

    /** `forEachRemaining(action)`: hands every remaining element to the
        action, returned here as the sequence of visits. */
    method ForEachRemaining() returns (visited: seq<T>)
      requires Valid()
      modifies this
      ensures Valid()
      ensures visited == old(Remaining()) && Remaining() == []
    {
      visited := elems[pos..];
      pos := |elems|;
    }
  }
}
