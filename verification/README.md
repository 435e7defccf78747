# Iterator-to-spliterator adapter of StreamEx, modelled in Dafny

StreamEx wraps a `java.util.Iterator` of unknown length in a `Spliterator`
that the fork/join stream framework can split. The repository ships this
adapter twice, as `IteratorSpliterator` and `UnknownSizeSpliterator`. The two
copies differ in one behaviour: `IteratorSpliterator.tryAdvance` rejects a null
action before doing anything. (Its array constructor is also public, where the
other copy's is package-private; Dafny has no such access levels.)

Each instance is a small state machine over the fields `it`, `array`, `index`
and `fence`:

- **live** (`it != null`): the elements are the iterator's remaining ones, and
  `fence` remembers the size of the previous batch;
- **buffered** (`it == null`): the elements are `array[index..fence)`.

A live `trySplit` pulls a batch of `min(fence + 1024, 2^25)` elements into a
fresh array. If the iterator still has elements, the batch becomes a buffered
sibling and the cursor stays live. If the iterator ran dry, the cursor adopts
the batch and halves it. A buffered `trySplit` gives the lower half of
`[index, fence)` to the sibling and keeps the upper half.

## Files

- `iterators.dfy` — module `Iterators`. It holds `SeqIterator`, the wrapped
  iterator: a fixed sequence of elements and a read position, with
  `hasNext`, `next` and `forEachRemaining`.
- `batching.dfy` — module `Batching`. It holds `BATCH_UNIT`, `MAX_BATCH`, the
  batch-size rule, its closed form over successive full batches, and the
  midpoint rule.
- `spliterators.dfy` — module `Spliterators`. It holds the class
  `BatchingSpliterator`, which models both Java classes. Its `flavor` constant
  picks the copy. The Java field `array` is called `buffer`, because `array`
  is a Dafny keyword. The ghost function `Rest()` gives the elements still to
  be delivered, in encounter order. Every operation is specified through it.
- `scenarios.dfy` — module `Scenarios`. It holds whole traversals: the
  repository's split tests, recursive split-and-drain, batch growth over
  5000 elements, and the two inputs behind the finding below.

Each class member stands for the same member of `UnknownSizeSpliterator.java`,
at the same place in that file: the constructors (:14-22), `trySplit`
(:24-45), `forEachRemaining` (:47-61), `tryAdvance` (:63-78), `estimateSize`
(:80-86) and `characteristics` (:88-94).

The action passed to `forEachRemaining` or `tryAdvance` is modelled as a
return value: the sequence of elements it receives, or an `Advance` value
(`Visited(x)`, `NotAdvanced`, `NullPointer`).

Four behaviours of the Java code are easy to misread, and the model keeps
each as written:

- When the iterator runs dry during the fill, the cursor adopts the partial
  batch and immediately splits it at its midpoint.
- A cursor whose iterator outlasts the batch stays live; only the batch
  becomes a buffered sibling.
- The batch grows arithmetically: 1024 more elements per split, up to 2^25.
- Only `IteratorSpliterator` checks for a null action. In
  `UnknownSizeSpliterator` a null action throws only when it is called. By
  then Java has already evaluated the argument, so the element has been
  taken.

## Model

| member | source | states |
|---|---|---|
| `Batching.BatchSize` | src/main/java/javax/util/streamex/IteratorSpliterator.java:28-30 | the batch size lies between `BATCH_UNIT` and `MAX_BATCH`; it is the previous size plus `BATCH_UNIT` unless that exceeds the cap, in which case it is the cap |
| `Batching.FullBatchClosedForm` | src/main/java/javax/util/streamex/IteratorSpliterator.java:8-9 | when every batch is filled, the k-th batch holds `min(1024·k, 2^25)` elements: 1024, 2048, 3072, …, never more than 2^25 |
| `Batching.Midpoint` | src/main/java/javax/util/streamex/IteratorSpliterator.java:41 | `mid` lies in `[lo, hi]`; the lower half is never larger than the upper half and is at most one smaller; the lower half is non-empty exactly when `hi - lo >= 2` |
| `Spliterators.BatchingSpliterator.FromIterator` | src/main/java/javax/util/streamex/IteratorSpliterator.java:14-16 | a live cursor with `index = fence = 0`, whose remaining elements are the iterator's |
| `Spliterators.BatchingSpliterator.FromArray` | src/main/java/javax/util/streamex/UnknownSizeSpliterator.java:18-22 | a buffered cursor whose remaining elements are `a[index..fence)` |
| `Spliterators.BatchingSpliterator.TrySplitAsWritten` | src/main/java/javax/util/streamex/IteratorSpliterator.java:24-43 | throws exactly when the cursor is live and its iterator is exhausted, and then changes nothing; otherwise the sibling's elements followed by this cursor's equal the old remaining elements, and when a sibling is returned both parts are non-empty; a live fill takes `min(BatchSize(fence), remaining)` elements, which `fence` records; the cursor stays live exactly when the iterator outlasts the batch, and the sibling is then `[0, fence)` of a full batch; once buffered, no split happens exactly when at most one element is left, and otherwise the sibling gets ⌊size/2⌋ elements `[index, mid)` of the same array |
| `Spliterators.BatchingSpliterator.SplitLive` | src/main/java/javax/util/streamex/UnknownSizeSpliterator.java:26-44 | live half of the split: `fence` becomes `min(n, remaining)`; the cursor stays live iff the iterator outlasts `n`, and then the sibling holds the first `n` elements while this cursor keeps the rest; otherwise the cursor owns a fresh array holding everything and halves it, with order and contents conserved |
| `Spliterators.BatchingSpliterator.FillBatch` | src/main/java/javax/util/streamex/UnknownSizeSpliterator.java:31-35 | a fresh array of `n` slots whose first `j = min(n, remaining) >= 1` slots are the iterator's next elements in order; the iterator has advanced by exactly `j` |
| `Spliterators.BatchingSpliterator.SplitBuffered` | src/main/java/javax/util/streamex/UnknownSizeSpliterator.java:43-44 | returns null exactly when `fence - index <= 1`, with nothing changed; otherwise the sibling covers `[index, mid)` of the same array and this cursor keeps `[mid, fence)`; the sibling holds ⌊size/2⌋ elements, both parts are non-empty and their concatenation is the old range |
| `Spliterators.BatchingSpliterator.TrySplit` | src/main/java/javax/util/streamex/UnknownSizeSpliterator.java:24-45 | the split with the fill guarded by `hasNext()`: it never throws; a live cursor with an exhausted iterator grants no split and changes nothing; otherwise the sibling's elements followed by this cursor's equal the old remaining elements, both non-empty when a sibling is returned; a live fill sets `fence` to `min(BatchSize(fence), remaining)` and the cursor stays live exactly when the iterator outlasts the batch, the sibling then being `[0, fence)` of a full batch; a dry fill leaves the cursor owning a fresh array with `index` at the split point (0 when no split); once buffered, no split happens exactly when at most one element is left, and a buffered split keeps the array and `fence` and gives the sibling ⌊size/2⌋ elements `[old index, mid)` |
| `Spliterators.BatchingSpliterator.ForEachRemaining` | src/main/java/javax/util/streamex/IteratorSpliterator.java:45-59 | the action receives exactly the remaining elements, each once and in order; afterwards nothing is left, `index == fence`, and the mode, array and fence are unchanged |
| `Spliterators.BatchingSpliterator.TryAdvance` | src/main/java/javax/util/streamex/IteratorSpliterator.java:61-77 | a null action makes `IteratorSpliterator` throw with nothing changed; otherwise false is returned iff nothing was left, and then the cursor is buffered and empty (`it = null`, `index = fence`); else the first remaining element is visited (or, with a null action in `UnknownSizeSpliterator`, taken and then NPE) and the rest is what follows it; a buffered cursor's `index` grows by one, a live cursor's is unchanged |
| `Spliterators.BatchingSpliterator.EstimateSize` | src/main/java/javax/util/streamex/IteratorSpliterator.java:79-85 | the exact number of remaining elements once buffered; `Long.MAX_VALUE` while live |
| `Spliterators.BatchingSpliterator.Characteristics` | src/main/java/javax/util/streamex/UnknownSizeSpliterator.java:88-94 | ORDERED is always set and no bit besides ORDERED, SIZED and SUBSIZED is; SIZED and SUBSIZED are set exactly when the cursor is buffered; SIZED is set exactly when `EstimateSize()` is the true remaining count, and otherwise the estimate is `Long.MAX_VALUE` |
| `Scenarios.AdvanceThenSplit` | src/test/java/javax/util/streamex/IteratorSpliteratorTest.java:14-31 | with the split as written, which does not throw here: over 0..99, the estimates are MAX, MAX, then 49/49 after the split, then 48/48 after one advance on each half; the visited values total 54 (the same test is UnknownSizeSpliteratorTest.java:15-32) |
| `Scenarios.TraverseSplit` | src/test/java/javax/util/streamex/UnknownSizeSpliteratorTest.java:35-40 | with the split guarded by `hasNext()` (`TrySplit`): for every source and either flavour, splitting as far as allowed and then draining the leaves in split order yields the source exactly |
| `Scenarios.TraverseSplitAsWritten` | src/test/java/javax/util/streamex/UnknownSizeSpliteratorTest.java:35-40 | with the split as written (`TrySplitAsWritten`): for every non-empty source and either flavour, no split throws, and the leaves drained in split order yield the source exactly |
| `Scenarios.SplitAndDrainAsWritten` | src/test/java/javax/util/streamex/UnknownSizeSpliteratorTest.java:43-51 | with the split as written (`TrySplitAsWritten`): on any valid cursor that is buffered or still has an element, no split throws and recursive split-then-drain yields exactly the remaining elements, in order |
| `Scenarios.SplitAndDrain` | src/test/java/javax/util/streamex/UnknownSizeSpliteratorTest.java:43-51 | with the guarded split (`TrySplit`): recursive split-then-drain of any valid cursor yields exactly its remaining elements, in order, so any sum over them equals the sequential one |
| `Scenarios.BatchGrowth` | src/main/java/javax/util/streamex/UnknownSizeSpliterator.java:28-39 | with the split as written, none of which throws: over 5000 elements, successive splits hand off batches of 1024 and 2048 while staying live; the third split adopts the last 1928 elements and halves them 964/964 |
| `Scenarios.SplitOfEmptySource` | src/main/java/javax/util/streamex/IteratorSpliterator.java:33 | a live cursor over an empty iterator reports `Long.MAX_VALUE`, yet the Java code's split throws; the guarded split returns null |
| `Scenarios.SplitAfterLastAdvance` | src/main/java/javax/util/streamex/UnknownSizeSpliterator.java:33-35 | after `tryAdvance` takes the only element, the cursor is still live and reports `Long.MAX_VALUE`; the Java code's split throws and the guarded split returns null |

## Findings

| source | as written | input that shows it | evidently intended | confidence | as-written member | corrected member |
|---|---|---|---|---|---|---|
| src/main/java/javax/util/streamex/IteratorSpliterator.java:33 | the live fill is a do-while loop that calls `i.next()` before it ever calls `i.hasNext()`; the same loop is at UnknownSizeSpliterator.java:33-35 | `trySplit` on a cursor over an empty iterator throws NoSuchElementException. So does `trySplit` on a one-element cursor after one successful `tryAdvance`. In both cases `estimateSize` still reports `Long.MAX_VALUE`, so a parallel stream will call `trySplit` | a live cursor whose iterator is exhausted grants no split and returns null. `java.util.Spliterators.IteratorSpliterator` does this by testing `hasNext()` first | high; not executed | `Spliterators.BatchingSpliterator.TrySplitAsWritten`, shown failing by `Scenarios.SplitOfEmptySource` and `Scenarios.SplitAfterLastAdvance` | `Spliterators.BatchingSpliterator.TrySplit` |

## Left out

- The iterator is a finite sequence read from a position. Infinite
  iterators, concurrent modification of the underlying collection, and any
  side effects of `hasNext` are not modelled.
- `Iterator.forEachRemaining`, which a live cursor forwards to, is foreign
  code. It is modelled as handing over every remaining element in order.
- `ForEachRemaining`: a null action is not modelled. Neither copy checks for
  one. In live mode the outcome depends on the wrapped iterator.
- The action's own side effects are not modelled. Only the sequence of
  elements it receives is.
- `FromArray`: requires `index <= fence <= a.Length`, which the Java
  constructor does not check. Under that requirement the `a.length >= hi`
  guard in `forEachRemaining` always holds. Out-of-range arguments (and the
  `ArrayIndexOutOfBoundsException` they would cause later) are not modelled.
- Java's 32-bit `int` and 64-bit `long` are modelled as unbounded naturals.
  No overflow can occur: a live `fence` never exceeds `MAX_BATCH`, so
  `fence + BATCH_UNIT` fits in an `int`. The unsigned shift
  `(lo + fence) >>> 1` equals floor division by 2 for any two non-negative
  `int`s.
- Unfilled batch slots hold Dafny's default value of the element type, where
  Java holds `null`. They are never read.
- The unchecked casts `(T) a[i]` and Java's access modifiers are not modelled.
- The parallel executor, `StreamSupport`, and the concurrency of parallel
  streams are not modelled. `SplitAndDrain` runs the divide-and-conquer
  schedule sequentially.
- The rest of the repository is not part of this model: the decorator layer
  of `DoubleStreamEx`, the pair-map, constant and zip spliterators, and the
  `double` variant `UnknownSizeSpliterator.USOfDouble`.
