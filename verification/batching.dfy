/** The sizing arithmetic of the spliterator: how large the next batch pulled
    from a live iterator is, and where a buffered range is halved. */
module Batching {

  /** `BATCH_UNIT = 1 << 10`: the increment of the batch size per split. */
  const BATCH_UNIT: nat := 1024
  /** `MAX_BATCH = 1 << 25`: the largest batch ever allocated. */
  const MAX_BATCH: nat := 0x200_0000

  function Min(a: nat, b: nat): nat
  {
    if a <= b then a else b
  }

  /** Size `n` of the array pulled in one live split, given the size of the
      previous batch (`fence`, 0 before the first split): the previous size
      plus one unit, capped at `MAX_BATCH`. */
  function BatchSize(prevBatch: nat): (n: nat)
    ensures BATCH_UNIT <= n <= MAX_BATCH
    ensures n <= prevBatch + BATCH_UNIT
    ensures n == prevBatch + BATCH_UNIT || n == MAX_BATCH
  {
    var n := prevBatch + BATCH_UNIT;
    if n > MAX_BATCH then MAX_BATCH else n
  }

  /** Size of the k-th batch when each of the first k batches was filled
      completely (each split then records `fence = n`). */
  function FullBatch(k: nat): nat
  {
    if k == 0 then 0 else BatchSize(FullBatch(k - 1))
  }

  /** Growth is arithmetic and capped: full batches are 1024, 2048, 3072, ...
      until they reach 2^25, and they never exceed it. */
  lemma {:induction false} FullBatchClosedForm(k: nat)
    ensures FullBatch(k) == Min(k * BATCH_UNIT, MAX_BATCH)
  {
    if k > 0 {
      FullBatchClosedForm(k - 1);
    }
  }

  /** `mid = (lo + hi) >>> 1`. The unsigned shift is exact floor division for
      any two non-negative `int`s, so the midpoint is computed on naturals. The
      lower half `[lo, mid)` is never larger than the upper half `[mid, hi)`,
      and the lower half is empty exactly when the range has at most one
      element. */
  function Midpoint(lo: nat, hi: nat): (mid: nat)
    requires lo <= hi
    ensures lo <= mid <= hi
    ensures mid - lo <= hi - mid <= mid - lo + 1
    ensures lo < mid <==> hi - lo >= 2
  {
    (lo + hi) / 2
  }
}
