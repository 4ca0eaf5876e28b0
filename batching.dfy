/** The partition step of `BatchQuery`: the deduplicated items are cut
    into contiguous half-open slices `[start, end)` of at most
    `MaxBatchSize` items, the way the `startIdx`/`endIdx` loop does it. */
module Batching {

  /** The remote service accepts at most this many addresses per call. */
  const MaxBatchSize: nat := 100

  /** The half-open index range `[start, end)` of one batch. */
  datatype Slice = Slice(start: nat, end: nat)
  {
    function Size(): int { end - start }
  }

  /** Where one iteration of the loop ends its batch: `start + 100`,
      clamped to the length `n`. */
  function BatchEnd(start: nat, n: nat): (end: nat)
    requires start <= n
    ensures start <= end <= n
    ensures end - start <= MaxBatchSize
    ensures end < n ==> end == start + MaxBatchSize
  {
    if start + MaxBatchSize > n then n else start + MaxBatchSize
  }

  /** The slices the loop emits when `startIdx` starts at `start`: the body
      runs before the exit test, so at least one slice is always emitted. */
  function BatchesFrom(start: nat, n: nat): (rs: seq<Slice>)
    requires start <= n
    decreases n - start
  {
    var end := BatchEnd(start, n);
    [Slice(start, end)] + (if end >= n then [] else BatchesFrom(end, n))
  }

  /** Every slice lies within `[0, n)`. */
  ghost predicate InBounds(rs: seq<Slice>, n: nat)
  {
    forall k :: 0 <= k < |rs| ==> rs[k].start <= rs[k].end <= n
  }

  /** The slices tile `[start, n)`: the first starts at `start`, each
      starts where the previous one ended, the last ends at `n`, none is
      larger than `MaxBatchSize` and all but the last have exactly that size. */
  ghost predicate Tiles(rs: seq<Slice>, start: nat, n: nat)
  {
    && |rs| >= 1
    && rs[0].start == start
    && rs[|rs| - 1].end == n
    && InBounds(rs, n)
    && (forall k :: 0 <= k < |rs| ==> start <= rs[k].start && rs[k].Size() <= MaxBatchSize)
    && (forall k :: 0 <= k < |rs| - 1 ==> rs[k + 1].start == rs[k].end)
    && (forall k :: 0 <= k < |rs| - 1 ==> rs[k].Size() == MaxBatchSize)
  }

  lemma {:induction false} BatchesFromTile(start: nat, n: nat)
    requires start <= n
    ensures Tiles(BatchesFrom(start, n), start, n)
    decreases n - start
  {
    var end := BatchEnd(start, n);
    if end < n {
      BatchesFromTile(end, n);
      var rest := BatchesFrom(end, n);
      var rs := BatchesFrom(start, n);
      assert rs == [Slice(start, end)] + rest;
      forall k | 0 <= k < |rs| - 1
        ensures rs[k + 1].start == rs[k].end && rs[k].Size() == MaxBatchSize
      {
        if k > 0 {
          assert rs[k] == rest[k - 1] && rs[k + 1] == rest[k];
        }
      }
      forall k | 0 <= k < |rs|
        ensures start <= rs[k].start <= rs[k].end <= n && rs[k].Size() <= MaxBatchSize
      {
        if k > 0 {
          assert rs[k] == rest[k - 1];
        }
      }
    }
  }

  /** All slices the loop emits for `n` deduplicated items. */
  function Batches(n: nat): (rs: seq<Slice>)
    ensures InBounds(rs, n)
  {
    BatchesFromInBounds(0, n);
    BatchesFrom(0, n)
  }

  /** The slices of `n` items start at 0, are contiguous, end at `n`, and
      are all full except possibly the last. */
  lemma BatchesTile(n: nat)
    ensures Tiles(Batches(n), 0, n)
  {
    BatchesFromTile(0, n);
  }

  lemma {:induction false} BatchesFromCount(start: nat, n: nat)
    requires start <= n
    ensures |BatchesFrom(start, n)| ==
      if n == start then 1 else (n - start + MaxBatchSize - 1) / MaxBatchSize
    decreases n - start
  {
    var end := BatchEnd(start, n);
    if end < n {
      BatchesFromCount(end, n);
    }
  }

  /** There are `max(1, ceil(n / 100))` slices: empty input still yields one
      (empty) slice. */
  lemma BatchesCount(n: nat)
    ensures |Batches(n)| == if n == 0 then 1 else (n + MaxBatchSize - 1) / MaxBatchSize
  {
    BatchesFromCount(0, n);
  }

  /** The sub-sequences `items[start:end]` the slices select, in order. */
  function Chunks<T>(items: seq<T>, rs: seq<Slice>): (cs: seq<seq<T>>)
    requires InBounds(rs, |items|)
    ensures |cs| == |rs|
  {
    seq(|rs|, k requires 0 <= k < |rs| => items[rs[k].start..rs[k].end])
  }

  function Concat<T>(ss: seq<seq<T>>): seq<T>
  {
    if ss == [] then [] else ss[0] + Concat(ss[1..])
  }

  lemma SplitAt<T>(items: seq<T>, i: nat, j: nat)
    requires i <= j <= |items|
    ensures items[i..] == items[i..j] + items[j..]
  {
  }

  lemma BatchesFromInBounds(start: nat, n: nat)
    requires start <= n
    ensures InBounds(BatchesFrom(start, n), n)
  {
    BatchesFromTile(start, n);
  }

  lemma ChunksSplit<T>(items: seq<T>, rs: seq<Slice>)
    requires InBounds(rs, |items|) && rs != []
    ensures InBounds(rs[1..], |items|)
    ensures Chunks(items, rs)[0] == items[rs[0].start..rs[0].end]
    ensures Chunks(items, rs)[1..] == Chunks(items, rs[1..])
  {
    assert forall k :: 0 <= k < |rs| - 1 ==> rs[1..][k] == rs[k + 1];
  }

  lemma {:induction false} ConcatBatchesFrom<T>(items: seq<T>, start: nat)
    requires start <= |items|
    ensures InBounds(BatchesFrom(start, |items|), |items|)
    ensures Concat(Chunks(items, BatchesFrom(start, |items|))) == items[start..]
    decreases |items| - start
  {
    BatchesFromInBounds(start, |items|);
    var end := BatchEnd(start, |items|);
    var rs := BatchesFrom(start, |items|);
    var cs := Chunks(items, rs);
    ChunksSplit(items, rs);
    assert cs[0] == items[start..end];
    if end < |items| {
      var rest := BatchesFrom(end, |items|);
      ConcatBatchesFrom(items, end);
      assert rs[1..] == rest;
      assert Concat(cs) == cs[0] + Concat(cs[1..]);
      assert Concat(cs[1..]) == items[end..];
      SplitAt(items, start, end);
    } else {
      assert cs[1..] == [];
      assert end == |items|;
      assert Concat(cs) == cs[0] + Concat(cs[1..]);
    }
  }

  /** The batches handed to the workers, concatenated in creation order,
      give back the items; each holds at most `MaxBatchSize` items and all
      but the last exactly that many. */
  lemma ChunksOfBatches<T>(items: seq<T>)
    ensures var cs := Chunks(items, Batches(|items|));
      && Concat(cs) == items
      && (forall k :: 0 <= k < |cs| ==> |cs[k]| <= MaxBatchSize)
      && (forall k :: 0 <= k < |cs| - 1 ==> |cs[k]| == MaxBatchSize)
  {
    ConcatBatchesFrom(items, 0);
    BatchesTile(|items|);
  }

  /** One iteration of the loop: the slice it emits extends the prefix of
      `Batches(n)` emitted so far, and the last one completes it. */
  lemma BatchesFromStep(done: seq<Slice>, start: nat, n: nat)
    requires start <= n && done + BatchesFrom(start, n) == Batches(n)
    ensures var end := BatchEnd(start, n);
      && (end < n ==> (done + [Slice(start, end)]) + BatchesFrom(end, n) == Batches(n))
      && (end >= n ==> done + [Slice(start, end)] == Batches(n))
  {
    var end := BatchEnd(start, n);
    var rest := if end >= n then [] else BatchesFrom(end, n);
    assert BatchesFrom(start, n) == [Slice(start, end)] + rest;
    assert done + ([Slice(start, end)] + rest) == (done + [Slice(start, end)]) + rest;
  }

  lemma ChunksAppend<T>(items: seq<T>, rs: seq<Slice>, r: Slice)
    requires InBounds(rs, |items|) && r.start <= r.end <= |items|
    ensures InBounds(rs + [r], |items|)
    ensures Chunks(items, rs + [r]) == Chunks(items, rs) + [items[r.start..r.end]]
  {
    assert forall k :: 0 <= k < |rs| ==> (rs + [r])[k] == rs[k];
  }

  /** Empty input still yields exactly one slice, the empty `[0, 0)`. */
  lemma EmptyInputOneEmptyBatch()
    ensures Batches(0) == [Slice(0, 0)]
  {
  }
}
