/** Splitting the sampled indices of each storage shard over its training workers. */
module Sampling {
  import opened Arithmetic
  import opened Sequences

  datatype Workers = Blocks(ofStorage: seq<seq<nat>>) | NotPositive | NotDivisible

  /** `width` consecutive worker ids from `start` on. */
  function Block(start: nat, width: nat): seq<nat> {
    seq(width, i requires 0 <= i < width => start + i)
  }

  /** Shard `s` has the workers from `s * width` on. */
  ghost predicate Contiguous(blocks: seq<seq<nat>>, width: nat) {
    forall s | 0 <= s < |blocks| :: blocks[s] == Block(Product(s, width), width)
  }

  /** Even, contiguous blocks of workers. */
  method AssignTrainWorkers(numWorkers: int, numStorages: nat) returns (workers: Workers)
    requires numStorages >= 1
    ensures workers.NotPositive? <==> numWorkers < 1
    ensures workers.NotDivisible? <==> numWorkers >= 1 && numWorkers % numStorages != 0
    ensures workers.Blocks? ==> |workers.ofStorage| == numStorages && numWorkers / numStorages >= 1
    ensures workers.Blocks? ==> Product(numStorages, numWorkers / numStorages) == numWorkers
    ensures workers.Blocks? ==> Contiguous(workers.ofStorage, numWorkers / numStorages)
  {
    if numWorkers < 1 {
      return NotPositive;
    }
    if numWorkers % numStorages != 0 {
      return NotDivisible;
    }
    var width := numWorkers / numStorages;
    WholeBlocks(numWorkers, numStorages);
    var blocks, workerId := [], 0;
    for s := 0 to numStorages
      invariant |blocks| == s && workerId == Product(s, width) && Contiguous(blocks, width)
    {
      blocks := blocks + [Block(workerId, width)];
      workerId := workerId + width;
      OneMore(s, width);
    }
    workers := Blocks(blocks);
  }

  lemma WholeBlocks(n: nat, k: nat)
    requires k >= 1 && n >= 1 && n % k == 0
    ensures n / k >= 1 && Product(k, n / k) == n
  {
    Division(n, k);
    Commutes(n / k, k);
  }

  /** Every worker below the total sits in exactly one block, at one place. */
  lemma {:induction false} WorkerPlace(blocks: seq<seq<nat>>, width: nat, worker: nat)
    requires width >= 1 && Contiguous(blocks, width) && worker < Product(|blocks|, width)
    ensures worker / width < |blocks| && worker % width < width == |blocks[worker / width]|
    ensures blocks[worker / width][worker % width] == worker
    ensures forall s, r | 0 <= s < |blocks| && 0 <= r < |blocks[s]| && blocks[s][r] == worker ::
              s == worker / width && r == worker % width
  {
    Division(worker, width);
    if worker / width >= |blocks| {
      Grows(|blocks|, worker / width, width);
    }
    forall s: nat, r: nat | s < |blocks| && r < |blocks[s]| && blocks[s][r] == worker
      ensures s == worker / width && r == worker % width
    {
      Unique(worker / width, worker % width, s, r, width);
    }
  }

  /** The indices that are dealt out: cut to a multiple of the workers, or padded from the front. */
  function Dealt(indices: seq<nat>, workers: nat, dropLast: bool): seq<nat>
    requires workers >= 1
  {
    var n := |indices|;
    if dropLast then
      CutFits(n, workers);
      indices[..Product(n / workers, workers)]
    else
      var pad := Product(CeilDiv(n, workers), workers) - n;
      if pad > 0 then indices + indices[..if pad < n then pad else n] else indices
  }

  lemma CutFits(n: nat, k: nat)
    requires k >= 1
    ensures Product(n / k, k) <= n < Product(n / k, k) + k
  {
    Division(n, k);
  }

  lemma CeilFits(n: nat, k: nat)
    requires k >= 1
    ensures n <= Product(CeilDiv(n, k), k) < n + k
  {
    Division(n + k - 1, k);
  }

  /** The data of one worker: the shard and every `workers`-th dealt index. */
  function Slice(indices: seq<nat>, workers: nat, rank: nat, dropLast: bool): seq<nat>
    requires rank < workers
  {
    Strided(Dealt(indices, workers, dropLast), rank, workers)
  }

  /** Place `q` of the slice of `rank` is the dealt index at `position`. */
  ghost predicate Takes(indices: seq<nat>, workers: nat, dropLast: bool, rank: nat, q: nat, position: nat) {
    && rank < workers && position < |Dealt(indices, workers, dropLast)|
    && q < |Slice(indices, workers, rank, dropLast)|
    && position == rank + Product(q, workers)
    && Slice(indices, workers, rank, dropLast)[q] == Dealt(indices, workers, dropLast)[position]
  }

  /** Every place of a slice takes a dealt position. */
  lemma SliceAt(indices: seq<nat>, workers: nat, dropLast: bool, rank: nat, q: nat)
    requires rank < workers
    ensures q < |Slice(indices, workers, rank, dropLast)|
            <==> rank + Product(q, workers) < |Dealt(indices, workers, dropLast)|
    ensures q < |Slice(indices, workers, rank, dropLast)| ==>
              Takes(indices, workers, dropLast, rank, q, rank + Product(q, workers))
  {
    StridedAt(Dealt(indices, workers, dropLast), rank, workers, q);
  }

  lemma PositionPlace(position: nat, workers: nat)
    requires workers >= 1
    ensures position == position % workers + Product(position / workers, workers) && position % workers < workers
  {
    Division(position, workers);
  }

  lemma PositionOnce(position: nat, workers: nat, rank: nat, q: nat)
    requires rank < workers && position == rank + Product(q, workers)
    ensures rank == position % workers && q == position / workers
  {
    Quotient(q, workers, rank);
  }

  /** Every dealt position is taken by exactly one worker, at one place of its slice. */
  lemma {:induction false} SlicesPartition(indices: seq<nat>, workers: nat, dropLast: bool, position: nat)
    returns (rank: nat, q: nat)
    requires workers >= 1 && position < |Dealt(indices, workers, dropLast)|
    ensures Takes(indices, workers, dropLast, rank, q, position)
    ensures forall r, p :: Takes(indices, workers, dropLast, r, p, position) ==> r == rank && p == q
  {
    hide Dealt, Slice;
    PositionPlace(position, workers);
    rank, q := position % workers, position / workers;
    SliceAt(indices, workers, dropLast, rank, q);
    forall r, p | Takes(indices, workers, dropLast, r, p, position)
      ensures r == rank && p == q
    {
      PositionOnce(position, workers, r, p);
    }
  }

  /** How many positions are dealt out: the whole rounds, or all up to the next whole round as far as
      the indices can be repeated once. */
  function Positions(n: nat, workers: nat, dropLast: bool): nat
    requires workers >= 1
  {
    if dropLast then Product(n / workers, workers)
    else
      var rounds := Product(CeilDiv(n, workers), workers);
      if rounds <= 2 * n then rounds else 2 * n
  }

  /** Place `q` of the slice of `rank` is the sampled index at position `rank + q * workers`; positions
      past the end repeat the indices from the front. */
  lemma SliceHolds(indices: seq<nat>, workers: nat, dropLast: bool, rank: nat, q: nat)
    requires rank < workers
    ensures var n, position, slice :=
      |indices|, rank + Product(q, workers), Slice(indices, workers, rank, dropLast);
      && (q < |slice| <==> position < Positions(n, workers, dropLast))
      && (q < |slice| && position < n ==> slice[q] == indices[position])
      && (q < |slice| && position >= n ==> !dropLast && position - n < n && slice[q] == indices[position - n])
  {
    hide Product;
    CutFits(|indices|, workers);
    CeilFits(|indices|, workers);
    SliceAt(indices, workers, dropLast, rank, q);
  }

  /** When the rest is dropped, every position of a whole round goes to exactly one worker: to rank
      `position % workers`, as element `position / workers` of its slice. */
  lemma {:induction false} DropKeeps(indices: seq<nat>, workers: nat, position: nat) returns (rank: nat, q: nat)
    requires workers >= 1 && position < Product(Div(|indices|, workers), workers)
    ensures rank == position % workers && q == position / workers
    ensures rank < workers && q < |Slice(indices, workers, rank, true)| && position < |indices|
    ensures Slice(indices, workers, rank, true)[q] == indices[position]
    ensures forall r, p :: Takes(indices, workers, true, r, p, position) ==> r == rank && p == q
  {
    hide Product, Slice, Dealt;
    CutFits(|indices|, workers);
    PositionPlace(position, workers);
    rank, q := position % workers, position / workers;
    SliceHolds(indices, workers, true, rank, q);
    forall r, p | Takes(indices, workers, true, r, p, position)
      ensures r == rank && p == q
    {
      PositionOnce(position, workers, r, p);
    }
  }

  /** Dropping the rest gives every worker the same number of indices. */
  lemma DropEqual(indices: seq<nat>, workers: nat, rank: nat)
    requires rank < workers
    ensures |Slice(indices, workers, rank, true)| == |indices| / workers
  {
    CutFits(|indices|, workers);
    assert |Dealt(indices, workers, true)| == Product(|indices| / workers, workers);
    StridedEven(Dealt(indices, workers, true), rank, workers, |indices| / workers);
  }

  /** Without dropping, no sampled index is lost. */
  lemma PadCovers(indices: seq<nat>, workers: nat, position: nat) returns (rank: nat, q: nat)
    requires workers >= 1 && position < |indices|
    ensures Takes(indices, workers, false, rank, q, position)
    ensures Slice(indices, workers, rank, false)[q] == indices[position]
  {
    CeilFits(|indices|, workers);
    rank, q := SlicesPartition(indices, workers, false, position);
  }

  /** Without dropping, the workers get equally much exactly when the padding can be cut from the
      front: when nothing was sampled, or at least half as many indices as workers. */
  lemma PadEqual(indices: seq<nat>, workers: nat)
    requires workers >= 1
    ensures (forall r: nat, t: nat | r < workers && t < workers ::
              |Slice(indices, workers, r, false)| == |Slice(indices, workers, t, false)|)
            <==> indices == [] || workers <= 2 * |indices|
  {
    var n, dealt := |indices|, Dealt(indices, workers, false);
    CeilFits(n, workers);
    if n == 0 || workers <= 2 * n {
      PadLength(n, workers);
      assert |dealt| == Product(CeilDiv(n, workers), workers);
      forall r: nat | r < workers ensures |Slice(indices, workers, r, false)| == CeilDiv(n, workers) {
        StridedEven(dealt, r, workers, CeilDiv(n, workers));
      }
    } else {
      PadShort(n, workers);
      assert |dealt| == 2 * n < workers;
      StridedAt(dealt, 0, workers, 0);
      StridedAt(dealt, workers - 1, workers, 0);
      OneMore(0, workers);
      assert |Slice(indices, workers, 0, false)| != |Slice(indices, workers, workers - 1, false)|;
    }
  }

  /** Three workers and one index: the padding can repeat it only once, so the last gets nothing. */
  lemma PadShortSample()
    ensures Slice([7], 3, 0, false) == [7] && Slice([7], 3, 1, false) == [7] && Slice([7], 3, 2, false) == []
  {
    PadShort(1, 3);
    assert Dealt([7], 3, false) == [7, 7];
    assert [7, 7][..1] == [7];
  }

  lemma PadLength(n: nat, k: nat)
    requires k >= 1 && (n == 0 || k <= 2 * n)
    ensures Product(CeilDiv(n, k), k) - n <= n
  {
    CeilFits(n, k);
    if n == 0 {
      Quotient(0, k, k - 1);
      OneMore(0, k);
    } else if n < k {
      PadShort(n, k);
    }
  }

  lemma PadShort(n: nat, k: nat)
    requires 0 < n < k
    ensures Product(CeilDiv(n, k), k) == k
  {
    Quotient(1, k, n - 1);
    OneMore(0, k);
  }

  /** What a worker is handed: the shard to read and the indices in it. */
  datatype Sample = Sample(storage: nat, indices: seq<nat>)

  datatype Slot = Empty | Filled(sample: Sample)

  datatype Sampled = Samples(slots: seq<Slot>) | UnequalSizes

  ghost predicate AllEqual(sizes: seq<nat>) {
    forall i | 0 <= i < |sizes| :: sizes[i] == sizes[0]
  }

  /** What worker `w` is handed when every shard has `width` workers. */
  ghost function SampleFor(drawn: seq<seq<nat>>, width: nat, dropLast: bool, w: nat): Sample
    requires width >= 1 && w < Product(|drawn|, width)
  {
    ShardOf(|drawn|, width, w);
    Sample(w / width, Slice(drawn[w / width], width, w % width, dropLast))
  }

  lemma ShardOf(shards: nat, width: nat, w: nat)
    requires width >= 1 && w < Product(shards, width)
    ensures w / width < shards && w % width < width
  {
    Division(w, width);
    if w / width >= shards {
      Grows(shards, w / width, width);
    }
  }

  method CheckSizes(sizes: seq<nat>) returns (equal: bool)
    ensures equal <==> AllEqual(sizes)
  {
    for i := 0 to |sizes|
      invariant forall j | 0 <= j < i :: sizes[j] == sizes[0]
    {
      if sizes[i] != sizes[0] {
        return false;
      }
    }
    equal := true;
  }

  lemma PlaceOf(s: nat, r: nat, shards: nat, width: nat)
    requires r < width && s < shards
    ensures (Product(s, width) + r) / width == s && (Product(s, width) + r) % width == r
    ensures Product(s, width) + r < Product(shards, width)
    ensures Product(s + 1, width) == Product(s, width) + width
  {
    Quotient(s, width, r);
    OneMore(s, width);
    Grows(s + 1, shards, width);
  }

  lemma SampleHere(drawn: seq<seq<nat>>, width: nat, dropLast: bool, s: nat, r: nat)
    requires r < width && s < |drawn|
    ensures Product(s, width) + r < Product(|drawn|, width)
    ensures SampleFor(drawn, width, dropLast, Product(s, width) + r) == Sample(s, Slice(drawn[s], width, r, dropLast))
  {
    PlaceOf(s, r, |drawn|, width);
  }

  /** The first `n` slots are filled, the others empty. */
  ghost predicate FilledUpTo(slots: seq<Slot>, n: nat, drawn: seq<seq<nat>>, width: nat, dropLast: bool)
    requires width >= 1
  {
    && n <= |slots| == Product(|drawn|, width)
    && (forall w | 0 <= w < n :: slots[w] == Filled(SampleFor(drawn, width, dropLast, w)))
    && (forall w | n <= w < |slots| :: slots[w] == Empty)
  }

  /** Fill the slots of one shard's workers. */
  method DealShard(slots: seq<Slot>, s: nat, workers: seq<nat>, drawn: seq<seq<nat>>, width: nat, dropLast: bool)
    returns (after: seq<Slot>)
    requires width >= 1 && s < |drawn| && workers == Block(Product(s, width), width)
    requires FilledUpTo(slots, Product(s, width), drawn, width, dropLast)
    ensures FilledUpTo(after, Product(s + 1, width), drawn, width, dropLast)
  {
    hide Product, SampleFor, Slice;
    after := slots;
    for r := 0 to |workers|
      invariant FilledUpTo(after, Product(s, width) + r, drawn, width, dropLast)
    {
      SampleHere(drawn, width, dropLast, s, r);
      assert after[workers[r]] == Empty;
      after := after[workers[r] := Filled(Sample(s, Slice(drawn[s], width, r, dropLast)))];
    }
    OneMore(s, width);
  }

  /** Deal each shard's drawn indices to its workers; every worker slot is filled exactly once. */
  method Distribute(sizes: seq<nat>, drawn: seq<seq<nat>>, blocks: seq<seq<nat>>, width: nat, dropLast: bool)
    returns (sampled: Sampled)
    requires |sizes| == |drawn| == |blocks| && width >= 1 && Contiguous(blocks, width)
    ensures sampled.UnequalSizes? <==> !AllEqual(sizes)
    ensures sampled.Samples? ==> |sampled.slots| == Product(|blocks|, width)
    ensures sampled.Samples? ==> FilledUpTo(sampled.slots, |sampled.slots|, drawn, width, dropLast)
    ensures sampled.Samples? ==> forall s, r | 0 <= s < |drawn| && 0 <= r < width ::
              0 <= blocks[s][r] < |sampled.slots|
              && sampled.slots[blocks[s][r]] == Filled(Sample(s, Slice(drawn[s], width, r, dropLast)))
  {
    hide Product, SampleFor, Slice;
    var equal := CheckSizes(sizes);
    if !equal {
      return UnequalSizes;
    }
    var slots := seq(Product(|blocks|, width), i => Empty);
    OneMore(0, width);
    for s := 0 to |blocks|
      invariant FilledUpTo(slots, Product(s, width), drawn, width, dropLast)
    {
      slots := DealShard(slots, s, blocks[s], drawn, width, dropLast);
    }
    forall s: nat, r: nat | s < |drawn| && r < width
      ensures blocks[s][r] < |slots| && slots[blocks[s][r]] == Filled(Sample(s, Slice(drawn[s], width, r, dropLast)))
    {
      SampleHere(drawn, width, dropLast, s, r);
    }
    sampled := Samples(slots);
  }
}
