/** Half-open slot ranges, as the interval tree behind the episode registry keeps them,
    and runs of back-to-back ranges. */
module Intervals {
  datatype Interval = Interval(begin: nat, end: nat)

  predicate Covers(iv: Interval, slot: nat) {
    iv.begin <= slot < iv.end
  }

  ghost predicate Covered(registry: set<Interval>, slot: nat) {
    exists iv :: iv in registry && Covers(iv, slot)
  }

  /** The members of the registry that share a slot with [begin, end). */
  function Overlap(registry: set<Interval>, begin: nat, end: nat): set<Interval> {
    set iv | iv in registry && iv.begin < end && begin < iv.end
  }

  /** `ivs[i0..i1]` tiles [lo, hi) from left to right, every tile holding at least one slot. */
  ghost predicate Tiles(ivs: seq<Interval>, i0: nat, i1: nat, lo: nat, hi: nat)
    decreases i1 - i0
  {
    && i0 <= i1 <= |ivs|
    && if i0 == i1 then lo == hi
       else ivs[i0].begin == lo < ivs[i0].end && Tiles(ivs, i0 + 1, i1, ivs[i0].end, hi)
  }

  lemma {:induction false} TilesJoin(ivs: seq<Interval>, i0: nat, i1: nat, i2: nat, lo: nat, mid: nat, hi: nat)
    requires Tiles(ivs, i0, i1, lo, mid) && Tiles(ivs, i1, i2, mid, hi)
    ensures Tiles(ivs, i0, i2, lo, hi)
    decreases i1 - i0
  {
    if i0 < i1 {
      TilesJoin(ivs, i0 + 1, i1, i2, ivs[i0].end, mid, hi);
    }
  }

  /** A tiling cut before tile `k` is two tilings. */
  lemma {:induction false} TilesSplit(ivs: seq<Interval>, i0: nat, i1: nat, lo: nat, hi: nat, k: nat)
    requires Tiles(ivs, i0, i1, lo, hi) && i0 <= k <= i1
    ensures var mid := if k < i1 then ivs[k].begin else hi;
      lo <= mid <= hi && Tiles(ivs, i0, k, lo, mid) && Tiles(ivs, k, i1, mid, hi)
    decreases i1 - i0
  {
    if i0 < k {
      TilesSplit(ivs, i0 + 1, i1, ivs[i0].end, hi, k);
    } else if i0 < i1 {
      TilesSplit(ivs, i0 + 1, i1, ivs[i0].end, hi, i0 + 1);
    }
  }

  /** A tiling copied to another place of another sequence is a tiling there. */
  lemma {:induction false} TilesMove(ivs: seq<Interval>, i0: nat, i1: nat, lo: nat, hi: nat, out: seq<Interval>,
                                     j0: nat)
    requires Tiles(ivs, i0, i1, lo, hi) && j0 + (i1 - i0) <= |out|
    requires forall j | j0 <= j < j0 + (i1 - i0) :: out[j] == ivs[j - j0 + i0]
    ensures Tiles(out, j0, j0 + (i1 - i0), lo, hi)
    decreases i1 - i0
  {
    if i0 < i1 {
      TilesMove(ivs, i0 + 1, i1, ivs[i0].end, hi, out, j0 + 1);
    }
  }

  /** A tiling of [lo, hi) covers exactly the slots of [lo, hi). */
  lemma {:induction false} TilesCover(ivs: seq<Interval>, i0: nat, i1: nat, lo: nat, hi: nat, slot: nat)
    requires Tiles(ivs, i0, i1, lo, hi)
    ensures lo <= hi && (lo <= slot < hi <==> exists i :: i0 <= i < i1 && Covers(ivs[i], slot))
    decreases i1 - i0
  {
    if i0 < i1 {
      TilesCover(ivs, i0 + 1, i1, ivs[i0].end, hi, slot);
      if Covers(ivs[i0], slot) {
      } else if lo <= slot < hi {
        var i :| i0 + 1 <= i < i1 && Covers(ivs[i], slot);
      }
    }
  }

  /** Two different tiles share no slot. */
  lemma {:induction false} TilesDisjoint(ivs: seq<Interval>, i0: nat, i1: nat, lo: nat, hi: nat, i: nat, j: nat)
    requires Tiles(ivs, i0, i1, lo, hi) && i0 <= i < j < i1
    ensures ivs[i].end <= ivs[j].begin
  {
    TilesSplit(ivs, i0, i1, lo, hi, j);
    var _ := Sweep(ivs, i0, j, lo, ivs[j].begin, 0);
  }

  /** Where a write that sweeps a tiling up to slot `limit` stops. */
  lemma {:induction false} Sweep(ivs: seq<Interval>, i0: nat, i1: nat, lo: nat, hi: nat, limit: nat) returns (k: nat)
    requires Tiles(ivs, i0, i1, lo, hi)
    ensures i0 <= k <= i1
    ensures lo <= hi && forall i | i0 <= i < i1 :: lo <= ivs[i].begin < ivs[i].end <= hi
    ensures forall i | i0 <= i < i1 :: ivs[i].begin < limit <==> i < k
    decreases i1 - i0
  {
    k := i0;
    if i0 < i1 {
      var rest := Sweep(ivs, i0 + 1, i1, ivs[i0].end, hi, limit);
      if lo < limit {
        k := rest;
      }
    }
  }

  /** `n` tiles of `length` slots each, starting at `at`. */
  function Cut(at: nat, n: nat, length: nat): (ivs: seq<Interval>)
    ensures |ivs| == n
    decreases n
  {
    if n == 0 then [] else [Interval(at, at + length)] + Cut(at + length, n - 1, length)
  }

  lemma {:induction false} CutAt(at: nat, n: nat, length: nat, i: nat)
    requires i < n
    ensures Cut(at, n, length)[i] == Interval(at + i * length, at + (i + 1) * length)
    decreases n
  {
    if i > 0 {
      CutAt(at + length, n - 1, length, i - 1);
      assert at + length + (i - 1) * length == at + i * length;
      assert at + length + i * length == at + (i + 1) * length;
    }
  }

  lemma Times(n: nat, length: nat)
    requires n > 0
    ensures n * length == length + (n - 1) * length
  {
  }

  lemma {:induction false} CutTiles(at: nat, n: nat, length: nat, hi: nat)
    requires length > 0 && hi == at + n * length
    ensures Tiles(Cut(at, n, length), 0, n, at, hi)
    decreases n
  {
    if n > 0 {
      Times(n, length);
      CutTiles(at + length, n - 1, length, hi);
      TilesMove(Cut(at + length, n - 1, length), 0, n - 1, at + length, hi, Cut(at, n, length), 1);
    }
  }
}
