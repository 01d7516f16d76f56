/** Slot by slot: what a push leaves in the storage, and what the use counters count over whole runs. */
module SlotUses {
  import opened Intervals
  import opened ReplayRing
  import opened EpisodeFifo
  import opened EpisodeGather
  import opened ReplayRun

  /** Which of the `n` steps of a block lands in a slot when the pointer is at `p`; none when the
      result is not below `n` or negative. */
  function Lands(p: nat, n: nat, capacity: nat, slot: nat): int {
    if p + n <= capacity then slot - p else if n > capacity then n - capacity + slot else slot
  }

  /** An episode that covers the slot has left the registry. */
  ghost predicate Lost(before: set<Interval>, after: set<Interval>, slot: nat) {
    exists iv :: iv in before && iv !in after && Covers(iv, slot)
  }

  lemma PlaceSlots<T>(r: Ring<T>, b: Block<T>, at: nat, gone: set<Interval>, slot: nat)
    requires WellFormed(r) && b.Valid() && at + |b.steps| <= |r.data| && slot < |r.data| && gone <= r.registry
    ensures var s := Place(r, b, at, gone);
      && (at <= slot < at + |b.steps| ==> s.data[slot] == b.steps[slot - at] && s.useCounter[slot] == 0)
      && (!(at <= slot < at + |b.steps|) ==>
            && s.data[slot] == r.data[slot]
            && s.useCounter[slot] == if Lost(r.registry, s.registry, slot) then -1 else r.useCounter[slot])
  {
    CutCovers(at, b.episodes, b.length, at + |b.steps|, slot);
    var s := Place(r, b, at, gone);
    if !(at <= slot < at + |b.steps|) {
      if Covered(gone, slot) {
        var iv :| iv in gone && Covers(iv, slot);
        assert iv !in s.registry;
      }
    }
  }

  /** After a push every slot just written holds its step and counts no use; the others keep what
      they held, and their count unless their episode was evicted. */
  lemma PushSlots<T>(r: Ring<T>, b: Block<T>, slot: nat)
    requires WellFormed(r) && b.Valid() && slot < |r.data|
    ensures var s, k := PushEpisodes(r, b), Lands(r.pointer, |b.steps|, |r.data|, slot);
      && (0 <= k < |b.steps| ==> s.data[slot] == b.steps[k] && s.useCounter[slot] == 0)
      && (!(0 <= k < |b.steps|) ==>
            && s.data[slot] == r.data[slot]
            && s.useCounter[slot] == if Lost(r.registry, s.registry, slot) then -1 else r.useCounter[slot])
  {
    hide Place, Lost, Cut;
    var p, n, capacity := r.pointer, |b.steps|, |r.data|;
    if p + n <= capacity {
      PlaceSlots(r, b, p, Overlap(r.registry, p, p + n), slot);
    } else if n <= capacity {
      PlaceSlots(r, b, 0, Overlap(r.registry, p, capacity) + Overlap(r.registry, 0, n), slot);
    }
  }

  /** The next block begins behind this one, or at the start when the end of the storage is reached. */
  lemma PushPointer<T>(r: Ring<T>, b: Block<T>)
    requires WellFormed(r) && b.Valid()
    ensures var p, n, capacity := r.pointer, |b.steps|, |r.data|;
      PushEpisodes(r, b).pointer == if p + n < capacity then p + n
                                    else if p + n == capacity || n >= capacity then 0 else n
  {
    hide Cut, Overlap, Reset, Erase, Write, OversizedCut;
  }

  /** The same with single transitions: what runs past the end continues at the start. */
  function LandsFlat(p: nat, n: nat, capacity: nat, slot: nat): int {
    if p + n <= capacity then slot - p
    else if n > capacity then n - capacity + slot
    else if slot >= p then slot - p
    else capacity - p + slot
  }

  lemma PushFlatSlots<T>(r: Ring<T>, steps: seq<T>, slot: nat)
    requires WellFormed(r) && slot < |r.data|
    ensures var s, k := PushTransitions(r, steps), LandsFlat(r.pointer, |steps|, |r.data|, slot);
      && s.registry == r.registry
      && (0 <= k < |steps| ==> s.data[slot] == steps[k] && s.useCounter[slot] == 0)
      && (!(0 <= k < |steps|) ==> s.data[slot] == r.data[slot] && s.useCounter[slot] == r.useCounter[slot])
  {
  }

  function TotalSteps<T>(blocks: seq<Block<T>>): nat {
    if blocks == [] then 0 else TotalSteps(blocks[..|blocks| - 1]) + |blocks[|blocks| - 1].steps|
  }

  /** The recorded size is the number of steps pushed, up to the capacity. */
  lemma {:induction false} EpisodeSize<T>(memory: seq<T>, blocks: seq<Block<T>>)
    requires |memory| > 0 && forall b | b in blocks :: b.Valid()
    ensures RunEpisodes(Empty(memory), blocks).size == Min(TotalSteps(blocks), |memory|)
  {
    if blocks != [] {
      EpisodeSize(memory, blocks[..|blocks| - 1]);
    }
  }

  /** The selections that cover a slot. */
  function Covering(selected: seq<Interval>, slot: nat): set<nat> {
    set i: nat | i < |selected| && Covers(selected[i], slot)
  }

  /** The coverage is the number of selections that cover the slot. */
  lemma {:induction false} CoverageIs(selected: seq<Interval>, slot: nat)
    ensures Coverage(selected, slot) == |Covering(selected, slot)|
  {
    if selected != [] {
      var m := |selected| - 1;
      CoverageIs(selected[..m], slot);
      assert Covering(selected, slot)
          == Covering(selected[..m], slot) + if Covers(selected[m], slot) then {m} else {};
    }
  }

  /** The selections that cover a slot in the fetches after operation `k`. */
  ghost function Uses<T>(ops: seq<Operation<T>>, k: int, slot: nat): set<(nat, nat)> {
    set j: nat, i: nat | k < j < |ops| && ops[j].Fetch? && i < |ops[j].selected| && Covers(ops[j].selected[i], slot)
      :: (j, i)
  }

  lemma UsesNone<T>(ops: seq<Operation<T>>, k: int, slot: nat)
    requires k == |ops| - 1
    ensures Uses(ops, k, slot) == {}
  {
  }

  lemma UsesStore<T>(ops: seq<Operation<T>>, k: int, slot: nat)
    requires ops != [] && ops[|ops| - 1].Store?
    ensures Uses(ops, k, slot) == Uses(ops[..|ops| - 1], k, slot)
  {
  }

  /** The uses by one fetch. */
  ghost function UsesOf(m: nat, selections: set<nat>): set<(nat, nat)> {
    set i | i in selections :: (m, i)
  }

  lemma {:induction false} UsesOfSize(m: nat, selections: set<nat>)
    ensures |UsesOf(m, selections)| == |selections|
    decreases |selections|
  {
    if selections != {} {
      var x :| x in selections;
      UsesOfSize(m, selections - {x});
      assert UsesOf(m, selections) == UsesOf(m, selections - {x}) + {(m, x)};
    }
  }

  lemma UsesSplit<T>(ops: seq<Operation<T>>, k: int, slot: nat)
    requires ops != [] && ops[|ops| - 1].Fetch? && k < |ops| - 1
    ensures var m := |ops| - 1;
      var front, more := Uses(ops[..m], k, slot), UsesOf(m, Covering(ops[m].selected, slot));
      Uses(ops, k, slot) == front + more && front !! more
  {
    var m := |ops| - 1;
    var front, more := Uses(ops[..m], k, slot), UsesOf(m, Covering(ops[m].selected, slot));
    forall pair | pair in Uses(ops, k, slot) ensures pair in front + more {
      if pair.0 < m {
        assert ops[..m][pair.0] == ops[pair.0];
      } else {
        assert pair.1 in Covering(ops[m].selected, slot);
      }
    }
    forall pair | pair in front ensures pair in Uses(ops, k, slot) {
      assert ops[..m][pair.0] == ops[pair.0];
    }
    forall pair | pair in more ensures pair in Uses(ops, k, slot) && pair !in front {
    }
  }

  lemma UsesFetch<T>(ops: seq<Operation<T>>, k: int, slot: nat)
    requires ops != [] && ops[|ops| - 1].Fetch? && k < |ops| - 1
    ensures |Uses(ops, k, slot)| == |Uses(ops[..|ops| - 1], k, slot)| + Coverage(ops[|ops| - 1].selected, slot)
  {
    hide Uses, UsesOf, Covering;
    var m := |ops| - 1;
    UsesSplit(ops, k, slot);
    CoverageIs(ops[m].selected, slot);
    UsesOfSize(m, Covering(ops[m].selected, slot));
  }

  /** A push wrote every slot of the interval. */
  ghost predicate Wrote<T>(r: Ring<T>, b: Block<T>, iv: Interval) {
    forall slot: nat | slot < |r.data| && Covers(iv, slot) ::
      0 <= Lands(r.pointer, |b.steps|, |r.data|, slot) < |b.steps|
  }

  /** A push wrote no slot of the interval. */
  ghost predicate Spared<T>(r: Ring<T>, b: Block<T>, iv: Interval) {
    forall slot: nat | slot < |r.data| && Covers(iv, slot) ::
      !(0 <= Lands(r.pointer, |b.steps|, |r.data|, slot) < |b.steps|)
  }

  lemma CutWrote(at: nat, n: nat, length: nat, hi: nat, iv: Interval)
    requires length > 0 && hi == at + n * length && iv in Members(Cut(at, n, length))
    ensures forall slot: nat | Covers(iv, slot) :: at <= slot < hi
  {
    hide Cut;
    forall slot: nat | Covers(iv, slot) ensures at <= slot < hi {
      CutCovers(at, n, length, hi, slot);
      assert Covered(Members(Cut(at, n, length)), slot);
    }
  }

  /** What is registered after a push was just written, or was registered before and not touched. */
  lemma NewOrSpared<T>(r: Ring<T>, b: Block<T>, iv: Interval)
    requires WellFormed(r) && b.Valid() && iv in PushEpisodes(r, b).registry
    ensures Wrote(r, b, iv) || (iv in r.registry && Spared(r, b, iv))
  {
    hide Cut;
    var p, n, capacity := r.pointer, |b.steps|, |r.data|;
    if p + n <= capacity {
      if iv in Members(Cut(p, b.episodes, b.length)) {
        CutWrote(p, b.episodes, b.length, p + n, iv);
      }
    } else if n <= capacity {
      if iv in Members(Cut(0, b.episodes, b.length)) {
        CutWrote(0, b.episodes, b.length, n, iv);
      }
    }
  }

  /** A slot belongs to one episode. */
  lemma OneCovers<T>(r: Ring<T>, order: seq<Interval>, log: seq<seq<T>>, iv: Interval, other: Interval, slot: nat)
    requires WellFormed(r) && IsQueue(r, order, log)
    requires iv in r.registry && other in r.registry && Covers(iv, slot) && Covers(other, slot)
    ensures iv == other
  {
    hide Holds;
    var i :| 0 <= i < |order| && order[i] == iv;
    var j :| 0 <= j < |order| && order[j] == other;
  }

  /** An untouched episode keeps its counts. */
  lemma SparedCounts<T>(r: Ring<T>, b: Block<T>, order: seq<Interval>, log: seq<seq<T>>, iv: Interval, slot: nat)
    requires WellFormed(r) && b.Valid() && IsQueue(r, order, log) && slot < |r.data|
    requires iv in r.registry && iv in PushEpisodes(r, b).registry && Spared(r, b, iv) && Covers(iv, slot)
    ensures PushEpisodes(r, b).useCounter[slot] == r.useCounter[slot]
  {
    hide PushEpisodes, Holds;
    PushSlots(r, b, slot);
    forall other | other in r.registry && Covers(other, slot) ensures other == iv {
      OneCovers(r, order, log, iv, other, slot);
    }
  }

  /** The storage before operation `j` of a run. */
  ghost function RingAt<T>(memory: seq<T>, ops: seq<Operation<T>>, j: nat): (r: Ring<T>)
    requires |memory| > 0 && j <= |ops| && forall op | op in ops :: op.Sound()
    ensures WellFormed(r) && |r.data| == |memory|
  {
    PrefixSound(ops, j);
    Replay(memory, ops[..j])
  }

  lemma PrefixSound<T>(ops: seq<Operation<T>>, j: nat)
    requires j <= |ops| && forall op | op in ops :: op.Sound()
    ensures forall op | op in ops[..j] :: op.Sound()
  {
  }

  lemma RingAtFront<T>(memory: seq<T>, ops: seq<Operation<T>>, j: nat)
    requires |memory| > 0 && ops != [] && j < |ops| && forall op | op in ops :: op.Sound()
    ensures forall op | op in ops[..|ops| - 1] :: op.Sound()
    ensures RingAt(memory, ops[..|ops| - 1], j) == RingAt(memory, ops, j)
  {
    assert ops[..|ops| - 1][..j] == ops[..j];
  }

  lemma RingAtEnd<T>(memory: seq<T>, ops: seq<Operation<T>>)
    requires |memory| > 0 && forall op | op in ops :: op.Sound()
    ensures RingAt(memory, ops, |ops|) == Replay(memory, ops)
    ensures ops != [] ==> RingAt(memory, ops, |ops|) == Act(RingAt(memory, ops, |ops| - 1), ops[|ops| - 1])
  {
    assert ops[..|ops|] == ops;
  }

  /** Operation `k` pushed this episode, which has stayed ever since, and each of its slots counts
      the selections that covered it since then. */
  ghost predicate CountedSince<T>(memory: seq<T>, ops: seq<Operation<T>>, iv: Interval, k: nat)
    requires |memory| > 0 && forall op | op in ops :: op.Sound()
  {
    && k < |ops| && ops[k].Store? && Wrote(RingAt(memory, ops, k), ops[k].block, iv)
    && (forall j: nat | k < j <= |ops| :: iv in RingAt(memory, ops, j).registry)
    && (forall slot: nat | slot < |memory| && Covers(iv, slot) ::
          RingAt(memory, ops, |ops|).useCounter[slot] == |Uses(ops, k, slot)|)
  }

  lemma JustPushed<T>(memory: seq<T>, ops: seq<Operation<T>>, iv: Interval)
    requires |memory| > 0 && ops != [] && forall op | op in ops :: op.Sound()
    requires ops[|ops| - 1].Store? && iv in RingAt(memory, ops, |ops|).registry
    requires Wrote(RingAt(memory, ops, |ops| - 1), ops[|ops| - 1].block, iv)
    ensures CountedSince(memory, ops, iv, |ops| - 1)
  {
    hide PushEpisodes, Wrote, Uses, RingAt;
    var k := |ops| - 1;
    var r, b := RingAt(memory, ops, k), ops[k].block;
    RingAtEnd(memory, ops);
    assert ops[k].Sound();
    forall slot: nat | slot < |memory| && Covers(iv, slot)
      ensures RingAt(memory, ops, |ops|).useCounter[slot] == |Uses(ops, k, slot)|
    {
      WroteAt(r, b, iv, slot);
      PushSlots(r, b, slot);
      UsesNone(ops, k, slot);
    }
  }

  lemma WroteAt<T>(r: Ring<T>, b: Block<T>, iv: Interval, slot: nat)
    requires Wrote(r, b, iv) && slot < |r.data| && Covers(iv, slot)
    ensures 0 <= Lands(r.pointer, |b.steps|, |r.data|, slot) < |b.steps|
  {
  }

  /** One more operation that leaves the episode where it was. */
  lemma StillCounted<T>(memory: seq<T>, ops: seq<Operation<T>>, iv: Interval, k: nat)
    requires |memory| > 0 && ops != [] && forall op | op in ops :: op.Sound()
    requires forall op | op in ops[..|ops| - 1] :: op.Sound()
    requires CountedSince(memory, ops[..|ops| - 1], iv, k)
    requires forall slot: nat | slot < |memory| && Covers(iv, slot) ::
               RingAt(memory, ops, |ops|).useCounter[slot] - RingAt(memory, ops, |ops| - 1).useCounter[slot]
               == if ops[|ops| - 1].Store? then 0 else Coverage(ops[|ops| - 1].selected, slot)
    requires iv in RingAt(memory, ops, |ops|).registry
    ensures CountedSince(memory, ops, iv, k)
  {
    hide Wrote, RingAt, Uses, Coverage;
    var front := ops[..|ops| - 1];
    RingAtFront(memory, ops, k);
    RingAtFront(memory, ops, |ops| - 1);
    forall j: nat | k < j <= |ops| ensures iv in RingAt(memory, ops, j).registry {
      if j < |ops| {
        RingAtFront(memory, ops, j);
      }
    }
    forall slot: nat | slot < |memory| && Covers(iv, slot)
      ensures RingAt(memory, ops, |ops|).useCounter[slot] == |Uses(ops, k, slot)|
    {
      if ops[|ops| - 1].Store? {
        UsesStore(ops, k, slot);
      } else {
        UsesFetch(ops, k, slot);
      }
    }
  }

  /** Over any legal run of pushes and fetches: each live episode was written by one of the pushes,
      has stayed ever since, and its slots count the selections that covered them since. */
  lemma {:induction false} CountersCountUses<T>(memory: seq<T>, ops: seq<Operation<T>>, longest: nat, iv: Interval)
    returns (k: nat)
    requires |memory| > 0 && longest > 0 && Legal(memory, ops, longest) && iv in Replay(memory, ops).registry
    ensures CountedSince(memory, ops, iv, k)
  {
    hide CountedSince, PushEpisodes, Wrote, Spared, IsQueue, Inv, Counted, RingAt;
    var front, op := ops[..|ops| - 1], ops[|ops| - 1];
    var r := Replay(memory, front);
    RingAtEnd(memory, ops);
    RingAtEnd(memory, front);
    RingAtFront(memory, ops, |ops| - 1);
    if op.Fetch? {
      k := CountersCountUses(memory, front, longest, iv);
      StillCounted(memory, ops, iv, k);
    } else {
      NewOrSpared(r, op.block, iv);
      if Wrote(r, op.block, iv) {
        k := |ops| - 1;
        JustPushed(memory, ops, iv);
      } else {
        k := CountersCountUses(memory, front, longest, iv);
        var order, lay := OperationsInv(memory, front, longest);
        InvIsQueue(r, order, lay, Log(Pushed(front), |memory|), longest);
        forall slot: nat | slot < |memory| && Covers(iv, slot)
          ensures Replay(memory, ops).useCounter[slot] == r.useCounter[slot]
        {
          SparedCounts(r, op.block, order, Log(Pushed(front), |memory|), iv, slot);
        }
        StillCounted(memory, ops, iv, k);
      }
    }
  }
}
