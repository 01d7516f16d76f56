/** Runs of pushes and fetches: whatever is stored and fetched, the ring stays a queue of whole
    episodes, and when the use counters are exact. */
module ReplayRun {
  import opened Intervals
  import opened ReplayRing
  import opened EpisodeFifo
  import opened EpisodeGather

  /** Registered slots have been used zero or more times; the others are marked -1. */
  ghost predicate CountersExact<T>(r: Ring<T>) {
    && |r.useCounter| == |r.data|
    && forall slot | 0 <= slot < |r.data| ::
         if Covered(r.registry, slot) then r.useCounter[slot] >= 0 else r.useCounter[slot] == -1
  }

  /** A batch longer than the ring whose sub-episodes do not fill it evenly. */
  ghost predicate Ragged<T>(b: Block<T>, capacity: nat) {
    b.Valid() && b.episodes > 1 && |b.steps| > capacity && capacity % b.length != 0
  }

  /** The slots from `lo` up to `hi`, none when `lo` is not below `hi`. */
  datatype Gap = Gap(lo: nat, hi: nat) {
    predicate Has(slot: nat) {
      lo <= slot < hi
    }
  }

  /** The counters are exact but for a gap at or above the pointer: no episode is registered there,
      and yet its slots count as written and never used. */
  ghost predicate Counted<T>(r: Ring<T>, gap: Gap) {
    && |r.useCounter| == |r.data|
    && (gap.lo < gap.hi ==> r.pointer <= gap.lo && gap.hi <= |r.data|)
    && forall slot | 0 <= slot < |r.data| ::
         if Covered(r.registry, slot) then r.useCounter[slot] >= 0 && !gap.Has(slot)
         else r.useCounter[slot] == if gap.Has(slot) then 0 else -1
  }

  lemma ExactWithoutGap<T>(r: Ring<T>, gap: Gap)
    requires Counted(r, gap)
    ensures CountersExact(r) <==> gap.lo >= gap.hi
  {
    if gap.lo < gap.hi {
      assert gap.Has(gap.lo) && r.useCounter[gap.lo] == 0;
    }
  }

  /** The gap after one more push: a batch longer than the ring leaves its rest, other blocks
      close the gap as far as they are written. */
  ghost function GapAfter<T>(gap: Gap, pointer: nat, b: Block<T>, capacity: nat): Gap
    requires b.Valid()
  {
    var n := |b.steps|;
    if pointer + n <= capacity then Gap(if gap.lo > pointer + n then gap.lo else pointer + n, gap.hi)
    else if n <= capacity then Gap(if gap.lo > n then gap.lo else n, gap.hi)
    else if b.episodes > 1 then Gap(0, capacity % b.length)
    else Gap(0, 0)
  }

  lemma CutCovers(at: nat, n: nat, length: nat, hi: nat, slot: nat)
    requires length > 0 && hi == at + n * length
    ensures Covered(Members(Cut(at, n, length)), slot) <==> at <= slot < hi
  {
    var cut := Cut(at, n, length);
    CutTiles(at, n, length, hi);
    TilesCover(cut, 0, n, at, hi, slot);
    if at <= slot < hi {
      var i :| 0 <= i < n && Covers(cut[i], slot);
      assert cut[i] in Members(cut);
    }
    if Covered(Members(cut), slot) {
      var iv :| iv in Members(cut) && Covers(iv, slot);
      var i :| 0 <= i < n && cut[i] == iv;
      assert Covers(cut[i], slot);
    }
  }

  /** Outside the written range a slot stays registered unless its episode was evicted. */
  lemma SurvivorCovers(registry: set<Interval>, gone: set<Interval>, cut: set<Interval>, slot: nat)
    requires gone <= registry && !Covered(cut, slot)
    requires forall a, c | a in registry && c in registry && a != c :: Disjoint(a, c)
    ensures Covered(registry - gone + cut, slot) <==> Covered(registry, slot) && !Covered(gone, slot)
  {
    if Covered(registry - gone + cut, slot) {
      var iv :| iv in registry - gone + cut && Covers(iv, slot);
      forall other | other in gone
        ensures !Covers(other, slot)
      {
        assert Disjoint(iv, other);
      }
    } else if Covered(registry, slot) {
      var iv :| iv in registry && Covers(iv, slot);
      assert iv in registry - gone || iv in gone;
    }
  }

  lemma PlaceCounters<T>(r: Ring<T>, b: Block<T>, at: nat, gone: set<Interval>, gap: Gap)
    requires WellFormed(r) && b.Valid() && at + |b.steps| <= |r.data| && Counted(r, gap) && at <= r.pointer
    requires gone <= r.registry
    requires forall a, c | a in r.registry && c in r.registry && a != c :: Disjoint(a, c)
    ensures Counted(Place(r, b, at, gone), Gap(if gap.lo > at + |b.steps| then gap.lo else at + |b.steps|, gap.hi))
  {
    var s, cut := Place(r, b, at, gone), Members(Cut(at, b.episodes, b.length));
    forall slot | 0 <= slot < |r.data|
      ensures at <= slot < at + |b.steps| ==> Covered(s.registry, slot)
      ensures !(at <= slot < at + |b.steps|) ==>
                (Covered(s.registry, slot) <==> Covered(r.registry, slot) && !Covered(gone, slot))
    {
      CutCovers(at, b.episodes, b.length, at + |b.steps|, slot);
      if at <= slot < at + |b.steps| {
        var iv :| iv in cut && Covers(iv, slot);
        assert iv in s.registry;
      } else {
        SurvivorCovers(r.registry, gone, cut, slot);
      }
    }
  }

  lemma OversizedCounters<T>(r: Ring<T>, b: Block<T>, gap: Gap)
    requires WellFormed(r) && b.Valid() && |b.steps| > |r.data|
    ensures Counted(PushEpisodes(r, b), GapAfter(gap, r.pointer, b, |r.data|))
  {
    var s, capacity := PushEpisodes(r, b), |r.data|;
    if b.episodes == 1 {
      assert Interval(0, capacity) in s.registry;
      assert forall slot | 0 <= slot < capacity :: Covers(Interval(0, capacity), slot);
    } else {
      QuotientBound(b.episodes, b.length, capacity);
      forall slot | 0 <= slot < capacity
        ensures Covered(s.registry, slot) <==> capacity % b.length <= slot
      {
        CutCovers(capacity % b.length, capacity / b.length, b.length, capacity, slot);
      }
    }
  }

  /** One push moves the gap as `GapAfter` says. */
  lemma PushCounted<T>(r: Ring<T>, b: Block<T>, order: seq<Interval>, log: seq<seq<T>>, gap: Gap)
    requires WellFormed(r) && b.Valid() && Counted(r, gap) && IsQueue(r, order, log)
    ensures Counted(PushEpisodes(r, b), GapAfter(gap, r.pointer, b, |r.data|))
  {
    hide Counted, Place, Holds;
    var p, n, capacity := r.pointer, |b.steps|, |r.data|;
    forall a, c | a in r.registry && c in r.registry && a != c
      ensures Disjoint(a, c)
    {
      var i :| 0 <= i < |order| && order[i] == a;
      var j :| 0 <= j < |order| && order[j] == c;
    }
    if p + n <= capacity {
      PlaceCounters(r, b, p, Overlap(r.registry, p, p + n), gap);
    } else if n <= capacity {
      PlaceCounters(r, b, 0, Overlap(r.registry, p, capacity) + Overlap(r.registry, 0, n), gap);
    } else {
      OversizedCounters(r, b, gap);
    }
  }

  /** A push leaves exact use counters exact except for one kind of batch, which always spoils them. */
  lemma PushCounters<T>(r: Ring<T>, b: Block<T>, order: seq<Interval>, log: seq<seq<T>>)
    requires WellFormed(r) && b.Valid() && CountersExact(r) && IsQueue(r, order, log)
    ensures CountersExact(PushEpisodes(r, b)) <==> !Ragged(b, |r.data|)
  {
    PushCounted(r, b, order, log, Gap(0, 0));
    ExactWithoutGap(PushEpisodes(r, b), GapAfter(Gap(0, 0), r.pointer, b, |r.data|));
  }

  /** Fetching registered episodes neither moves nor closes the gap. */
  lemma FetchCounted<T>(r: Ring<T>, selected: seq<Interval>, gap: Gap)
    requires Counted(r, gap) && forall iv | iv in selected :: iv in r.registry
    ensures Counted(r.(useCounter := Used(r.useCounter, selected)), gap)
  {
    forall slot | 0 <= slot < |r.data|
      ensures !Covered(r.registry, slot) ==> Coverage(selected, slot) == 0
    {
      CoverageIsRegistered(r.registry, selected, slot);
    }
  }

  /** What the program does with the storage: push one block, or fetch some registered episodes. */
  datatype Operation<T> = Store(block: Block<T>) | Fetch(selected: seq<Interval>) {
    ghost predicate Sound() {
      Store? ==> block.Valid()
    }
  }

  ghost function Act<T>(r: Ring<T>, op: Operation<T>): (s: Ring<T>)
    requires WellFormed(r) && op.Sound()
    ensures WellFormed(s) && |s.data| == |r.data|
  {
    match op
    case Store(b) => PushEpisodes(r, b)
    case Fetch(selected) => r.(useCounter := Used(r.useCounter, selected))
  }

  ghost function Replay<T>(memory: seq<T>, ops: seq<Operation<T>>): (r: Ring<T>)
    requires |memory| > 0 && forall op | op in ops :: op.Sound()
    ensures WellFormed(r) && |r.data| == |memory|
  {
    if ops == [] then Empty(memory)
    else Act(Replay(memory, ops[..|ops| - 1]), ops[|ops| - 1])
  }

  /** A fetch selects what is registered; a block that the ring can hold at all has at most
      `longest` steps. */
  ghost predicate Allowed<T>(r: Ring<T>, op: Operation<T>, longest: nat) {
    && op.Sound()
    && match op
       case Store(b) => |b.steps| <= |r.data| ==> |b.steps| <= longest
       case Fetch(selected) => forall iv | iv in selected :: iv in r.registry
  }

  ghost predicate Legal<T>(memory: seq<T>, ops: seq<Operation<T>>, longest: nat)
    requires |memory| > 0 && longest > 0
  {
    && (forall op | op in ops :: op.Sound())
    && (ops != [] ==>
          && Legal(memory, ops[..|ops| - 1], longest)
          && Allowed(Replay(memory, ops[..|ops| - 1]), ops[|ops| - 1], longest))
  }

  /** The blocks pushed so far. */
  function Pushed<T>(ops: seq<Operation<T>>): (blocks: seq<Block<T>>) {
    if ops == [] then []
    else Pushed(ops[..|ops| - 1]) + match ops[|ops| - 1] case Store(b) => [b] case Fetch(_) => []
  }

  /** What is left of the gap at the end of a run. */
  ghost function RunGap<T>(memory: seq<T>, ops: seq<Operation<T>>): Gap
    requires |memory| > 0 && forall op | op in ops :: op.Sound()
  {
    if ops == [] then Gap(0, 0)
    else
      var front, op := ops[..|ops| - 1], ops[|ops| - 1];
      assert op.Sound();
      if op.Fetch? then RunGap(memory, front)
      else GapAfter(RunGap(memory, front), Replay(memory, front).pointer, op.block, |memory|)
  }

  lemma {:induction false} PushedValid<T>(ops: seq<Operation<T>>)
    requires forall op | op in ops :: op.Sound()
    ensures forall b | b in Pushed(ops) :: b.Valid()
  {
    if ops != [] {
      PushedValid(ops[..|ops| - 1]);
      assert ops[|ops| - 1].Sound();
    }
  }

  lemma ActInv<T>(r: Ring<T>, op: Operation<T>, order: seq<Interval>, lay: Layout, log: seq<seq<T>>, slack: nat,
                  gap: Gap)
    returns (order': seq<Interval>, lay': Layout)
    requires Inv(r, order, lay, log, slack) && Counted(r, gap) && slack >= 1 && Allowed(r, op, slack)
    ensures op.Store? ==> Inv(Act(r, op), order', lay', log + Contribution(op.block, |r.data|), slack)
    ensures op.Store? ==> Counted(Act(r, op), GapAfter(gap, r.pointer, op.block, |r.data|))
    ensures op.Fetch? ==> Inv(Act(r, op), order', lay', log, slack) && Counted(Act(r, op), gap)
  {
    match op
    case Store(b) =>
      order', lay' := Step(r, b, order, lay, log, slack);
      InvIsQueue(r, order, lay, log, slack);
      PushCounted(r, b, order, log, gap);
    case Fetch(selected) =>
      order', lay' := order, lay;
      FetchCounted(r, selected, gap);
  }

  lemma {:induction false} OperationsInv<T>(memory: seq<T>, ops: seq<Operation<T>>, longest: nat)
    returns (order: seq<Interval>, lay: Layout)
    requires |memory| > 0 && longest > 0 && Legal(memory, ops, longest)
    ensures forall b | b in Pushed(ops) :: b.Valid()
    ensures Inv(Replay(memory, ops), order, lay, Log(Pushed(ops), |memory|), longest)
    ensures Counted(Replay(memory, ops), RunGap(memory, ops))
  {
    PushedValid(ops);
    if ops == [] {
      order, lay := [], Layout(0, 0, 0);
    } else {
      var front := ops[..|ops| - 1];
      order, lay := OperationsInv(memory, front, longest);
      order, lay := ActInv(Replay(memory, front), ops[|ops| - 1], order, lay, Log(Pushed(front), |memory|), longest,
        RunGap(memory, front));
      if ops[|ops| - 1].Store? {
        assert Pushed(ops)[..|Pushed(ops)| - 1] == Pushed(front);
      } else {
        assert Pushed(ops) == Pushed(front);
      }
    }
  }

  /** After any legal run of pushes and fetches the ring is a queue of whole episodes and keeps
      what is recent enough. */
  lemma {:induction false} ReplayIsFifo<T>(memory: seq<T>, ops: seq<Operation<T>>, longest: nat)
    requires |memory| > 0 && longest > 0 && Legal(memory, ops, longest)
    ensures forall b | b in Pushed(ops) :: b.Valid()
    ensures exists order ::
              && IsQueue(Replay(memory, ops), order, Log(Pushed(ops), |memory|))
              && KeepsRecent(|order|, Log(Pushed(ops), |memory|), |memory|, longest)
  {
    var order, lay := OperationsInv(memory, ops, longest);
    InvIsQueue(Replay(memory, ops), order, lay, Log(Pushed(ops), |memory|), longest);
    RetainedKeepsRecent(|order|, Log(Pushed(ops), |memory|), |memory|, longest);
  }

  /** After any legal run the counters are exact if and only if the rest of the last ragged batch
      has been overwritten. */
  lemma {:induction false} CountersExactWhen<T>(memory: seq<T>, ops: seq<Operation<T>>, longest: nat)
    requires |memory| > 0 && longest > 0 && Legal(memory, ops, longest)
    ensures CountersExact(Replay(memory, ops)) <==> RunGap(memory, ops).lo >= RunGap(memory, ops).hi
  {
    var _, _ := OperationsInv(memory, ops, longest);
    ExactWithoutGap(Replay(memory, ops), RunGap(memory, ops));
  }

  /** So without a ragged batch they always are. */
  lemma {:induction false} ExactWithoutRagged<T>(memory: seq<T>, ops: seq<Operation<T>>, longest: nat)
    requires |memory| > 0 && longest > 0 && Legal(memory, ops, longest)
    requires forall op | op in ops && op.Store? :: !Ragged(op.block, |memory|)
    ensures CountersExact(Replay(memory, ops))
  {
    NoGap(memory, ops);
    CountersExactWhen(memory, ops, longest);
  }

  lemma {:induction false} NoGap<T>(memory: seq<T>, ops: seq<Operation<T>>)
    requires |memory| > 0 && forall op | op in ops :: op.Sound()
    requires forall op | op in ops && op.Store? :: !Ragged(op.block, |memory|)
    ensures RunGap(memory, ops).hi == 0
  {
    hide Replay;
    if ops != [] {
      NoGap(memory, ops[..|ops| - 1]);
      assert ops[|ops| - 1] in ops;
    }
  }

  /** Five slots and a batch of three sub-episodes of two steps: slot 0 belongs to no episode and
      counts as written. */
  lemma RaggedSpoils()
    ensures var r := PushEpisodes(Empty([0, 0, 0, 0, 0]), Block([1, 2, 3, 4, 5, 6], 3, 2));
      r.registry == {Interval(1, 3), Interval(3, 5)} && r.useCounter[0] == 0 && !CountersExact(r)
  {
    var r := PushEpisodes(Empty([0, 0, 0, 0, 0]), Block([1, 2, 3, 4, 5, 6], 3, 2));
    assert Cut(1, 2, 2) == [Interval(1, 3)] + Cut(3, 1, 2) == [Interval(1, 3), Interval(3, 5)];
    assert r.registry == Members([Interval(1, 3), Interval(3, 5)]);
    assert forall iv | iv in r.registry :: iv.begin > 0;
    assert !Covered(r.registry, 0);
  }
}
