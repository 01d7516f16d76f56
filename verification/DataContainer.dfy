/** The storage object: slots, use counters and registry updated in place. */
module DataContainer {
  import opened Intervals
  import opened ReplayRing
  import opened EpisodeGather

  datatype Mode = Circular | Fixed
  datatype Unit = Transition | Episode
  datatype PushOutcome = Stored | CapacityExceeded | NullInterval

  /** What fetching a selection of episodes returns: one row per episode when all are equally
      long, a list of separate episodes otherwise. */
  datatype Fetch<T> = IndexError | NothingSelected | Rows(rows: seq<seq<T>>) | Ragged(parts: seq<seq<T>>) {
    predicate Failed() {
      IndexError? || NothingSelected?
    }

    function Episodes(): seq<seq<T>>
      requires !Failed()
    {
      if Rows? then rows else parts
    }
  }

  /** A Python index, counting from the end when negative. */
  function Resolve(i: int, n: nat): int {
    if i < 0 then n + i else i
  }

  class DataContainer<T(0)> {
    const capacity: nat
    const mode: Mode
    const unit: Unit
    var data: array<T>
    var size: nat
    var pointer: nat
    var registry: set<Interval>
    var useCounter: array<int>

    ghost predicate Valid()
      reads this, data, useCounter
    {
      && data.Length == useCounter.Length == capacity
      && data as object != useCounter
      && pointer < capacity
      && (forall iv | iv in registry :: iv.begin <= iv.end <= capacity)
    }

    ghost function State(): (r: Ring<T>)
      reads this, data, useCounter
      ensures Valid() ==> WellFormed(r)
    {
      Ring(data[..], pointer, size, registry, useCounter[..])
    }

    constructor (capacity: nat, mode: Mode, unit: Unit)
      requires capacity > 0
      ensures Valid() && fresh(data) && fresh(useCounter)
      ensures this.capacity == capacity && this.mode == mode && this.unit == unit
      ensures State() == Empty(data[..])
    {
      this.capacity, this.mode, this.unit := capacity, mode, unit;
      data := new T[capacity];
      size, pointer, registry := 0, 0, {};
      useCounter := new int[capacity](_ => -1);
    }

    /** Forget everything; the slots keep whatever was in them. */
    method Clear()
      requires Valid()
      modifies this`size, this`pointer, this`registry, this`useCounter
      ensures Valid() && data == old(data) && fresh(useCounter)
      ensures State() == Empty(old(data[..]))
    {
      size, pointer, registry := 0, 0, {};
      useCounter := new int[capacity](_ => -1);
    }

    method FillCounter(begin: nat, end: nat, value: int)
      requires begin <= end <= useCounter.Length
      modifies useCounter
      ensures forall i | 0 <= i < useCounter.Length ::
                useCounter[i] == if begin <= i < end then value else old(useCounter[i])
    {
      for i := begin to end
        invariant forall j | 0 <= j < useCounter.Length ::
                    useCounter[j] == if begin <= j < i then value else old(useCounter[j])
      {
        useCounter[i] := value;
      }
    }

    method WriteData(at: nat, steps: seq<T>)
      requires at + |steps| <= data.Length
      modifies data
      ensures data[..] == Write(old(data[..]), at, steps)
    {
      ghost var before := data[..];
      for i := 0 to |steps|
        invariant data[..at] == before[..at]
        invariant data[at..at + i] == steps[..i]
        invariant data[at + i..] == before[at + i..]
      {
        data[at + i] := steps[i];
      }
    }

    /** Unregister the given ranges, in any order, and mark their slots unused. */
    method Evict(gone: set<Interval>)
      requires Valid() && gone <= registry
      modifies useCounter, this`registry
      ensures Valid() && registry == old(registry) - gone
      ensures useCounter[..] == Erase(old(useCounter[..]), gone)
    {
      var rest := gone;
      while rest != {}
        invariant rest <= gone && Valid() && registry == old(registry) - (gone - rest)
        invariant useCounter == old(useCounter)
        invariant forall i | 0 <= i < capacity ::
                    useCounter[i] == if Covered(gone - rest, i) then -1 else old(useCounter[i])
        decreases rest
      {
        var iv :| iv in rest;
        EvictOne(gone - rest, iv);
        registry, rest := registry - {iv}, rest - {iv};
        assert gone - rest == gone - (rest + {iv}) + {iv};
      }
      assert gone - rest == gone;
    }

    method EvictOne(ghost done: set<Interval>, iv: Interval)
      requires Valid() && iv in registry
      modifies useCounter
      ensures Valid()
      ensures forall i | 0 <= i < capacity ::
                useCounter[i] == if Covers(iv, i) then -1 else old(useCounter[i])
      ensures forall i {:trigger Covered(done + {iv}, i)} | 0 <= i < capacity ::
                Covered(done + {iv}, i) <==> Covered(done, i) || Covers(iv, i)
    {
      FillCounter(iv.begin, iv.end, -1);
      forall i | 0 <= i < capacity
        ensures Covered(done + {iv}, i) <==> Covered(done, i) || Covers(iv, i)
      {
        assert iv in done + {iv};
      }
    }

    /** Mark [begin, end) as just written. */
    method ResetCounter(begin: nat, end: nat)
      requires begin <= end <= useCounter.Length
      modifies useCounter
      ensures useCounter[..] == Reset(old(useCounter[..]), begin, end)
    {
      FillCounter(begin, end, 0);
    }

    /** Register the sub-episodes of a block written at slot `at`. */
    method Register(at: nat, b: Block<T>)
      requires Valid() && b.Valid() && at + |b.steps| <= capacity
      modifies this`registry
      ensures Valid() && registry == old(registry) + Members(Cut(at, b.episodes, b.length))
    {
      hide Cut, Tiles, Members;
      ghost var cut := Cut(at, b.episodes, b.length);
      CutInside(at, b, capacity);
      MembersUpTo(cut, 0);
      if b.episodes > 1 {
        for i := 0 to b.episodes
          invariant registry == old(registry) + Members(cut[..i])
        {
          CutAt(at, b.episodes, b.length, i);
          registry := registry + {Interval(at + i * b.length, at + (i + 1) * b.length)};
          MembersUpTo(cut, i);
        }
        assert cut[..b.episodes] == cut;
      } else {
        CutAt(at, b.episodes, b.length, 0);
        registry := registry + {Interval(at, at + |b.steps|)};
        assert cut[..1] == cut;
      }
    }

    /** Register what is left of a block longer than the storage, counting back from the end. */
    method RegisterOversized(b: Block<T>)
      requires Valid() && b.Valid() && |b.steps| > capacity
      modifies this`registry
      ensures Valid() && registry == Members(OversizedCut(b, capacity))
    {
      hide Cut, TileEnd, Members;
      registry := {};
      if b.episodes > 1 {
        ghost var cut := OversizedCut(b, capacity);
        ghost var left: nat := |cut|;
        var currEnd := capacity;
        EndOfTile(capacity, b.length, left);
        MembersNone(cut);
        while currEnd >= b.length
          invariant left <= |cut| && currEnd == TileEnd(capacity, b.length, left) <= capacity
          invariant registry == Members(cut[left..])
          invariant forall iv | iv in registry :: iv.begin <= iv.end <= capacity
        {
          EndOfTile(capacity, b.length, left);
          registry := registry + {Interval(currEnd - b.length, currEnd)};
          MembersHead(cut, left - 1);
          currEnd, left := currEnd - b.length, left - 1;
        }
        EndOfTile(capacity, b.length, left);
        assert cut[left..] == cut;
      } else {
        registry := {Interval(0, capacity)};
        MembersHead([Interval(0, capacity)], 0);
      }
    }

    /** Evict, register and reset for a block of whole episodes about to be written at `at`. */
    method Admit(b: Block<T>, at: nat, gone: set<Interval>)
      requires Valid() && b.Valid() && at + |b.steps| <= capacity && gone <= registry
      modifies useCounter, this`registry
      ensures Valid()
      ensures registry == old(registry) - gone + Members(Cut(at, b.episodes, b.length))
      ensures useCounter[..] == Reset(Erase(old(useCounter[..]), gone), at, at + |b.steps|)
    {
      Evict(gone);
      Register(at, b);
      ResetCounter(at, at + |b.steps|);
    }

    /** Write a batch behind the pointer and move the pointer past it. */
    method Append(items: seq<T>)
      requires Valid() && pointer + |items| <= capacity
      modifies data, this`pointer, this`size
      ensures Valid()
      ensures data[..] == Write(old(data[..]), old(pointer), items)
      ensures |items| == capacity ==> data[..] == items
      ensures pointer == NextPointer(old(pointer) + |items|, capacity)
      ensures size == Min(old(size) + |items|, capacity)
    {
      WriteData(pointer, items);
      pointer := (pointer + |items|) % capacity;
      size := Min(size + |items|, capacity);
    }

    /** Store a block, overwriting the oldest data when the storage is circular. */
    method Push(b: Block<T>) returns (outcome: PushOutcome)
      requires Valid() && b.Shaped()
      modifies this`pointer, this`size, this`registry, data, useCounter
      ensures Valid()
      ensures outcome == NullInterval <==> unit == Episode && b.steps == []
      ensures outcome == CapacityExceeded <==> mode == Fixed && old(pointer) + |b.steps| > capacity
      ensures outcome != Stored ==> State() == old(State())
      ensures outcome == Stored && unit == Episode ==> State() == PushEpisodes(old(State()), b)
      ensures outcome == Stored && unit == Transition ==> State() == PushTransitions(old(State()), b.steps)
    {
      var n := |b.steps|;
      if unit == Episode {
        if n == 0 {
          outcome := NullInterval;
        } else {
          outcome := PushBlock(b);
        }
      } else {
        outcome := PushFlat(b.steps);
      }
    }

    /** Store a list of episodes one after the other. */
    method PushAll(blocks: seq<Block<T>>)
      requires Valid() && mode == Circular && unit == Episode && forall b | b in blocks :: b.Valid()
      modifies this`pointer, this`size, this`registry, data, useCounter
      ensures Valid() && State() == RunEpisodes(old(State()), blocks)
    {
      ghost var start := State();
      for i := 0 to |blocks|
        invariant Valid() && State() == RunEpisodes(start, blocks[..i])
      {
        RunOneMore(start, blocks, i);
        PushStored(blocks[i]);
      }
      assert blocks[..|blocks|] == blocks;
    }

    method PushStored(b: Block<T>)
      requires Valid() && mode == Circular && unit == Episode && b.Valid()
      modifies this`pointer, this`size, this`registry, data, useCounter
      ensures Valid() && State() == PushEpisodes(old(State()), b)
    {
      var _ := Push(b);
    }

    method PushBlock(b: Block<T>) returns (outcome: PushOutcome)
      requires Valid() && b.Valid()
      modifies this`pointer, this`size, this`registry, data, useCounter
      ensures Valid()
      ensures outcome == if mode == Fixed && old(pointer) + |b.steps| > capacity then CapacityExceeded else Stored
      ensures State() == if outcome == Stored then PushEpisodes(old(State()), b) else old(State())
    {
      var n := |b.steps|;
      if pointer + n <= capacity {
        PushFit(b);
      } else if mode == Fixed {
        return CapacityExceeded;
      } else if n > capacity {
        PushOversized(b);
      } else {
        PushWrap(b);
      }
      outcome := Stored;
    }

    /** A block that fits between the pointer and the end. */
    method PushFit(b: Block<T>)
      requires Valid() && b.Valid() && pointer + |b.steps| <= capacity
      modifies this`pointer, this`size, this`registry, data, useCounter
      ensures Valid() && State() == PushEpisodes(old(State()), b)
    {
      hide Members, Cut, Reset, Erase, Write, Overlap;
      OverlapPart(registry, pointer, pointer + |b.steps|);
      Admit(b, pointer, Overlap(registry, pointer, pointer + |b.steps|));
      Append(b.steps);
    }

    /** A block that does not fit behind the pointer goes to the start; whatever is behind the
        pointer is evicted as well. */
    method PushWrap(b: Block<T>)
      requires Valid() && b.Valid() && |b.steps| <= capacity < pointer + |b.steps|
      modifies this`pointer, this`size, this`registry, data, useCounter
      ensures Valid() && State() == PushEpisodes(old(State()), b)
    {
      hide Members, Cut, Reset, Erase, Write, Overlap;
      OverlapPart(registry, pointer, capacity);
      OverlapPart(registry, 0, |b.steps|);
      Admit(b, 0, Overlap(registry, pointer, capacity) + Overlap(registry, 0, |b.steps|));
      pointer := 0;
      Append(b.steps);
    }

    /** A block longer than the storage: only its end is kept and takes every slot. */
    method PushOversized(b: Block<T>)
      requires Valid() && b.Valid() && |b.steps| > capacity
      modifies this`pointer, this`size, this`registry, data, useCounter
      ensures Valid() && State() == PushEpisodes(old(State()), b)
    {
      hide Members, OversizedCut, Cut, Reset, Write, Place, Overlap;
      RegisterOversized(b);
      ResetCounter(0, capacity);
      pointer := 0;
      Append(b.steps[|b.steps| - capacity..]);
    }

    method PushFlat(steps: seq<T>) returns (outcome: PushOutcome)
      requires Valid()
      modifies this`pointer, this`size, data, useCounter
      ensures Valid()
      ensures outcome == if mode == Fixed && old(pointer) + |steps| > capacity then CapacityExceeded else Stored
      ensures State() == if outcome == Stored then PushTransitions(old(State()), steps) else old(State())
    {
      var n := |steps|;
      if pointer + n <= capacity {
        PushFlatFit(steps);
      } else if mode == Fixed {
        return CapacityExceeded;
      } else if n > capacity {
        PushFlatOversized(steps);
      } else {
        PushSplit(steps);
      }
      outcome := Stored;
    }

    method PushFlatFit(steps: seq<T>)
      requires Valid() && pointer + |steps| <= capacity
      modifies this`pointer, this`size, data, useCounter
      ensures Valid() && State() == PushTransitions(old(State()), steps)
    {
      hide Reset, Write;
      ResetCounter(pointer, pointer + |steps|);
      Append(steps);
    }

    method PushFlatOversized(steps: seq<T>)
      requires Valid() && |steps| > capacity
      modifies this`pointer, this`size, data, useCounter
      ensures Valid() && State() == PushTransitions(old(State()), steps)
    {
      hide Reset, Write;
      ResetCounter(0, capacity);
      pointer := 0;
      Append(steps[|steps| - capacity..]);
    }

    /** A batch that runs past the end: its front fills the slots up to the end, the rest goes
        to the start. */
    method PushSplit(steps: seq<T>)
      requires Valid() && |steps| <= capacity < pointer + |steps|
      modifies this`pointer, this`size, data, useCounter
      ensures Valid() && State() == PushTransitions(old(State()), steps)
    {
      hide Write, Reset;
      var rest := steps[capacity - pointer..];
      WriteFront(steps[..capacity - pointer], |rest|);
      pointer := 0;
      Append(rest);
    }

    method WriteFront(front: seq<T>, rest: nat)
      requires Valid() && pointer + |front| == capacity && rest <= capacity
      modifies data, useCounter
      ensures Valid() && data[..] == Write(old(data[..]), pointer, front)
      ensures useCounter[..] == Reset(Reset(old(useCounter[..]), pointer, capacity), 0, rest)
    {
      WriteData(pointer, front);
      ResetCounter(pointer, capacity);
      ResetCounter(0, rest);
    }

    /** The registered ranges in whatever order the interval tree yields them. */
    method ListRegistry() returns (intervals: seq<Interval>)
      ensures |intervals| == |registry| && forall iv :: iv in intervals <==> iv in registry
    {
      intervals := [];
      var rest := registry;
      while rest != {}
        invariant rest <= registry && |intervals| + |rest| == |registry|
        invariant forall iv :: iv in intervals <==> iv in registry - rest
        decreases rest
      {
        var iv :| iv in rest;
        intervals, rest := intervals + [iv], rest - {iv};
      }
    }

    /** Fetch the selected episodes and count the use of every slot they cover. The indices
        refer to `intervals`, the order in which the registry was listed. */
    method Gather(indices: seq<int>) returns (intervals: seq<Interval>, fetch: Fetch<T>)
      requires Valid()
      modifies useCounter
      ensures Valid()
      ensures |intervals| == |registry| && forall iv :: iv in intervals <==> iv in registry
      ensures fetch.IndexError? <==> exists i :: i in indices && !(-|intervals| <= i < |intervals|)
      ensures fetch.NothingSelected? <==> indices == []
      ensures fetch.Failed() ==> useCounter[..] == old(useCounter[..])
      ensures !fetch.Failed() ==>
                && |fetch.Episodes()| == |indices|
                && (forall i | 0 <= i < |indices| ::
                      assert indices[i] in indices;
                      var iv := intervals[if indices[i] < 0 then |intervals| + indices[i] else indices[i]];
                      fetch.Episodes()[i] == data[iv.begin..iv.end])
                && useCounter[..] == Used(old(useCounter[..]), Selection(intervals, indices))
                && (fetch.Rows? <==> OneLength(Selection(intervals, indices)))
    {
      intervals := ListRegistry();
      if exists i | i in indices :: !(-|intervals| <= i < |intervals|) {
        return intervals, IndexError;
      }
      if indices == [] {
        return intervals, NothingSelected;
      }
      var selected := Selection(intervals, indices);
      forall iv | iv in selected ensures iv in registry {
        var k :| 0 <= k < |indices| && selected[k] == iv;
        assert indices[k] in indices && iv in intervals;
      }
      fetch := Fetched(selected);
    }

    method Fetched(selected: seq<Interval>) returns (fetch: Fetch<T>)
      requires Valid() && selected != [] && forall iv | iv in selected :: iv in registry
      modifies useCounter
      ensures Valid() && !fetch.Failed() && |fetch.Episodes()| == |selected|
      ensures forall i | 0 <= i < |selected| :: fetch.Episodes()[i] == data[selected[i].begin..selected[i].end]
      ensures useCounter[..] == Used(old(useCounter[..]), selected) && (fetch.Rows? <==> OneLength(selected))
    {
      hide Offsets, Coverage;
      var offsets := Offsets(selected);
      OffsetsInRange(selected, capacity);
      CountUses(offsets);
      forall slot | 0 <= slot < capacity
        ensures Occurrences(offsets, slot) == Coverage(selected, slot)
      {
        OccurrencesAreCoverage(selected, slot);
      }
      var flat := Pick(data[..], offsets);
      var length := selected[0].end - selected[0].begin;
      if forall iv | iv in selected :: iv.end - iv.begin == length {
        var rows := CutRows(flat, data[..], selected, length);
        fetch := Rows(rows);
      } else {
        var parts := CutParts(flat, data[..], selected);
        fetch := Ragged(parts);
      }
    }

    /** Scatter-add one use per offset, repeated offsets counting each time. */
    method CountUses(offsets: seq<nat>)
      requires data as object != useCounter
      requires forall k | 0 <= k < |offsets| :: offsets[k] < useCounter.Length
      modifies useCounter
      ensures forall slot | 0 <= slot < useCounter.Length ::
                useCounter[slot] == old(useCounter[slot]) + Occurrences(offsets, slot)
    {
      for k := 0 to |offsets|
        invariant forall slot | 0 <= slot < useCounter.Length ::
                    useCounter[slot] == old(useCounter[slot]) + Occurrences(offsets[..k], slot)
      {
        useCounter[offsets[k]] := useCounter[offsets[k]] + 1;
        assert offsets[..k + 1][..k] == offsets[..k];
      }
      assert offsets[..|offsets|] == offsets;
    }
  }

  /** What is in the given slots. */
  function Pick<T>(slots: seq<T>, offsets: seq<nat>): seq<T>
    requires forall k | 0 <= k < |offsets| :: offsets[k] < |slots|
  {
    seq(|offsets|, k requires 0 <= k < |offsets| => slots[offsets[k]])
  }

  /** Cut a gather apart where each range ends. */
  method CutParts<T>(flat: seq<T>, slots: seq<T>, selected: seq<Interval>) returns (parts: seq<seq<T>>)
    requires Gathered(flat, slots, selected)
    ensures |parts| == |selected|
    ensures forall i | 0 <= i < |selected| :: parts[i] == slots[selected[i].begin..selected[i].end]
  {
    hide Gathered;
    parts := [];
    var start := 0;
    GatheredRanges(flat, slots, selected);
    for i := 0 to |selected|
      invariant |parts| == i && start == Cumulative(selected, i)
      invariant forall j | 0 <= j < i :: parts[j] == slots[selected[j].begin..selected[j].end]
    {
      var stop := start + (selected[i].end - selected[i].begin);
      GatheredPart(flat, slots, selected, i);
      parts, start := parts + [flat[start..stop]], stop;
    }
  }

  /** Cut a gather into rows of equal length. */
  method CutRows<T>(flat: seq<T>, slots: seq<T>, selected: seq<Interval>, length: nat) returns (rows: seq<seq<T>>)
    requires Gathered(flat, slots, selected) && forall iv | iv in selected :: iv.end - iv.begin == length
    ensures |rows| == |selected|
    ensures forall i | 0 <= i < |selected| :: rows[i] == slots[selected[i].begin..selected[i].end]
  {
    hide Gathered, Cumulative;
    rows := [];
    GatheredRanges(flat, slots, selected);
    for i := 0 to |selected|
      invariant |rows| == i
      invariant forall j | 0 <= j < i :: rows[j] == slots[selected[j].begin..selected[j].end]
    {
      GatheredPart(flat, slots, selected, i);
      CumulativeEven(selected, length, i);
      CumulativeEven(selected, length, i + 1);
      rows := rows + [flat[i * length..(i + 1) * length]];
    }
  }

  lemma GatheredRanges<T>(flat: seq<T>, slots: seq<T>, selected: seq<Interval>)
    requires Gathered(flat, slots, selected)
    ensures forall iv | iv in selected :: iv.begin <= iv.end <= |slots|
    ensures forall i | 0 <= i < |selected| :: selected[i].begin <= selected[i].end <= |slots|
  {
  }

  lemma MembersHead(ivs: seq<Interval>, i: nat)
    requires i < |ivs|
    ensures Members(ivs[i..]) == Members(ivs[i + 1..]) + {ivs[i]}
    ensures Members([ivs[i]]) == {ivs[i]}
  {
    assert ivs[i..] == [ivs[i]] + ivs[i + 1..];
  }

  lemma MembersNone(ivs: seq<Interval>)
    ensures Members(ivs[|ivs|..]) == {}
  {
  }

  lemma MembersUpTo(ivs: seq<Interval>, i: nat)
    requires i < |ivs|
    ensures Members(ivs[..i + 1]) == Members(ivs[..i]) + {ivs[i]} && Members(ivs[..0]) == {}
  {
    assert ivs[..i + 1] == ivs[..i] + [ivs[i]];
  }

  /** The tiles of a block lie inside the storage. */
  lemma CutInside<T>(at: nat, b: Block<T>, capacity: nat)
    requires b.Valid() && at + |b.steps| <= capacity
    ensures forall iv | iv in Members(Cut(at, b.episodes, b.length)) :: iv.begin <= iv.end <= capacity
  {
    hide Cut, Tiles;
    CutTiles(at, b.episodes, b.length, at + |b.steps|);
    var _ := Sweep(Cut(at, b.episodes, b.length), 0, b.episodes, at, at + |b.steps|, 0);
  }

  lemma OverlapPart(registry: set<Interval>, begin: nat, end: nat)
    ensures Overlap(registry, begin, end) <= registry
  {
  }

  /** The ranges picked by indices into a listing. */
  function Selection(intervals: seq<Interval>, indices: seq<int>): seq<Interval>
    requires forall i | i in indices :: -|intervals| <= i < |intervals|
  {
    seq(|indices|, k requires 0 <= k < |indices| =>
      assert indices[k] in indices; intervals[Resolve(indices[k], |intervals|)])
  }

  /** Places counted from the front and from the back. */
  lemma ResolveIs(k: nat, n: nat)
    requires k < n
    ensures Resolve(k, n) == k && Resolve(-1 - k, n) == n - 1 - k
  {
  }

  ghost predicate OneLength(selected: seq<Interval>) {
    forall i, j | 0 <= i < |selected| && 0 <= j < |selected| ::
      selected[i].end - selected[i].begin == selected[j].end - selected[j].begin
  }

  /** Where the first `left` tiles counted from the aligned start end. */
  ghost function TileEnd(capacity: nat, length: nat, left: nat): nat
    requires length > 0
  {
    capacity % length + left * length
  }

  lemma EndOfTile(capacity: nat, length: nat, left: nat)
    requires length > 0 && left <= capacity / length
    ensures TileEnd(capacity, length, capacity / length) == capacity
    ensures TileEnd(capacity, length, left) >= length <==> left > 0
    ensures left > 0 ==> TileEnd(capacity, length, left - 1) == TileEnd(capacity, length, left) - length
    ensures left > 0 ==>
              var end := TileEnd(capacity, length, left);
              Cut(capacity % length, capacity / length, length)[left - 1] == Interval(end - length, end)
  {
    hide Cut;
    assert capacity == capacity % length + capacity / length * length;
    if left > 0 {
      Times(left, length);
      CutAt(capacity % length, capacity / length, length, left - 1);
    }
  }
}
