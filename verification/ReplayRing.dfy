/** The replay storage as a value: what one push makes of the slots, the write pointer, the
    episode registry and the use counters. */
module ReplayRing {
  import opened Intervals

  datatype Ring<T> = Ring(data: seq<T>, pointer: nat, size: nat, registry: set<Interval>, useCounter: seq<int>)

  /** A flat batch of steps holding `episodes` consecutive sub-episodes of `length` steps each;
      a plain episode is a block with one sub-episode. */
  datatype Block<T> = Block(steps: seq<T>, episodes: nat, length: nat) {
    ghost predicate Shaped() {
      episodes > 0 && |steps| == episodes * length
    }

    ghost predicate Valid() {
      Shaped() && length > 0
    }
  }

  ghost predicate WellFormed<T>(r: Ring<T>) {
    |r.useCounter| == |r.data| && r.pointer < |r.data|
  }

  function Min(a: nat, b: nat): nat { if a <= b then a else b }

  function Write<T>(data: seq<T>, at: nat, steps: seq<T>): seq<T>
    requires at + |steps| <= |data|
  {
    data[..at] + steps + data[at + |steps|..]
  }

  /** The use counters after the ranges in `gone` were evicted. */
  ghost function Erase(counter: seq<int>, gone: set<Interval>): seq<int> {
    seq(|counter|, i requires 0 <= i < |counter| => if Covered(gone, i) then -1 else counter[i])
  }

  /** The use counters after [begin, end) was written. */
  ghost function Reset(counter: seq<int>, begin: nat, end: nat): seq<int> {
    seq(|counter|, i requires 0 <= i < |counter| => if begin <= i < end then 0 else counter[i])
  }

  ghost function Members(ivs: seq<Interval>): set<Interval> {
    set iv | iv in ivs
  }

  /** Where the pointer stands after a write that ended before slot `end`. */
  function NextPointer(end: nat, capacity: nat): (p: nat)
    requires end <= capacity && capacity > 0
    ensures p == if end < capacity then end else 0
  {
    end % capacity
  }

  /** Write a block at slot `at` after evicting the episodes in `gone`. */
  ghost function Place<T>(r: Ring<T>, b: Block<T>, at: nat, gone: set<Interval>): Ring<T>
    requires WellFormed(r) && b.Valid() && at + |b.steps| <= |r.data|
  {
    Ring(
      Write(r.data, at, b.steps),
      NextPointer(at + |b.steps|, |r.data|),
      Min(r.size + |b.steps|, |r.data|),
      r.registry - gone + Members(Cut(at, b.episodes, b.length)),
      Reset(Erase(r.useCounter, gone), at, at + |b.steps|))
  }

  /** The ranges a block longer than the whole ring leaves registered: the whole ring for one
      episode, the sub-episodes that fit counted back from the end for a batch. */
  ghost function OversizedCut<T>(b: Block<T>, capacity: nat): seq<Interval>
    requires b.Valid()
  {
    if b.episodes == 1 then [Interval(0, capacity)]
    else Cut(capacity % b.length, capacity / b.length, b.length)
  }

  /** One push in circular mode with episodes as the unit. */
  ghost function PushEpisodes<T>(r: Ring<T>, b: Block<T>): (s: Ring<T>)
    requires WellFormed(r) && b.Valid()
    ensures WellFormed(s) && |s.data| == |r.data|
  {
    var capacity, n := |r.data|, |b.steps|;
    if r.pointer + n <= capacity then
      Place(r, b, r.pointer, Overlap(r.registry, r.pointer, r.pointer + n))
    else if n > capacity then
      Ring(b.steps[n - capacity..], 0, Min(r.size + capacity, capacity),
        Members(OversizedCut(b, capacity)), Reset(r.useCounter, 0, capacity))
    else
      Place(r, b, 0, Overlap(r.registry, r.pointer, capacity) + Overlap(r.registry, 0, n))
  }

  /** A ring over arbitrary initial memory. */
  ghost function Empty<T>(memory: seq<T>): Ring<T> {
    Ring(memory, 0, 0, {}, seq(|memory|, _ => -1))
  }

  ghost function RunEpisodes<T>(start: Ring<T>, blocks: seq<Block<T>>): (r: Ring<T>)
    requires WellFormed(start) && forall b | b in blocks :: b.Valid()
    ensures WellFormed(r) && |r.data| == |start.data|
  {
    if blocks == [] then start
    else PushEpisodes(RunEpisodes(start, blocks[..|blocks| - 1]), blocks[|blocks| - 1])
  }

  lemma RunOneMore<T>(start: Ring<T>, blocks: seq<Block<T>>, i: nat)
    requires WellFormed(start) && i < |blocks| && forall b | b in blocks :: b.Valid()
    ensures RunEpisodes(start, blocks[..i + 1]) == PushEpisodes(RunEpisodes(start, blocks[..i]), blocks[i])
  {
    assert blocks[..i + 1][..i] == blocks[..i];
  }

  /** One push in circular mode with single transitions as the unit: what does not fit behind
      the pointer continues at the start. The size grows only by the part written last. */
  ghost function PushTransitions<T>(r: Ring<T>, steps: seq<T>): (s: Ring<T>)
    requires WellFormed(r)
    ensures WellFormed(s) && |s.data| == |r.data|
  {
    var capacity, n, p := |r.data|, |steps|, r.pointer;
    if p + n <= capacity then
      Ring(Write(r.data, p, steps), NextPointer(p + n, capacity), Min(r.size + n, capacity),
        r.registry, Reset(r.useCounter, p, p + n))
    else if n > capacity then
      Ring(steps[n - capacity..], 0, Min(r.size + capacity, capacity), r.registry, Reset(r.useCounter, 0, capacity))
    else
      var tail := steps[capacity - p..];
      Ring(Write(Write(r.data, p, steps[..capacity - p]), 0, tail), NextPointer(|tail|, capacity),
        Min(r.size + |tail|, capacity), r.registry, Reset(Reset(r.useCounter, p, capacity), 0, |tail|))
  }

  ghost function RunTransitions<T>(memory: seq<T>, pushes: seq<seq<T>>): (r: Ring<T>)
    requires |memory| > 0
    ensures WellFormed(r) && |r.data| == |memory|
  {
    if pushes == [] then Empty(memory)
    else PushTransitions(RunTransitions(memory, pushes[..|pushes| - 1]), pushes[|pushes| - 1])
  }
}
