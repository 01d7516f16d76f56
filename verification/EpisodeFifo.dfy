/** The episode ring refines a queue of whole episodes: what is live is always a suffix of what
    was pushed, each live range holds its episode intact, and enough recent episodes are kept. */
module EpisodeFifo {
  import opened Intervals
  import opened ReplayRing

  /** The sub-episodes of a flat batch, in order. */
  function Records<T>(steps: seq<T>, n: nat, length: nat): (recs: seq<seq<T>>)
    requires |steps| == n * length
    ensures |recs| == n
    decreases n
  {
    if n == 0 then []
    else
      Times(n, length);
      [steps[..length]] + Records(steps[length..], n - 1, length)
  }

  /** What a push contributes to the queue: its sub-episodes, or for a single episode longer
      than the ring the steps that can be kept. */
  function Contribution<T>(b: Block<T>, capacity: nat): seq<seq<T>>
    requires b.Valid()
  {
    if b.episodes == 1 && |b.steps| > capacity then [b.steps[|b.steps| - capacity..]]
    else Records(b.steps, b.episodes, b.length)
  }

  /** Everything pushed so far, oldest first. */
  function Log<T>(blocks: seq<Block<T>>, capacity: nat): seq<seq<T>>
    requires forall b | b in blocks :: b.Valid()
  {
    if blocks == [] then []
    else Log(blocks[..|blocks| - 1], capacity) + Contribution(blocks[|blocks| - 1], capacity)
  }

  /** The number of steps in records `a` to `b - 1` of the log. */
  function Steps<T>(log: seq<seq<T>>, a: nat, b: nat): nat
    requires a <= b <= |log|
    decreases b
  {
    if a == b then 0 else Steps(log, a, b - 1) + |log[b - 1]|
  }

  /** The ranges of `order` hold the newest records of the log, oldest first. */
  ghost predicate Holds<T>(data: seq<T>, order: seq<Interval>, log: seq<seq<T>>) {
    && |order| <= |log|
    && forall i | 0 <= i < |order| ::
         order[i].begin <= order[i].end <= |data|
         && data[order[i].begin..order[i].end] == log[|log| - |order| + i]
  }

  /** How the live ranges lie: the first `m` tile [lo, end) and were written on the previous
      lap, the others tile the slots below the pointer. */
  datatype Layout = Layout(m: nat, lo: nat, end: nat)

  /** The older ranges lie from the pointer upwards; fewer than `slack` slots are unused at the end. */
  ghost predicate Shape(pointer: nat, capacity: nat, order: seq<Interval>, lay: Layout, slack: nat) {
    && Tiles(order, 0, lay.m, lay.lo, lay.end)
    && Tiles(order, lay.m, |order|, 0, pointer)
    && (lay.m > 0 ==> pointer <= lay.lo && lay.end <= capacity < lay.end + slack)
  }

  /** The registry is `order`, whose ranges hold the newest records of the log. */
  ghost predicate Live<T>(r: Ring<T>, order: seq<Interval>, log: seq<seq<T>>) {
    && (forall iv :: iv in r.registry <==> iv in order)
    && Holds(r.data, order, log)
  }

  /** If anything is lost, then the youngest lost record would not have fitted with room to spare. */
  ghost predicate Retained<T>(live: nat, log: seq<seq<T>>, capacity: nat, slack: nat) {
    live < |log| ==> Steps(log, |log| - live - 1, |log|) + slack > capacity + 1
  }

  /** The invariant of the episode ring. */
  ghost predicate Inv<T>(r: Ring<T>, order: seq<Interval>, lay: Layout, log: seq<seq<T>>, slack: nat) {
    && WellFormed(r)
    && Shape(r.pointer, |r.data|, order, lay, slack)
    && Live(r, order, log)
    && AllLong(log)
    && Retained(|order|, log, |r.data|, slack)
  }

  lemma {:induction false} StepsAppend<T>(log: seq<seq<T>>, more: seq<seq<T>>, a: nat, b: nat)
    requires a <= b <= |log|
    ensures Steps(log + more, a, b) == Steps(log, a, b)
    decreases b
  {
    if a < b {
      StepsAppend(log, more, a, b - 1);
    }
  }

  lemma {:induction false} StepsSplit<T>(log: seq<seq<T>>, a: nat, b: nat, c: nat)
    requires a <= b <= c <= |log|
    ensures Steps(log, a, c) == Steps(log, a, b) + Steps(log, b, c)
    decreases c
  {
    if b < c {
      StepsSplit(log, a, b, c - 1);
    }
  }

  /** Ranges that tile [lo, hi) hold hi - lo steps. */
  lemma {:induction false} TilesHold<T>(data: seq<T>, order: seq<Interval>, log: seq<seq<T>>, i0: nat, i1: nat,
                                        lo: nat, hi: nat)
    requires Holds(data, order, log) && Tiles(order, i0, i1, lo, hi)
    ensures var off := |log| - |order|; lo <= hi && Steps(log, off + i0, off + i1) == hi - lo
    decreases i1 - i0
  {
    if i0 < i1 {
      var off := |log| - |order|;
      TilesHold(data, order, log, i0 + 1, i1, order[i0].end, hi);
      StepsSplit(log, off + i0, off + i0 + 1, off + i1);
    }
  }

  /** The records of a batch are as long as the sub-episodes and as many steps in all. */
  lemma {:induction false} RecordsSteps<T>(log: seq<seq<T>>, steps: seq<T>, n: nat, length: nat)
    requires |steps| == n * length
    ensures forall rec | rec in Records(steps, n, length) :: |rec| == length
    ensures Steps(log + Records(steps, n, length), |log|, |log| + n) == |steps|
    decreases n
  {
    if n > 0 {
      Times(n, length);
      RecordsSteps(log + [steps[..length]], steps[length..], n - 1, length);
      var rest := Records(steps[length..], n - 1, length);
      assert log + Records(steps, n, length) == log + [steps[..length]] + rest;
      StepsSplit(log + Records(steps, n, length), |log|, |log| + 1, |log| + n);
    }
  }

  lemma HoldsCons<T>(data: seq<T>, iv: Interval, order: seq<Interval>, rec: seq<T>, log: seq<seq<T>>)
    requires iv.begin <= iv.end <= |data| && data[iv.begin..iv.end] == rec
    requires Holds(data, order, log) && |order| == |log|
    ensures Holds(data, [iv] + order, [rec] + log)
  {
  }

  lemma {:induction false} CutHolds<T>(data: seq<T>, at: nat, steps: seq<T>, n: nat, length: nat)
    requires |steps| == n * length
    requires at + |steps| <= |data| && data[at..at + |steps|] == steps
    ensures Holds(data, Cut(at, n, length), Records(steps, n, length))
    decreases n
  {
    hide Holds;
    if n == 0 {
      HoldsNone(data);
    } else {
      Times(n, length);
      SliceOf(data, at, steps, length);
      CutHolds(data, at + length, steps[length..], n - 1, length);
      HoldsCons(data, Interval(at, at + length), Cut(at + length, n - 1, length), steps[..length],
        Records(steps[length..], n - 1, length));
    }
  }

  lemma HoldsNone<T>(data: seq<T>)
    ensures Holds(data, [], [])
  {
  }

  lemma SliceOf<T>(data: seq<T>, at: nat, steps: seq<T>, length: nat)
    requires length <= |steps| && at + |steps| <= |data| && data[at..at + |steps|] == steps
    ensures data[at..at + length] == steps[..length]
    ensures data[at + length..at + |steps|] == steps[length..]
  {
  }

  lemma WriteKeeps<T>(data: seq<T>, at: nat, steps: seq<T>, iv: Interval)
    requires at + |steps| <= |data| && iv.begin <= iv.end <= |data|
    requires iv.end <= at || at + |steps| <= iv.begin
    ensures Write(data, at, steps)[iv.begin..iv.end] == data[iv.begin..iv.end]
  {
  }

  /** `out` is `order` without its first `d` ranges, followed by `cut`. */
  ghost predicate Shifted(out: seq<Interval>, order: seq<Interval>, d: nat, cut: seq<Interval>) {
    && d <= |order| && |out| == |order| - d + |cut|
    && forall i | 0 <= i < |out| :: out[i] == if i < |order| - d then order[d + i] else cut[i - (|order| - d)]
  }

  lemma Shift(order: seq<Interval>, d: nat, cut: seq<Interval>) returns (out: seq<Interval>)
    requires d <= |order|
    ensures Shifted(out, order, d, cut)
  {
    out := order[d..] + cut;
  }

  ghost predicate AllLong<T>(log: seq<seq<T>>) {
    forall rec | rec in log :: |rec| > 0
  }

  /** Placing a block behind the ranges that survive moves the window over the log forward. */
  lemma AdvanceHolds<T>(data: seq<T>, b: Block<T>, at: nat, order: seq<Interval>, d: nat, log: seq<seq<T>>,
                        out: seq<Interval>)
    requires b.Valid() && at + |b.steps| <= |data|
    requires Holds(data, order, log) && Shifted(out, order, d, Cut(at, b.episodes, b.length))
    requires forall i | d <= i < |order| :: order[i].end <= at || at + |b.steps| <= order[i].begin
    ensures Holds(Write(data, at, b.steps), out, log + Records(b.steps, b.episodes, b.length))
  {
    var data', cut, recs := Write(data, at, b.steps), Cut(at, b.episodes, b.length),
      Records(b.steps, b.episodes, b.length);
    CutHolds(data', at, b.steps, b.episodes, b.length);
    forall i | 0 <= i < |out|
      ensures out[i].begin <= out[i].end <= |data'|
      ensures data'[out[i].begin..out[i].end] == (log + recs)[|log| + |recs| - |out| + i]
    {
      if i < |order| - d {
        WriteKeeps(data, at, b.steps, order[d + i]);
      } else {
        assert out[i] == cut[i - (|order| - d)];
      }
    }
  }

  /** Evicting exactly the first `d` ranges leaves the others and the new ones registered. */
  lemma AdvanceRegistry(registry: set<Interval>, gone: set<Interval>, order: seq<Interval>, d: nat, cut: seq<Interval>,
                        out: seq<Interval>)
    requires forall iv :: iv in registry <==> iv in order
    requires Shifted(out, order, d, cut) && forall i | 0 <= i < |order| :: order[i] in gone <==> i < d
    ensures forall iv :: iv in registry - gone + Members(cut) <==> iv in out
  {
    forall iv
      ensures iv in registry - gone + Members(cut) <==> iv in out
    {
      if iv in registry - gone {
        var i :| 0 <= i < |order| && order[i] == iv;
        assert out[i - d] == iv;
      }
      if iv in Members(cut) {
        var i :| 0 <= i < |cut| && cut[i] == iv;
        assert out[i + |order| - d] == iv;
      }
    }
  }

  /** Placing a block after evicting exactly the first `d` ranges. */
  lemma Advance<T>(r: Ring<T>, b: Block<T>, at: nat, gone: set<Interval>, order: seq<Interval>, d: nat,
                   log: seq<seq<T>>)
    returns (out: seq<Interval>)
    requires WellFormed(r) && b.Valid() && at + |b.steps| <= |r.data|
    requires Live(r, order, log) && d <= |order|
    requires forall i | 0 <= i < |order| :: order[i] in gone <==> i < d
    requires forall i | d <= i < |order| :: order[i].end <= at || at + |b.steps| <= order[i].begin
    ensures Shifted(out, order, d, Cut(at, b.episodes, b.length))
    ensures Live(Place(r, b, at, gone), out, log + Records(b.steps, b.episodes, b.length))
  {
    var cut := Cut(at, b.episodes, b.length);
    out := Shift(order, d, cut);
    AdvanceHolds(r.data, b, at, order, d, log, out);
    AdvanceRegistry(r.registry, gone, order, d, cut, out);
  }

  /** The block goes behind the pointer: the older ranges it left keep their place. */
  lemma ShapeFit(p: nat, n: nat, capacity: nat, order: seq<Interval>, lay: Layout, d: nat, cut: seq<Interval>,
                 out: seq<Interval>, slack: nat)
    returns (lay': Layout)
    requires Shape(p, capacity, order, lay, slack) && Tiles(cut, 0, |cut|, p, p + n)
    requires Shifted(out, order, d, cut) && d <= lay.m
    requires 0 < n <= slack && p + n <= capacity
    requires d < lay.m ==> p + n <= order[d].begin
    ensures Shape(NextPointer(p + n, capacity), capacity, out, lay', slack)
  {
    TilesMove(order, lay.m, |order|, 0, p, out, lay.m - d);
    TilesMove(cut, 0, |cut|, p, p + n, out, |order| - d);
    TilesJoin(out, lay.m - d, |order| - d, |out|, 0, p, p + n);
    TilesSplit(order, 0, lay.m, lay.lo, lay.end, d);
    if p + n < capacity {
      lay' := Layout(lay.m - d, if d < lay.m then order[d].begin else lay.end, lay.end);
      TilesMove(order, d, lay.m, lay'.lo, lay.end, out, 0);
    } else {
      lay' := Layout(|out|, 0, p + n);
      if d < lay.m {
        TilesSplit(order, 0, lay.m, lay.lo, lay.end, d + 1);
        assert false;
      }
    }
  }

  /** The block goes to the start: the ranges below the old pointer it left are now the older ones. */
  lemma ShapeWrap(p: nat, n: nat, capacity: nat, order: seq<Interval>, lay: Layout, d: nat, cut: seq<Interval>,
                  out: seq<Interval>, slack: nat)
    returns (lay': Layout)
    requires Shape(p, capacity, order, lay, slack) && Tiles(cut, 0, |cut|, 0, n)
    requires Shifted(out, order, d, cut) && lay.m <= d
    requires 0 < n <= slack && n <= capacity < p + n && p < capacity
    requires d < |order| ==> n <= order[d].begin
    ensures Shape(NextPointer(n, capacity), capacity, out, lay', slack)
  {
    TilesMove(cut, 0, |cut|, 0, n, out, |order| - d);
    TilesSplit(order, lay.m, |order|, 0, p, d);
    if n < capacity {
      lay' := Layout(|order| - d, if d < |order| then order[d].begin else p, p);
      TilesMove(order, d, |order|, lay'.lo, p, out, 0);
    } else {
      lay' := Layout(|out|, 0, n);
    }
  }

  /** A push that loses `d` ranges, the last of them only because the block needs its slots. */
  lemma RetainedAfter<T>(data: seq<T>, b: Block<T>, order: seq<Interval>, d: nat, log: seq<seq<T>>, capacity: nat,
                         slack: nat)
    requires b.Valid() && Holds(data, order, log) && d <= |order|
    requires Retained(|order|, log, capacity, slack)
    requires d > 0 ==> Steps(log, |log| - |order| + d - 1, |log|) + |b.steps| + slack > capacity + 1
    ensures Retained(|order| - d + b.episodes, log + Records(b.steps, b.episodes, b.length), capacity, slack)
  {
    var log' := log + Records(b.steps, b.episodes, b.length);
    var a := if d > 0 then |log| - |order| + d - 1 else |log| - |order| - 1;
    if a >= 0 {
      RecordsSteps(log, b.steps, b.episodes, b.length);
      StepsSplit(log', a, |log|, |log'|);
      StepsAppend(log, Records(b.steps, b.episodes, b.length), a, |log|);
    }
  }

  /** The block fits between the pointer and the end: it sweeps the front of the older ranges. */
  lemma FitSweep<T>(r: Ring<T>, n: nat, order: seq<Interval>, lay: Layout, log: seq<seq<T>>, slack: nat)
    returns (d: nat)
    requires Inv(r, order, lay, log, slack) && 0 < n && r.pointer + n <= |r.data|
    ensures d <= lay.m
    ensures forall i | 0 <= i < |order| :: order[i] in Overlap(r.registry, r.pointer, r.pointer + n) <==> i < d
    ensures forall i | d <= i < |order| :: order[i].end <= r.pointer || r.pointer + n <= order[i].begin
    ensures d < lay.m ==> r.pointer + n <= order[d].begin
    ensures d > 0 ==> Steps(log, |log| - |order| + d - 1, |log|) + n + slack > |r.data| + 1
  {
    hide Retained, AllLong, Steps, Tiles, WellFormed;
    var p, m, off := r.pointer, lay.m, |log| - |order|;
    d := Sweep(order, 0, m, lay.lo, lay.end, p + n);
    var _ := Sweep(order, m, |order|, 0, p, 0);
    forall i | 0 <= i < |order|
      ensures order[i] in Overlap(r.registry, p, p + n) <==> i < d
    {
      assert order[i] in order;
    }
    if d > 0 {
      TilesSplit(order, 0, m, lay.lo, lay.end, d - 1);
      TilesHold(r.data, order, log, d - 1, m, order[d - 1].begin, lay.end);
      TilesHold(r.data, order, log, m, |order|, 0, p);
      StepsSplit(log, off + d - 1, off + m, |log|);
    }
  }

  /** The block does not fit behind the pointer: it evicts everything there and sweeps the front. */
  lemma WrapSweep<T>(r: Ring<T>, n: nat, order: seq<Interval>, lay: Layout, log: seq<seq<T>>, slack: nat)
    returns (d: nat)
    requires Inv(r, order, lay, log, slack) && n <= slack && n <= |r.data| < r.pointer + n
    ensures lay.m < d <= |order|
    ensures forall i | 0 <= i < |order| ::
              order[i] in Overlap(r.registry, r.pointer, |r.data|) + Overlap(r.registry, 0, n) <==> i < d
    ensures forall i | d <= i < |order| :: n <= order[i].begin
    ensures Steps(log, |log| - |order| + d - 1, |log|) + n + slack > |r.data| + 1
  {
    hide Retained, AllLong, Steps, Holds;
    var p, m := r.pointer, lay.m;
    var _ := Sweep(order, 0, m, lay.lo, lay.end, 0);
    d := Sweep(order, m, |order|, 0, p, n);
    forall i | 0 <= i < |order|
      ensures order[i] in Overlap(r.registry, p, |r.data|) + Overlap(r.registry, 0, n) <==> i < d
    {
      assert order[i] in order;
    }
    TilesSplit(order, m, |order|, 0, p, d - 1);
    TilesHold(r.data, order, log, d - 1, |order|, order[d - 1].begin, p);
  }

  lemma FitLive<T>(r: Ring<T>, b: Block<T>, order: seq<Interval>, lay: Layout, log: seq<seq<T>>, slack: nat)
    returns (d: nat, order': seq<Interval>)
    requires Inv(r, order, lay, log, slack) && b.Valid() && r.pointer + |b.steps| <= |r.data|
    ensures Live(PushEpisodes(r, b), order', log + Contribution(b, |r.data|))
    ensures d <= lay.m && Shifted(order', order, d, Cut(r.pointer, b.episodes, b.length))
    ensures d < lay.m ==> r.pointer + |b.steps| <= order[d].begin
    ensures d > 0 ==> Steps(log, |log| - |order| + d - 1, |log|) + |b.steps| + slack > |r.data| + 1
  {
    d := FitSweep(r, |b.steps|, order, lay, log, slack);
    order' := Advance(r, b, r.pointer, Overlap(r.registry, r.pointer, r.pointer + |b.steps|), order, d, log);
  }

  lemma FitStep<T>(r: Ring<T>, b: Block<T>, order: seq<Interval>, lay: Layout, log: seq<seq<T>>, slack: nat)
    returns (order': seq<Interval>, lay': Layout)
    requires Inv(r, order, lay, log, slack) && b.Valid() && |b.steps| <= slack
    requires r.pointer + |b.steps| <= |r.data|
    ensures Inv(PushEpisodes(r, b), order', lay', log + Contribution(b, |r.data|), slack)
  {
    hide Cut, Tiles, Steps, Shape;
    var d, cut := 0, Cut(r.pointer, b.episodes, b.length);
    d, order' := FitLive(r, b, order, lay, log, slack);
    CutTiles(r.pointer, b.episodes, b.length, r.pointer + |b.steps|);
    lay' := ShapeFit(r.pointer, |b.steps|, |r.data|, order, lay, d, cut, order', slack);
    RetainedAfter(r.data, b, order, d, log, |r.data|, slack);
    AllLongAfter(log, b, |r.data|);
  }

  lemma WrapStep<T>(r: Ring<T>, b: Block<T>, order: seq<Interval>, lay: Layout, log: seq<seq<T>>, slack: nat)
    returns (order': seq<Interval>, lay': Layout)
    requires Inv(r, order, lay, log, slack) && b.Valid() && |b.steps| <= slack
    requires |b.steps| <= |r.data| < r.pointer + |b.steps|
    ensures Inv(PushEpisodes(r, b), order', lay', log + Contribution(b, |r.data|), slack)
  {
    hide Cut, Tiles, Steps, Shape;
    var p, n := r.pointer, |b.steps|;
    var d := WrapSweep(r, n, order, lay, log, slack);
    order' := Advance(r, b, 0, Overlap(r.registry, p, |r.data|) + Overlap(r.registry, 0, n), order, d, log);
    CutTiles(0, b.episodes, b.length, n);
    lay' := ShapeWrap(p, n, |r.data|, order, lay, d, Cut(0, b.episodes, b.length), order', slack);
    RetainedAfter(r.data, b, order, d, log, |r.data|, slack);
    AllLongAfter(log, b, |r.data|);
  }

  lemma DropTimes(n: nat, j: nat, length: nat)
    requires 0 < j <= n
    ensures n * length == length + (n - 1) * length
    ensures j * length == length + (j - 1) * length
    ensures 0 <= (j - 1) * length <= (n - 1) * length
  {
    Times(n, length);
    Times(j, length);
    TimesMonotone(j - 1, n - 1, length);
  }

  /** Dropping records one after the first, given what dropping from the rest gives. */
  lemma DropStep<T>(steps: seq<T>, n: nat, length: nat, j: nat, at: nat)
    requires 0 < j <= n && |steps| == n * length == length + (n - 1) * length
    requires j * length == length + at && at <= (n - 1) * length
    requires |steps[length + at..]| == (n - j) * length
    requires Records(steps[length..], n - 1, length)[j - 1..] == Records(steps[length + at..], n - j, length)
    ensures Records(steps, n, length)[j..] == Records(steps[j * length..], n - j, length)
  {
    DropTail([steps[..length]], Records(steps[length..], n - 1, length), j);
  }

  lemma {:induction false} RecordsDrop<T>(steps: seq<T>, n: nat, length: nat, j: nat)
    requires |steps| == n * length && j <= n
    ensures j * length + (n - j) * length == |steps|
    ensures Records(steps, n, length)[j..] == Records(steps[j * length..], n - j, length)
    decreases n
  {
    hide Records;
    if j == 0 {
      assert steps[0..] == steps;
      var all := Records(steps, n, length);
      assert all[0..] == all;
    } else {
      DropTimes(n, j, length);
      var at := (j - 1) * length;
      RecordsDrop(steps[length..], n - 1, length, j - 1);
      assert n - 1 - (j - 1) == n - j;
      assert steps[length..][at..] == steps[length + at..];
      DropStep(steps, n, length, j, at);
    }
  }

  lemma DropTail<T>(head: seq<seq<T>>, tail: seq<seq<T>>, j: nat)
    requires |head| == 1 <= j <= 1 + |tail|
    ensures (head + tail)[j..] == tail[j - 1..]
  {
  }

  lemma TimesMonotone(a: nat, b: nat, c: nat)
    requires a <= b
    ensures a * c <= b * c
  {
  }

  lemma QuotientBound(n: nat, length: nat, capacity: nat)
    requires length > 0 && capacity < n * length
    ensures capacity / length < n && capacity % length + capacity / length * length == capacity
  {
    var k := capacity / length;
    assert k * length + capacity % length == capacity;
    if k >= n {
      TimesMonotone(n, k, length);
      assert false;
    }
  }

  lemma BatchTiles(length: nat, capacity: nat)
    requires length > 0
    ensures Tiles(Cut(capacity % length, capacity / length, length), 0, capacity / length, capacity % length, capacity)
  {
    hide Tiles, Cut;
    assert capacity == capacity % length + capacity / length * length;
    CutTiles(capacity % length, capacity / length, length, capacity);
  }

  lemma OversizedTiles<T>(b: Block<T>, capacity: nat) returns (lay: Layout)
    requires b.Valid() && |b.steps| > capacity > 0
    ensures lay.m == |OversizedCut(b, capacity)| && lay.end == capacity
    ensures lay.lo == if b.episodes == 1 then 0 else capacity % b.length
    ensures Tiles(OversizedCut(b, capacity), 0, lay.m, lay.lo, lay.end)
  {
    hide Cut;
    if b.episodes == 1 {
      lay := Layout(1, 0, capacity);
    } else {
      BatchTiles(b.length, capacity);
      lay := Layout(capacity / b.length, capacity % b.length, capacity);
    }
  }

  /** A batch longer than the ring leaves its last whole sub-episodes, aligned to the end. */
  lemma OversizedHolds<T>(b: Block<T>, capacity: nat)
    requires b.Valid() && b.episodes > 1 && |b.steps| > capacity > 0
    ensures Holds(b.steps[|b.steps| - capacity..], OversizedCut(b, capacity), Records(b.steps, b.episodes, b.length))
  {
    var length, k, at := b.length, capacity / b.length, capacity % b.length;
    QuotientBound(b.episodes, length, capacity);
    RecordsDrop(b.steps, b.episodes, length, b.episodes - k);
    var tail := b.steps[(b.episodes - k) * length..];
    var data := b.steps[|b.steps| - capacity..];
    assert data[at..at + |tail|] == tail;
    CutHolds(data, at, tail, k, length);
    assert Records(tail, k, length) == Records(b.steps, b.episodes, length)[b.episodes - k..];
  }

  lemma HoldsBehind<T>(data: seq<T>, order: seq<Interval>, log: seq<seq<T>>, recs: seq<seq<T>>)
    requires Holds(data, order, recs)
    ensures Holds(data, order, log + recs)
  {
  }

  lemma OversizedLive<T>(r: Ring<T>, b: Block<T>, log: seq<seq<T>>)
    requires WellFormed(r) && b.Valid() && |b.steps| > |r.data|
    ensures Live(PushEpisodes(r, b), OversizedCut(b, |r.data|), log + Contribution(b, |r.data|))
  {
    hide Cut, Records;
    var data := b.steps[|b.steps| - |r.data|..];
    if b.episodes > 1 {
      OversizedHolds(b, |r.data|);
    }
    HoldsBehind(data, OversizedCut(b, |r.data|), log, Contribution(b, |r.data|));
  }

  lemma AllLongAfter<T>(log: seq<seq<T>>, b: Block<T>, capacity: nat)
    requires AllLong(log) && b.Valid() && capacity > 0
    ensures AllLong(log + Contribution(b, capacity))
  {
    RecordsSteps(log, b.steps, b.episodes, b.length);
  }

  /** What a block longer than the ring leaves live, and one record more, is more than the ring. */
  lemma OversizedRetained<T>(r: Ring<T>, b: Block<T>, log: seq<seq<T>>, slack: nat)
    requires WellFormed(r) && b.Valid() && |b.steps| > |r.data| && AllLong(log) && slack >= 1
    ensures Retained(|OversizedCut(b, |r.data|)|, log + Contribution(b, |r.data|), |r.data|, slack)
  {
    hide Holds, Records, Cut, Tiles, Contribution, OversizedCut, PushEpisodes;
    var capacity, order, log' := |r.data|, OversizedCut(b, |r.data|), log + Contribution(b, |r.data|);
    var lay := OversizedTiles(b, capacity);
    OversizedLive(r, b, log);
    AllLongAfter(log, b, capacity);
    if |order| < |log'| {
      var a := |log'| - |order| - 1;
      TilesHold(PushEpisodes(r, b).data, order, log', 0, |order|, lay.lo, capacity);
      StepsSplit(log', a, a + 1, |log'|);
      assert log'[a] in log';
      if b.episodes > 1 {
        OversizedOlder(b, capacity, log);
      }
    }
  }

  lemma FromEnd<T>(log: seq<seq<T>>, recs: seq<seq<T>>, k: nat)
    requires 0 < k <= |recs|
    ensures (log + recs)[|log + recs| - k] == recs[|recs| - k]
  {
  }

  lemma RecordLength<T>(steps: seq<T>, n: nat, length: nat, i: nat)
    requires |steps| == n * length && i < n
    ensures |Records(steps, n, length)[i]| == length
  {
    hide Records;
    RecordsSteps([], steps, n, length);
    assert Records(steps, n, length)[i] in Records(steps, n, length);
  }

  /** In a batch longer than the ring the record before those that stay is as long as they are. */
  lemma OversizedOlder<T>(b: Block<T>, capacity: nat, log: seq<seq<T>>)
    requires b.Valid() && b.episodes > 1 && |b.steps| > capacity
    ensures |OversizedCut(b, capacity)| < |Contribution(b, capacity)|
    ensures var log' := log + Contribution(b, capacity);
      |log'[|log'| - |OversizedCut(b, capacity)| - 1]| == b.length
  {
    hide Records, Cut;
    var records, k := Records(b.steps, b.episodes, b.length), capacity / b.length;
    QuotientBound(b.episodes, b.length, capacity);
    assert |OversizedCut(b, capacity)| == k && Contribution(b, capacity) == records;
    FromEnd(log, records, k + 1);
    RecordLength(b.steps, b.episodes, b.length, b.episodes - k - 1);
  }

  lemma OversizedStep<T>(r: Ring<T>, b: Block<T>, order: seq<Interval>, lay: Layout, log: seq<seq<T>>, slack: nat)
    returns (order': seq<Interval>, lay': Layout)
    requires Inv(r, order, lay, log, slack) && b.Valid() && slack >= 1
    requires |r.data| < |b.steps|
    ensures Inv(PushEpisodes(r, b), order', lay', log + Contribution(b, |r.data|), slack)
  {
    hide Holds, Records, Cut, Tiles, Contribution;
    order' := OversizedCut(b, |r.data|);
    lay' := OversizedTiles(b, |r.data|);
    OversizedLive(r, b, log);
    AllLongAfter(log, b, |r.data|);
    OversizedRetained(r, b, log, slack);
    TilesNone(order', |order'|);
  }

  lemma TilesNone(ivs: seq<Interval>, i: nat)
    requires i <= |ivs|
    ensures Tiles(ivs, i, i, 0, 0)
  {
  }

  /** One push keeps the invariant, whatever path it takes. */
  lemma Step<T>(r: Ring<T>, b: Block<T>, order: seq<Interval>, lay: Layout, log: seq<seq<T>>, slack: nat)
    returns (order': seq<Interval>, lay': Layout)
    requires Inv(r, order, lay, log, slack) && b.Valid() && slack >= 1 && (|b.steps| <= |r.data| ==> |b.steps| <= slack)
    ensures Inv(PushEpisodes(r, b), order', lay', log + Contribution(b, |r.data|), slack)
  {
    if r.pointer + |b.steps| <= |r.data| {
      order', lay' := FitStep(r, b, order, lay, log, slack);
    } else if |b.steps| > |r.data| {
      order', lay' := OversizedStep(r, b, order, lay, log, slack);
    } else {
      order', lay' := WrapStep(r, b, order, lay, log, slack);
    }
  }

  lemma {:induction false} RunInv<T>(memory: seq<T>, blocks: seq<Block<T>>, slack: nat)
    returns (order: seq<Interval>, lay: Layout)
    requires |memory| > 0 && NoLongerThan(blocks, |memory|, slack)
    ensures Inv(RunEpisodes(Empty(memory), blocks), order, lay, Log(blocks, |memory|), slack)
  {
    if blocks == [] {
      order, lay := [], Layout(0, 0, 0);
    } else {
      var front := blocks[..|blocks| - 1];
      order, lay := RunInv(memory, front, slack);
      order, lay := Step(RunEpisodes(Empty(memory), front), blocks[|blocks| - 1], order, lay, Log(front, |memory|),
        slack);
    }
  }

  ghost predicate Disjoint(a: Interval, b: Interval) {
    a.end <= b.begin || b.end <= a.begin
  }

  /** The ring as a queue: the registry lists `order`, oldest first; its ranges are in range,
      pairwise disjoint and never straddle the pointer; they hold, intact and in push order, a
      suffix of everything pushed. */
  ghost predicate IsQueue<T>(r: Ring<T>, order: seq<Interval>, log: seq<seq<T>>) {
    && (forall iv :: iv in r.registry <==> iv in order)
    && (forall i | 0 <= i < |order| ::
          && order[i].begin < order[i].end <= |r.data|
          && (order[i].end <= r.pointer || r.pointer <= order[i].begin))
    && (forall i, j | 0 <= i < j < |order| :: Disjoint(order[i], order[j]))
    && Holds(r.data, order, log)
  }

  lemma InvIsQueue<T>(r: Ring<T>, order: seq<Interval>, lay: Layout, log: seq<seq<T>>, slack: nat)
    requires Inv(r, order, lay, log, slack)
    ensures IsQueue(r, order, log)
  {
    var _ := Sweep(order, 0, lay.m, lay.lo, lay.end, 0);
    var _ := Sweep(order, lay.m, |order|, 0, r.pointer, 0);
    forall i, j | 0 <= i < j < |order|
      ensures Disjoint(order[i], order[j])
    {
      if j < lay.m {
        TilesDisjoint(order, 0, lay.m, lay.lo, lay.end, i, j);
      } else if lay.m <= i {
        TilesDisjoint(order, lay.m, |order|, 0, r.pointer, i, j);
      }
    }
  }

  /** The number of steps in the newest `k` records. */
  function NewestSteps<T>(log: seq<seq<T>>, k: nat): nat
    requires k <= |log|
  {
    Steps(log, |log| - k, |log|)
  }

  /** No batch of a run that the ring can hold at all has more than `longest` steps. */
  ghost predicate NoLongerThan<T>(blocks: seq<Block<T>>, capacity: nat, longest: nat) {
    longest >= 1 && forall b | b in blocks :: b.Valid() && (|b.steps| <= capacity ==> |b.steps| <= longest)
  }

  /** The newest `k` episodes are all live whenever together with one longest batch they would
      fit the ring. Batches longer than the ring do not count for `longest`. */
  ghost predicate KeepsRecent<T>(live: nat, log: seq<seq<T>>, capacity: nat, longest: nat) {
    forall k | 0 <= k <= |log| && NewestSteps(log, k) + longest <= capacity + 1 :: k <= live
  }

  lemma RetainedKeepsRecent<T>(live: nat, log: seq<seq<T>>, capacity: nat, longest: nat)
    requires Retained(live, log, capacity, longest)
    ensures KeepsRecent(live, log, capacity, longest)
  {
    forall k | live < k <= |log|
      ensures NewestSteps(log, k) + longest > capacity + 1
    {
      StepsSplit(log, |log| - k, |log| - live - 1, |log|);
    }
  }

  /** After any sequence of pushes the ring is a queue of whole episodes: eviction has always
      been oldest first, on every path, and never takes an episode that is recent enough. */
  lemma {:induction false} EpisodeRingIsFifo<T>(memory: seq<T>, blocks: seq<Block<T>>, longest: nat)
    requires |memory| > 0 && NoLongerThan(blocks, |memory|, longest)
    ensures exists order ::
              && IsQueue(RunEpisodes(Empty(memory), blocks), order, Log(blocks, |memory|))
              && KeepsRecent(|order|, Log(blocks, |memory|), |memory|, longest)
  {
    var order, lay := RunInv(memory, blocks, longest);
    InvIsQueue(RunEpisodes(Empty(memory), blocks), order, lay, Log(blocks, |memory|), longest);
    RetainedKeepsRecent(|order|, Log(blocks, |memory|), |memory|, longest);
  }
}
