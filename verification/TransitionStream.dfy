/** The transition ring keeps the most recent part of the stream of transitions. */
module TransitionStream {
  import opened ReplayRing

  /** All transitions pushed, in order. */
  function Stream<T>(pushes: seq<seq<T>>): seq<T> {
    if pushes == [] then [] else Stream(pushes[..|pushes| - 1]) + pushes[|pushes| - 1]
  }

  /** The slots read from the write pointer once around the array. */
  function Around<T>(r: Ring<T>): seq<T>
    requires r.pointer <= |r.data|
  {
    r.data[r.pointer..] + r.data[..r.pointer]
  }

  function Last<T>(s: seq<T>, k: nat): seq<T>
    requires k <= |s|
  {
    s[|s| - k..]
  }

  /** The ring against the stream it was fed. */
  ghost predicate Follows<T>(r: Ring<T>, stream: seq<T>) {
    var capacity, total := |r.data|, |stream|;
    && WellFormed(r)
    && (total < capacity ==> r.pointer == total == r.size && r.data[..total] == stream)
    && (total >= capacity ==> Around(r) == Last(stream, capacity))
    && r.size <= capacity
    && (forall slot | 0 <= slot < capacity ::
          if slot < total then r.useCounter[slot] >= 0 else r.useCounter[slot] == -1)
  }

  lemma FitFollows<T>(r: Ring<T>, steps: seq<T>, stream: seq<T>)
    requires Follows(r, stream) && r.pointer + |steps| <= |r.data|
    ensures Follows(PushTransitions(r, steps), stream + steps)
  {
    var s, p, n, capacity := PushTransitions(r, steps), r.pointer, |steps|, |r.data|;
    if |stream| >= capacity {
      assert Around(r)[n..] == r.data[p + n..] + r.data[..p];
      assert Last(stream + steps, capacity) == Last(stream, capacity)[n..] + steps;
      assert s.data[p + n..] + s.data[..p + n] == r.data[p + n..] + r.data[..p] + steps;
      if p + n == capacity {
        assert Around(s) == s.data[p + n..] + s.data[..p + n];
      }
    } else {
      assert s.data[..p + n] == stream + steps;
    }
  }

  lemma OversizedFollows<T>(r: Ring<T>, steps: seq<T>, stream: seq<T>)
    requires Follows(r, stream) && |steps| > |r.data|
    ensures Follows(PushTransitions(r, steps), stream + steps)
  {
    assert Last(stream + steps, |r.data|) == steps[|steps| - |r.data|..];
  }

  /** A split write leaves, in order, the rest of what was written last time and all of `steps`. */
  lemma SplitWrite<T>(data: seq<T>, p: nat, steps: seq<T>)
    requires p <= |data| && |steps| <= |data| < p + |steps|
    ensures var split, k := |data| - p, p + |steps| - |data|;
      Write(Write(data, p, steps[..split]), 0, steps[split..]) == steps[split..] + data[k..p] + steps[..split]
  {
  }

  lemma Rotate<T>(tail: seq<T>, middle: seq<T>, head: seq<T>)
    ensures var data := tail + middle + head; data[|tail|..] + data[..|tail|] == middle + (head + tail)
  {
  }

  lemma SplitAround<T>(r: Ring<T>, steps: seq<T>)
    requires WellFormed(r) && |steps| <= |r.data| < r.pointer + |steps|
    ensures Around(PushTransitions(r, steps)) == r.data[r.pointer + |steps| - |r.data|..r.pointer] + steps
  {
    hide Write;
    var p, split, k := r.pointer, |r.data| - r.pointer, r.pointer + |steps| - |r.data|;
    SplitWrite(r.data, p, steps);
    Rotate(steps[split..], r.data[k..p], steps[..split]);
    assert steps[..split] + steps[split..] == steps;
  }

  lemma LastOfJoin<T>(stream: seq<T>, steps: seq<T>, capacity: nat)
    requires |steps| <= capacity <= |stream| + |steps|
    ensures Last(stream + steps, capacity) == Last(stream, capacity - |steps|) + steps
  {
  }

  /** The slots a split write leaves alone hold the newest of the old stream. */
  lemma Untouched<T>(r: Ring<T>, n: nat, stream: seq<T>)
    requires Follows(r, stream) && n <= |r.data| < r.pointer + n
    ensures |r.data| - n <= |stream|
    ensures r.data[r.pointer + n - |r.data|..r.pointer] == Last(stream, |r.data| - n)
  {
    var p, k, capacity := r.pointer, r.pointer + n - |r.data|, |r.data|;
    if |stream| >= capacity {
      assert Around(r)[n..] == r.data[k..p];
      assert Last(stream, capacity)[n..] == Last(stream, capacity - n);
    } else {
      assert stream[k..p] == r.data[k..p];
    }
  }

  lemma SplitFollows<T>(r: Ring<T>, steps: seq<T>, stream: seq<T>)
    requires Follows(r, stream) && |steps| <= |r.data| < r.pointer + |steps|
    ensures Follows(PushTransitions(r, steps), stream + steps)
  {
    hide Around, Last, Write;
    SplitAround(r, steps);
    Untouched(r, |steps|, stream);
    LastOfJoin(stream, steps, |r.data|);
  }

  lemma StepFollows<T>(r: Ring<T>, steps: seq<T>, stream: seq<T>)
    requires Follows(r, stream)
    ensures Follows(PushTransitions(r, steps), stream + steps)
  {
    if r.pointer + |steps| <= |r.data| {
      FitFollows(r, steps, stream);
    } else if |steps| > |r.data| {
      OversizedFollows(r, steps, stream);
    } else {
      SplitFollows(r, steps, stream);
    }
  }

  lemma {:induction false} RunFollows<T>(memory: seq<T>, pushes: seq<seq<T>>)
    requires |memory| > 0
    ensures Follows(RunTransitions(memory, pushes), Stream(pushes))
  {
    if pushes != [] {
      RunFollows(memory, pushes[..|pushes| - 1]);
      StepFollows(RunTransitions(memory, pushes[..|pushes| - 1]), pushes[|pushes| - 1], Stream(pushes[..|pushes| - 1]));
    }
  }

  /** After any pushes, reading around the array from the pointer ends with the most recent
      transitions in order; every index below `size` has been written. */
  lemma {:induction false} TransitionRingKeepsLatest<T>(memory: seq<T>, pushes: seq<seq<T>>)
    requires |memory| > 0
    ensures var r, stream := RunTransitions(memory, pushes), Stream(pushes);
      var kept := Min(|stream|, |memory|);
      && Last(Around(r), kept) == Last(stream, kept)
      && r.size <= kept
      && forall slot | 0 <= slot < r.size :: r.useCounter[slot] >= 0
  {
    var r, stream := RunTransitions(memory, pushes), Stream(pushes);
    RunFollows(memory, pushes);
    if |stream| < |memory| {
      assert Last(Around(r), |stream|) == r.data[..r.pointer];
    }
  }

  /** Whether a push leaves the reported size equal to the number of transitions kept, from the
      pointer and the size before it: a write that runs past the end counts only its wrapped part. */
  ghost predicate Catches<T>(r: Ring<T>, n: nat, total: nat) {
    var capacity, p := |r.data|, r.pointer;
    if p + n <= capacity then total < capacity || r.size + n >= capacity
    else n > capacity || r.size + (p + n - capacity) >= capacity
  }

  /** How many of `n` transitions pushed at slot `p` are counted in the reported size: of a write
      that runs past the end only the part that wraps. */
  function Counts(p: nat, n: nat, capacity: nat): nat {
    if p + n <= capacity then n else if n > capacity then capacity else p + n - capacity
  }

  lemma PushCounts<T>(r: Ring<T>, steps: seq<T>)
    requires WellFormed(r)
    ensures PushTransitions(r, steps).size == Min(r.size + Counts(r.pointer, |steps|, |r.data|), |r.data|)
    ensures var p, n, capacity := r.pointer, |steps|, |r.data|;
      PushTransitions(r, steps).pointer
      == if p + n < capacity then p + n else if n > capacity then 0 else p + n - capacity
  {
  }

  lemma FollowsSize<T>(r: Ring<T>, stream: seq<T>)
    requires Follows(r, stream)
    ensures WellFormed(r) && r.size <= |r.data|
    ensures |stream| < |r.data| ==> r.pointer == r.size == |stream|
  {
  }

  /** When exactly the reported size is right after a push, also when it was not before; and it
      never shrinks. */
  lemma SizeExact<T>(r: Ring<T>, steps: seq<T>, stream: seq<T>)
    requires Follows(r, stream)
    ensures PushTransitions(r, steps).size >= r.size
    ensures PushTransitions(r, steps).size == Min(|stream| + |steps|, |r.data|) <==> Catches(r, |steps|, |stream|)
  {
    hide PushTransitions, Follows;
    FollowsSize(r, stream);
    PushCounts(r, steps);
  }

  /** Between two clears the reported size never decreases, and it never exceeds what is kept. */
  lemma {:induction false} SizeGrows<T>(memory: seq<T>, pushes: seq<seq<T>>, i: nat)
    requires |memory| > 0 && i <= |pushes|
    ensures RunTransitions(memory, pushes[..i]).size <= RunTransitions(memory, pushes).size
    ensures RunTransitions(memory, pushes).size <= Min(|Stream(pushes)|, |memory|)
  {
    RunFollows(memory, pushes);
    if i == |pushes| {
      assert pushes[..i] == pushes;
    } else {
      var front := pushes[..|pushes| - 1];
      SizeGrows(memory, front, i);
      assert front[..i] == pushes[..i];
    }
  }

  /** Where the pointer stands after a run of pushes. */
  function Stands<T>(pushes: seq<seq<T>>, capacity: nat): (p: nat)
    requires capacity > 0
    ensures p < capacity
  {
    if pushes == [] then 0
    else
      var p, n := Stands(pushes[..|pushes| - 1], capacity), |pushes[|pushes| - 1]|;
      if p + n < capacity then p + n else if n > capacity then 0 else p + n - capacity
  }

  /** How many transitions of a run are counted. */
  function CountedSteps<T>(pushes: seq<seq<T>>, capacity: nat): nat
    requires capacity > 0
  {
    if pushes == [] then 0
    else
      var front := pushes[..|pushes| - 1];
      CountedSteps(front, capacity) + Counts(Stands(front, capacity), |pushes[|pushes| - 1]|, capacity)
  }

  /** The reported size after any run, from the lengths of its pushes alone. */
  lemma {:induction false} SizeIs<T>(memory: seq<T>, pushes: seq<seq<T>>)
    requires |memory| > 0
    ensures RunTransitions(memory, pushes).pointer == Stands(pushes, |memory|)
    ensures RunTransitions(memory, pushes).size == Min(CountedSteps(pushes, |memory|), |memory|)
  {
    hide PushTransitions, Counts;
    if pushes != [] {
      var front := pushes[..|pushes| - 1];
      SizeIs(memory, front);
      PushCounts(RunTransitions(memory, front), pushes[|pushes| - 1]);
    }
  }

  /** A run that has not filled the ring is counted in full, and no run more than in full. */
  lemma {:induction false} CountedAll<T>(pushes: seq<seq<T>>, capacity: nat)
    requires capacity > 0
    ensures CountedSteps(pushes, capacity) <= |Stream(pushes)|
    ensures |Stream(pushes)| < capacity ==>
              CountedSteps(pushes, capacity) == Stands(pushes, capacity) == |Stream(pushes)|
  {
    if pushes != [] {
      CountedAll(pushes[..|pushes| - 1], capacity);
    }
  }

  /** After any run the reported size is the number of transitions kept if and only if the ring was
      never filled or enough of what was pushed has been counted. */
  lemma {:induction false} SizeExactWhen<T>(memory: seq<T>, pushes: seq<seq<T>>)
    requires |memory| > 0
    ensures RunTransitions(memory, pushes).size == Min(|Stream(pushes)|, |memory|)
            <==> |Stream(pushes)| < |memory| || CountedSteps(pushes, |memory|) >= |memory|
  {
    hide Stream, CountedSteps, RunTransitions;
    SizeIs(memory, pushes);
    CountedAll(pushes, |memory|);
  }

  /** Two pushes after which four transitions are kept but only three are reported. */
  lemma SizeLags()
    ensures var r := RunTransitions([0, 0, 0, 0], [[1, 2], [3, 4, 5]]);
      r.size == 3 && Around(r) == [2, 3, 4, 5]
  {
    var start := Empty([0, 0, 0, 0]);
    var one := PushTransitions(start, [1, 2]);
    assert [[1, 2]][..0] == [];
    assert RunTransitions([0, 0, 0, 0], [[1, 2]]) == one;
    assert [[1, 2], [3, 4, 5]][..1] == [[1, 2]];
    assert RunTransitions([0, 0, 0, 0], [[1, 2], [3, 4, 5]]) == PushTransitions(one, [3, 4, 5]);
    assert one.data == [1, 2, 0, 0];
  }
}
