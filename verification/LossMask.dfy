/** The loss mask: a step counts until the first done of its environment. */
module LossMask {
  import opened Arithmetic
  import opened Chunks

  ghost predicate Wide(flat: seq<seq<bool>>, envs: nat) {
    forall i | 0 <= i < |flat| :: |flat[i]| == envs
  }

  /** How many of the first `n` rows are set in column `b`: the cumulative sum. */
  function CumSum(flat: seq<seq<bool>>, b: nat, n: nat): nat
    requires n <= |flat| && forall i | 0 <= i < |flat| :: b < |flat[i]|
  {
    if n == 0 then 0 else CumSum(flat, b, n - 1) + if flat[n - 1][b] then 1 else 0
  }

  /** A step is kept when the cumulative sum of the dones up to it is zero. */
  function FlatMask(flat: seq<seq<bool>>, envs: nat): (mask: seq<seq<bool>>)
    requires Wide(flat, envs)
    ensures |mask| == |flat| && Wide(mask, envs)
    ensures forall i, b | 0 <= i < |flat| && 0 <= b < envs :: mask[i][b] == (CumSum(flat, b, i + 1) == 0)
  {
    seq(|flat|, i requires 0 <= i < |flat| => seq(envs, b requires 0 <= b < envs => CumSum(flat, b, i + 1) == 0))
  }

  /** Flatten, mask in flat time, and unflatten. */
  function Mask(dones: seq<seq<seq<bool>>>, envs: nat, steps: nat): seq<seq<seq<bool>>>
    requires Cube(dones, |dones|, envs, steps)
  {
    UnflattenFlatten(dones, envs, steps);
    Unflatten(FlatMask(Flatten(dones, envs, steps), envs), |dones|, envs, steps)
  }

  /** The flat time of the first done of environment `b`, or the number of steps. */
  function FirstDone(flat: seq<seq<bool>>, b: nat): nat
    requires forall i | 0 <= i < |flat| :: b < |flat[i]|
  {
    if flat == [] || flat[0][b] then 0 else 1 + FirstDone(flat[1..], b)
  }

  lemma {:induction false} FirstDoneIs(flat: seq<seq<bool>>, b: nat)
    requires forall i | 0 <= i < |flat| :: b < |flat[i]|
    ensures FirstDone(flat, b) <= |flat| && forall i | 0 <= i < FirstDone(flat, b) :: !flat[i][b]
    ensures FirstDone(flat, b) < |flat| ==> flat[FirstDone(flat, b)][b]
  {
    if flat != [] && !flat[0][b] {
      FirstDoneIs(flat[1..], b);
      assert forall i | 1 <= i < |flat| :: flat[i] == flat[1..][i - 1];
    }
  }

  lemma {:induction false} CumSumZero(flat: seq<seq<bool>>, b: nat, n: nat)
    requires n <= |flat| && forall i | 0 <= i < |flat| :: b < |flat[i]|
    ensures CumSum(flat, b, n) == 0 <==> n <= FirstDone(flat, b)
  {
    FirstDoneIs(flat, b);
    if n > 0 {
      CumSumZero(flat, b, n - 1);
    }
  }

  /** Adding up a flat mask column counts the steps before the first done. */
  lemma {:induction false} FlatMaskSum(flat: seq<seq<bool>>, envs: nat, b: nat, n: nat)
    requires Wide(flat, envs) && b < envs && n <= |flat|
    ensures CumSum(FlatMask(flat, envs), b, n) == if n <= FirstDone(flat, b) then n else FirstDone(flat, b)
  {
    if n > 0 {
      FlatMaskSum(flat, envs, b, n - 1);
      CumSumZero(flat, b, n);
    }
  }

  /** The sum of the mask of one environment over chunks and steps. */
  function Count(row: seq<bool>): nat {
    if row == [] then 0 else Count(row[..|row| - 1]) + if row[|row| - 1] then 1 else 0
  }

  function MaskSum(mask: seq<seq<seq<bool>>>, b: nat): nat
    requires forall t | 0 <= t < |mask| :: b < |mask[t]|
  {
    if mask == [] then 0 else MaskSum(mask[..|mask| - 1], b) + Count(mask[|mask| - 1][b])
  }

  /** Appended rows add to a column what they hold of it. */
  lemma {:induction false} CumSumPrefix(flat: seq<seq<bool>>, more: seq<seq<bool>>, b: nat, n: nat)
    requires (forall i | 0 <= i < |flat| :: b < |flat[i]|) && (forall i | 0 <= i < |more| :: b < |more[i]|)
    requires n <= |flat|
    ensures CumSum(flat + more, b, n) == CumSum(flat, b, n)
  {
    if n > 0 {
      CumSumPrefix(flat, more, b, n - 1);
    }
  }

  lemma {:induction false} CumSumColumn(flat: seq<seq<bool>>, more: seq<seq<bool>>, b: nat, column: seq<bool>, n: nat)
    requires (forall i | 0 <= i < |flat| :: b < |flat[i]|) && (forall i | 0 <= i < |more| :: b < |more[i]|)
    requires |column| == |more| && (forall i | 0 <= i < |more| :: more[i][b] == column[i]) && n <= |more|
    ensures CumSum(flat + more, b, |flat| + n) == CumSum(flat, b, |flat|) + Count(column[..n])
  {
    if n == 0 {
      CumSumPrefix(flat, more, b, |flat|);
    } else {
      CumSumColumn(flat, more, b, column, n - 1);
      assert column[..n][..n - 1] == column[..n - 1];
    }
  }

  /** Summing over chunks and steps is summing over flat time. */
  lemma {:induction false} SumOfChunks(x: seq<seq<seq<bool>>>, envs: nat, steps: nat, b: nat)
    requires Cube(x, |x|, envs, steps) && b < envs
    ensures Wide(Flatten(x, envs, steps), envs)
    ensures MaskSum(x, b) == CumSum(Flatten(x, envs, steps), b, |Flatten(x, envs, steps)|)
  {
    hide Product, Swap, Flatten, CumSum;
    UnflattenFlatten(x, envs, steps);
    if x == [] {
      SumOfNone(x, envs, steps, b);
    } else {
      UnflattenFlatten(x[..|x| - 1], envs, steps);
      SumOfChunks(x[..|x| - 1], envs, steps, b);
      SumOneMore(x, envs, steps, b);
    }
  }

  lemma SumOfNone(x: seq<seq<seq<bool>>>, envs: nat, steps: nat, b: nat)
    requires Cube(x, |x|, envs, steps) && b < envs && x == []
    ensures Flatten(x, envs, steps) == [] && CumSum(Flatten(x, envs, steps), b, 0) == 0
  {
  }

  /** One more chunk. */
  lemma SumOneMore(x: seq<seq<seq<bool>>>, envs: nat, steps: nat, b: nat)
    requires Cube(x, |x|, envs, steps) && b < envs && x != []
    requires Wide(Flatten(x, envs, steps), envs) && Wide(Flatten(x[..|x| - 1], envs, steps), envs)
    ensures var init, last := x[..|x| - 1], x[|x| - 1];
      CumSum(Flatten(x, envs, steps), b, |Flatten(x, envs, steps)|)
      == CumSum(Flatten(init, envs, steps), b, |Flatten(init, envs, steps)|) + Count(last[b])
  {
    hide CumSum, Count;
    var init, last, y := x[..|x| - 1], x[|x| - 1], Swap(x, envs, steps);
    SwapInit(x, envs, steps);
    CumSumColumn(Flatten(init, envs, steps), y[|y| - 1], b, last[b], steps);
    assert last[b][..steps] == last[b];
  }

  lemma SwapInit(x: seq<seq<seq<bool>>>, envs: nat, steps: nat)
    requires Cube(x, |x|, envs, steps) && x != []
    ensures Swap(x, envs, steps)[..|x| - 1] == Swap(x[..|x| - 1], envs, steps)
    ensures Flatten(x, envs, steps) == Flatten(x[..|x| - 1], envs, steps) + Swap(x, envs, steps)[|x| - 1]
  {
    var y := Swap(x, envs, steps);
    forall t | 0 <= t < |x| - 1 ensures y[t] == Swap(x[..|x| - 1], envs, steps)[t] {
    }
    assert y[..|y| - 1] == Swap(x[..|x| - 1], envs, steps);
  }

  /** The mask is true at a step exactly when no done occurred at or before it in flat time. */
  lemma MaskAt(dones: seq<seq<seq<bool>>>, envs: nat, steps: nat, t: nat, b: nat, c: nat)
    requires Cube(dones, |dones|, envs, steps) && t < |dones| && b < envs && c < steps
    ensures Cube(Mask(dones, envs, steps), |dones|, envs, steps) && Wide(Flatten(dones, envs, steps), envs)
    ensures Mask(dones, envs, steps)[t][b][c] <==> Product(t, steps) + c < FirstDone(Flatten(dones, envs, steps), b)
  {
    var flat := Flatten(dones, envs, steps);
    UnflattenFlatten(dones, envs, steps);
    FlattenUnflatten(FlatMask(flat, envs), |dones|, envs, steps);
    FlattenAt(Mask(dones, envs, steps), envs, steps, t, b, c);
    CumSumZero(flat, b, Product(t, steps) + c + 1);
  }

  /** The mask of an environment adds up to the flat time of its first done. */
  lemma MaskSums(dones: seq<seq<seq<bool>>>, envs: nat, steps: nat, b: nat)
    requires Cube(dones, |dones|, envs, steps) && b < envs
    ensures Cube(Mask(dones, envs, steps), |dones|, envs, steps) && Wide(Flatten(dones, envs, steps), envs)
    ensures MaskSum(Mask(dones, envs, steps), b) == FirstDone(Flatten(dones, envs, steps), b)
  {
    var flat := Flatten(dones, envs, steps);
    UnflattenFlatten(dones, envs, steps);
    FlattenUnflatten(FlatMask(flat, envs), |dones|, envs, steps);
    SumOfChunks(Mask(dones, envs, steps), envs, steps, b);
    FlatMaskSum(flat, envs, b, |flat|);
    FirstDoneIs(flat, b);
  }

  /** Whether environment `b` is done at a step, read off the chunks. */
  lemma FirstDoneInChunks(dones: seq<seq<seq<bool>>>, envs: nat, steps: nat, t: nat, b: nat, c: nat)
    requires Cube(dones, |dones|, envs, steps) && t < |dones| && b < envs && c < steps
    ensures Wide(Flatten(dones, envs, steps), envs)
    ensures Product(t, steps) + c < FirstDone(Flatten(dones, envs, steps), b) ==> !dones[t][b][c]
    ensures Product(t, steps) + c == FirstDone(Flatten(dones, envs, steps), b) ==> dones[t][b][c]
  {
    UnflattenFlatten(dones, envs, steps);
    FlattenAt(dones, envs, steps, t, b, c);
    FirstDoneIs(Flatten(dones, envs, steps), b);
  }
}
