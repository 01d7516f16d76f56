/** Action chunks: flattening [chunks, envs, steps] to [time, envs], undoing it, and the loss mask. */
module Chunks {
  import opened Arithmetic

  /** A tensor of shape [chunks, envs, steps]. */
  ghost predicate Cube<X>(x: seq<seq<seq<X>>>, chunks: nat, envs: nat, steps: nat) {
    |x| == chunks && forall t | 0 <= t < chunks :: |x[t]| == envs && forall b | 0 <= b < envs :: |x[t][b]| == steps
  }

  /** `transpose(1, 2)` of a tensor of shape [chunks, envs, steps]. */
  function Swap<X>(x: seq<seq<seq<X>>>, envs: nat, steps: nat): (y: seq<seq<seq<X>>>)
    requires Cube(x, |x|, envs, steps)
    ensures Cube(y, |x|, steps, envs)
    ensures forall t, b, c | 0 <= t < |x| && 0 <= b < envs && 0 <= c < steps :: y[t][c][b] == x[t][b][c]
  {
    seq(|x|, t requires 0 <= t < |x| =>
      seq(steps, c requires 0 <= c < steps => seq(envs, b requires 0 <= b < envs => x[t][b][c])))
  }

  /** Merge the first two dimensions. */
  function Rows<X>(y: seq<seq<seq<X>>>): seq<seq<X>> {
    if y == [] then [] else Rows(y[..|y| - 1]) + y[|y| - 1]
  }

  /** Split the first dimension into pieces of `steps`. */
  function Pieces<X>(flat: seq<seq<X>>, chunks: nat, steps: nat): seq<seq<seq<X>>>
    requires |flat| == Product(chunks, steps)
    decreases chunks
  {
    if chunks == 0 then []
    else
      OneMore(chunks - 1, steps);
      Pieces(flat[..Product(chunks - 1, steps)], chunks - 1, steps) + [flat[Product(chunks - 1, steps)..]]
  }

  function Flatten<X>(x: seq<seq<seq<X>>>, envs: nat, steps: nat): seq<seq<X>>
    requires Cube(x, |x|, envs, steps)
  {
    Rows(Swap(x, envs, steps))
  }

  function Unflatten<X>(flat: seq<seq<X>>, chunks: nat, envs: nat, steps: nat): seq<seq<seq<X>>>
    requires |flat| == Product(chunks, steps) && forall i | 0 <= i < |flat| :: |flat[i]| == envs
  {
    PiecesShape(flat, chunks, envs, steps);
    Swap(Pieces(flat, chunks, steps), steps, envs)
  }

  lemma {:induction false} PiecesShape<X>(flat: seq<seq<X>>, chunks: nat, envs: nat, steps: nat)
    requires |flat| == Product(chunks, steps) && forall i | 0 <= i < |flat| :: |flat[i]| == envs
    ensures Cube(Pieces(flat, chunks, steps), chunks, steps, envs)
    decreases chunks
  {
    if chunks > 0 {
      OneMore(chunks - 1, steps);
      PiecesShape(flat[..Product(chunks - 1, steps)], chunks - 1, envs, steps);
    }
  }

  lemma {:induction false} RowsShape<X>(y: seq<seq<seq<X>>>, steps: nat)
    requires forall t | 0 <= t < |y| :: |y[t]| == steps
    ensures |Rows(y)| == Product(|y|, steps)
  {
    if y != [] {
      RowsShape(y[..|y| - 1], steps);
      OneMore(|y| - 1, steps);
    } else {
      OneMore(0, steps);
    }
  }

  /** Row `t * steps + c` is row `c` of piece `t`. */
  lemma {:induction false} RowsAt<X>(y: seq<seq<seq<X>>>, steps: nat, t: nat, c: nat)
    requires (forall s | 0 <= s < |y| :: |y[s]| == steps) && t < |y| && c < steps
    ensures Product(t, steps) + c < |Rows(y)| == Product(|y|, steps) && Rows(y)[Product(t, steps) + c] == y[t][c]
  {
    RowsShape(y, steps);
    RowsShape(y[..|y| - 1], steps);
    OneMore(|y| - 1, steps);
    if t < |y| - 1 {
      RowsAt(y[..|y| - 1], steps, t, c);
    }
  }

  lemma {:induction false} PiecesOfRows<X>(y: seq<seq<seq<X>>>, steps: nat)
    requires forall t | 0 <= t < |y| :: |y[t]| == steps
    ensures |Rows(y)| == Product(|y|, steps) && Pieces(Rows(y), |y|, steps) == y
  {
    RowsShape(y, steps);
    if y != [] {
      PiecesOfRows(y[..|y| - 1], steps);
      assert Rows(y)[..Product(|y| - 1, steps)] == Rows(y[..|y| - 1]);
    }
  }

  lemma {:induction false} RowsOfPieces<X>(flat: seq<seq<X>>, chunks: nat, steps: nat)
    requires |flat| == Product(chunks, steps)
    ensures Rows(Pieces(flat, chunks, steps)) == flat
    decreases chunks
  {
    OneMore(0, steps);
    if chunks > 0 {
      OneMore(chunks - 1, steps);
      RowsOfPieces(flat[..Product(chunks - 1, steps)], chunks - 1, steps);
      var p := Pieces(flat, chunks, steps);
      assert p[..|p| - 1] == Pieces(flat[..Product(chunks - 1, steps)], chunks - 1, steps);
    }
  }

  lemma SwapTwice<X>(x: seq<seq<seq<X>>>, envs: nat, steps: nat)
    requires Cube(x, |x|, envs, steps)
    ensures Swap(Swap(x, envs, steps), steps, envs) == x
  {
    var z := Swap(Swap(x, envs, steps), steps, envs);
    forall t | 0 <= t < |x| ensures z[t] == x[t] {
      forall b | 0 <= b < envs ensures z[t][b] == x[t][b] {
      }
    }
  }

  /** Step `c` of chunk `t` is at time `t * steps + c`. */
  lemma FlattenAt<X>(x: seq<seq<seq<X>>>, envs: nat, steps: nat, t: nat, b: nat, c: nat)
    requires Cube(x, |x|, envs, steps) && t < |x| && b < envs && c < steps
    ensures |Flatten(x, envs, steps)| == Product(|x|, steps) && Product(t, steps) + c < |Flatten(x, envs, steps)|
    ensures |Flatten(x, envs, steps)[Product(t, steps) + c]| == envs
    ensures Flatten(x, envs, steps)[Product(t, steps) + c][b] == x[t][b][c]
  {
    RowsAt(Swap(x, envs, steps), steps, t, c);
  }

  lemma {:induction false} RowsWidth<X>(y: seq<seq<seq<X>>>, steps: nat, envs: nat)
    requires Cube(y, |y|, steps, envs)
    ensures forall i | 0 <= i < |Rows(y)| :: |Rows(y)[i]| == envs
  {
    if y != [] {
      RowsWidth(y[..|y| - 1], steps, envs);
    }
  }

  /** Flattening and unflattening undo each other. */
  lemma {:induction false} UnflattenFlatten<X>(x: seq<seq<seq<X>>>, envs: nat, steps: nat)
    requires Cube(x, |x|, envs, steps)
    ensures |Flatten(x, envs, steps)| == Product(|x|, steps)
    ensures forall i | 0 <= i < |Flatten(x, envs, steps)| :: |Flatten(x, envs, steps)[i]| == envs
    ensures Unflatten(Flatten(x, envs, steps), |x|, envs, steps) == x
  {
    PiecesOfRows(Swap(x, envs, steps), steps);
    RowsWidth(Swap(x, envs, steps), steps, envs);
    SwapTwice(x, envs, steps);
  }

  lemma FlattenUnflatten<X>(flat: seq<seq<X>>, chunks: nat, envs: nat, steps: nat)
    requires |flat| == Product(chunks, steps) && forall i | 0 <= i < |flat| :: |flat[i]| == envs
    ensures Cube(Unflatten(flat, chunks, envs, steps), chunks, envs, steps)
    ensures Flatten(Unflatten(flat, chunks, envs, steps), envs, steps) == flat
  {
    PiecesShape(flat, chunks, envs, steps);
    RowsOfPieces(flat, chunks, steps);
    SwapTwice(Pieces(flat, chunks, steps), steps, envs);
  }
}
