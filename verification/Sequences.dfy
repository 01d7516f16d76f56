/** Sequences shared by the other modules. */
module Sequences {
  import opened Arithmetic

  ghost predicate Distinct<T>(s: seq<T>) {
    forall i, j | 0 <= i < j < |s| :: s[i] != s[j]
  }

  /** Every `k`-th element, from the `j`-th on. */
  function Strided<T>(s: seq<T>, j: nat, k: nat): seq<T>
    requires j < k
  {
    if s == [] then []
    else Strided(s[..|s| - 1], j, k) + if (|s| - 1) % k == j then [s[|s| - 1]] else []
  }

  lemma LastPlace(n: nat, j: nat, k: nat, q: nat)
    requires j < k
    ensures j + Product(q, k) == n <==> n % k == j && q == n / k
  {
    hide Product;
    Division(n, k);
    if j + Product(q, k) == n {
      Unique(q, j, n / k, n % k, k);
    }
  }

  /** The `q`-th element of a slice is element `j + q * k`, and there are no others. */
  lemma {:induction false} StridedAt<T>(s: seq<T>, j: nat, k: nat, q: nat)
    requires j < k
    ensures q < |Strided(s, j, k)| <==> j + Product(q, k) < |s|
    ensures q < |Strided(s, j, k)| ==> Strided(s, j, k)[q] == s[j + Product(q, k)]
    decreases |s|, 0
  {
    hide Product;
    if s != [] {
      var init, n := s[..|s| - 1], |s| - 1;
      StridedAt(init, j, k, q);
      LastPlace(n, j, k, q);
      if n % k == j {
        StridedSize(init, j, k);
      }
    }
  }

  /** The next element of a slice sits behind all earlier ones. */
  lemma {:induction false} StridedSize<T>(s: seq<T>, j: nat, k: nat)
    requires j < k && |s| % k == j
    ensures |Strided(s, j, k)| == |s| / k
    decreases |s|, 1
  {
    hide Product, Strided;
    var n := |s|;
    Division(n, k);
    StridedAt(s, j, k, n / k);
    if n / k > 0 {
      StridedAt(s, j, k, n / k - 1);
      OneMore(n / k - 1, k);
    }
  }

  /** `at` lists the positions of `all` whose elements are wanted, in order. */
  ghost predicate Positions<T>(at: seq<nat>, all: seq<T>, wanted: T -> bool) {
    && (forall i, j | 0 <= i < j < |at| :: at[i] < at[j])
    && (forall k: nat :: k in at <==> k < |all| && wanted(all[k]))
  }

  /** The part takes its elements from these positions. */
  ghost predicate Takes<T>(at: seq<nat>, part: seq<T>, all: seq<T>) {
    |at| == |part| && forall i | 0 <= i < |at| :: at[i] < |all| && part[i] == all[at[i]]
  }

  /** `part` holds the wanted elements of `all`, each as often and in the order it has there. */
  ghost predicate Picks<T>(part: seq<T>, all: seq<T>, wanted: T -> bool) {
    exists at: seq<nat> :: Positions(at, all, wanted) && Takes(at, part, all)
  }

  lemma PicksNone<T>(wanted: T -> bool)
    ensures Picks([], [], wanted)
  {
    var at: seq<nat> := [];
    assert Positions(at, [], wanted) && Takes<T>(at, [], []);
  }

  /** A filter that goes through a list keeps what is wanted. */
  lemma PicksSnoc<T>(part: seq<T>, all: seq<T>, wanted: T -> bool, x: T)
    requires Picks(part, all, wanted)
    ensures Picks(part + if wanted(x) then [x] else [], all + [x], wanted)
  {
    hide Positions, Takes;
    var at: seq<nat> :| Positions(at, all, wanted) && Takes(at, part, all);
    PositionsSnoc(at, all, wanted, x);
    TakesSnoc(at, part, all, x);
    if wanted(x) {
      assert Positions(at + [|all|], all + [x], wanted) && Takes(at + [|all|], part + [x], all + [x]);
    } else {
      assert part + [] == part;
    }
  }

  lemma PositionsSnoc<T>(at: seq<nat>, all: seq<T>, wanted: T -> bool, x: T)
    requires Positions(at, all, wanted)
    ensures Positions(if wanted(x) then at + [|all|] else at, all + [x], wanted)
  {
    forall k: nat ensures k in at + [|all|] <==> k in at || k == |all| {
    }
    assert forall i | 0 <= i < |at| :: at[i] in at;
  }

  lemma TakesSnoc<T>(at: seq<nat>, part: seq<T>, all: seq<T>, x: T)
    requires Takes(at, part, all)
    ensures Takes(at, part, all + [x]) && Takes(at + [|all|], part + [x], all + [x])
  {
  }

  /** When the elements come out even, so do the slices. */
  lemma StridedEven<T>(s: seq<T>, j: nat, k: nat, size: nat)
    requires j < k && |s| == Product(size, k)
    ensures |Strided(s, j, k)| == size
  {
    hide Product, Strided;
    StridedAt(s, j, k, size);
    if size > 0 {
      OneMore(size - 1, k);
      StridedAt(s, j, k, size - 1);
    }
  }
}
