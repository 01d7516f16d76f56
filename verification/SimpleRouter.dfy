/** Greedy load balancing with a min-heap of (load, index) pairs. */
module SimpleRouter {
  type Entry = (int, nat)

  /** The order of tuples: load first, then index. */
  predicate Before(a: Entry, b: Entry) {
    a.0 < b.0 || (a.0 == b.0 && a.1 <= b.1)
  }

  ghost predicate Least(e: Entry, heap: set<Entry>) {
    e in heap && forall other | other in heap :: Before(e, other)
  }

  lemma {:induction false} HasLeast(heap: set<Entry>) returns (e: Entry)
    requires heap != {}
    ensures Least(e, heap)
    decreases |heap|
  {
    var some :| some in heap;
    if heap == {some} {
      e := some;
    } else {
      var rest := heap - {some};
      assert heap == {some} + rest;
      var least := HasLeast(rest);
      e := if Before(some, least) then some else least;
      assert forall other | other in heap :: other == some || other in rest;
    }
  }

  method HeapPop(heap: set<Entry>) returns (e: Entry, rest: set<Entry>)
    requires heap != {}
    ensures Least(e, heap) && rest == heap - {e}
  {
    ghost var least := HasLeast(heap);
    e :| e in heap && forall other | other in heap :: Before(e, other);
    rest := heap - {e};
  }

  function Entries(loads: seq<int>): set<Entry> {
    set i: nat | i < |loads| :: (loads[i], i)
  }

  ghost predicate InRange(tasks: seq<nat>, n: nat) {
    forall t | 0 <= t < |tasks| :: tasks[t] < n
  }

  /** The loads after some tasks were placed. */
  ghost function Placed(loads: seq<int>, tasks: seq<nat>): (after: seq<int>)
    requires InRange(tasks, |loads|)
    ensures |after| == |loads|
  {
    if tasks == [] then loads
    else
      var before, i := Placed(loads, tasks[..|tasks| - 1]), tasks[|tasks| - 1];
      before[i := before[i] + 1]
  }

  /** Every task goes to a policy with the least load of its moment, the lowest index among ties. */
  ghost predicate Greedy(loads: seq<int>, tasks: seq<nat>)
    requires InRange(tasks, |loads|)
  {
    tasks == [] ||
    var init, i := tasks[..|tasks| - 1], tasks[|tasks| - 1];
    Greedy(loads, init) && Least((Placed(loads, init)[i], i), Entries(Placed(loads, init)))
  }

  datatype Outcome = Assigned(tasks: seq<nat>) | NoPolicies

  method Assign(loads: seq<int>, numTasks: nat) returns (outcome: Outcome)
    ensures outcome.NoPolicies? <==> loads == []
    ensures outcome.Assigned? ==> |outcome.tasks| == numTasks && InRange(outcome.tasks, |loads|)
    ensures outcome.Assigned? ==> Greedy(loads, outcome.tasks) && FirstLeast(loads, outcome.tasks)
  {
    var heap := Entries(loads);
    if loads == [] {
      return NoPolicies;
    }
    var tasks: seq<nat> := [];
    for t := 0 to numTasks
      invariant |tasks| == t && InRange(tasks, |loads|) && Greedy(loads, tasks)
      invariant heap == Entries(Placed(loads, tasks))
    {
      ghost var now := Placed(loads, tasks);
      assert (now[0], 0) in heap;
      var e, rest := HeapPop(heap);
      GreedyMore(loads, tasks, e);
      tasks := tasks + [e.1];
      heap := rest + {(e.0 + 1, e.1)};
    }
    GreedyFirst(loads, tasks);
    outcome := Assigned(tasks);
  }

  /** The load of a policy once some tasks were placed. */
  ghost function Load(loads: seq<int>, tasks: seq<nat>, i: nat): int
    requires i < |loads|
  {
    loads[i] + multiset(tasks)[i]
  }

  /** No policy has less load than the chosen one, and those before it have more. */
  ghost predicate FirstLeast(loads: seq<int>, tasks: seq<nat>)
    requires InRange(tasks, |loads|)
  {
    forall k: nat, j: nat | k < |tasks| && j < |loads| :: Preferred(loads, tasks, k, j)
  }

  /** The policy chosen for task `k` against policy `j`. */
  ghost predicate Preferred(loads: seq<int>, tasks: seq<nat>, k: nat, j: nat)
    requires InRange(tasks, |loads|) && k < |tasks| && j < |loads|
  {
    var chosen, load := Load(loads, tasks[..k], tasks[k]), Load(loads, tasks[..k], j);
    chosen <= load && (j < tasks[k] ==> chosen < load)
  }

  /** The loads count the tasks. */
  lemma {:induction false} PlacedCounts(loads: seq<int>, tasks: seq<nat>, i: nat)
    requires InRange(tasks, |loads|) && i < |loads|
    ensures Placed(loads, tasks)[i] == Load(loads, tasks, i)
  {
    if tasks != [] {
      PlacedCounts(loads, tasks[..|tasks| - 1], i);
      assert tasks == tasks[..|tasks| - 1] + [tasks[|tasks| - 1]];
    }
  }

  lemma {:induction false} GreedyFirst(loads: seq<int>, tasks: seq<nat>)
    requires InRange(tasks, |loads|) && Greedy(loads, tasks)
    ensures FirstLeast(loads, tasks)
  {
    hide Load;
    if tasks != [] {
      var init, i := tasks[..|tasks| - 1], tasks[|tasks| - 1];
      GreedyFirst(loads, init);
      PlacedCounts(loads, init, i);
      forall k: nat, j: nat | k < |tasks| && j < |loads| ensures Preferred(loads, tasks, k, j) {
        if k < |init| {
          assert Preferred(loads, init, k, j) && init[..k] == tasks[..k];
        } else {
          PlacedCounts(loads, init, j);
          assert (Placed(loads, init)[j], j) in Entries(Placed(loads, init));
        }
      }
    }
  }

  lemma GreedyMore(loads: seq<int>, tasks: seq<nat>, e: Entry)
    requires InRange(tasks, |loads|) && Greedy(loads, tasks)
    requires Least(e, Entries(Placed(loads, tasks)))
    ensures e.1 < |loads| && Greedy(loads, tasks + [e.1])
    ensures Entries(Placed(loads, tasks + [e.1])) == Entries(Placed(loads, tasks)) - {e} + {(e.0 + 1, e.1)}
  {
    assert (tasks + [e.1])[..|tasks|] == tasks;
    EntriesUpdate(Placed(loads, tasks), e);
  }

  lemma EntriesUpdate(loads: seq<int>, e: Entry)
    requires e in Entries(loads)
    ensures e.1 < |loads| && loads[e.1] == e.0
    ensures Entries(loads[e.1 := e.0 + 1]) == Entries(loads) - {e} + {(e.0 + 1, e.1)}
  {
    var after := loads[e.1 := e.0 + 1];
    forall i: nat | i < |loads| && i != e.1 ensures (loads[i], i) in Entries(after) {
      assert after[i] == loads[i];
    }
    assert (after[e.1], e.1) in Entries(after);
  }

  function Sum(loads: seq<int>): int {
    if loads == [] then 0 else Sum(loads[..|loads| - 1]) + loads[|loads| - 1]
  }

  lemma {:induction false} SumUpdate(loads: seq<int>, i: nat, x: int)
    requires i < |loads|
    ensures Sum(loads[i := x]) == Sum(loads) - loads[i] + x
  {
    var last := |loads| - 1;
    if i == last {
      assert loads[i := x][..last] == loads[..last];
    } else {
      SumUpdate(loads[..last], i, x);
      assert loads[i := x][..last] == loads[..last][i := x];
    }
  }

  /** The total load grows by one per task. */
  lemma {:induction false} Conservation(loads: seq<int>, tasks: seq<nat>)
    requires InRange(tasks, |loads|)
    ensures Sum(Placed(loads, tasks)) == Sum(loads) + |tasks|
  {
    if tasks != [] {
      var init, i := tasks[..|tasks| - 1], tasks[|tasks| - 1];
      Conservation(loads, init);
      SumUpdate(Placed(loads, init), i, Placed(loads, init)[i] + 1);
    }
  }

  /** No policy loses load, and one that never got a task keeps its load. */
  lemma {:induction false} NeverLess(loads: seq<int>, tasks: seq<nat>, i: nat)
    requires InRange(tasks, |loads|) && i < |loads|
    ensures Placed(loads, tasks)[i] >= loads[i] && (Placed(loads, tasks)[i] == loads[i] <==> i !in tasks)
  {
    if tasks != [] {
      NeverLess(loads, tasks[..|tasks| - 1], i);
      assert tasks == tasks[..|tasks| - 1] + [tasks[|tasks| - 1]];
    }
  }

  /** A policy that got a task is within one of every other policy at the end. */
  lemma {:induction false} Balanced(loads: seq<int>, tasks: seq<nat>, i: nat, j: nat)
    requires InRange(tasks, |loads|) && Greedy(loads, tasks) && i in tasks && j < |loads|
    ensures i < |loads| && Placed(loads, tasks)[i] <= Placed(loads, tasks)[j] + 1
  {
    var init, last := tasks[..|tasks| - 1], tasks[|tasks| - 1];
    assert tasks == init + [last];
    var before := Placed(loads, init);
    assert (before[j], j) in Entries(before);
    if i != last {
      Balanced(loads, init, i, j);
    }
  }

  lemma {:induction false} SumLess(a: seq<int>, b: seq<int>)
    requires |a| == |b| && forall j | 0 <= j < |a| :: a[j] <= b[j]
    ensures Sum(a) <= Sum(b) && ((exists j :: 0 <= j < |a| && a[j] < b[j]) ==> Sum(a) < Sum(b))
  {
    if a != [] {
      var last := |a| - 1;
      SumLess(a[..last], b[..last]);
      if j :| 0 <= j < |a| && a[j] < b[j] {
        if j < last {
          assert a[..last][j] < b[..last][j];
        }
      }
    }
  }

  /** No assignment of as many tasks has a smaller maximum: whatever bounds the loads of some
      assignment bounds those of the greedy one. */
  lemma Optimal(loads: seq<int>, tasks: seq<nat>, others: seq<nat>, bound: int, i: nat)
    requires InRange(tasks, |loads|) && InRange(others, |loads|) && |tasks| == |others| && Greedy(loads, tasks)
    requires forall j | 0 <= j < |loads| :: Placed(loads, others)[j] <= bound
    requires i < |loads|
    ensures Placed(loads, tasks)[i] <= bound
  {
    var greedy, other := Placed(loads, tasks), Placed(loads, others);
    NeverLess(loads, others, i);
    NeverLess(loads, tasks, i);
    if greedy[i] > bound {
      forall j | 0 <= j < |loads| ensures other[j] <= greedy[j] {
        Balanced(loads, tasks, i, j);
      }
      assert other[i] < greedy[i];
      SumLess(other, greedy);
      Conservation(loads, tasks);
      Conservation(loads, others);
    }
  }
}
