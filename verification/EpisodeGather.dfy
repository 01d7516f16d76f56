/** Fetching a selection of episodes as one concatenated gather, cut apart again afterwards. */
module EpisodeGather {
  import opened Intervals

  /** The slots of the selected ranges, one range after the other. */
  function Offsets(selected: seq<Interval>): seq<nat>
    requires forall iv | iv in selected :: iv.begin <= iv.end
  {
    if selected == [] then []
    else Offsets(selected[..|selected| - 1]) + Slots(selected[|selected| - 1])
  }

  function Slots(iv: Interval): seq<nat>
    requires iv.begin <= iv.end
  {
    seq(iv.end - iv.begin, k requires 0 <= k => iv.begin + k)
  }

  /** The running sum of the range lengths, where each part of the gather starts. */
  function Cumulative(selected: seq<Interval>, i: nat): nat
    requires i <= |selected| && forall iv | iv in selected :: iv.begin <= iv.end
  {
    if i == 0 then 0 else Cumulative(selected, i - 1) + (selected[i - 1].end - selected[i - 1].begin)
  }

  /** How often a slot occurs among gathered offsets. */
  function Occurrences(offsets: seq<nat>, slot: nat): nat {
    if offsets == [] then 0
    else Occurrences(offsets[..|offsets| - 1], slot) + if offsets[|offsets| - 1] == slot then 1 else 0
  }

  /** How many of the selected ranges cover a slot, repeats counted. */
  function Coverage(selected: seq<Interval>, slot: nat): nat {
    if selected == [] then 0
    else Coverage(selected[..|selected| - 1], slot) + if Covers(selected[|selected| - 1], slot) then 1 else 0
  }

  lemma {:induction false} OccurrencesConcat(a: seq<nat>, b: seq<nat>, slot: nat)
    ensures Occurrences(a + b, slot) == Occurrences(a, slot) + Occurrences(b, slot)
  {
    if b == [] {
      assert a + b == a;
    } else {
      assert (a + b)[..|a + b| - 1] == a + b[..|b| - 1];
      OccurrencesConcat(a, b[..|b| - 1], slot);
    }
  }

  lemma {:induction false} SlotsOccurOnce(iv: Interval, slot: nat)
    requires iv.begin <= iv.end
    ensures Occurrences(Slots(iv), slot) == if Covers(iv, slot) then 1 else 0
    decreases iv.end
  {
    if iv.begin < iv.end {
      var shorter := Interval(iv.begin, iv.end - 1);
      assert Slots(iv)[..|Slots(iv)| - 1] == Slots(shorter);
      SlotsOccurOnce(shorter, slot);
    }
  }

  /** One scatter-add over the concatenated offsets raises each counter by its coverage. */
  lemma {:induction false} OccurrencesAreCoverage(selected: seq<Interval>, slot: nat)
    requires forall iv | iv in selected :: iv.begin <= iv.end
    ensures Occurrences(Offsets(selected), slot) == Coverage(selected, slot)
  {
    if selected != [] {
      var front, last := selected[..|selected| - 1], selected[|selected| - 1];
      OccurrencesAreCoverage(front, slot);
      OccurrencesConcat(Offsets(front), Slots(last), slot);
      SlotsOccurOnce(last, slot);
    }
  }

  lemma {:induction false} CumulativePrefix(selected: seq<Interval>, i: nat, k: nat)
    requires i <= k <= |selected| && forall iv | iv in selected :: iv.begin <= iv.end
    ensures Cumulative(selected[..k], i) == Cumulative(selected, i) <= Cumulative(selected, k)
    decreases k, i
  {
    if i > 0 {
      CumulativePrefix(selected, i - 1, k);
    }
    if i < k {
      CumulativePrefix(selected, i, k - 1);
    }
  }

  /** Part `i` of the offsets lists the slots of the `i`-th selected range in order. */
  lemma {:induction false} OffsetsPart(selected: seq<Interval>, i: nat)
    requires i < |selected| && forall iv | iv in selected :: iv.begin <= iv.end
    ensures |Offsets(selected)| == Cumulative(selected, |selected|)
    ensures Cumulative(selected, i) <= Cumulative(selected, i + 1) <= |Offsets(selected)|
    ensures Offsets(selected)[Cumulative(selected, i)..Cumulative(selected, i + 1)] == Slots(selected[i])
  {
    var n := |selected| - 1;
    var front := selected[..n];
    CumulativePrefix(selected, n, n);
    if n == 0 {
      assert Offsets(front) == [];
    } else if i < n {
      OffsetsPart(front, i);
      CumulativePrefix(selected, i, n);
      CumulativePrefix(selected, i + 1, n);
    } else {
      OffsetsPart(front, 0);
    }
  }

  /** When all lengths agree the cuts are the rows of a matrix. */
  lemma {:induction false} CumulativeEven(selected: seq<Interval>, length: nat, i: nat)
    requires i <= |selected| && forall iv | iv in selected :: iv.begin <= iv.end && iv.end - iv.begin == length
    ensures Cumulative(selected, i) == i * length
  {
    if i > 0 {
      CumulativeEven(selected, length, i - 1);
      Times(i, length);
    }
  }

  lemma CoverageIsRegistered(registry: set<Interval>, selected: seq<Interval>, slot: nat)
    requires forall iv | iv in selected :: iv in registry
    ensures Coverage(selected, slot) > 0 ==> Covered(registry, slot)
  {
    if selected != [] {
      assert selected[|selected| - 1] in registry;
      CoverageIsRegistered(registry, selected[..|selected| - 1], slot);
    }
  }

  /** The use counters after the selected ranges were fetched. */
  function Used(counter: seq<int>, selected: seq<Interval>): seq<int> {
    seq(|counter|, slot requires 0 <= slot < |counter| => counter[slot] + Coverage(selected, slot))
  }

  /** `flat` is the data read at the offsets of the selected ranges. */
  ghost predicate Gathered<T>(flat: seq<T>, data: seq<T>, selected: seq<Interval>) {
    && (forall iv | iv in selected :: iv.begin <= iv.end <= |data|)
    && |flat| == |Offsets(selected)|
    && forall k | 0 <= k < |flat| :: Offsets(selected)[k] < |data| && flat[k] == data[Offsets(selected)[k]]
  }

  /** Part `i` of the gathered data is the `i`-th selected episode. */
  lemma GatheredPart<T>(flat: seq<T>, data: seq<T>, selected: seq<Interval>, i: nat)
    requires Gathered(flat, data, selected) && i < |selected|
    ensures Cumulative(selected, i) <= Cumulative(selected, i + 1) <= |flat|
    ensures flat[Cumulative(selected, i)..Cumulative(selected, i + 1)] == data[selected[i].begin..selected[i].end]
  {
    OffsetsPart(selected, i);
    var a, e, iv := Cumulative(selected, i), Cumulative(selected, i + 1), selected[i];
    var part, episode := flat[a..e], data[iv.begin..iv.end];
    assert |Offsets(selected)[a..e]| == |Slots(iv)|;
    forall k | 0 <= k < |part|
      ensures part[k] == episode[k]
    {
      assert Offsets(selected)[a..e][k] == Slots(iv)[k];
    }
  }

  lemma {:induction false} OffsetsInRange(selected: seq<Interval>, capacity: nat)
    requires forall iv | iv in selected :: iv.begin <= iv.end <= capacity
    ensures forall k | 0 <= k < |Offsets(selected)| :: Offsets(selected)[k] < capacity
  {
    if selected != [] {
      OffsetsInRange(selected[..|selected| - 1], capacity);
    }
  }
}
