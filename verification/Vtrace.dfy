/** V-trace targets over exact reals; the importance ratios are given as positive reals. */
module Vtrace {
  datatype Trace = Trace(rewards: seq<real>, values: seq<real>, next: seq<real>, dones: seq<bool>, rhos: seq<real>,
                         gamma: real, rhoBar: real, cBar: real)

  ghost predicate Shaped(e: Trace) {
    |e.rewards| == |e.values| == |e.next| == |e.dones| == |e.rhos| >= 1
  }

  function Clamp(x: real, max: real): real {
    if x > max then max else x
  }

  /** The ratio of step `t`, cut at its threshold. */
  function Rho(e: Trace, t: nat): real
    requires t < |e.rhos|
  {
    Clamp(e.rhos[t], e.rhoBar)
  }

  /** The trace coefficient of step `t`: the same ratio, cut at the other threshold. */
  function C(e: Trace, t: nat): real
    requires t < |e.rhos|
  {
    Clamp(e.rhos[t], e.cBar)
  }

  /** Both are the step's own ratio unless it exceeds the threshold. */
  lemma RatiosCut(e: Trace, t: nat)
    requires t < |e.rhos|
    ensures Rho(e, t) <= e.rhoBar && C(e, t) <= e.cBar
    ensures e.rhos[t] <= e.rhoBar ==> Rho(e, t) == e.rhos[t]
    ensures e.rhos[t] >= e.rhoBar ==> Rho(e, t) == e.rhoBar
    ensures e.rhos[t] <= e.cBar ==> C(e, t) == e.rhos[t]
    ensures e.rhos[t] >= e.cBar ==> C(e, t) == e.cBar
  {
  }

  function Delta(e: Trace, t: nat): real
    requires Shaped(e) && t < |e.rewards|
  {
    Rho(e, t) * (e.rewards[t] + e.gamma * e.next[t] - e.values[t])
  }

  /** One step back from the target after it. */
  function Back(e: Trace, t: nat, later: real): real
    requires Shaped(e) && t < |e.rewards|
  {
    e.values[t] + Delta(e, t) + e.gamma * C(e, t) * ((if e.dones[t] then 0.0 else later) - e.next[t])
  }

  /** The target of step `t`. */
  ghost function Target(e: Trace, t: nat): real
    requires Shaped(e) && t < |e.rewards|
    decreases |e.rewards| - t
  {
    if t + 1 == |e.rewards| then e.values[t] + Delta(e, t) else Back(e, t, Target(e, t + 1))
  }

  /** The policy gradient advantage of step `t` given the targets. */
  function Gradient(e: Trace, t: nat, following: real): real
    requires Shaped(e) && t < |e.rewards|
  {
    Rho(e, t) * (e.rewards[t] + e.gamma * following - e.values[t])
  }

  /** Ratios of one and thresholds of at least one. */
  ghost predicate OnPolicy(e: Trace) {
    (forall t | 0 <= t < |e.rhos| :: e.rhos[t] == 1.0) && e.rhoBar >= 1.0 && e.cBar >= 1.0
  }

  /** At the last step the advantage is what the target adds to the value. */
  lemma AdvantageLast(e: Trace)
    requires Shaped(e)
    ensures var t := |e.rewards| - 1; Gradient(e, t, e.next[t]) == Target(e, t) - e.values[t]
  {
  }

  /** Target and advantage differ by the next target's gain over the next value, weighted by the
      difference of the two cut ratios; a done takes the next value's trace away as well. */
  ghost predicate Apart(e: Trace, t: nat, target: real, advantage: real, later: real)
    requires Shaped(e) && t < |e.rewards|
  {
    target - e.values[t] - advantage
    == if e.dones[t] then e.gamma * (Rho(e, t) * (e.next[t] - later) - C(e, t) * e.next[t])
       else e.gamma * (C(e, t) - Rho(e, t)) * (later - e.next[t])
  }

  lemma AdvantageBefore(e: Trace, t: nat)
    requires Shaped(e) && t + 1 < |e.rewards|
    ensures Apart(e, t, Target(e, t), Gradient(e, t, Target(e, t + 1)), Target(e, t + 1))
  {
    hide Rho, C, Delta, Gradient, Back;
    var later := Target(e, t + 1);
    Unfolded(e, t, later);
    if e.dones[t] {
      WeighDone(Rho(e, t), C(e, t), e.gamma, e.rewards[t], e.values[t], e.next[t], later);
    } else {
      Weigh(Rho(e, t), C(e, t), e.gamma, e.rewards[t], e.values[t], e.next[t], later);
    }
  }

  lemma Unfolded(e: Trace, t: nat, later: real)
    requires Shaped(e) && t < |e.rewards|
    ensures Back(e, t, later) - e.values[t]
         == Rho(e, t) * (e.rewards[t] + e.gamma * e.next[t] - e.values[t])
            + e.gamma * C(e, t) * ((if e.dones[t] then 0.0 else later) - e.next[t])
    ensures Gradient(e, t, later) == Rho(e, t) * (e.rewards[t] + e.gamma * later - e.values[t])
  {
    hide Rho, C;
  }

  lemma Weigh(rho: real, c: real, gamma: real, reward: real, value: real, next: real, later: real)
    ensures rho * (reward + gamma * next - value) + gamma * c * (later - next) - rho * (reward + gamma * later - value)
         == gamma * (c - rho) * (later - next)
  {
    Difference(rho, reward - value, gamma * next, gamma * later);
    assert rho * (gamma * next - gamma * later) == gamma * rho * (next - later);
  }

  lemma WeighDone(rho: real, c: real, gamma: real, reward: real, value: real, next: real, later: real)
    ensures rho * (reward + gamma * next - value) + gamma * c * (0.0 - next) - rho * (reward + gamma * later - value)
         == gamma * (rho * (next - later) - c * next)
  {
    Difference(rho, reward - value, gamma * next, gamma * later);
    assert rho * (gamma * next - gamma * later) == gamma * rho * (next - later);
  }

  lemma Difference(a: real, x: real, y: real, z: real)
    ensures a * (x + y) - a * (x + z) == a * (y - z)
  {
  }

  /** On policy the advantage is the reward plus the discounted next target less the value. */
  lemma AdvantageOnPolicy(e: Trace, t: nat, following: real)
    requires Shaped(e) && OnPolicy(e) && t < |e.rewards|
    ensures Gradient(e, t, following) == e.rewards[t] + e.gamma * following - e.values[t]
  {
    assert Rho(e, t) == 1.0;
  }

  /** With equal thresholds the advantage of a step that is not done is what its target adds to the
      value. */
  lemma AdvantageIsGain(e: Trace, t: nat)
    requires Shaped(e) && t + 1 < |e.rewards| && !e.dones[t] && e.rhoBar == e.cBar
    ensures Gradient(e, t, Target(e, t + 1)) == Target(e, t) - e.values[t]
  {
    hide Target, Gradient;
    AdvantageBefore(e, t);
    assert e.gamma * (C(e, t) - Rho(e, t)) == 0.0;
  }

  method VtraceCorrection(e: Trace) returns (vs: array<real>, advantages: array<real>)
    requires Shaped(e)
    ensures vs.Length == advantages.Length == |e.rewards|
    ensures forall t | 0 <= t < |e.rewards| :: vs[t] == Target(e, t)
    ensures forall t | 0 <= t < |e.rewards| ::
              advantages[t] == Gradient(e, t, if t + 1 == |e.rewards| then e.next[t] else Target(e, t + 1))
    ensures var t := |e.rewards| - 1; advantages[t] == vs[t] - e.values[t]
    ensures forall t | 0 <= t < |e.rewards| - 1 :: Apart(e, t, vs[t], advantages[t], vs[t + 1])
  {
    hide Back, Delta, Gradient, Apart;
    var n := |e.rewards|;
    vs := new real[n];
    vs[n - 1] := e.values[n - 1] + Delta(e, n - 1);
    var t := n - 1;
    while t > 0
      invariant 0 <= t < n && forall s | t <= s < n :: vs[s] == Target(e, s)
    {
      t := t - 1;
      vs[t] := Back(e, t, vs[t + 1]);
    }
    advantages := Gradients(e, vs);
    AdvantageLast(e);
    forall s: nat | s < n - 1 ensures Apart(e, s, vs[s], advantages[s], vs[s + 1]) {
      AdvantageBefore(e, s);
    }
  }

  method Gradients(e: Trace, vs: array<real>) returns (advantages: array<real>)
    requires Shaped(e) && vs.Length == |e.rewards|
    ensures fresh(advantages) && advantages.Length == |e.rewards|
    ensures forall t | 0 <= t < |e.rewards| ::
              advantages[t] == Gradient(e, t, if t + 1 == |e.rewards| then e.next[t] else vs[t + 1])
  {
    hide Gradient;
    var n := |e.rewards|;
    advantages := new real[n];
    for t := 0 to n - 1
      invariant forall s | 0 <= s < t :: advantages[s] == Gradient(e, s, vs[s + 1])
    {
      advantages[t] := Gradient(e, t, vs[t + 1]);
    }
    advantages[n - 1] := Gradient(e, n - 1, e.next[n - 1]);
  }

  /** The step at which the trace from `t` ends: the first done, or the last step. */
  ghost function End(e: Trace, t: nat): (end: nat)
    requires Shaped(e) && t < |e.rewards|
    ensures t <= end < |e.rewards|
    decreases |e.rewards| - t
  {
    if t + 1 == |e.rewards| || e.dones[t] then t else End(e, t + 1)
  }

  /** The discounted product of the trace coefficients of steps `t` to `s - 1`. */
  ghost function Weight(e: Trace, t: nat, s: nat): real
    requires Shaped(e) && t <= s <= |e.rewards|
    decreases s - t
  {
    if t == s then 1.0 else e.gamma * C(e, t) * Weight(e, t + 1, s)
  }

  /** The weighted temporal differences of steps `s` to `end`. */
  ghost function Weighted(e: Trace, t: nat, s: nat, end: nat): real
    requires Shaped(e) && t <= s <= end + 1 <= |e.rewards|
    decreases end + 1 - s
  {
    if s == end + 1 then 0.0 else Weight(e, t, s) * Delta(e, s) + Weighted(e, t, s + 1, end)
  }

  /** The next value of each step that is not done is the value of the following step. */
  ghost predicate Chained(e: Trace)
    requires Shaped(e)
  {
    forall t | 0 <= t < |e.rewards| - 1 && !e.dones[t] :: e.next[t] == e.values[t + 1]
  }

  lemma {:induction false} WeightedFactor(e: Trace, t: nat, s: nat, end: nat)
    requires Shaped(e) && t < s <= end + 1 <= |e.rewards|
    ensures Weighted(e, t, s, end) == e.gamma * C(e, t) * Weighted(e, t + 1, s, end)
    decreases end + 1 - s
  {
    hide Delta, C;
    if s <= end {
      WeightedFactor(e, t, s + 1, end);
      Distribute(e.gamma * C(e, t), Weight(e, t + 1, s), Delta(e, s), Weighted(e, t + 1, s + 1, end));
    }
  }

  lemma Distribute(a: real, w: real, d: real, rest: real)
    ensures a * (w * d + rest) == (a * w) * d + a * rest
  {
  }

  lemma Spread(a: real, v: real, w: real, r: real)
    ensures a * ((v + w - r) - v) == a * w - a * r
  {
  }

  lemma Associate(a: real, w: real, x: real)
    ensures (a * w) * x == a * (w * x)
  {
  }

  /** What a done before the last step takes away again: the next value its difference has. */
  ghost function Residue(e: Trace, t: nat, end: nat): real
    requires Shaped(e) && t <= end < |e.rewards|
  {
    if end + 1 == |e.rewards| then 0.0 else Weight(e, t, end + 1) * e.next[end]
  }

  lemma ResidueFactor(e: Trace, t: nat, end: nat)
    requires Shaped(e) && t < end < |e.rewards|
    ensures Residue(e, t, end) == e.gamma * C(e, t) * Residue(e, t + 1, end)
  {
    hide C;
    if end + 1 < |e.rewards| {
      Associate(e.gamma * C(e, t), Weight(e, t + 1, end + 1), e.next[end]);
    }
  }

  /** The backward loop in closed form: the value plus the weighted differences up to the end of
      the trace, less the residue of the done that ended it. */
  lemma {:induction false} ClosedForm(e: Trace, t: nat)
    requires Shaped(e) && Chained(e) && t < |e.rewards|
    ensures Target(e, t) == e.values[t] + Weighted(e, t, t, End(e, t)) - Residue(e, t, End(e, t))
    decreases |e.rewards| - t
  {
    hide Target, Weighted, Residue;
    if t < End(e, t) {
      ClosedForm(e, t + 1);
      ClosedStep(e, t, End(e, t));
    } else {
      ClosedEnd(e, t);
    }
  }

  lemma ClosedEnd(e: Trace, t: nat)
    requires Shaped(e) && t < |e.rewards| && End(e, t) == t
    ensures Target(e, t) == e.values[t] + Weighted(e, t, t, t) - Residue(e, t, t)
  {
    hide Delta, C;
    if t + 1 < |e.rewards| {
      assert Weight(e, t + 1, t + 1) == 1.0;
    }
  }

  lemma ClosedStep(e: Trace, t: nat, end: nat)
    requires Shaped(e) && t < end < |e.rewards| && !e.dones[t] && e.next[t] == e.values[t + 1]
    requires Target(e, t + 1) == e.values[t + 1] + Weighted(e, t + 1, t + 1, end) - Residue(e, t + 1, end)
    ensures Target(e, t) == e.values[t] + Weighted(e, t, t, end) - Residue(e, t, end)
  {
    hide Delta, C, Residue;
    var g := e.gamma * C(e, t);
    WeightedFactor(e, t, t + 1, end);
    ResidueFactor(e, t, end);
    assert Weighted(e, t, t, end) == Delta(e, t) + Weighted(e, t, t + 1, end);
    Spread(g, e.values[t + 1], Weighted(e, t + 1, t + 1, end), Residue(e, t + 1, end));
  }

  /** The discounted return cut at each done; the last step is bootstrapped even if it is done. */
  ghost function Discounted(e: Trace, t: nat): real
    requires Shaped(e) && t < |e.rewards|
    decreases |e.rewards| - t
  {
    e.rewards[t] + if t + 1 == |e.rewards| then e.gamma * e.next[t]
                   else if e.dones[t] then 0.0 else e.gamma * Discounted(e, t + 1)
  }

  /** On policy the targets are the discounted returns, whatever the values and dones. */
  lemma {:induction false} OnPolicyReturn(e: Trace, t: nat)
    requires Shaped(e) && OnPolicy(e) && t < |e.rewards|
    ensures Target(e, t) == Discounted(e, t)
    decreases |e.rewards| - t
  {
    if t + 1 < |e.rewards| {
      OnPolicyReturn(e, t + 1);
    }
  }

  /** A done before the last step cuts what follows, next value included, exactly when the
      unmasked difference and the trace coefficient cancel. */
  lemma DoneCuts(e: Trace, t: nat)
    requires Shaped(e) && t + 1 < |e.rewards| && e.dones[t]
    ensures Target(e, t) == e.values[t] + Rho(e, t) * (e.rewards[t] - e.values[t])
            <==> e.gamma * (Rho(e, t) - C(e, t)) * e.next[t] == 0.0
  {
    hide Rho, C;
    Cancel(Rho(e, t), C(e, t), e.gamma, e.next[t], e.rewards[t] - e.values[t]);
  }

  /** Ratio 2, thresholds 2 and 1: the target of a done step still holds the value after it. */
  lemma DoneLeaks()
    ensures var e := Trace([0.0, 0.0], [0.0, 0.0], [1.0, 0.0], [true, false], [2.0, 1.0], 1.0, 2.0, 1.0);
      Target(e, 0) == 1.0 && e.values[0] + Rho(e, 0) * (e.rewards[0] - e.values[0]) == 0.0
  {
    var e := Trace([0.0, 0.0], [0.0, 0.0], [1.0, 0.0], [true, false], [2.0, 1.0], 1.0, 2.0, 1.0);
    assert Delta(e, 0) == 2.0 && C(e, 0) == 1.0;
  }

  lemma Cancel(rho: real, c: real, gamma: real, next: real, x: real)
    ensures rho * (x + gamma * next) + gamma * c * (0.0 - next) == rho * x + gamma * (rho - c) * next
  {
  }

  /** A done at the last step is ignored. */
  lemma LastIgnoresDone(e: Trace)
    requires Shaped(e)
    ensures var t := |e.rewards| - 1;
      Target(e, t) == e.values[t] + Rho(e, t) * (e.rewards[t] - e.values[t])
      <==> Rho(e, t) * (e.gamma * e.next[t]) == 0.0
  {
    var t := |e.rewards| - 1;
    assert Delta(e, t) == Rho(e, t) * (e.rewards[t] - e.values[t]) + Rho(e, t) * (e.gamma * e.next[t]);
  }

  /** One step, done, without reward: its target is the value of the step after it. */
  lemma LastLeaks()
    ensures Target(Trace([0.0], [0.0], [1.0], [true], [1.0], 1.0, 1.0, 1.0), 0) == 1.0
  {
    var e := Trace([0.0], [0.0], [1.0], [true], [1.0], 1.0, 1.0, 1.0);
    assert Delta(e, 0) == 1.0;
  }
}
