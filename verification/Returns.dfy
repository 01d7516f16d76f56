/** Generalised advantage estimation over exact reals: the three backward loops, one column each,
    before normalisation. */
module Returns {
  /** What `(1 - done)` and `~done` contribute. */
  function Mask(done: bool): real {
    if done then 0.0 else 1.0
  }

  /** One column of an episode; `next[t]` is the value after step `t`. */
  datatype Episode = Episode(rewards: seq<real>, values: seq<real>, next: seq<real>, dones: seq<bool>)

  ghost predicate Shaped(e: Episode) {
    |e.rewards| == |e.values| == |e.next| == |e.dones|
  }

  /** The next value of each step that is not done is the value of the following step. */
  ghost predicate Chained(e: Episode)
    requires Shaped(e)
  {
    forall t | 0 <= t < |e.rewards| - 1 && !e.dones[t] :: e.next[t] == e.values[t + 1]
  }

  /** The temporal difference of one step. */
  function Delta(reward: real, value: real, next: real, done: bool, gamma: real): real {
    reward + gamma * next * Mask(done) - value
  }

  /** One step back: what later steps contribute is cut by a done. */
  function Back(delta: real, gamma: real, lam: real, done: bool, later: real): real {
    delta + gamma * lam * Mask(done) * later
  }

  /** The advantage of step `t`; none after the last step. */
  ghost function Advantage(e: Episode, gamma: real, lam: real, t: nat): real
    requires Shaped(e) && t <= |e.rewards|
    decreases |e.rewards| - t
  {
    if t == |e.rewards| then 0.0
    else Back(Delta(e.rewards[t], e.values[t], e.next[t], e.dones[t], gamma), gamma, lam, e.dones[t],
      Advantage(e, gamma, lam, t + 1))
  }

  ghost function Return(e: Episode, gamma: real, lam: real, t: nat): real
    requires Shaped(e) && t < |e.rewards|
  {
    Advantage(e, gamma, lam, t) + e.values[t]
  }

  /** Add the values to the advantages, step by step. */
  method AddValues(advantages: array<real>, values: seq<real>) returns (sums: array<real>)
    requires advantages.Length == |values|
    ensures fresh(sums) && sums.Length == |values|
    ensures forall t | 0 <= t < |values| :: sums[t] == advantages[t] + values[t]
  {
    sums := new real[|values|];
    for t := 0 to |values|
      invariant forall j | 0 <= j < t :: sums[j] == advantages[j] + values[j]
    {
      sums[t] := advantages[t] + values[t];
    }
  }

  /** Iterate backwards over the steps, carrying the last advantage. */
  method DefaultComputeGae(e: Episode, gamma: real, lam: real) returns (advantages: array<real>, totals: array<real>)
    requires Shaped(e)
    ensures advantages.Length == totals.Length == |e.rewards|
    ensures forall t | 0 <= t < |e.rewards| :: advantages[t] == Advantage(e, gamma, lam, t)
    ensures forall t | 0 <= t < |e.rewards| ::
              totals[t] == Return(e, gamma, lam, t) == advantages[t] + e.values[t]
  {
    hide Back, Delta;
    var n := |e.rewards|;
    advantages := new real[n];
    var lastAdvantage, t := 0.0, n;
    while t > 0
      invariant t <= n && lastAdvantage == Advantage(e, gamma, lam, t)
      invariant forall s | t <= s < n :: advantages[s] == Advantage(e, gamma, lam, s)
    {
      t := t - 1;
      var delta := Delta(e.rewards[t], e.values[t], e.next[t], e.dones[t], gamma);
      advantages[t] := Back(delta, gamma, lam, e.dones[t], lastAdvantage);
      lastAdvantage := advantages[t];
    }
    totals := AddValues(advantages, e.values);
  }

  /** The rewards plus the discounted bootstrap values. */
  ghost function Bootstrapped(rewards: seq<real>, bootstrap: seq<real>, gamma: real): seq<real>
    requires |rewards| == |bootstrap|
  {
    seq(|rewards|, t requires 0 <= t < |rewards| => rewards[t] + gamma * bootstrap[t])
  }

  /** `rewards += gamma * bootstrap`, in place. */
  method AddBootstrap(rewards: array<real>, bootstrap: seq<real>, gamma: real)
    requires |bootstrap| == rewards.Length
    modifies rewards
    ensures rewards[..] == Bootstrapped(old(rewards[..]), bootstrap, gamma)
  {
    for t := 0 to rewards.Length
      invariant forall j | 0 <= j < t :: rewards[j] == old(rewards[j]) + gamma * bootstrap[j]
      invariant forall j | t <= j < rewards.Length :: rewards[j] == old(rewards[j])
    {
      rewards[t] := rewards[t] + gamma * bootstrap[t];
    }
    ghost var want := Bootstrapped(old(rewards[..]), bootstrap, gamma);
    assert forall j | 0 <= j < |want| :: want[j] == old(rewards[j]) + gamma * bootstrap[j];
  }

  datatype Option<T> = None | Some(value: T)

  /** The rewards the loops work on. */
  ghost function Effective(rewards: seq<real>, bootstrap: Option<seq<real>>, gamma: real): seq<real>
    requires bootstrap.Some? ==> |bootstrap.value| == |rewards|
  {
    if bootstrap.Some? then Bootstrapped(rewards, bootstrap.value, gamma) else rewards
  }

  /** Dones combine terminations and truncations; bootstrap values go into the rewards. */
  method ComputeReturnsPpo(rewards: array<real>, values: seq<real>, next: seq<real>, terminated: seq<bool>,
                           truncated: seq<bool>,
                           bootstrap: Option<seq<real>>, gamma: real, lam: real)
    returns (totals: array<real>)
    requires |values| == |next| == |terminated| == |truncated| == rewards.Length
    requires bootstrap.Some? ==> |bootstrap.value| == rewards.Length
    modifies rewards
    ensures rewards[..] == Effective(old(rewards[..]), bootstrap, gamma) && totals.Length == rewards.Length
    ensures forall t | 0 <= t < rewards.Length ::
              rewards[t] == old(rewards[t]) + if bootstrap.Some? then gamma * bootstrap.value[t] else 0.0
    ensures var dones := seq(|values|, t requires 0 <= t < |values| => terminated[t] || truncated[t]);
      var e := Episode(rewards[..], values, next, dones);
      forall t | 0 <= t < |values| :: totals[t] == Return(e, gamma, lam, t)
  {
    hide Back, Delta;
    var n := rewards.Length;
    var dones := seq(n, t requires 0 <= t < n => terminated[t] || truncated[t]);
    if bootstrap.Some? {
      AddBootstrap(rewards, bootstrap.value, gamma);
    }
    ghost var e := Episode(rewards[..], values, next, dones);
    totals := new real[n];
    var gae, step := 0.0, n;
    while step > 0
      invariant step <= n && gae == Advantage(e, gamma, lam, step) && rewards[..] == e.rewards
      invariant forall s | step <= s < n :: totals[s] == Return(e, gamma, lam, s)
    {
      step := step - 1;
      var delta := Delta(rewards[step], values[step], next[step], dones[step], gamma);
      gae := Back(delta, gamma, lam, dones[step], gae);
      totals[step] := gae + values[step];
    }
  }

  /** The sum of the rewards up to and including the next done. */
  ghost function ToDone(rewards: seq<real>, dones: seq<bool>, t: nat): real
    requires |rewards| == |dones| && t <= |rewards|
    decreases |rewards| - t
  {
    if t == |rewards| then 0.0 else rewards[t] + if dones[t] then 0.0 else ToDone(rewards, dones, t + 1)
  }

  /** Without a critic discount and lambda are 1, but bootstrap values are added with the discount
      the caller gave. With one, `values` has a last element more than `rewards`. */
  method ComputeGaeAdvantagesAndReturns(rewards: array<real>, values: Option<seq<real>>, dones: seq<bool>,
                                        bootstrap: Option<seq<real>>, gamma: real, lam: real)
    returns (totals: array<real>)
    requires |dones| == rewards.Length && (values.Some? ==> |values.value| == rewards.Length + 1)
    requires bootstrap.Some? ==> |bootstrap.value| == rewards.Length
    modifies rewards
    ensures rewards[..] == Effective(old(rewards[..]), bootstrap, gamma) && totals.Length == rewards.Length
    ensures forall t | 0 <= t < rewards.Length ::
              rewards[t] == old(rewards[t]) + if bootstrap.Some? then gamma * bootstrap.value[t] else 0.0
    ensures values.Some? ==> var e := Episode(rewards[..], values.value[..rewards.Length], values.value[1..], dones);
      forall t | 0 <= t < rewards.Length :: totals[t] == Return(e, gamma, lam, t)
    ensures values.None? ==> forall t | 0 <= t < rewards.Length :: totals[t] == ToDone(rewards[..], dones, t)
  {
    var n := rewards.Length;
    if bootstrap.Some? {
      AddBootstrap(rewards, bootstrap.value, gamma);
    }
    if values.None? {
      totals := CriticFree(rewards, dones);
    } else {
      totals := WithCritic(rewards, values.value, dones, gamma, lam);
    }
  }

  method CriticFree(rewards: array<real>, dones: seq<bool>) returns (totals: array<real>)
    requires |dones| == rewards.Length
    ensures fresh(totals) && totals.Length == rewards.Length
    ensures forall t | 0 <= t < rewards.Length :: totals[t] == ToDone(rewards[..], dones, t)
  {
    var n := rewards.Length;
    totals := new real[n];
    var gae, step := 0.0, n;
    while step > 0
      invariant step <= n && gae == ToDone(rewards[..], dones, step)
      invariant forall s | step <= s < n :: totals[s] == ToDone(rewards[..], dones, s)
    {
      step := step - 1;
      gae := Back(rewards[step], 1.0, 1.0, dones[step], gae);
      totals[step] := gae;
    }
  }

  method WithCritic(rewards: array<real>, values: seq<real>, dones: seq<bool>, gamma: real, lam: real)
    returns (totals: array<real>)
    requires |dones| == rewards.Length && |values| == rewards.Length + 1
    ensures fresh(totals) && totals.Length == rewards.Length
    ensures var e := Episode(rewards[..], values[..rewards.Length], values[1..], dones);
      forall t | 0 <= t < rewards.Length :: totals[t] == Return(e, gamma, lam, t)
  {
    hide Back, Delta;
    var n := rewards.Length;
    ghost var e := Episode(rewards[..], values[..n], values[1..], dones);
    totals := new real[n];
    var gae, step := 0.0, n;
    while step > 0
      invariant step <= n && gae == Advantage(e, gamma, lam, step)
      invariant forall s | step <= s < n :: totals[s] == Return(e, gamma, lam, s)
    {
      step := step - 1;
      var delta := Delta(rewards[step], values[step], values[step + 1], dones[step], gamma);
      gae := Back(delta, gamma, lam, dones[step], gae);
      totals[step] := gae + values[step];
    }
  }

  /** The return is the lambda-return: what follows a step is the next value and the next return,
      mixed by lambda, cut at a done; the last step has only its next value. */
  lemma LambdaReturn(e: Episode, gamma: real, lam: real, t: nat)
    requires Shaped(e) && Chained(e) && t < |e.rewards|
    ensures Return(e, gamma, lam, t) == e.rewards[t] + gamma * Mask(e.dones[t])
              * if t + 1 == |e.rewards| then e.next[t]
                else (1.0 - lam) * e.next[t] + lam * Return(e, gamma, lam, t + 1)
  {
    hide Back, Delta;
    LambdaStep(e.rewards[t], e.values[t], e.next[t], e.dones[t], gamma, lam, Advantage(e, gamma, lam, t + 1));
    if e.dones[t] {
      assert gamma * Mask(true) == 0.0;
    }
    if t + 1 == |e.rewards| {
      assert Advantage(e, gamma, lam, t + 1) == 0.0;
    }
  }

  lemma LambdaStep(reward: real, value: real, next: real, done: bool, gamma: real, lam: real, later: real)
    ensures Back(Delta(reward, value, next, done, gamma), gamma, lam, done, later) + value
            == reward + gamma * Mask(done) * ((1.0 - lam) * next + lam * (later + next))
  {
    if done {
    } else {
      assert gamma * lam * 1.0 * later == gamma * (lam * later);
    }
  }

  /** The discounted return, cut at the first done and bootstrapped at the end. */
  ghost function Discounted(e: Episode, gamma: real, t: nat): real
    requires Shaped(e) && t < |e.rewards|
    decreases |e.rewards| - t
  {
    e.rewards[t] + if e.dones[t] then 0.0
                   else gamma * if t + 1 == |e.rewards| then e.next[t] else Discounted(e, gamma, t + 1)
  }

  lemma CutStep(done: bool, gamma: real, next: real, later: real)
    ensures gamma * Mask(done) * ((1.0 - 1.0) * next + 1.0 * later) == if done then 0.0 else gamma * later
    ensures gamma * Mask(done) * next == if done then 0.0 else gamma * next
  {
  }

  /** With lambda 1 the values cancel. */
  lemma {:induction false} Telescopes(e: Episode, gamma: real, t: nat)
    requires Shaped(e) && Chained(e) && t < |e.rewards|
    ensures Return(e, gamma, 1.0, t) == Discounted(e, gamma, t)
    decreases |e.rewards| - t
  {
    hide Return, Mask;
    LambdaReturn(e, gamma, 1.0, t);
    CutStep(e.dones[t], gamma, e.next[t], if t + 1 == |e.rewards| then e.next[t] else Return(e, gamma, 1.0, t + 1));
    if t + 1 < |e.rewards| {
      Telescopes(e, gamma, t + 1);
    }
  }

  /** What the loop with one list of values, one longer than the rewards, takes for the episode. */
  function OneList(e: Episode): (seen: Episode)
    requires Shaped(e) && e.rewards != []
    ensures Shaped(seen) && seen.rewards == e.rewards
  {
    var n, all := |e.rewards|, e.values + [e.next[|e.rewards| - 1]];
    Episode(e.rewards, all[..n], all[1..], e.dones)
  }

  /** It computes the same returns as the loops that get values and next values apart. */
  lemma {:induction false} LoopsAgree(e: Episode, gamma: real, lam: real, t: nat)
    requires Shaped(e) && Chained(e) && e.rewards != [] && t <= |e.rewards|
    ensures Advantage(OneList(e), gamma, lam, t) == Advantage(e, gamma, lam, t)
    ensures t < |e.rewards| ==> Return(OneList(e), gamma, lam, t) == Return(e, gamma, lam, t)
    decreases |e.rewards| - t
  {
    hide Back;
    if t < |e.rewards| {
      LoopsAgree(e, gamma, lam, t + 1);
      assert OneList(e).values[t] == e.values[t];
      assert OneList(e).next[t] == if t + 1 < |e.rewards| then e.values[t + 1] else e.next[t];
      MaskedDelta(e.rewards[t], e.values[t], e.next[t], OneList(e).next[t], e.dones[t], gamma);
    }
  }

  /** The next value of a done step does not matter. */
  lemma MaskedDelta(reward: real, value: real, next: real, other: real, done: bool, gamma: real)
    requires !done ==> next == other
    ensures Delta(reward, value, next, done, gamma) == Delta(reward, value, other, done, gamma)
  {
  }

  /** The loop without a critic is the one with a critic that knows nothing. */
  lemma {:induction false} CriticFreeAgrees(rewards: seq<real>, dones: seq<bool>, t: nat)
    requires |rewards| == |dones| && t <= |rewards|
    ensures var zeros := seq(|rewards|, i => 0.0);
      ToDone(rewards, dones, t) == Advantage(Episode(rewards, zeros, zeros, dones), 1.0, 1.0, t)
    decreases |rewards| - t
  {
    if t < |rewards| {
      CriticFreeAgrees(rewards, dones, t + 1);
    }
  }

  /** The unmasked temporal difference. */
  function Diff(reward: real, following: real, value: real, gamma: real): real {
    reward + gamma * following - value
  }

  /** Advantages that bootstrap at a done from `bootstrap` and cut the trace there. */
  ghost function CutAdvantage(e: Episode, bootstrap: seq<real>, gamma: real, lam: real, t: nat): real
    requires Shaped(e) && |bootstrap| == |e.rewards| && t <= |e.rewards|
    decreases |e.rewards| - t
  {
    if t == |e.rewards| then 0.0
    else
      var following := if e.dones[t] then bootstrap[t] else e.next[t];
      Back(Diff(e.rewards[t], following, e.values[t], gamma), gamma, lam, e.dones[t],
        CutAdvantage(e, bootstrap, gamma, lam, t + 1))
  }

  ghost function WithBootstrap(e: Episode, bootstrap: seq<real>, gamma: real): (after: Episode)
    requires Shaped(e) && |e.rewards| == |bootstrap|
    ensures Shaped(after) && |after.rewards| == |e.rewards|
  {
    e.(rewards := Bootstrapped(e.rewards, bootstrap, gamma))
  }

  /** Adding bootstrap values to the rewards gives the advantages that bootstrap at the dones. */
  ghost predicate Bootstraps(e: Episode, bootstrap: seq<real>, gamma: real, lam: real)
    requires Shaped(e) && |bootstrap| == |e.rewards|
  {
    forall t: nat | t <= |e.rewards| ::
      Advantage(WithBootstrap(e, bootstrap, gamma), gamma, lam, t) == CutAdvantage(e, bootstrap, gamma, lam, t)
  }

  ghost predicate OnlyAtDones(e: Episode, bootstrap: seq<real>, gamma: real)
    requires Shaped(e) && |bootstrap| == |e.rewards|
  {
    forall t: nat | t < |e.rewards| && !e.dones[t] :: gamma * bootstrap[t] == 0.0
  }

  /** It does so exactly when no step without a done is given a bootstrap value. */
  lemma BootstrapCuts(e: Episode, bootstrap: seq<real>, gamma: real, lam: real)
    requires Shaped(e) && |bootstrap| == |e.rewards|
    ensures Bootstraps(e, bootstrap, gamma, lam) <==> OnlyAtDones(e, bootstrap, gamma)
  {
    hide Back, WithBootstrap, Advantage, CutAdvantage;
    if OnlyAtDones(e, bootstrap, gamma) {
      forall t: nat | t <= |e.rewards|
        ensures Advantage(WithBootstrap(e, bootstrap, gamma), gamma, lam, t)
             == CutAdvantage(e, bootstrap, gamma, lam, t)
      {
        BootstrapAt(e, bootstrap, gamma, lam, t);
      }
    } else if Bootstraps(e, bootstrap, gamma, lam) {
      var t: nat :| t < |e.rewards| && !e.dones[t] && gamma * bootstrap[t] != 0.0;
      assert Advantage(WithBootstrap(e, bootstrap, gamma), gamma, lam, t + 1)
          == CutAdvantage(e, bootstrap, gamma, lam, t + 1);
      BootstrapGap(e, bootstrap, gamma, lam, t);
    }
  }

  /** One step that is not done and a bootstrap value of 1: the advantage is 1 instead of 0. */
  lemma BootstrapLeaks()
    ensures var e := Episode([0.0], [0.0], [0.0], [false]);
      Advantage(WithBootstrap(e, [1.0], 1.0), 1.0, 1.0, 0) == 1.0 && CutAdvantage(e, [1.0], 1.0, 1.0, 0) == 0.0
  {
    var e := Episode([0.0], [0.0], [0.0], [false]);
    assert WithBootstrap(e, [1.0], 1.0).rewards[0] == 1.0;
    assert Advantage(WithBootstrap(e, [1.0], 1.0), 1.0, 1.0, 1) == 0.0;
  }

  /** What a bootstrap value in the reward does to a difference. */
  lemma DeltaBootstrap(total: real, reward: real, value: real, next: real, done: bool, gamma: real, boot: real)
    requires total == reward + gamma * boot
    ensures done ==> Delta(total, value, next, done, gamma) == Diff(reward, boot, value, gamma)
    ensures !done && gamma * boot == 0.0 ==> Delta(total, value, next, done, gamma) == Diff(reward, next, value, gamma)
  {
  }

  /** What a bootstrap value in the reward of a step that is not done does to its advantage. */
  lemma BackBootstrap(total: real, reward: real, value: real, next: real, gamma: real, lam: real, boot: real,
                      later: real)
    requires total == reward + gamma * boot
    ensures Back(Delta(total, value, next, false, gamma), gamma, lam, false, later)
            == Back(Diff(reward, next, value, gamma), gamma, lam, false, later) + gamma * boot
  {
  }

  lemma {:induction false} BootstrapAt(e: Episode, bootstrap: seq<real>, gamma: real, lam: real, t: nat)
    requires Shaped(e) && |bootstrap| == |e.rewards| && t <= |e.rewards|
    requires OnlyAtDones(e, bootstrap, gamma)
    ensures Advantage(WithBootstrap(e, bootstrap, gamma), gamma, lam, t) == CutAdvantage(e, bootstrap, gamma, lam, t)
    decreases |e.rewards| - t
  {
    hide Back, Delta, Diff;
    if t < |e.rewards| {
      BootstrapAt(e, bootstrap, gamma, lam, t + 1);
      var w := WithBootstrap(e, bootstrap, gamma);
      assert !e.dones[t] ==> gamma * bootstrap[t] == 0.0;
      DeltaBootstrap(w.rewards[t], e.rewards[t], e.values[t], e.next[t], e.dones[t], gamma, bootstrap[t]);
    }
  }

  /** One step: the two differ by what a step without a done was given. */
  lemma BootstrapGap(e: Episode, bootstrap: seq<real>, gamma: real, lam: real, t: nat)
    requires Shaped(e) && |bootstrap| == |e.rewards| && t < |e.rewards| && !e.dones[t]
    requires Advantage(WithBootstrap(e, bootstrap, gamma), gamma, lam, t + 1)
          == CutAdvantage(e, bootstrap, gamma, lam, t + 1)
    ensures Advantage(WithBootstrap(e, bootstrap, gamma), gamma, lam, t) - CutAdvantage(e, bootstrap, gamma, lam, t)
         == gamma * bootstrap[t]
  {
    hide Back, Delta, Diff;
    var w := WithBootstrap(e, bootstrap, gamma);
    BackBootstrap(w.rewards[t], e.rewards[t], e.values[t], e.next[t], gamma, lam, bootstrap[t],
      CutAdvantage(e, bootstrap, gamma, lam, t + 1));
  }
}
