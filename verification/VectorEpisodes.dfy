/** An episode of a vectorised environment is flattened environment by environment when it is
    popped, and registered as one sub-episode per environment when it is pushed. */
module VectorEpisodes {
  import opened Arithmetic
  import opened Intervals
  import opened ReplayRing
  import opened EpisodeFifo

  /** `length` time steps, each holding one entry per environment. */
  ghost predicate Rectangular<T>(episode: seq<seq<T>>, length: nat, envs: nat) {
    |episode| == length && forall t | 0 <= t < length :: |episode[t]| == envs
  }

  /** Swap time and environment, then lay the result out flat. */
  ghost function Flatten<T>(episode: seq<seq<T>>, length: nat, envs: nat): (flat: seq<T>)
    requires Rectangular(episode, length, envs) && length > 0
    ensures |flat| == envs * length
  {
    seq(envs * length, k requires 0 <= k < envs * length =>
      FlatIndex(k, length, envs); episode[k % length][k / length])
  }

  lemma FlatIndex(k: nat, length: nat, envs: nat)
    requires length > 0 && k < envs * length
    ensures 0 <= k % length < length && 0 <= k / length < envs
  {
    assert k == k / length * length + k % length;
    if k / length >= envs {
      TimesMonotone(envs, k / length, length);
      assert false;
    }
  }

  /** What environment `i` went through, in time order. */
  ghost function Trajectory<T>(episode: seq<seq<T>>, length: nat, envs: nat, i: nat): seq<T>
    requires Rectangular(episode, length, envs) && i < envs
  {
    seq(length, t requires 0 <= t < length => episode[t][i])
  }

  lemma DivideBack(i: nat, t: nat, length: nat)
    requires t < length
    ensures (i * length + t) / length == i && (i * length + t) % length == t
  {
    ProductIs(i, length);
    Quotient(i, length, t);
  }

  /** The trajectories of all environments, in environment order. */
  ghost function Trajectories<T>(episode: seq<seq<T>>, length: nat, envs: nat): seq<seq<T>>
    requires Rectangular(episode, length, envs)
  {
    seq(envs, i requires 0 <= i < envs => Trajectory(episode, length, envs, i))
  }

  lemma {:induction false} RecordAt<T>(steps: seq<T>, n: nat, length: nat, i: nat)
    requires |steps| == n * length && i < n
    ensures 0 <= i * length && i * length + length <= |steps|
    ensures Records(steps, n, length)[i] == steps[i * length..i * length + length]
    decreases n
  {
    Room(i, n, length);
    Times(n, length);
    if i > 0 {
      var at := (i - 1) * length;
      Times(i, length);
      Room(i - 1, n - 1, length);
      RecordAt(steps[length..], n - 1, length, i - 1);
      assert steps[length..][at..at + length] == steps[length + at..length + at + length];
    }
  }

  lemma Room(i: nat, n: nat, length: nat)
    requires i < n
    ensures 0 <= i * length && i * length + length <= n * length
  {
    TimesMonotone(i + 1, n, length);
    Times(i + 1, length);
  }

  /** The sub-episodes of the flat layout are the trajectories. */
  lemma RecordsAreTrajectories<T>(episode: seq<seq<T>>, length: nat, envs: nat)
    requires Rectangular(episode, length, envs) && length > 0
    ensures Records(Flatten(episode, length, envs), envs, length) == Trajectories(episode, length, envs)
  {
    forall i | 0 <= i < envs
      ensures Records(Flatten(episode, length, envs), envs, length)[i] == Trajectory(episode, length, envs, i)
    {
      RecordIsTrajectory(episode, length, envs, i);
    }
  }

  lemma RecordIsTrajectory<T>(episode: seq<seq<T>>, length: nat, envs: nat, i: nat)
    requires Rectangular(episode, length, envs) && length > 0 && i < envs
    ensures Records(Flatten(episode, length, envs), envs, length)[i] == Trajectory(episode, length, envs, i)
  {
    var flat := Flatten(episode, length, envs);
    var rec := Records(flat, envs, length)[i];
    RecordAt(flat, envs, length, i);
    forall t | 0 <= t < length
      ensures rec[t] == episode[t][i]
    {
      DivideBack(i, t, length);
      assert rec[t] == flat[i * length + t];
    }
  }

  /** After a push that fits the ring, the interval of environment `i` is registered and holds
      exactly what that environment went through. */
  lemma VectorEpisodeLands<T>(r: Ring<T>, episode: seq<seq<T>>, length: nat, envs: nat, i: nat)
    requires WellFormed(r) && Rectangular(episode, length, envs) && length > 0 && i < envs
    requires envs * length <= |r.data|
    ensures var s := PushEpisodes(r, Block(Flatten(episode, length, envs), envs, length));
      var start := if r.pointer + envs * length <= |r.data| then r.pointer else 0;
      var mine := Interval(start + i * length, start + (i + 1) * length);
      mine in s.registry && mine.end <= |s.data|
      && s.data[mine.begin..mine.end] == Trajectory(episode, length, envs, i)
  {
    hide Flatten, Trajectory, Records;
    var b := Block(Flatten(episode, length, envs), envs, length);
    var start := if r.pointer + envs * length <= |r.data| then r.pointer else 0;
    var s, cut := PushEpisodes(r, b), Cut(start, envs, length);
    CutHolds(s.data, start, b.steps, envs, length);
    CutAt(start, envs, length, i);
    RecordIsTrajectory(episode, length, envs, i);
    assert cut[i] in Members(cut);
  }

  /** When the batch is longer than the ring, the registry is exactly as many whole trajectories
      as fit, packed against the end, and they are those of the last environments. */
  lemma OversizedVectorEpisodeLands<T>(r: Ring<T>, episode: seq<seq<T>>, length: nat, envs: nat)
    requires WellFormed(r) && Rectangular(episode, length, envs) && length > 0 && envs > 1
    requires envs * length > |r.data|
    ensures var s := PushEpisodes(r, Block(Flatten(episode, length, envs), envs, length));
      var tiles := Cut(|r.data| % length, |r.data| / length, length);
      s.registry == Members(tiles) && Holds(s.data, tiles, Trajectories(episode, length, envs))
  {
    hide Flatten, Trajectories, Records, Holds;
    OversizedHolds(Block(Flatten(episode, length, envs), envs, length), |r.data|);
    RecordsAreTrajectories(episode, length, envs);
  }
}
