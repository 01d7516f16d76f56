/** From the environments to the replay storage: what the asynchronous rollout hands over, pushed
    episode by episode and mixed with any fetches. */
module RolloutReplay {
  import opened Intervals
  import opened ReplayRing
  import opened EpisodeFifo
  import opened ReplayRun
  import opened EpisodeLife
  import opened EpisodeBuffer
  import AsyncRollout

  /** Each episode is pushed as one block. */
  function BlocksOf(handed: seq<Handed>): (blocks: seq<Block<Entry>>)
    ensures |blocks| == |handed|
    ensures forall i | 0 <= i < |handed| :: blocks[i] == Block(handed[i].entries, 1, |handed[i].entries|)
  {
    seq(|handed|, i requires 0 <= i < |handed| => Block(handed[i].entries, 1, |handed[i].entries|))
  }

  /** What the storage can hold of an episode: all of it, or its last steps. */
  function Newest<T>(steps: seq<T>, capacity: nat): seq<T> {
    if |steps| <= capacity then steps else steps[|steps| - capacity..]
  }

  /** One episode of one environment from its reset to its last step. */
  ghost predicate Complete(h: Handed, maxSteps: map<EnvId, nat>) {
    h.env in maxSteps && |h.entries| == maxSteps[h.env] + 1 && OneEpisode(h.env, h.entries)
  }

  /** The live interval holds this episode. */
  ghost predicate Keeps(r: Ring<Entry>, iv: Interval, h: Handed) {
    iv.begin <= iv.end <= |r.data| && r.data[iv.begin..iv.end] == Newest(h.entries, |r.data|)
  }

  /** The storage is a queue of the newest episodes handed over, each complete, and nothing that is
      recent enough is missing. */
  ghost predicate QueueOfEpisodes(r: Ring<Entry>, order: seq<Interval>, handed: seq<Handed>,
                                  maxSteps: map<EnvId, nat>) {
    && |order| <= |handed|
    && (forall iv :: iv in r.registry <==> iv in order)
    && (forall i, j | 0 <= i < j < |order| :: Disjoint(order[i], order[j]))
    && (forall i | 0 <= i < |order| :: Keeps(r, order[i], handed[|handed| - |order| + i]))
    && (forall h | h in handed :: Complete(h, maxSteps))
  }

  lemma OneRecord<T>(steps: seq<T>, capacity: nat)
    requires steps != []
    ensures var b := Block(steps, 1, |steps|);
      b.Valid() && Contribution(b, capacity) == [Newest(steps, capacity)]
  {
    assert Records(steps, 1, |steps|) == [steps[..|steps|]];
    assert steps[..|steps|] == steps;
  }

  /** The log of the pushes lists the episodes. */
  lemma {:induction false} LogLists(handed: seq<Handed>, capacity: nat)
    requires forall h | h in handed :: h.entries != []
    ensures forall b | b in BlocksOf(handed) :: b.Valid()
    ensures |Log(BlocksOf(handed), capacity)| == |handed|
    ensures forall i | 0 <= i < |handed| :: Log(BlocksOf(handed), capacity)[i] == Newest(handed[i].entries, capacity)
  {
    hide Contribution, Newest;
    if handed != [] {
      var front, last := handed[..|handed| - 1], handed[|handed| - 1];
      LogLists(front, capacity);
      OneRecord(last.entries, capacity);
      assert BlocksOf(handed)[..|handed| - 1] == BlocksOf(front);
      assert BlocksOf(handed) == BlocksOf(front) + [Block(last.entries, 1, |last.entries|)];
    }
  }

  /** What living environments have handed over is complete episodes. */
  lemma HandedComplete(handed: seq<Handed>, lives: map<EnvId, Life>, maxSteps: map<EnvId, nat>)
    requires AllAlive(lives, maxSteps)
    requires forall e :: Of(handed, e) == if e in lives then lives[e].kept.stored else []
    ensures forall h | h in handed :: Complete(h, maxSteps)
  {
    forall h | h in handed ensures Complete(h, maxSteps) {
      var i :| 0 <= i < |handed| && handed[i] == h;
      OfHas(handed, i);
      assert Alive(h.env, lives[h.env], maxSteps[h.env]);
    }
  }

  /** Complete episodes pushed in any order, with any fetches in between: every live interval of the
      storage holds one of them, and they are the newest. */
  lemma StorageKeepsEpisodes(memory: seq<Entry>, ops: seq<Operation<Entry>>, longest: nat,
                             handed: seq<Handed>, maxSteps: map<EnvId, nat>)
    requires |memory| > 0 && longest > 0 && Legal(memory, ops, longest) && Pushed(ops) == BlocksOf(handed)
    requires forall h | h in handed :: Complete(h, maxSteps)
    ensures forall b | b in BlocksOf(handed) :: b.Valid()
    ensures exists order ::
              && QueueOfEpisodes(Replay(memory, ops), order, handed, maxSteps)
              && KeepsRecent(|order|, Log(BlocksOf(handed), |memory|), |memory|, longest)
  {
    hide Complete, Newest, Log, Replay, KeepsRecent, Pushed, BlocksOf, IsQueue, QueueOfEpisodes;
    assert forall h | h in handed :: h.entries != [] by { NotEmpty(handed, maxSteps); }
    LogLists(handed, |memory|);
    ReplayIsFifo(memory, ops, longest);
    var order :| IsQueue(Replay(memory, ops), order, Log(Pushed(ops), |memory|))
      && KeepsRecent(|order|, Log(Pushed(ops), |memory|), |memory|, longest);
    QueueIs(Replay(memory, ops), order, Log(Pushed(ops), |memory|), handed, maxSteps);
  }

  lemma QueueIs(r: Ring<Entry>, order: seq<Interval>, log: seq<seq<Entry>>, handed: seq<Handed>,
                maxSteps: map<EnvId, nat>)
    requires IsQueue(r, order, log) && |log| == |handed|
    requires forall i | 0 <= i < |handed| :: log[i] == Newest(handed[i].entries, |r.data|)
    requires forall h | h in handed :: Complete(h, maxSteps)
    ensures QueueOfEpisodes(r, order, handed, maxSteps)
  {
    hide Complete, Newest;
  }

  lemma NotEmpty(handed: seq<Handed>, maxSteps: map<EnvId, nat>)
    requires forall h | h in handed :: Complete(h, maxSteps)
    ensures forall h | h in handed :: h.entries != []
  {
    forall h | h in handed ensures h.entries != [] {
      assert Complete(h, maxSteps);
    }
  }

  /** However the storage is used in between, pushing what was handed over leaves it a queue of
      complete episodes. */
  ghost predicate Replayable(handed: seq<Handed>, maxSteps: map<EnvId, nat>) {
    forall memory: seq<Entry>, ops: seq<Operation<Entry>>, longest: nat
      | |memory| > 0 && longest > 0 && Legal(memory, ops, longest) && Pushed(ops) == BlocksOf(handed) ::
      exists order :: QueueOfEpisodes(Replay(memory, ops), order, handed, maxSteps)
  }

  /** The rollout thread, stopped after any number of passes, under any scheduler: what it handed to
      the storage keeps the storage a queue of complete episodes. */
  method RolloutIntoStorage(engine: AsyncRollout.AsyncEngine, iterations: nat, remote: bool) returns (raised: bool)
    requires engine.Valid() && engine.group.envIds != [] && engine.group.booked == map[] && engine.Fed()
    requires forall e | e in engine.group.envIds :: engine.buffer.KeptOf(e) == Kept([], [], [])
    modifies engine.group, engine.group.stepCounter, engine.buffer
    ensures !raised && (iterations > 0 ==> Replayable(engine.buffer.handed, engine.group.stepCounter.maxSteps))
  {
    hide Complete, QueueOfEpisodes, AllAlive, Pushed, Replay, EpisodeBuffer.Agree;
    ghost var landings;
    raised, landings := engine.Rollout(iterations, remote);
    if iterations > 0 {
      ghost var handed, maxSteps := engine.buffer.handed, engine.group.stepCounter.maxSteps;
      engine.buffer.AgreeKept();
      HandedComplete(handed, engine.Lives(), maxSteps);
      forall memory: seq<Entry>, ops: seq<Operation<Entry>>, longest: nat
        | |memory| > 0 && longest > 0 && Legal(memory, ops, longest) && Pushed(ops) == BlocksOf(handed)
        ensures exists order :: QueueOfEpisodes(Replay(memory, ops), order, handed, maxSteps)
      {
        StorageKeepsEpisodes(memory, ops, longest, handed, maxSteps);
      }
    }
  }
}
