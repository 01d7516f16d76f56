/** The rollout thread of the asynchronous engine: environments with automatic resets, stepped
    under an arbitrary scheduler, feeding the episode buffer. */
module AsyncRollout {
  import opened EpisodeLife
  import opened EnvGroup
  import opened Sequences
  import opened EpisodeBuffer

  class AsyncEngine {
    const group: EnvGroup
    const buffer: EpisodeBuffer

    constructor (group: EnvGroup, buffer: EpisodeBuffer)
      ensures this.group == group && this.buffer == buffer
    {
      this.group, this.buffer := group, buffer;
    }

    ghost predicate Valid()
      reads group, group.stepCounter
    {
      group.Valid()
    }

    function MaxSteps(e: EnvId): nat
      requires e in group.stepCounter.maxSteps
    {
      group.stepCounter.maxSteps[e]
    }

    /** Everything known about one environment. */
    ghost function LifeOf(e: EnvId): Life
      requires group.stepCounter.Valid() && e in group.stepCounter.maxSteps
      reads group, group.stepCounter, buffer
    {
      Life(group.FlightOf(e), group.stepCounter.idToStep[e], buffer.KeptOf(e))
    }

    ghost function Lives(): (lives: map<EnvId, Life>)
      requires Valid()
      reads group, group.stepCounter, buffer
      ensures lives.Keys == group.stepCounter.maxSteps.Keys
      ensures forall e | e in lives :: lives[e] == LifeOf(e)
    {
      map e | e in group.stepCounter.maxSteps :: LifeOf(e)
    }

    /** What was pushed into the storage is what is stored for the environments of the group. */
    ghost predicate Fed()
      reads buffer
    {
      buffer.Agree() && forall e | e !in group.envIds :: buffer.KeptOf(e).stored == []
    }

    /** Pair the returns of a batch with policy responses; full episodes go to the storage. */
    method Record(batch: seq<EnvId>, rets: map<EnvId, EnvRet>, truncations: seq<bool>)
      requires Valid() && Distinct(batch) && Ids(batch) <= Ids(group.envIds) && rets.Keys == Ids(batch)
      requires |truncations| == |batch|
      requires forall i | 0 <= i < |batch| ::
                 batch[i] in group.envIds && (truncations[i] <==> group.stepCounter.Reached(batch[i]))
      modifies buffer
      ensures forall e | e in group.envIds && e in rets ::
                buffer.KeptOf(e) == Respond(old(buffer.KeptOf(e)), Entry(rets[e], e), group.stepCounter.Reached(e))
      ensures forall e | e !in rets :: buffer.KeptOf(e) == old(buffer.KeptOf(e))
      ensures old(Fed()) ==> Fed()
    {
      hide EpisodeBuffer.Agree;
      hide Respond, EnvGroup.BooksMatch, EnvGroup.Accounted, EnvStepCounter.Valid, EpisodeBuffer.KeptOf;
      buffer.AddEnvRets(rets);
      ghost var full := set e | e in group.envIds && group.stepCounter.Reached(e);
      assert Flagged(batch, truncations, full);
      buffer.AddResponses(batch, truncations, full);
    }

    /** Reset every environment. */
    method Reset() returns (batch: seq<EnvId>, rets: map<EnvId, EnvRet>, truncations: seq<bool>)
      requires Valid() && group.inAutoReset
      modifies group.stepCounter, group`calls
      ensures Valid() && group.stepCounter.Valid() && batch == group.envIds && Distinct(batch)
      ensures rets.Keys == Ids(batch) && |truncations| == |batch|
      ensures forall i | 0 <= i < |batch| ::
                batch[i] in group.envIds && (truncations[i] <==> group.stepCounter.Reached(batch[i]))
      ensures forall e | e in group.stepCounter.maxSteps ::
                e in group.envIds && e in rets && rets[e] == EnvRet(e, true, 0)
      ensures forall e | e in group.stepCounter.maxSteps ::
                group.stepCounter.idToStep[e] == 0 && e in group.calls && group.calls[e] == 1
    {
      hide EnvGroup.BooksMatch, EnvGroup.Accounted;
      var raised;
      batch, rets, truncations, raised := group.Reset();
      assert forall e | e in group.envIds :: e in Ids(batch);
    }

    /** Reset every environment and record its first entry. */
    method Commence() returns (batch: seq<EnvId>)
      requires Valid() && group.inAutoReset
      requires forall e | e in group.envIds :: buffer.KeptOf(e) == Kept([], [], [])
      modifies group.stepCounter, group`calls, buffer
      ensures Valid() && batch == group.envIds && group.stepCounter.Valid()
      ensures forall e | e in group.stepCounter.maxSteps ::
                group.stepCounter.idToStep[e] == 0 && e in group.calls && group.calls[e] == 1
      ensures forall e | e in group.stepCounter.maxSteps ::
                buffer.KeptOf(e) == Respond(Kept([], [], []), Entry(EnvRet(e, true, 0), e), MaxSteps(e) == 0)
      ensures old(Fed()) ==> Fed()
    {
      hide Fed, Ids, Distinct, Respond, EnvGroup.Valid, EpisodeBuffer.KeptOf;
      var rets, truncations;
      batch, rets, truncations := Reset();
      Record(batch, rets, truncations);
    }

    /** Begin every environment. */
    method Begin() returns (batch: seq<EnvId>)
      requires Valid() && group.inAutoReset && group.booked == map[]
      requires forall e | e in group.envIds :: buffer.KeptOf(e) == Kept([], [], [])
      modifies group.stepCounter, group`calls, buffer
      ensures Valid() && batch == group.envIds
      ensures Lives() == BeginAll(group.stepCounter.maxSteps) && Numbers(group.calls, Lives())
      ensures old(Fed()) ==> Fed()
    {
      hide Fed;
      hide Begun, BeginAll, Respond, Numbers, EnvGroup.Valid, EnvStepCounter.Valid, EpisodeBuffer.KeptOf;
      batch := Commence();
      forall e | e in group.stepCounter.maxSteps ensures LifeOf(e) == Begun(e, MaxSteps(e)) {
        BegunLife(e, MaxSteps(e));
      }
      BeginAllIs(Lives(), group.stepCounter.maxSteps);
      NumbersBegin(group.calls, group.stepCounter.maxSteps);
    }

    /** Submit the next call of every environment of the batch. */
    method Launch(batch: seq<EnvId>)
      requires Valid() && group.inAutoReset && Distinct(batch) && Numbers(group.calls, Lives())
      requires Ids(batch) <= Ids(group.envIds) && Ids(batch) !! group.booked.Keys
      modifies group.stepCounter, group`futures, group`futureToEnv, group`nextFuture, group`booked, group`calls
      ensures Valid() && group.booked.Keys == old(group.booked.Keys) + Ids(batch)
      ensures group.calls == Counted(old(group.calls), Ids(batch))
      ensures Lives() == SubmitAll(old(Lives()), Ids(batch), group.stepCounter.maxSteps)
    {
      hide Submit, SubmitAll, Counted, EnvGroup.BooksMatch, EnvGroup.Accounted, EpisodeBuffer.KeptOf;
      ghost var lives, calls := Lives(), group.calls;
      ghost var resets := group.StepAsync(batch);
      forall e | e in group.stepCounter.maxSteps
        ensures LifeOf(e) == if e in Ids(batch) then Submit(e, lives[e], MaxSteps(e)) else lives[e]
      {
        if e in Ids(batch) {
          assert e in batch && e in group.envIds;
          SubmitLife(e, lives[e], MaxSteps(e), EnvRet(e, e in resets, calls[e]));
        }
      }
      SubmitAllIs(lives, Lives(), Ids(batch), group.stepCounter.maxSteps);
    }

    /** Collect some calls in flight, each of which has room for one more step. */
    method Collect(remote: bool)
      returns (batch: seq<EnvId>, rets: map<EnvId, EnvRet>, truncations: seq<bool>, raised: bool)
      requires Valid() && group.inAutoReset && group.futures != {}
      requires forall e | e in group.booked && e in group.stepCounter.maxSteps ::
                 group.stepCounter.idToStep[e] < MaxSteps(e)
      modifies group.stepCounter, group`futures, group`futureToEnv, group`booked, group`collected
      ensures Valid() && !raised && Distinct(batch) && batch != [] && rets.Keys == Ids(batch)
      ensures Ids(batch) <= old(group.booked.Keys) && group.booked == old(group.booked) - Ids(batch)
      ensures forall e | e in batch && e in old(group.booked) :: rets[e] == old(group.booked)[e].ret
      ensures forall e | e in group.envIds ::
                group.stepCounter.idToStep[e] == old(group.stepCounter.idToStep[e]) + if e in batch then 1 else 0
      ensures |truncations| == |batch|
      ensures forall i | 0 <= i < |batch| ::
                batch[i] in group.envIds && (truncations[i] <==> group.stepCounter.Reached(batch[i]))
    {
      hide EnvGroup.BooksMatch, EnvGroup.Accounted;
      ghost var ready;
      batch, rets, truncations, raised, ready := group.CollectAsync(remote);
      assert forall e | e in batch :: e in Ids(batch);
      assert ready != {} ==> |ready| != 0;
    }

    /** Collect some calls in flight and pass them on, environment by environment. */
    method Deliver(remote: bool) returns (batch: seq<EnvId>, raised: bool)
      requires Valid() && group.inAutoReset && group.futures != {}
      requires forall e | e in group.booked && e in group.stepCounter.maxSteps ::
                 group.stepCounter.idToStep[e] < MaxSteps(e)
      modifies group.stepCounter, group`futures, group`futureToEnv, group`booked, group`collected, buffer
      ensures Valid() && !raised && Distinct(batch) && batch != []
      ensures Ids(batch) <= old(group.booked.Keys) && group.booked.Keys == old(group.booked.Keys) - Ids(batch)
      ensures forall e | e in group.stepCounter.maxSteps ::
                LifeOf(e) == if e in batch && old(LifeOf(e)).flying.Flying?
                             then Land(e, old(LifeOf(e)), MaxSteps(e)) else old(LifeOf(e))
      ensures old(Fed()) ==> Fed()
    {
      hide Fed;
      hide Land, Respond, EnvGroup.BooksMatch, EnvGroup.Accounted, EpisodeBuffer.KeptOf;
      var rets, truncations;
      ghost var lives := Lives();
      batch, rets, truncations, raised := Collect(remote);
      Record(batch, rets, truncations);
      forall e | e in group.stepCounter.maxSteps
        ensures LifeOf(e) == if e in batch && lives[e].flying.Flying? then Land(e, lives[e], MaxSteps(e)) else lives[e]
      {
        assert e in batch <==> e in Ids(batch);
        if e in batch {
          LandLife(e, lives[e], MaxSteps(e), group.stepCounter.idToStep[e], buffer.KeptOf(e));
        }
      }
    }

    /** The same as a step of all lives. */
    method Gather(remote: bool) returns (batch: seq<EnvId>, raised: bool)
      requires Valid() && group.inAutoReset && group.futures != {}
      requires forall e | e in group.booked && e in group.stepCounter.maxSteps ::
                 group.stepCounter.idToStep[e] < MaxSteps(e)
      modifies group.stepCounter, group`futures, group`futureToEnv, group`booked, group`collected, buffer
      ensures Valid() && !raised && Distinct(batch) && batch != []
      ensures Ids(batch) <= old(group.booked.Keys) && group.booked.Keys == old(group.booked.Keys) - Ids(batch)
      ensures Lives() == LandAll(old(Lives()), Ids(batch), group.stepCounter.maxSteps)
      ensures old(Fed()) ==> Fed()
    {
      hide Fed;
      hide Land, LandAll, EnvGroup.BooksMatch, EnvGroup.Accounted, EnvStepCounter.Valid;
      ghost var lives := Lives();
      batch, raised := Deliver(remote);
      LandAllIs(lives, Lives(), Ids(batch), group.stepCounter.maxSteps);
    }

    /** Between passes: every environment is alive, and the batch holds those not in flight. */
    ghost predicate Ready(batch: seq<EnvId>)
      reads group, group.stepCounter, buffer
    {
      && Valid() && Numbers(group.calls, Lives()) && group.inAutoReset && AllAlive(Lives(), group.stepCounter.maxSteps)
      && Distinct(batch) && batch != []
      && Ids(batch) + group.booked.Keys == Ids(group.envIds) && Ids(batch) !! group.booked.Keys
    }

    /** After submitting: every environment is alive and in flight. */
    ghost predicate Aloft()
      reads group, group.stepCounter, buffer
    {
      && Valid() && Numbers(group.calls, Lives()) && group.inAutoReset && AllAlive(Lives(), group.stepCounter.maxSteps)
      && group.booked.Keys == Ids(group.envIds) && group.envIds != []
    }

    /** The submitting half of a pass. */
    method TakeOff(batch: seq<EnvId>)
      requires Ready(batch)
      modifies group.stepCounter, group`futures, group`futureToEnv, group`nextFuture, group`booked, group`calls
      ensures Aloft() && Lives() == SubmitAll(old(Lives()), Ids(batch), group.stepCounter.maxSteps)
    {
      hide EnvGroup.Valid, LifeOf, Alive, AllAlive, SubmitAll, Numbers, Counted;
      BatchGrounded(batch);
      SubmitAllAlive(Lives(), Ids(batch), group.stepCounter.maxSteps);
      NumbersSubmit(group.calls, Lives(), Ids(batch), group.stepCounter.maxSteps);
      Launch(batch);
      assert batch[0] in Ids(batch);
    }

    /** The collecting half of a pass. */
    method TouchDown(remote: bool) returns (next: seq<EnvId>, raised: bool)
      requires Aloft()
      modifies group.stepCounter, group`futures, group`futureToEnv, group`booked, group`collected, buffer
      ensures !raised && Ready(next) && Lives() == LandAll(old(Lives()), Ids(next), group.stepCounter.maxSteps)
      ensures old(Fed()) ==> Fed()
    {
      hide Fed;
      hide EnvGroup.BooksMatch, EnvGroup.Accounted, EnvStepCounter.Valid, Alive, AllAlive, LandAll, Numbers;
      hide EpisodeBuffer.KeptOf;
      FlyingBelow(Lives(), group.stepCounter.maxSteps);
      assert group.envIds[0] in Ids(group.envIds);
      group.InFlight(group.envIds[0]);
      ghost var lives, flying := Lives(), group.booked.Keys;
      next, raised := Gather(remote);
      LandAllAlive(lives, Ids(next), group.stepCounter.maxSteps);
      NumbersLand(group.calls, lives, Ids(next), group.stepCounter.maxSteps);
      Recirculate(Ids(group.envIds), flying, Ids(next), group.booked.Keys);
    }

    lemma BatchGrounded(batch: seq<EnvId>)
      requires Ready(batch)
      ensures Grounded(Lives()) == Ids(batch)
    {
      hide EnvGroup.BooksMatch, EnvGroup.Accounted, AllAlive, Numbers;
      assert forall e | e in Lives() :: e in Ids(group.envIds);
    }

    /** One pass of the loop. */
    method Pass(batch: seq<EnvId>, remote: bool) returns (next: seq<EnvId>, raised: bool)
      requires Ready(batch)
      modifies group.stepCounter, group`futures, group`futureToEnv, group`nextFuture, group`booked, group`calls,
               group`collected
      modifies buffer
      ensures !raised && Ready(next) && Ids(next) != {}
      ensures Lives() == PassAll(old(Lives()), Ids(next), group.stepCounter.maxSteps)
      ensures old(Fed()) ==> Fed()
    {
      hide Fed;
      hide Ready, Aloft, Valid, SubmitAll, LandAll, Grounded;
      BatchGrounded(batch);
      TakeOff(batch);
      next, raised := TouchDown(remote);
      NotEmpty(next);
    }

    lemma NotEmpty(batch: seq<EnvId>)
      requires Ready(batch)
      ensures Ids(batch) != {}
    {
      assert batch[0] in Ids(batch);
    }

    /** The rollout thread, stopped after any number of passes: the environments have lived through
        these passes, each of which some results landed in. */
    method Rollout(iterations: nat, remote: bool) returns (raised: bool, ghost landings: seq<set<EnvId>>)
      requires Valid() && group.envIds != [] && group.booked == map[]
      requires forall e | e in group.envIds :: buffer.KeptOf(e) == Kept([], [], [])
      modifies group, group.stepCounter, buffer
      ensures Valid() && !raised
      ensures iterations > 0 ==> |landings| == iterations - 1 && {} !in landings
      ensures iterations > 0 ==> Lives() == Played(landings, group.stepCounter.maxSteps)
      ensures iterations > 0 ==> AllAlive(Lives(), group.stepCounter.maxSteps)
      ensures old(Fed()) ==> Fed()
    {
      hide Fed;
      hide EnvGroup.BooksMatch, EnvGroup.Accounted, Alive, AllAlive, PassAll, Numbers, EpisodeBuffer.KeptOf;
      hide LifeOf;
      group.EnterAutoReset();
      raised, landings := false, [];
      if iterations > 0 {
        BeginAllAlive(group.stepCounter.maxSteps);
        var batch := Begin();
        for i := 1 to iterations
          invariant Ready(batch) && !raised && |landings| == i - 1 && {} !in landings
          invariant old(Fed()) ==> Fed()
          invariant Lives() == Played(landings, group.stepCounter.maxSteps)
        {
          batch, raised := Pass(batch, remote);
          assert (landings + [Ids(batch)])[..|landings|] == landings;
          landings := landings + [Ids(batch)];
        }
      }
    }
  }

  /** Each environment has been called once for each entry and once for what is in flight. */
  ghost predicate Numbers(calls: map<EnvId, nat>, lives: map<EnvId, Life>) {
    forall e | e in lives :: e in calls
      && calls[e] == |lives[e].kept.history| + if lives[e].flying.Flying? then 1 else 0
  }

  lemma NumbersBegin(calls: map<EnvId, nat>, maxSteps: map<EnvId, nat>)
    requires forall e | e in maxSteps :: e in calls && calls[e] == 1
    ensures Numbers(calls, BeginAll(maxSteps))
  {
  }

  lemma NumbersSubmit(calls: map<EnvId, nat>, lives: map<EnvId, Life>, batch: set<EnvId>, maxSteps: map<EnvId, nat>)
    requires Numbers(calls, lives) && lives.Keys <= maxSteps.Keys
    requires forall e | e in batch && e in lives :: lives[e].flying.Landed?
    ensures Numbers(Counted(calls, batch), SubmitAll(lives, batch, maxSteps))
  {
  }

  lemma NumbersLand(calls: map<EnvId, nat>, lives: map<EnvId, Life>, batch: set<EnvId>, maxSteps: map<EnvId, nat>)
    requires Numbers(calls, lives) && lives.Keys <= maxSteps.Keys
    ensures Numbers(calls, LandAll(lives, batch, maxSteps))
  {
  }

  /** What a collected result makes of the life of an environment. */
  lemma LandLife(e: EnvId, life: Life, maxSteps: nat, counter: int, kept: Kept)
    requires life.flying.Flying? && counter == life.counter + 1
    requires kept == Respond(life.kept, Entry(life.flying.ret, e), counter == maxSteps)
    ensures Land(e, life, maxSteps) == Life(Landed, counter, kept)
  {
  }

  lemma BegunLife(e: EnvId, maxSteps: nat)
    ensures Begun(e, maxSteps)
         == Life(Landed, 0, Respond(Kept([], [], []), Entry(EnvRet(e, true, 0), e), maxSteps == 0))
  {
  }

  lemma BeginAllIs(lives: map<EnvId, Life>, maxSteps: map<EnvId, nat>)
    requires lives.Keys == maxSteps.Keys && forall e | e in lives :: lives[e] == Begun(e, maxSteps[e])
    ensures lives == BeginAll(maxSteps)
  {
  }

  lemma SubmitAllIs(before: map<EnvId, Life>, after: map<EnvId, Life>, batch: set<EnvId>, maxSteps: map<EnvId, nat>)
    requires before.Keys == after.Keys == maxSteps.Keys
    requires forall e | e in after :: after[e] == if e in batch then Submit(e, before[e], maxSteps[e]) else before[e]
    ensures after == SubmitAll(before, batch, maxSteps)
  {
  }

  lemma LandAllIs(before: map<EnvId, Life>, after: map<EnvId, Life>, batch: set<EnvId>, maxSteps: map<EnvId, nat>)
    requires before.Keys == after.Keys == maxSteps.Keys
    requires forall e | e in after ::
               after[e] == if e in batch && before[e].flying.Flying? then Land(e, before[e], maxSteps[e]) else before[e]
    ensures after == LandAll(before, batch, maxSteps)
  {
  }

  /** What a submitted call makes of the life of an environment. */
  lemma SubmitLife(e: EnvId, life: Life, maxSteps: nat, ret: EnvRet)
    requires life.flying.Landed? && ret == EnvRet(e, life.counter == maxSteps, |life.kept.history|)
    ensures Submit(e, life, maxSteps) == Life(Flying(ret), if ret.fromReset then -1 else life.counter, life.kept)
  {
  }

  /** What lands leaves the flight, and nothing is lost. */
  lemma Recirculate(all: set<EnvId>, flying: set<EnvId>, landed: set<EnvId>, rest: set<EnvId>)
    requires flying == all && landed <= flying && rest == flying - landed
    ensures landed + rest == all && landed !! rest
  {
  }
}
