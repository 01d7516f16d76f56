/** The rollout of the RSL engine: every environment is stepped a fixed number of times, whatever
    the order in which results come back. */
module RslRollout {
  import opened Arithmetic
  import opened EpisodeLife
  import opened EnvGroup
  import opened Sequences
  import opened EpisodeBuffer
  import opened RolloutTurns

  /** To-be-stepped, in flight and finished environments are a partition of the group. */
  ghost predicate Parted(all: set<EnvId>, waiting: set<EnvId>, flying: set<EnvId>, finished: set<EnvId>) {
    waiting + flying + finished == all && waiting !! flying !! finished
  }

  lemma PartedSend(all: set<EnvId>, waiting: set<EnvId>, flying: set<EnvId>, finished: set<EnvId>)
    requires Parted(all, waiting, flying, finished)
    ensures Parted(all, {}, flying + waiting, finished)
    ensures waiting <= all && waiting !! flying && waiting !! finished
  {
  }

  lemma PartedLand(all: set<EnvId>, flying: set<EnvId>, finished: set<EnvId>, landed: set<EnvId>, done: set<EnvId>)
    requires Parted(all, {}, flying, finished) && done <= landed <= flying
    ensures Parted(all, landed - done, flying - landed, finished + done)
  {
  }

  lemma {:induction false} CountIds(batch: seq<EnvId>)
    requires Distinct(batch)
    ensures |Ids(batch)| == |batch|
  {
    if batch != [] {
      HeadTail(batch);
      CountIds(batch[1..]);
    }
  }

  lemma SubsetSize(part: set<EnvId>, all: set<EnvId>)
    requires part <= all
    ensures |part| <= |all| && (|part| == |all| ==> part == all)
  {
    assert all == part + (all - part);
    assert |all| == |part| + |all - part|;
  }

  /** The phase of one environment: it waits with a return, has a call in flight, or finished. */
  ghost function TurnOf(e: EnvId, rets: map<EnvId, EnvRet>, booked: map<EnvId, Booking>,
                        last: map<EnvId, EnvRet>): Turn {
    if e in rets then Waiting(rets[e])
    else if e in booked then Airborne(booked[e].ret)
    else Finished(if e in last then last[e] else EnvRet(e, false, 0))
  }

  /** The landed environments that make their last step. */
  function Ending(counts: map<EnvId, nat>, landed: set<EnvId>, steps: nat): set<EnvId> {
    set e | e in landed && e in counts && counts[e] + 1 == steps
  }

  function Only<V>(m: map<EnvId, V>, ids: set<EnvId>): (part: map<EnvId, V>)
    ensures part.Keys == m.Keys * ids
  {
    map e | e in m && e in ids :: m[e]
  }

  lemma CountedMore(counts: map<EnvId, nat>, done: set<EnvId>, e: EnvId)
    requires e in counts && e !in done
    ensures e in Counted(counts, done) && Counted(counts, done)[e] == counts[e]
    ensures Counted(counts, done + {e}) == Counted(counts, done)[e := counts[e] + 1]
  {
  }

  lemma EndingMore(counts: map<EnvId, nat>, done: set<EnvId>, e: EnvId, steps: nat)
    requires e in counts && e !in done
    ensures e !in Ending(counts, done, steps)
    ensures Ending(counts, done + {e}, steps)
         == Ending(counts, done, steps) + if counts[e] + 1 == steps then {e} else {}
  {
  }

  lemma OnlyMore<V>(m: map<EnvId, V>, last: map<EnvId, V>, ids: set<EnvId>, e: EnvId)
    requires e in m
    ensures last + Only(m, ids + {e}) == (last + Only(m, ids))[e := m[e]]
  {
  }

  lemma NoneYet(counts: map<EnvId, nat>, landed: map<EnvId, EnvRet>, last: map<EnvId, EnvRet>, steps: nat)
    ensures Counted(counts, {}) == counts && Ending(counts, {}, steps) == Ids([]) == {} &&
            last + Only(landed, {}) == last
  {
  }

  lemma Appended(order: seq<EnvId>, inactive: seq<EnvId>, last: map<EnvId, EnvRet>, landed: map<EnvId, EnvRet>)
    requires Distinct(order) && Distinct(inactive) && Ids(order) == last.Keys
    requires Ids(inactive) <= landed.Keys && landed.Keys !! last.Keys
    ensures Distinct(order + inactive)
    ensures Ids(order + inactive) == (last + Only(landed, Ids(inactive))).Keys
  {
    forall i, j | 0 <= i < |order| && 0 <= j < |inactive| ensures order[i] != inactive[j] {
      assert order[i] in Ids(order) && inactive[j] in Ids(inactive);
    }
    assert Ids(order + inactive) == Ids(order) + Ids(inactive);
    assert Only(landed, Ids(inactive)).Keys == Ids(inactive);
  }

  /** How the three groups change when results land. */
  lemma PartedCount(counts: map<EnvId, nat>, flying: set<EnvId>, last: map<EnvId, EnvRet>, landed: map<EnvId, EnvRet>,
                    steps: nat)
    requires Parted(counts.Keys, {}, flying, last.Keys) && landed.Keys <= flying
    ensures var done := Ending(counts, landed.Keys, steps);
      && landed.Keys <= counts.Keys && landed.Keys !! last.Keys
      && Parted(Counted(counts, landed.Keys).Keys, Only(landed, landed.Keys - done).Keys, flying - landed.Keys,
                (last + Only(landed, done)).Keys)
  {
    var done := Ending(counts, landed.Keys, steps);
    PartedLand(counts.Keys, flying, last.Keys, landed.Keys, done);
    assert Only(landed, landed.Keys - done).Keys == landed.Keys - done;
    assert (last + Only(landed, done)).Keys == last.Keys + done;
  }

  /** How the phase of one environment changes when results land. */
  lemma TurnCount(e: EnvId, counts: map<EnvId, nat>, booked: map<EnvId, Booking>, last: map<EnvId, EnvRet>,
                  landed: map<EnvId, EnvRet>, steps: nat, kept: Kept)
    requires Parted(counts.Keys, {}, booked.Keys, last.Keys) && landed.Keys <= booked.Keys && e in counts
    requires forall x | x in landed :: landed[x] == booked[x].ret
    ensures var done := Ending(counts, landed.Keys, steps);
      var before := Env(TurnOf(e, map[], booked, last), counts[e], kept);
      var after := Env(TurnOf(e, Only(landed, landed.Keys - done), booked - landed.Keys, last + Only(landed, done)),
                       Counted(counts, landed.Keys)[e], kept);
      if e in landed then before.turn.Airborne? && after == Back(before, steps) else after == before
  {
  }

  /** An environment stays on its turn when results land. */
  lemma LandOn(e: EnvId, counts: map<EnvId, nat>, booked: map<EnvId, Booking>, last: map<EnvId, EnvRet>,
               landed: map<EnvId, EnvRet>, steps: nat, kept: Kept,
               first: EnvRet, before: Kept, calls: nat)
    requires Parted(counts.Keys, {}, booked.Keys, last.Keys) && landed.Keys <= booked.Keys && e in counts
    requires forall x | x in landed :: landed[x] == booked[x].ret
    requires OnTurn(e, Env(TurnOf(e, map[], booked, last), counts[e], kept), first, before, steps, calls)
    ensures var done := Ending(counts, landed.Keys, steps);
      OnTurn(e, Env(TurnOf(e, Only(landed, landed.Keys - done), booked - landed.Keys, last + Only(landed, done)),
                    Counted(counts, landed.Keys)[e], kept), first, before, steps, calls)
  {
    hide OnTurn;
    TurnCount(e, counts, booked, last, landed, steps, kept);
    if e in landed {
      BackOn(e, Env(TurnOf(e, map[], booked, last), counts[e], kept), first, before, steps, calls);
    }
  }

  lemma SomeLeft(all: set<EnvId>, flying: set<EnvId>, finished: set<EnvId>)
    requires Parted(all, {}, flying, finished) && |finished| < |all|
    ensures flying != {}
  {
    assert flying == {} ==> finished == all;
  }

  lemma NoneLeft(all: set<EnvId>, waiting: set<EnvId>, flying: set<EnvId>, finished: set<EnvId>)
    requires Parted(all, waiting, flying, finished) && |finished| >= |all|
    ensures finished == all && flying == {} == waiting
  {
    SubsetSize(finished, all);
  }

  class RslEngine {
    const group: EnvGroup
    const buffer: EpisodeBuffer
    const maxSteps: nat
    var isEnvReset: bool
    var lastBatch: seq<EnvId>
    var lastRets: map<EnvId, EnvRet>

    constructor (group: EnvGroup, buffer: EpisodeBuffer, maxSteps: nat)
      ensures this.group == group && this.buffer == buffer && this.maxSteps == maxSteps && !isEnvReset
    {
      this.group, this.buffer, this.maxSteps := group, buffer, maxSteps;
      isEnvReset, lastBatch, lastRets := false, [], map[];
    }

    /** Every environment has made the entries that go with its phase and step count. */
    ghost predicate Progress(rets: map<EnvId, EnvRet>, last: map<EnvId, EnvRet>, counts: map<EnvId, nat>,
                             firsts: map<EnvId, EnvRet>, befores: map<EnvId, Kept>)
      reads group`booked, group`calls, buffer
    {
      && counts.Keys == firsts.Keys == befores.Keys == Ids(group.envIds)
      && Parted(counts.Keys, rets.Keys, group.booked.Keys, last.Keys)
      && counts.Keys <= group.calls.Keys
      && forall e | e in counts ::
           OnTurn(e, Env(TurnOf(e, rets, group.booked, last), counts[e], buffer.KeptOf(e)), firsts[e], befores[e],
                  maxSteps, group.calls[e])
    }

    /** Submit a step for each environment of the batch. */
    method StepOnly(batch: seq<EnvId>)
      requires group.Valid() && !group.inAutoReset && Distinct(batch)
      requires Ids(batch) <= Ids(group.envIds) && Ids(batch) !! group.booked.Keys
      modifies group.stepCounter, group`futures, group`futureToEnv, group`nextFuture, group`booked, group`calls
      ensures group.Valid() && group.booked.Keys == old(group.booked.Keys) + Ids(batch)
      ensures forall e | e in old(group.booked) :: group.booked[e] == old(group.booked)[e]
      ensures forall e | e in Ids(batch) ::
                e in old(group.calls) && group.booked[e].ret == EnvRet(e, false, old(group.calls[e]))
      ensures group.calls == Counted(old(group.calls), Ids(batch))
    {
      hide EnvGroup.BooksMatch, EnvGroup.Accounted, EnvStepCounter.Valid;
      ghost var resets := group.StepAsync(batch);
      assert resets == {};
    }

    /** Pair the returns of a batch with policy responses. */
    method Record(batch: seq<EnvId>, rets: map<EnvId, EnvRet>)
      requires Distinct(batch) && Ids(batch) == rets.Keys
      modifies buffer
      ensures forall e | e in rets :: buffer.KeptOf(e) == Respond(old(buffer.KeptOf(e)), Entry(rets[e], e), false)
      ensures forall e | e !in rets :: buffer.KeptOf(e) == old(buffer.KeptOf(e))
    {
      hide Respond, EpisodeBuffer.KeptOf;
      buffer.AddEnvRets(rets);
      buffer.AddResponses(batch, seq(|batch|, i => false), {});
      assert forall e | e in rets :: e in Ids(batch);
    }

    /** Record the waiting returns with their responses and submit the next steps. */
    method DispatchEach(batch: seq<EnvId>, rets: map<EnvId, EnvRet>)
      requires group.Valid() && !group.inAutoReset && Distinct(batch) && Ids(batch) == rets.Keys
      requires rets.Keys <= Ids(group.envIds) && rets.Keys !! group.booked.Keys
      modifies group.stepCounter, group`futures, group`futureToEnv, group`nextFuture, group`booked, group`calls
      modifies buffer
      ensures group.Valid() && group.booked.Keys == old(group.booked.Keys) + rets.Keys
      ensures forall e | e in old(group.booked) :: group.booked[e] == old(group.booked)[e]
      ensures forall e | e in rets ::
                e in old(group.calls) && group.booked[e].ret == EnvRet(e, false, old(group.calls[e]))
      ensures group.calls == Counted(old(group.calls), rets.Keys)
      ensures forall e | e in rets :: buffer.KeptOf(e) == Respond(old(buffer.KeptOf(e)), Entry(rets[e], e), false)
      ensures forall e | e !in rets :: buffer.KeptOf(e) == old(buffer.KeptOf(e))
    {
      hide Respond, EnvGroup.Valid, EpisodeBuffer.KeptOf;
      if batch != [] {
        StepOnly(batch);
        Record(batch, rets);
      }
    }

    /** The submitting half of a pass. */
    method TakeOff(batch: seq<EnvId>, rets: map<EnvId, EnvRet>, ghost last: map<EnvId, EnvRet>,
                   ghost counts: map<EnvId, nat>, ghost firsts: map<EnvId, EnvRet>, ghost befores: map<EnvId, Kept>)
      requires group.Valid() && !group.inAutoReset && Distinct(batch) && Ids(batch) == rets.Keys
      requires Progress(rets, last, counts, firsts, befores)
      modifies group.stepCounter, group`futures, group`futureToEnv, group`nextFuture, group`booked, group`calls
      modifies buffer
      ensures group.Valid() && Progress(map[], last, counts, firsts, befores)
    {
      hide OnTurn, Respond, Parted, EnvGroup.Valid, EpisodeBuffer.KeptOf;
      ghost var flying, calls := group.booked, group.calls;
      PartedSend(counts.Keys, rets.Keys, flying.Keys, last.Keys);
      DispatchEach(batch, rets);
      ghost var none: map<EnvId, EnvRet> := map[];
      assert none.Keys == {};
      forall e | e in counts
        ensures OnTurn(e, Env(TurnOf(e, map[], group.booked, last), counts[e], buffer.KeptOf(e)), firsts[e],
                befores[e], maxSteps, group.calls[e])
      {
        assert OnTurn(e, Env(TurnOf(e, rets, flying, last), counts[e], old(buffer.KeptOf(e))), firsts[e], befores[e],
                      maxSteps, calls[e]);
        if e in rets {
          SentOn(e, Env(Waiting(rets[e]), counts[e], old(buffer.KeptOf(e))), firsts[e], befores[e], maxSteps, calls[e]);
        }
      }
    }

    /** Count the landed environments; those that reach the maximum leave the rotation. */
    method CountSteps(batch: seq<EnvId>, landed: map<EnvId, EnvRet>, counts: map<EnvId, nat>, last: map<EnvId, EnvRet>,
                      order: seq<EnvId>)
      returns (countsAfter: map<EnvId, nat>, lastAfter: map<EnvId, EnvRet>, orderAfter: seq<EnvId>,
        inactive: seq<EnvId>)
      requires Distinct(batch) && Ids(batch) == landed.Keys && landed.Keys <= counts.Keys && landed.Keys !! last.Keys
      requires Distinct(order) && Ids(order) == last.Keys
      ensures countsAfter == Counted(counts, landed.Keys)
      ensures lastAfter == last + Only(landed, Ending(counts, landed.Keys, maxSteps))
      ensures Distinct(orderAfter) && Ids(orderAfter) == lastAfter.Keys
      ensures Ids(inactive) == Ending(counts, landed.Keys, maxSteps)
    {
      hide Counted, Ending, Only;
      countsAfter, lastAfter, orderAfter, inactive := counts, last, order, [];
      var rest := batch;
      ghost var done: set<EnvId> := {};
      NoneYet(counts, landed, last, maxSteps);
      while rest != []
        invariant Distinct(rest) && landed.Keys == done + Ids(rest) && done !! Ids(rest)
        invariant countsAfter == Counted(counts, done)
        invariant Distinct(inactive) && Ids(inactive) == Ending(counts, done, maxSteps) <= done
        invariant lastAfter == last + Only(landed, Ids(inactive))
        invariant orderAfter == order + inactive
        decreases |rest|
      {
        var e := rest[0];
        HeadTail(rest);
        assert e in Ids(rest);
        CountedMore(counts, done, e);
        EndingMore(counts, done, e, maxSteps);
        countsAfter := countsAfter[e := countsAfter[e] + 1];
        if countsAfter[e] == maxSteps {
          Snoc(inactive, e);
          OnlyMore(landed, last, Ids(inactive), e);
          lastAfter := lastAfter[e := landed[e]];
          orderAfter, inactive := orderAfter + [e], inactive + [e];
        }
        done, rest := done + {e}, rest[1..];
      }
      assert done == landed.Keys;
      Appended(order, inactive, last, landed);
    }

    /** The batch without some environments. */
    method Without(batch: seq<EnvId>, inactive: seq<EnvId>) returns (active: seq<EnvId>)
      requires Distinct(batch)
      ensures Distinct(active) && Ids(active) == Ids(batch) - Ids(inactive)
    {
      active := [];
      var rest := batch;
      while rest != []
        invariant Distinct(rest) && Distinct(active) && Ids(active) !! Ids(rest)
        invariant Ids(active) + (Ids(rest) - Ids(inactive)) == Ids(batch) - Ids(inactive)
        decreases |rest|
      {
        HeadTail(rest);
        if rest[0] !in inactive {
          assert rest[0] in Ids(rest);
          Snoc(active, rest[0]);
          active := active + [rest[0]];
        }
        rest := rest[1..];
      }
    }

    /** Count the landed environments and split them into those that go on and those that finish. */
    method Advance(batch: seq<EnvId>, landed: map<EnvId, EnvRet>, counts: map<EnvId, nat>, last: map<EnvId, EnvRet>,
                   order: seq<EnvId>)
      returns (active: seq<EnvId>, rets: map<EnvId, EnvRet>, countsAfter: map<EnvId, nat>,
        lastAfter: map<EnvId, EnvRet>, orderAfter: seq<EnvId>)
      requires Distinct(batch) && Ids(batch) == landed.Keys && landed.Keys <= counts.Keys && landed.Keys !! last.Keys
      requires Distinct(order) && Ids(order) == last.Keys
      ensures countsAfter == Counted(counts, landed.Keys)
      ensures lastAfter == last + Only(landed, Ending(counts, landed.Keys, maxSteps))
      ensures rets == Only(landed, landed.Keys - Ending(counts, landed.Keys, maxSteps))
      ensures Distinct(active) && Ids(active) == rets.Keys
      ensures Distinct(orderAfter) && Ids(orderAfter) == lastAfter.Keys
    {
      hide Counted, Ending, Only;
      var inactive;
      countsAfter, lastAfter, orderAfter, inactive := CountSteps(batch, landed, counts, last, order);
      active := Without(batch, inactive);
      rets := Only(landed, set e | e in active);
      assert (set e | e in active) == Ids(active) == landed.Keys - Ending(counts, landed.Keys, maxSteps);
    }

    /** Wait for some of the calls in flight. */
    method Collect(remote: bool) returns (batch: seq<EnvId>, rets: map<EnvId, EnvRet>)
      requires group.Valid() && !group.inAutoReset && group.futures != {}
      modifies group.stepCounter, group`futures, group`futureToEnv, group`booked, group`collected
      ensures group.Valid() && Distinct(batch) && Ids(batch) == rets.Keys != {}
      ensures rets.Keys <= old(group.booked.Keys) && group.booked == old(group.booked) - rets.Keys
      ensures forall e | e in rets :: rets[e] == old(group.booked)[e].ret
    {
      hide EnvGroup.BooksMatch, EnvGroup.Accounted, EnvStepCounter.Valid;
      var truncations, raised;
      ghost var ready;
      batch, rets, truncations, raised, ready := group.CollectAsync(remote);
      assert ready != {} ==> |ready| != 0;
      assert batch[0] in Ids(batch);
    }

    /** The collecting half of a pass: wait for results, count them, and take finished
        environments out of the batch. */
    method TouchDown(remote: bool, counts: map<EnvId, nat>, last: map<EnvId, EnvRet>, order: seq<EnvId>,
                     ghost firsts: map<EnvId, EnvRet>, ghost befores: map<EnvId, Kept>)
      returns (batch: seq<EnvId>, rets: map<EnvId, EnvRet>, countsAfter: map<EnvId, nat>, lastAfter: map<EnvId, EnvRet>,
               orderAfter: seq<EnvId>, ghost landed: set<EnvId>)
      requires group.Valid() && !group.inAutoReset && group.futures != {}
      requires Progress(map[], last, counts, firsts, befores) && Distinct(order) && Ids(order) == last.Keys
      modifies group.stepCounter, group`futures, group`futureToEnv, group`booked, group`collected
      ensures group.Valid() && Progress(rets, lastAfter, countsAfter, firsts, befores)
      ensures Distinct(batch) && Ids(batch) == rets.Keys && Distinct(orderAfter) && Ids(orderAfter) == lastAfter.Keys
      ensures {} < landed <= counts.Keys && countsAfter == Counted(counts, landed)
    {
      hide OnTurn, TurnOf, Parted, Counted, Ending, Only, EnvGroup.Valid, EpisodeBuffer.KeptOf;
      ghost var flying := group.booked;
      ghost var none: map<EnvId, EnvRet> := map[];
      assert none.Keys == {};
      batch, rets := Collect(remote);
      ghost var results := rets;
      landed := rets.Keys;
      PartedCount(counts, flying.Keys, last, results, maxSteps);
      batch, rets, countsAfter, lastAfter, orderAfter := Advance(batch, rets, counts, last, order);
      forall e | e in countsAfter
        ensures OnTurn(e, Env(TurnOf(e, rets, group.booked, lastAfter), countsAfter[e], buffer.KeptOf(e)), firsts[e],
                befores[e], maxSteps, group.calls[e])
      {
        LandOn(e, counts, flying, last, results, maxSteps, buffer.KeptOf(e), firsts[e], befores[e], group.calls[e]);
      }
    }

    lemma CountsBounded(rets: map<EnvId, EnvRet>, last: map<EnvId, EnvRet>, counts: map<EnvId, nat>,
                        firsts: map<EnvId, EnvRet>, befores: map<EnvId, Kept>)
      requires Progress(rets, last, counts, firsts, befores)
      ensures forall e | e in counts :: counts[e] <= maxSteps
    {
      forall e | e in counts ensures counts[e] <= maxSteps {
        assert OnTurn(e, Env(TurnOf(e, rets, group.booked, last), counts[e], buffer.KeptOf(e)), firsts[e], befores[e],
          maxSteps, group.calls[e]);
      }
    }

    /** One pass of the loop. */
    method Pass(remote: bool, batch: seq<EnvId>, rets: map<EnvId, EnvRet>, counts: map<EnvId, nat>,
                last: map<EnvId, EnvRet>, order: seq<EnvId>,
                ghost firsts: map<EnvId, EnvRet>, ghost befores: map<EnvId, Kept>)
      returns (active: seq<EnvId>, retsAfter: map<EnvId, EnvRet>, countsAfter: map<EnvId, nat>,
        lastAfter: map<EnvId, EnvRet>, orderAfter: seq<EnvId>)
      requires group.Valid() && !group.inAutoReset && |last| < |group.envIds|
      requires Distinct(batch) && Ids(batch) == rets.Keys && Distinct(order) && Ids(order) == last.Keys
      requires Progress(rets, last, counts, firsts, befores)
      modifies group.stepCounter, group`futures, group`futureToEnv, group`nextFuture, group`booked, group`calls,
               group`collected
      modifies buffer
      ensures group.Valid() && Progress(retsAfter, lastAfter, countsAfter, firsts, befores)
      ensures Distinct(active) && Ids(active) == retsAfter.Keys
      ensures Distinct(orderAfter) && Ids(orderAfter) == lastAfter.Keys
      ensures 0 <= Remaining(group.envIds, countsAfter, maxSteps) < Remaining(group.envIds, counts, maxSteps)
    {
      hide OnTurn, TurnOf, Parted, EnvGroup.BooksMatch, EnvGroup.Accounted, EnvStepCounter.Valid, EpisodeBuffer.KeptOf;
      TakeOff(batch, rets, last, counts, firsts, befores);
      ghost var none: map<EnvId, EnvRet> := map[];
      assert none.Keys == {};
      GroupSize();
      SomeLeft(counts.Keys, group.booked.Keys, last.Keys);
      ghost var e :| e in group.booked;
      group.InFlight(e);
      ghost var landed;
      active, retsAfter, countsAfter, lastAfter, orderAfter, landed :=
        TouchDown(remote, counts, last, order, firsts, befores);
      CountsBounded(retsAfter, lastAfter, countsAfter, firsts, befores);
      ghost var one :| one in landed;
      assert forall e | e in group.envIds :: e in Ids(group.envIds);
      RemainingDrops(group.envIds, counts, countsAfter, landed, maxSteps);
    }

    /** Pair the last returns with responses and hand every episode over. */
    method Finish(order: seq<EnvId>, last: map<EnvId, EnvRet>)
      requires Distinct(order) && Ids(order) == last.Keys
      modifies buffer
      ensures forall e | e in last :: buffer.KeptOf(e) == Respond(old(buffer.KeptOf(e)), Entry(last[e], e), true)
    {
      Record(order, last);
      label recorded:
      assert forall e | e in order :: e in last;
      assert forall e | e in order :: buffer.KeptOf(e).open != [];
      buffer.TruncateEpisodes(order);
      assert forall e | e in last :: e in Ids(order);
    }

    /** Nothing is in flight. */
    ghost predicate Idle()
      reads group, group.stepCounter
    {
      group.Valid() && !group.inAutoReset && group.booked == map[] && maxSteps >= 1
    }

    /** Between rollouts nothing is in flight, and each environment has the return its next
        episode starts from; no episode is open. */
    ghost predicate Ready()
      reads this, group, group.stepCounter, buffer
    {
      && Idle() && (forall e | e in Ids(group.envIds) :: buffer.KeptOf(e).open == [])
      && (isEnvReset ==> Distinct(lastBatch) && Ids(lastBatch) == lastRets.Keys == Ids(group.envIds)
                         && forall e | e in lastRets :: e in group.calls && group.calls[e] > 0
                              && lastRets[e] == EnvRet(e, false, group.calls[e] - 1))
    }

    /** The return the next episode of an environment starts from. */
    ghost function FirstRet(e: EnvId): EnvRet
      reads this
    {
      if isEnvReset && e in lastRets then lastRets[e] else EnvRet(e, true, 0)
    }

    /** The batch a rollout starts from: a reset the first time, the last returns afterwards. */
    method Start() returns (batch: seq<EnvId>, rets: map<EnvId, EnvRet>)
      requires Ready()
      modifies group.stepCounter, group`calls, this`isEnvReset
      ensures Idle() && isEnvReset
      ensures Distinct(batch) && Ids(batch) == rets.Keys == Ids(group.envIds)
      ensures forall e | e in rets ::
                rets[e] == old(FirstRet(e)) && e in group.calls && group.calls[e] == rets[e].serial + 1
    {
      hide EnvGroup.BooksMatch, EnvGroup.Accounted, EnvStepCounter.Valid, EpisodeBuffer.KeptOf;
      if !isEnvReset {
        var truncations, raised;
        batch, rets, truncations, raised := group.Reset();
        isEnvReset := true;
        assert forall e | e in rets :: e in batch;
      } else {
        batch, rets := lastBatch, lastRets;
      }
    }

    lemma Begin(batch: seq<EnvId>, rets: map<EnvId, EnvRet>, counts: map<EnvId, nat>, befores: map<EnvId, Kept>)
      requires Idle() && Ids(batch) == rets.Keys == counts.Keys == befores.Keys == Ids(group.envIds)
      requires forall e | e in rets :: e in group.calls && group.calls[e] == rets[e].serial + 1
      requires forall e | e in counts :: counts[e] == 0 && befores[e] == buffer.KeptOf(e)
      ensures Progress(rets, map[], counts, rets, befores)
    {
      hide OnTurn;
      forall e | e in counts
        ensures OnTurn(e, Env(TurnOf(e, rets, group.booked, map[]), counts[e], buffer.KeptOf(e)), rets[e], befores[e],
                maxSteps, group.calls[e])
      {
        StartOn(e, rets[e], befores[e], maxSteps, group.calls[e]);
      }
    }

    lemma GroupSize()
      requires group.Valid()
      ensures |Ids(group.envIds)| == |group.envIds|
    {
      CountIds(group.envIds);
    }

    /** The end of a rollout, when every environment is finished. */
    method Conclude(rets: map<EnvId, EnvRet>, last: map<EnvId, EnvRet>, order: seq<EnvId>,
                    ghost counts: map<EnvId, nat>,
                    ghost firsts: map<EnvId, EnvRet>, ghost befores: map<EnvId, Kept>)
      requires group.Valid() && Progress(rets, last, counts, firsts, befores) && |last| >= |group.envIds|
      requires Distinct(order) && Ids(order) == last.Keys
      modifies buffer
      ensures group.booked == map[] && last.Keys == Ids(group.envIds)
      ensures forall e | e in last :: last[e] == Nth(e, firsts[e], maxSteps)
      ensures forall e | e in last :: e in group.calls && group.calls[e] == last[e].serial + 1
      ensures forall e | e in befores :: buffer.KeptOf(e) == Finale(befores[e], e, firsts[e], maxSteps + 1)
    {
      hide OnTurn, Parted, Respond, EnvGroup.Valid;
      GroupSize();
      NoneLeft(counts.Keys, rets.Keys, group.booked.Keys, last.Keys);
      forall e | e in counts
        ensures OnTurn(e, Env(Finished(last[e]), counts[e], buffer.KeptOf(e)), firsts[e], befores[e], maxSteps,
                       group.calls[e])
      {
        assert OnTurn(e, Env(TurnOf(e, rets, group.booked, last), counts[e], buffer.KeptOf(e)), firsts[e], befores[e],
          maxSteps, group.calls[e]);
      }
      label before:
      Finish(order, last);
      forall e | e in counts
        ensures buffer.KeptOf(e) == Finale(befores[e], e, firsts[e], maxSteps + 1)
        ensures last[e] == Nth(e, firsts[e], maxSteps)
        ensures group.calls[e] == last[e].serial + 1
      {
        ClosedOn(e, Env(Finished(last[e]), counts[e], old@before(buffer.KeptOf(e))), firsts[e], befores[e], maxSteps,
          group.calls[e]);
      }
    }

    /** From the first batch to the last hand-over. */
    method Run(remote: bool, first: seq<EnvId>, firsts: map<EnvId, EnvRet>)
      returns (order: seq<EnvId>, last: map<EnvId, EnvRet>)
      requires Idle() && Distinct(first) && Ids(first) == firsts.Keys == Ids(group.envIds)
      requires forall e | e in firsts :: e in group.calls && group.calls[e] == firsts[e].serial + 1
      modifies group.stepCounter, group`futures, group`futureToEnv, group`nextFuture, group`booked, group`calls,
               group`collected
      modifies buffer
      ensures Idle() && Distinct(order) && Ids(order) == last.Keys == Ids(group.envIds)
      ensures forall e | e in last :: last[e] == Nth(e, firsts[e], maxSteps)
      ensures forall e | e in last :: e in group.calls && group.calls[e] == last[e].serial + 1
      ensures forall e | e in firsts :: buffer.KeptOf(e) == Finale(old(buffer.KeptOf(e)), e, firsts[e], maxSteps + 1)
    {
      hide Progress, EnvGroup.Valid, Remaining, Nth, Finale, EpisodeBuffer.KeptOf;
      var batch, rets := first, firsts;
      var counts: map<EnvId, nat> := map e | e in firsts :: 0;
      last, order := map[], [];
      ghost var befores := map e | e in firsts :: buffer.KeptOf(e);
      Begin(batch, rets, counts, befores);
      while |last| < |group.envIds|
        invariant group.Valid() && !group.inAutoReset
        invariant Distinct(batch) && Ids(batch) == rets.Keys && Distinct(order) && Ids(order) == last.Keys
        invariant Progress(rets, last, counts, firsts, befores)
        decreases Remaining(group.envIds, counts, maxSteps)
      {
        batch, rets, counts, last, order := Pass(remote, batch, rets, counts, last, order, firsts, befores);
      }
      Conclude(rets, last, order, counts, firsts, befores);
    }

    /** Step every environment `maxSteps` times: each hands over one episode of `maxSteps + 1`
        entries, begun by the return it started from, and nothing is left in flight. */
    method Rollout(remote: bool)
      requires Ready()
      modifies this, group.stepCounter, group`futures, group`futureToEnv, group`nextFuture, group`booked, group`calls,
               group`collected
      modifies buffer
      ensures Ready() && isEnvReset
      ensures forall e | e in Ids(group.envIds) ::
                buffer.KeptOf(e) == Finale(old(buffer.KeptOf(e)), e, old(FirstRet(e)), maxSteps + 1)
      ensures forall e | e in Ids(group.envIds) :: buffer.KeptOf(e).stored
                == old(buffer.KeptOf(e)).stored + [Script(e, old(FirstRet(e)), maxSteps + 1)]
      ensures forall e | e in Ids(group.envIds) ::
                e in lastRets && lastRets[e] == EnvRet(e, false, old(FirstRet(e)).serial + maxSteps)
    {
      hide Finale, Script, Nth, EnvGroup.Valid, EpisodeBuffer.KeptOf;
      forall e | e in Ids(group.envIds) {
        FinaleAlone(buffer.KeptOf(e), e, FirstRet(e), maxSteps + 1);
      }
      forall e | e in Ids(group.envIds) {
        NthStep(e, FirstRet(e), maxSteps);
      }
      var batch, rets := Start();
      lastBatch, lastRets := Run(remote, batch, rets);
    }

    /** A run of rollouts from the start: the environments are reset once, and each rollout goes on
        from the last return of the one before. */
    method Rollouts(times: nat, remote: bool)
      requires Ready() && !isEnvReset && forall e | e in Ids(group.envIds) :: buffer.KeptOf(e).stored == []
      modifies this, group.stepCounter, group`futures, group`futureToEnv, group`nextFuture, group`booked, group`calls,
               group`collected
      modifies buffer
      ensures Ready() && forall e | e in Ids(group.envIds) ::
                |buffer.KeptOf(e).stored| == times && GoesOn(e, buffer.KeptOf(e).stored, maxSteps)
      ensures times > 0 ==> forall e | e in Ids(group.envIds) ::
                e in group.calls && group.calls[e] == 1 + Product(times, maxSteps)
    {
      hide Script, EnvGroup.Valid, EpisodeBuffer.KeptOf, GoesOn, Product;
      GoesOnNone(maxSteps);
      for i := 0 to times
        invariant Ready() && (isEnvReset <==> i > 0)
        invariant forall e | e in Ids(group.envIds) ::
                    |buffer.KeptOf(e).stored| == i && GoesOn(e, buffer.KeptOf(e).stored, maxSteps)
        invariant forall e | e in Ids(group.envIds) :: FirstRet(e) == EnvRet(e, i == 0, Product(i, maxSteps))
      {
        forall e | e in Ids(group.envIds) {
          GoesOnMore(e, buffer.KeptOf(e).stored, maxSteps);
        }
        Rollout(remote);
        OneMore(i, maxSteps);
      }
    }
  }

  /** The episodes an environment hands over in a row: the first begins with a reset, all other returns
      are steps, numbered without a break; each begins with the last return of the one before. */
  ghost predicate GoesOn(env: EnvId, episodes: seq<seq<Entry>>, steps: nat) {
    forall i | 0 <= i < |episodes| :: |episodes[i]| == steps + 1
      && forall j | 0 <= j <= steps ::
           episodes[i][j] == Entry(EnvRet(env, i == 0 && j == 0, Product(i, steps) + j), env)
  }

  lemma GoesOnNone(steps: nat)
    ensures forall env :: GoesOn(env, [], steps)
    ensures Product(0, steps) == 0
  {
  }

  lemma GoesOnMore(env: EnvId, episodes: seq<seq<Entry>>, steps: nat)
    requires GoesOn(env, episodes, steps)
    ensures var first := EnvRet(env, episodes == [], Product(|episodes|, steps));
      GoesOn(env, episodes + [Script(env, first, steps + 1)], steps)
  {
    hide Product;
  }
}
