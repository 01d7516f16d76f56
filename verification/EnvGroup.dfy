/** A group of environments stepped asynchronously: the step counter of the automatic resets and
    the bookkeeping of submitted calls. A future is an opaque token; `ray.wait` may return any
    non-empty part of what is in flight. */
module EnvGroup {
  import opened EpisodeLife
  import opened Sequences

  type Future = nat

  class EnvStepCounter {
    const maxSteps: map<EnvId, nat>
    var idToStep: map<EnvId, int>

    ghost predicate Valid()
      reads this
    {
      idToStep.Keys == maxSteps.Keys
    }

    constructor (maxSteps: map<EnvId, nat>)
      ensures Valid() && this.maxSteps == maxSteps
      ensures forall e | e in maxSteps :: idToStep[e] == -1
    {
      this.maxSteps := maxSteps;
      idToStep := map e | e in maxSteps :: -1;
    }

    method Reset(env: EnvId)
      requires Valid() && env in maxSteps
      modifies this
      ensures Valid() && idToStep == old(idToStep)[env := -1]
    {
      idToStep := idToStep[env := -1];
    }

    method ResetAll()
      requires Valid()
      modifies this
      ensures Valid() && forall e | e in maxSteps :: idToStep[e] == -1
    {
      idToStep := map e | e in maxSteps :: -1;
    }

    /** Count one step; `raised` is the error for stepping past the maximum. */
    method Step(env: EnvId) returns (raised: bool)
      requires Valid() && env in maxSteps
      modifies this
      ensures Valid() && (raised <==> old(idToStep[env]) + 1 > maxSteps[env])
      ensures idToStep == if raised then old(idToStep) else old(idToStep)[env := old(idToStep[env]) + 1]
    {
      var step := idToStep[env] + 1;
      if step > maxSteps[env] {
        return true;
      }
      idToStep := idToStep[env := step];
      raised := false;
    }

    predicate Reached(env: EnvId)
      requires Valid() && env in maxSteps
      reads this
    {
      idToStep[env] == maxSteps[env]
    }
  }

  /** Some non-empty part of the pending futures, chosen by the scheduler. */
  method RayWait(pending: set<Future>) returns (ready: set<Future>)
    requires pending != {}
    ensures {} < ready <= pending
  {
    ready :| {} < ready <= pending;
  }

  /** A call in flight and what it will return. */
  datatype Booking = Booking(future: Future, ret: EnvRet)

  /** The two sides of the books agree: one future per environment in flight. */
  ghost predicate Books(envIds: seq<EnvId>, futures: set<Future>, futureToEnv: map<Future, EnvId>,
                        booked: map<EnvId, Booking>) {
    && futures == futureToEnv.Keys
    && (forall f | f in futureToEnv :: futureToEnv[f] in booked && booked[futureToEnv[f]].future == f)
    && (forall e | e in booked ::
          e in envIds && booked[e].future in futureToEnv && futureToEnv[booked[e].future] == e)
  }

  lemma BooksSubmit(envIds: seq<EnvId>, futures: set<Future>, futureToEnv: map<Future, EnvId>,
                    booked: map<EnvId, Booking>,
                    env: EnvId, booking: Booking)
    requires Books(envIds, futures, futureToEnv, booked) && env in envIds && env !in booked &&
             booking.future !in futures
    ensures Books(envIds, futures + {booking.future}, futureToEnv[booking.future := env], booked[env := booking])
  {
  }

  lemma BooksLookUp(envIds: seq<EnvId>, futures: set<Future>, futureToEnv: map<Future, EnvId>,
                    booked: map<EnvId, Booking>, future: Future)
    requires Books(envIds, futures, futureToEnv, booked) && future in futures
    ensures future in futureToEnv && futureToEnv[future] in booked && booked[futureToEnv[future]].future == future
  {
  }

  lemma BooksPop(envIds: seq<EnvId>, futures: set<Future>, futureToEnv: map<Future, EnvId>,
                 booked: map<EnvId, Booking>, future: Future)
    requires Books(envIds, futures, futureToEnv, booked) && future in futureToEnv
    ensures Books(envIds, futures - {future}, futureToEnv - {future}, booked - {futureToEnv[future]})
  {
  }

  /** Every future below `next` is in flight or was collected, never both. */
  ghost predicate Account(futures: set<Future>, collected: set<Future>, next: nat) {
    futures !! collected && futures + collected == Below(next)
  }

  lemma AccountSubmit(futures: set<Future>, collected: set<Future>, next: nat)
    requires Account(futures, collected, next)
    ensures next !in futures && Account(futures + {next}, collected, next + 1)
  {
  }

  lemma AccountPop(futures: set<Future>, collected: set<Future>, next: nat, future: Future)
    requires Account(futures, collected, next) && future in futures
    ensures Account(futures - {future}, collected + {future}, next)
  {
  }

  /** The first `n` futures. */
  ghost function Below(n: nat): (s: set<Future>)
    ensures forall f | f in s :: f < n
  {
    if n == 0 then {} else Below(n - 1) + {n - 1}
  }

  class EnvGroup {
    const envIds: seq<EnvId>
    const stepCounter: EnvStepCounter
    var inAutoReset: bool
    var futures: set<Future>
    var futureToEnv: map<Future, EnvId>
    var nextFuture: Future
    var booked: map<EnvId, Booking>           // the call each environment has in flight
    var calls: map<EnvId, nat>                // calls to each environment since its last synchronous reset
    ghost var collected: set<Future>          // futures whose result was taken

    ghost predicate Valid()
      reads this, stepCounter
    {
      && stepCounter.Valid() && Distinct(envIds)
      && (forall e :: e in envIds <==> e in stepCounter.maxSteps) && calls.Keys == stepCounter.maxSteps.Keys
      && BooksMatch() && Accounted()
    }

    /** The two sides of the books agree: one future per environment in flight. */
    ghost predicate BooksMatch()
      reads this`futures, this`futureToEnv, this`booked
    {
      Books(envIds, futures, futureToEnv, booked)
    }

    /** Every future ever submitted is in flight or was collected, never both. */
    ghost predicate Accounted()
      reads this`futures, this`collected, this`nextFuture
    {
      Account(futures, collected, nextFuture)
    }

    ghost function FlightOf(e: EnvId): Flight
      reads this`booked
    {
      if e in booked then Flying(booked[e].ret) else Landed
    }

    lemma BookedKnown()
      requires Valid()
      ensures booked.Keys <= Ids(envIds)
    {
    }

    lemma InFlight(e: EnvId)
      requires Valid() && e in booked
      ensures futures != {}
    {
      assert booked[e].future in futures;
    }

    constructor (envIds: seq<EnvId>, maxSteps: map<EnvId, nat>)
      requires Distinct(envIds) && forall e :: e in envIds <==> e in maxSteps
      ensures Valid() && fresh(stepCounter) && this.envIds == envIds && stepCounter.maxSteps == maxSteps
      ensures futures == collected == {} && booked == map[] && nextFuture == 0 && !inAutoReset
    {
      this.envIds := envIds;
      stepCounter := new EnvStepCounter(maxSteps);
      inAutoReset := false;
      futures, futureToEnv, nextFuture := {}, map[], 0;
      booked, collected, calls := map[], {}, map e | e in maxSteps :: 0;
    }

    /** Begin counting from scratch with automatic resets on. */
    method EnterAutoReset()
      requires Valid()
      modifies stepCounter, this`inAutoReset
      ensures Valid() && inAutoReset
      ensures forall e | e in envIds :: stepCounter.idToStep[e] == -1
    {
      inAutoReset := true;
      stepCounter.ResetAll();
    }

    /** Reset every environment synchronously; inside the automatic-reset context this counts as
        step 0. */
    method Reset() returns (batch: seq<EnvId>, rets: map<EnvId, EnvRet>, truncations: seq<bool>, raised: bool)
      requires Valid()
      modifies stepCounter, this`calls
      ensures Valid() && batch == envIds && |truncations| == |batch| && !raised
      ensures rets.Keys == Ids(batch) && forall e | e in batch :: rets[e] == EnvRet(e, true, 0)
      ensures forall e | e in envIds :: calls[e] == 1
      ensures forall e | e in envIds ::
                stepCounter.idToStep[e] == if inAutoReset then 0 else old(stepCounter.idToStep[e])
      ensures forall i | 0 <= i < |batch| ::
                batch[i] in envIds && (truncations[i] <==> inAutoReset && stepCounter.Reached(batch[i]))
    {
      batch, rets := envIds, map e | e in envIds :: EnvRet(e, true, 0);
      calls := map e | e in calls :: 1;
      truncations, raised := seq(|batch|, i => false), false;
      if inAutoReset {
        stepCounter.ResetAll();
        raised := CountAll(batch);
        truncations := Truncations(batch);
      }
    }

    /** Submit one call and book its future. */
    method Submit(env: EnvId, fromReset: bool)
      requires Valid() && env in envIds && env !in booked
      modifies this`futures, this`futureToEnv, this`nextFuture, this`booked, this`calls
      ensures Valid() && nextFuture == old(nextFuture) + 1
      ensures booked == old(booked)[env := Booking(old(nextFuture), EnvRet(env, fromReset, old(calls[env])))]
      ensures calls == old(calls)[env := old(calls[env]) + 1]
    {
      hide Books, Account, Below;
      var booking := Booking(nextFuture, EnvRet(env, fromReset, calls[env]));
      AccountSubmit(futures, collected, nextFuture);
      BooksSubmit(envIds, futures, futureToEnv, booked, env, booking);
      futures := futures + {nextFuture};
      futureToEnv := futureToEnv[nextFuture := env];
      booked := booked[env := booking];
      nextFuture, calls := nextFuture + 1, calls[env := calls[env] + 1];
    }

    /** Take the result of one future off the books. */
    method Pop(future: Future) returns (env: EnvId, ret: EnvRet)
      requires Valid() && future in futures
      modifies this`futures, this`futureToEnv, this`booked, this`collected
      ensures Valid() && env in old(booked) && old(booked[env]) == Booking(future, ret)
      ensures booked == old(booked) - {env}
      ensures futures == old(futures) - {future} && collected == old(collected) + {future}
    {
      BooksLookUp(envIds, futures, futureToEnv, booked, future);
      BooksPop(envIds, futures, futureToEnv, booked, future);
      AccountPop(futures, collected, nextFuture, future);
      hide Books, Account;
      env := futureToEnv[future];
      ret := booked[env].ret;
      futures := futures - {future};
      futureToEnv := futureToEnv - {future};
      booked := booked - {env};
      collected := collected + {future};
    }

    /** Submit a call for each of some idle environments. */
    method SubmitAll(batch: seq<EnvId>, fromReset: bool)
      requires Valid() && Distinct(batch)
      requires Ids(batch) <= Ids(envIds) && Ids(batch) !! booked.Keys
      modifies this`futures, this`futureToEnv, this`nextFuture, this`booked, this`calls
      ensures Valid() && nextFuture == old(nextFuture) + |batch|
      ensures Launched(old(booked), booked, Ids(batch), fromReset, old(calls))
      ensures calls == Counted(old(calls), Ids(batch))
    {
      hide BooksMatch, Accounted, Counted, Launched;
      var rest := batch;
      ghost var done: set<EnvId> := {};
      LaunchedNone(booked, fromReset, calls);
      while rest != []
        invariant Valid() && Distinct(rest) && nextFuture + |rest| == old(nextFuture) + |batch|
        invariant Ids(rest) <= Ids(envIds) && Ids(rest) !! booked.Keys && done !! Ids(rest)
        invariant Ids(batch) == done + Ids(rest)
        invariant Launched(old(booked), booked, done, fromReset, old(calls)) && calls == Counted(old(calls), done)
        decreases |rest|
      {
        HeadTail(rest);
        assert rest[0] in Ids(rest);
        LaunchedOneMore(old(booked), booked, done, fromReset, old(calls), rest[0], nextFuture);
        Submit(rest[0], fromReset);
        done, rest := done + {rest[0]}, rest[1..];
      }
      assert done == Ids(batch);
    }

    /** Split a batch into full environments, whose counter is reset, and the others. */
    method Partition(batch: seq<EnvId>) returns (toReset: seq<EnvId>, toStep: seq<EnvId>)
      requires Valid() && Distinct(batch) && Ids(batch) <= Ids(envIds)
      modifies stepCounter
      ensures Valid() && Distinct(toReset) && Distinct(toStep)
      ensures |toReset| + |toStep| == |batch|
      ensures Ids(batch) == Ids(toReset) + Ids(toStep) && Ids(toReset) !! Ids(toStep)
      ensures forall e | e in batch && e in envIds :: e in toReset <==> old(stepCounter.Reached(e))
      ensures forall e | e in envIds ::
                stepCounter.idToStep[e] == if e in toReset then -1 else old(stepCounter.idToStep[e])
    {
      toReset, toStep := [], [];
      var rest := batch;
      while rest != []
        invariant Valid() && Distinct(rest) && (forall e | e in rest :: e in batch)
        invariant |toReset| + |toStep| + |rest| == |batch|
        invariant Distinct(toReset) && Distinct(toStep)
        invariant Ids(batch) == Ids(toReset) + Ids(toStep) + Ids(rest)
        invariant Ids(toReset) !! Ids(toStep) !! Ids(rest)
        invariant forall e | e in batch && e in envIds && e !in rest :: e in toReset <==> old(stepCounter.Reached(e))
        invariant forall e | e in envIds ::
                    stepCounter.idToStep[e] == if e in toReset then -1 else old(stepCounter.idToStep[e])
        decreases |rest|
      {
        HeadTail(rest);
        assert rest[0] in Ids(batch);
        if stepCounter.Reached(rest[0]) {
          stepCounter.Reset(rest[0]);
          Snoc(toReset, rest[0]);
          toReset := toReset + [rest[0]];
        } else {
          Snoc(toStep, rest[0]);
          toStep := toStep + [rest[0]];
        }
        rest := rest[1..];
      }
    }

    /** Submit resets first, then steps. */
    method SubmitBoth(toReset: seq<EnvId>, toStep: seq<EnvId>)
      requires Valid() && Distinct(toReset) && Distinct(toStep) && Ids(toReset) !! Ids(toStep)
      requires Ids(toReset) + Ids(toStep) <= Ids(envIds) && Ids(toReset) + Ids(toStep) !! booked.Keys
      modifies this`futures, this`futureToEnv, this`nextFuture, this`booked, this`calls
      ensures Valid() && nextFuture == old(nextFuture) + |toReset| + |toStep|
      ensures Submitted(old(booked), booked, Ids(toReset), Ids(toStep), old(calls))
      ensures calls == Counted(old(calls), Ids(toReset) + Ids(toStep))
    {
      hide BooksMatch, Accounted;
      ghost var start := booked;
      SubmitAll(toReset, true);
      ghost var middle := booked;
      SubmitAll(toStep, false);
      LaunchedBoth(start, middle, booked, Ids(toReset), Ids(toStep), old(calls));
    }

    /** Submit a reset for every full environment of the batch and a step for every other; an
        environment counts as full only inside the automatic-reset context. */
    method StepAsync(batch: seq<EnvId>) returns (ghost resets: set<EnvId>)
      requires Valid() && Distinct(batch)
      requires Ids(batch) <= Ids(envIds) && Ids(batch) !! booked.Keys
      modifies stepCounter, this`futures, this`futureToEnv, this`nextFuture, this`booked, this`calls
      ensures Valid() && nextFuture == old(nextFuture) + |batch|
      ensures resets <= Ids(batch) && Submitted(old(booked), booked, resets, Ids(batch) - resets, old(calls))
      ensures calls == Counted(old(calls), Ids(batch))
      ensures forall e | e in batch :: e in resets <==> inAutoReset && old(stepCounter.Reached(e))
      ensures forall e | e in envIds ::
                stepCounter.idToStep[e] == if e in resets then -1 else old(stepCounter.idToStep[e])
    {
      hide BooksMatch, Accounted, Submitted, Counted;
      if inAutoReset {
        var toReset, toStep := Partition(batch);
        SubmitBoth(toReset, toStep);
        resets := Ids(toReset);
        assert Ids(batch) - resets == Ids(toStep);
      } else {
        assert Ids([]) == {} && Ids([]) + Ids(batch) == Ids(batch);
        SubmitBoth([], batch);
        resets := {};
        assert Ids(batch) - resets == Ids(batch);
      }
    }

    /** Reset the full environments of the batch, whose counter starts again, and step the others. */
    method CallSync(batch: seq<EnvId>) returns (rets: map<EnvId, EnvRet>)
      requires Valid() && Distinct(batch) && Ids(batch) <= Ids(envIds)
      modifies stepCounter, this`calls
      ensures Valid() && rets.Keys == Ids(batch) && calls == Counted(old(calls), Ids(batch))
      ensures forall e | e in envIds && e in batch :: rets[e] == EnvRet(e, old(stepCounter.Reached(e)), old(calls[e]))
      ensures forall e | e in envIds ::
                stepCounter.idToStep[e] == if e in batch && old(stepCounter.Reached(e)) then -1
                                           else old(stepCounter.idToStep[e])
    {
      hide BooksMatch, Accounted, Counted;
      assert forall e | e in batch :: e in Ids(batch);
      var toReset, toStep := Partition(batch);
      rets := map e | e in batch :: EnvRet(e, e in toReset, calls[e]);
      calls := Counted(calls, set e | e in batch);
      assert rets.Keys == Ids(batch);
      assert forall e | e in toReset :: e in Ids(toReset) && e in Ids(batch);
    }

    /** Step synchronously inside the automatic-reset context: every full environment of the batch
        is reset instead. All counters advance, also those of environments outside the batch, so
        the counter's error is raised exactly when one of these is already full. */
    method StepSync(batch: seq<EnvId>) returns (rets: map<EnvId, EnvRet>, truncations: seq<bool>, raised: bool)
      requires Valid() && inAutoReset && Distinct(batch) && Ids(batch) <= Ids(envIds)
      requires forall e | e in envIds :: stepCounter.idToStep[e] <= stepCounter.maxSteps[e]
      modifies stepCounter, this`calls
      ensures Valid() && rets.Keys == Ids(batch) && calls == Counted(old(calls), Ids(batch))
      ensures forall e | e in envIds && e in batch :: rets[e] == EnvRet(e, old(stepCounter.Reached(e)), old(calls[e]))
      ensures raised <==> exists e :: e in envIds && e !in batch && old(stepCounter.Reached(e))
      ensures !raised ==> forall e | e in envIds ::
                stepCounter.idToStep[e] == if e in batch && old(stepCounter.Reached(e)) then 0
                                           else old(stepCounter.idToStep[e]) + 1
      ensures |truncations| == |batch|
      ensures !raised ==> forall i | 0 <= i < |batch| ::
                batch[i] in envIds && (truncations[i] <==> stepCounter.Reached(batch[i]))
    {
      hide BooksMatch, Accounted, Counted;
      rets := CallSync(batch);
      assert forall e | e in envIds ::
        stepCounter.idToStep[e] + 1 > stepCounter.maxSteps[e] <==> e !in batch && old(stepCounter.Reached(e));
      raised := CountAll(envIds);
      truncations := Truncations(batch);
      assert forall i | 0 <= i < |batch| :: batch[i] in Ids(batch);
    }

    /** Look the ready futures up, in any order, and take them off the books. */
    method TakeAll(ready: set<Future>) returns (batch: seq<EnvId>, rets: map<EnvId, EnvRet>)
      requires Valid() && ready <= futures
      modifies this`futures, this`futureToEnv, this`booked, this`collected
      ensures Valid() && Distinct(batch) && |batch| == |ready| && futures == old(futures) - ready
      ensures Delivered(old(booked), booked, ready, Ids(batch), rets) && Ids(batch) <= old(booked.Keys)
    {
      batch, rets := [], map[];
      var rest := ready;
      ghost var done: set<Future> := {};
      while rest != {}
        invariant Valid() && rest <= futures && Distinct(batch) && |batch| + |rest| == |ready|
        invariant done + rest == ready && done !! rest && futures == old(futures) - done
        invariant Delivered(old(booked), booked, done, Ids(batch), rets)
        decreases rest
      {
        var future :| future in rest;
        ghost var before := booked;
        assert forall e | e in before && before[e].future == future :: e == futureToEnv[future];
        var env, ret := Pop(future);
        Snoc(batch, env);
        MoveOne(old(futures), ready, done, rest, future);
        DeliveredOneMore(old(booked), before, booked, done, future, Ids(batch), rets, env);
        batch, rets, rest := batch + [env], rets[env := ret], rest - {future};
        done := done + {future};
      }
    }

    /** Count one step for each of the given environments. */
    method CountAll(batch: seq<EnvId>) returns (raised: bool)
      requires Valid() && Distinct(batch) && Ids(batch) <= Ids(envIds)
      modifies stepCounter
      ensures Valid()
      ensures raised <==> exists e ::
                e in batch && e in envIds && old(stepCounter.idToStep[e]) + 1 > stepCounter.maxSteps[e]
      ensures !raised ==> forall e | e in envIds ::
                stepCounter.idToStep[e] == old(stepCounter.idToStep[e]) + if e in batch then 1 else 0
    {
      var rest := batch;
      ghost var done: set<EnvId> := {};
      while rest != []
        invariant Valid() && Distinct(rest) && Ids(batch) == done + Ids(rest) && done !! Ids(rest)
        invariant forall e | e in done :: old(stepCounter.idToStep[e]) + 1 <= stepCounter.maxSteps[e]
        invariant forall e | e in envIds ::
                    stepCounter.idToStep[e] == old(stepCounter.idToStep[e]) + if e in done then 1 else 0
        decreases |rest|
      {
        HeadTail(rest);
        assert rest[0] in Ids(batch);
        var over := stepCounter.Step(rest[0]);
        if over {
          return true;
        }
        done, rest := done + {rest[0]}, rest[1..];
      }
      raised := false;
      assert forall e | e in batch :: e in done;
    }

    /** Collect whatever is ready, at least one result if anything is in flight: count a step for
        each environment inside the automatic-reset context and report which are full. `raised` is
        the counter's error. Waiting needs something in flight. */
    method CollectAsync(remote: bool)
      returns (batch: seq<EnvId>, rets: map<EnvId, EnvRet>, truncations: seq<bool>, raised: bool,
        ghost ready: set<Future>)
      requires Valid() && (remote ==> futures != {})
      modifies stepCounter, this`futures, this`futureToEnv, this`booked, this`collected
      ensures Valid() && Distinct(batch) && ready <= old(futures) && |batch| == |ready|
      ensures old(futures) != {} ==> ready != {}
      ensures !remote ==> ready == old(futures)
      ensures futures == old(futures) - ready && Delivered(old(booked), booked, ready, Ids(batch), rets)
      ensures raised <==> inAutoReset && exists e ::
                e in batch && e in envIds && old(stepCounter.idToStep[e]) + 1 > stepCounter.maxSteps[e]
      ensures !raised ==> forall e | e in envIds ::
                stepCounter.idToStep[e] == old(stepCounter.idToStep[e]) + if inAutoReset && e in batch then 1 else 0
      ensures |truncations| == |batch|
      ensures !raised ==> forall i | 0 <= i < |batch| ::
                batch[i] in envIds && (truncations[i] <==> inAutoReset && stepCounter.Reached(batch[i]))
    {
      hide BooksMatch, Accounted, Delivered;
      BookedKnown();
      var pending := futures;
      if remote {
        pending := RayWait(futures);
      }
      ready := pending;
      batch, rets := TakeAll(pending);
      raised := false;
      if inAutoReset {
        raised := CountAll(batch);
      }
      truncations := seq(|batch|, i => false);
      if inAutoReset {
        truncations := Truncations(batch);
      }
      assert forall i | 0 <= i < |batch| :: batch[i] in Ids(batch);
    }

    method Truncations(batch: seq<EnvId>) returns (truncations: seq<bool>)
      requires Valid() && Ids(batch) <= Ids(envIds)
      ensures |truncations| == |batch|
      ensures forall i | 0 <= i < |batch| :: batch[i] in envIds && (truncations[i] <==> stepCounter.Reached(batch[i]))
    {
      truncations := [];
      for i := 0 to |batch|
        invariant |truncations| == i
        invariant forall j | 0 <= j < i :: batch[j] in envIds && (truncations[j] <==> stepCounter.Reached(batch[j]))
      {
        assert batch[i] in Ids(batch);
        truncations := truncations + [stepCounter.Reached(batch[i])];
      }
    }
  }

  /** Two environments, the first allowed 0 steps: stepping only the second raises the counter's error. */
  method SyncRaises() returns (raised: bool)
    ensures raised
  {
    var group := new EnvGroup(["a", "b"], map["a" := 0, "b" := 1]);
    hide EnvGroup.BooksMatch, EnvGroup.Accounted;
    group.EnterAutoReset();
    var _, _, _, _ := group.Reset();
    assert "a" in group.envIds && "a" !in ["b"] && group.stepCounter.Reached("a");
    assert forall e | e in Ids(["b"]) :: e in group.envIds;
    var rets, truncations;
    rets, truncations, raised := group.StepSync(["b"]);
  }

  /** `end` books resets and steps on top of `start`. */
  ghost predicate Submitted(start: map<EnvId, Booking>, end: map<EnvId, Booking>, resets: set<EnvId>, steps: set<EnvId>,
                            calls: map<EnvId, nat>) {
    && end.Keys == start.Keys + resets + steps
    && (forall e | e in start :: end[e] == start[e])
    && (forall e | e in resets :: e in calls && end[e].ret == EnvRet(e, true, calls[e]))
    && (forall e | e in steps :: e in calls && end[e].ret == EnvRet(e, false, calls[e]))
  }

  lemma LaunchedBoth(start: map<EnvId, Booking>, middle: map<EnvId, Booking>, end: map<EnvId, Booking>,
                     resets: set<EnvId>, steps: set<EnvId>, calls: map<EnvId, nat>)
    requires Launched(start, middle, resets, true, calls) && Launched(middle, end, steps, false, Counted(calls, resets))
    requires resets !! steps && resets + steps !! start.Keys
    ensures Submitted(start, end, resets, steps, calls)
    ensures Counted(Counted(calls, resets), steps) == Counted(calls, resets + steps)
  {
  }

  /** One more for each of `ids`. */
  function Counted(counts: map<EnvId, nat>, ids: set<EnvId>): (after: map<EnvId, nat>)
    ensures after.Keys == counts.Keys
  {
    map e | e in counts :: counts[e] + if e in ids then 1 else 0
  }

  /** `after` is `before` without the calls in `ready`, made by `ids` and returning `rets`. */
  ghost predicate Delivered(before: map<EnvId, Booking>, after: map<EnvId, Booking>, ready: set<Future>,
                            ids: set<EnvId>, rets: map<EnvId, EnvRet>) {
    && ids <= before.Keys && after == before - ids && rets.Keys == ids
    && (forall e | e in before :: e in ids <==> before[e].future in ready)
    && (forall e | e in ids :: rets[e] == before[e].ret)
  }

  lemma MoveOne(all: set<Future>, ready: set<Future>, done: set<Future>, rest: set<Future>, future: Future)
    requires done + rest == ready && done !! rest && future in rest
    ensures (done + {future}) + (rest - {future}) == ready && done + {future} !! rest - {future}
    ensures all - done - {future} == all - (done + {future})
  {
  }

  lemma DeliveredOneMore(start: map<EnvId, Booking>, before: map<EnvId, Booking>, after: map<EnvId, Booking>,
                      done: set<Future>, future: Future, ids: set<EnvId>, rets: map<EnvId, EnvRet>, env: EnvId)
    requires Delivered(start, before, done, ids, rets)
    requires env in before && before[env].future == future && after == before - {env}
    requires forall e | e in start && start[e].future == future :: e == env
    ensures Delivered(start, after, done + {future}, ids + {env}, rets[env := before[env].ret])
  {
  }

  lemma Snoc(ids: seq<EnvId>, e: EnvId)
    requires Distinct(ids) && e !in ids
    ensures Distinct(ids + [e]) && Ids(ids + [e]) == Ids(ids) + {e}
  {
  }

  ghost function Ids(batch: seq<EnvId>): set<EnvId> {
    set e | e in batch
  }

  lemma HeadTail(batch: seq<EnvId>)
    requires batch != [] && Distinct(batch)
    ensures Ids(batch) == {batch[0]} + Ids(batch[1..])
    ensures batch[0] !in batch[1..] && Distinct(batch[1..])
    ensures batch[0] in batch && forall e | e in batch[1..] :: e in batch
  {
    assert batch == [batch[0]] + batch[1..];
  }

  /** `after` books a call for each of `ids` on top of `before`. */
  ghost predicate Launched(before: map<EnvId, Booking>, after: map<EnvId, Booking>, ids: set<EnvId>, fromReset: bool,
                           calls: map<EnvId, nat>) {
    && after.Keys == before.Keys + ids
    && (forall e | e in before && e !in ids :: after[e] == before[e])
    && (forall e | e in ids :: e in calls && after[e].ret == EnvRet(e, fromReset, calls[e]))
  }

  lemma LaunchedNone(before: map<EnvId, Booking>, fromReset: bool, calls: map<EnvId, nat>)
    ensures Launched(before, before, {}, fromReset, calls) && Counted(calls, {}) == calls
  {
  }

  lemma LaunchedOneMore(before: map<EnvId, Booking>, after: map<EnvId, Booking>, ids: set<EnvId>, fromReset: bool,
                        calls: map<EnvId, nat>, e: EnvId, future: Future)
    requires Launched(before, after, ids, fromReset, calls) && e in calls && e !in ids
    ensures var ret := EnvRet(e, fromReset, Counted(calls, ids)[e]);
      Launched(before, after[e := Booking(future, ret)], ids + {e}, fromReset, calls)
    ensures Counted(calls, ids + {e}) == Counted(calls, ids)[e := Counted(calls, ids)[e] + 1]
  {
  }
}
