/** One environment during a fixed-length rollout: waiting to be stepped, in flight, or finished. */
module RolloutTurns {
  import opened EpisodeLife

  /** The return at hand in each phase; in flight it is the one to come. */
  datatype Turn = Waiting(ret: EnvRet) | Airborne(ret: EnvRet) | Finished(ret: EnvRet)

  datatype Env = Env(turn: Turn, count: nat, kept: Kept)

  /** Pair the waiting return with a response and submit the next step. */
  function Sent(env: EnvId, s: Env): Env {
    Env(Airborne(EnvRet(env, false, s.turn.ret.serial + 1)), s.count, Respond(s.kept, Entry(s.turn.ret, env), false))
  }

  /** Collect a result and count it. */
  function Back(s: Env, steps: nat): Env {
    Env(if s.count + 1 == steps then Finished(s.turn.ret) else Waiting(s.turn.ret), s.count + 1, s.kept)
  }

  /** Pair the last return with a response and hand the episode over. */
  function Closed(env: EnvId, s: Env): Kept {
    Respond(s.kept, Entry(s.turn.ret, env), true)
  }

  /** The `i`-th return of a rollout that starts from `first`. */
  function Nth(env: EnvId, first: EnvRet, i: nat): EnvRet {
    if i == 0 then first else EnvRet(env, false, first.serial + i)
  }

  lemma NthStep(env: EnvId, first: EnvRet, i: nat)
    requires i > 0
    ensures Nth(env, first, i) == EnvRet(env, false, first.serial + i)
  {
  }

  /** The first `n` entries of a rollout. */
  function Script(env: EnvId, first: EnvRet, n: nat): (entries: seq<Entry>)
    ensures |entries| == n
    ensures forall i | 0 <= i < n :: entries[i] == Entry(Nth(env, first, i), env)
  {
    if n == 0 then [] else Script(env, first, n - 1) + [Entry(Nth(env, first, n - 1), env)]
  }

  /** What is kept after `n` entries of a rollout. */
  function Grown(before: Kept, env: EnvId, first: EnvRet, n: nat): Kept {
    Kept(before.open + Script(env, first, n), before.stored, before.history + Script(env, first, n))
  }

  /** What is kept after a whole rollout of `n` entries. */
  function Finale(before: Kept, env: EnvId, first: EnvRet, n: nat): Kept {
    Kept([], before.stored + [before.open + Script(env, first, n)], before.history + Script(env, first, n))
  }

  /** When nothing was open, the episode handed over is the rollout alone. */
  lemma FinaleAlone(before: Kept, env: EnvId, first: EnvRet, n: nat)
    requires before.open == []
    ensures Finale(before, env, first, n).open == []
    ensures Finale(before, env, first, n).stored == before.stored + [Script(env, first, n)]
  {
    hide Script;
    assert before.open + Script(env, first, n) == Script(env, first, n);
  }

  /** The entries made so far match the step count and the phase, and the latest return is that of
      the latest of `calls` calls. */
  ghost predicate OnTurn(env: EnvId, s: Env, first: EnvRet, before: Kept, steps: nat, calls: nat) {
    && calls == s.turn.ret.serial + 1
    && s.turn.ret == Nth(env, first, if s.turn.Airborne? then s.count + 1 else s.count)
    && s.kept == Grown(before, env, first, if s.turn.Airborne? then s.count + 1 else s.count)
    && if s.turn.Finished? then s.count == steps else s.count < steps
  }

  lemma GrownMore(before: Kept, env: EnvId, first: EnvRet, n: nat)
    ensures Respond(Grown(before, env, first, n), Entry(Nth(env, first, n), env), false)
         == Grown(before, env, first, n + 1)
    ensures Respond(Grown(before, env, first, n), Entry(Nth(env, first, n), env), true)
         == Finale(before, env, first, n + 1)
  {
  }

  lemma StartOn(env: EnvId, first: EnvRet, before: Kept, steps: nat, calls: nat)
    requires steps >= 1 && calls == first.serial + 1
    ensures OnTurn(env, Env(Waiting(first), 0, before), first, before, steps, calls)
  {
  }

  lemma SentOn(env: EnvId, s: Env, first: EnvRet, before: Kept, steps: nat, calls: nat)
    requires OnTurn(env, s, first, before, steps, calls) && s.turn.Waiting?
    ensures Sent(env, s).turn == Airborne(EnvRet(env, false, calls))
    ensures OnTurn(env, Sent(env, s), first, before, steps, calls + 1)
  {
    GrownMore(before, env, first, s.count);
  }

  lemma BackOn(env: EnvId, s: Env, first: EnvRet, before: Kept, steps: nat, calls: nat)
    requires OnTurn(env, s, first, before, steps, calls) && s.turn.Airborne?
    ensures OnTurn(env, Back(s, steps), first, before, steps, calls)
  {
  }

  lemma ClosedOn(env: EnvId, s: Env, first: EnvRet, before: Kept, steps: nat, calls: nat)
    requires OnTurn(env, s, first, before, steps, calls) && s.turn.Finished?
    ensures Closed(env, s) == Finale(before, env, first, steps + 1)
    ensures s.turn.ret == Nth(env, first, steps) && calls == s.turn.ret.serial + 1
  {
    GrownMore(before, env, first, steps);
  }

  /** Steps still to be collected. */
  ghost function Remaining(ids: seq<EnvId>, counts: map<EnvId, nat>, steps: nat): int {
    if ids == [] then 0
    else steps - (if ids[0] in counts then counts[ids[0]] else 0) + Remaining(ids[1..], counts, steps)
  }

  lemma {:induction false} RemainingDrops(ids: seq<EnvId>, counts: map<EnvId, nat>, after: map<EnvId, nat>,
                                          landed: set<EnvId>, steps: nat)
    requires forall e | e in ids :: e in counts && e in after && after[e] == counts[e] + if e in landed then 1 else 0
    requires forall e | e in ids :: after[e] <= steps
    ensures 0 <= Remaining(ids, after, steps) <= Remaining(ids, counts, steps)
    ensures (exists e :: e in ids && e in landed) ==> Remaining(ids, after, steps) < Remaining(ids, counts, steps)
  {
    if ids != [] {
      assert forall e | e in ids :: e == ids[0] || e in ids[1..];
      RemainingDrops(ids[1..], counts, after, landed, steps);
    }
  }
}
