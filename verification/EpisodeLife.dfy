/** What one environment goes through while the asynchronous rollout steps it with automatic
    resets: submitted, in flight, collected, and its entries cut into stored episodes. */
module EpisodeLife {
  import opened Arithmetic

  type EnvId = string

  /** What one call to an environment returns; `serial` numbers the calls since its first reset. */
  datatype EnvRet = EnvRet(env: EnvId, fromReset: bool, serial: nat)

  /** One transition: an environment return and the policy response to it. */
  datatype Entry = Entry(ret: EnvRet, responder: EnvId)

  /** What is kept about one environment: the entries of the current episode, the episodes handed
      to the storage, and (for the specification) every entry ever made. */
  datatype Kept = Kept(open: seq<Entry>, stored: seq<seq<Entry>>, history: seq<Entry>)

  /** One more entry; a truncated episode goes to the storage whole. */
  function Respond(kept: Kept, entry: Entry, truncated: bool): Kept {
    var open := kept.open + [entry];
    if truncated then Kept([], kept.stored + [open], kept.history + [entry])
    else Kept(open, kept.stored, kept.history + [entry])
  }

  datatype Flight = Landed | Flying(ret: EnvRet)

  /** `flying` is what the submitted call will return, if one is in flight. */
  datatype Life = Life(flying: Flight, counter: int, kept: Kept)

  /** The environment after `reset` and the first policy response. */
  function Begun(env: EnvId, maxSteps: nat): Life {
    Life(Landed, 0, Respond(Kept([], [], []), Entry(EnvRet(env, true, 0), env), maxSteps == 0))
  }

  /** Submit the next call: a reset when the episode is full, a step otherwise. */
  function Submit(env: EnvId, life: Life, maxSteps: nat): Life {
    var serial := |life.kept.history|;
    if life.counter == maxSteps then life.(counter := -1, flying := Flying(EnvRet(env, true, serial)))
    else life.(flying := Flying(EnvRet(env, false, serial)))
  }

  /** Collect the result, count it, add the entry, and hand a full episode to the storage. */
  function Land(env: EnvId, life: Life, maxSteps: nat): Life
    requires life.flying.Flying?
  {
    var counter := life.counter + 1;
    Life(Landed, counter, Respond(life.kept, Entry(life.flying.ret, env), counter == maxSteps))
  }

  /** One episode of one environment, begun by a reset. */
  ghost predicate OneEpisode(env: EnvId, entries: seq<Entry>) {
    forall i | 0 <= i < |entries| :: entries[i] == Entry(EnvRet(env, i == 0, entries[i].ret.serial), env)
  }

  /** One entry for each call, in the order of the calls. */
  ghost predicate InOrder(history: seq<Entry>) {
    forall k | 0 <= k < |history| :: history[k].ret.serial == k
  }

  function Join(episodes: seq<seq<Entry>>): seq<Entry> {
    if episodes == [] then [] else Join(episodes[..|episodes| - 1]) + episodes[|episodes| - 1]
  }

  /** The returns of all calls are kept in order: whole episodes first, then the current one. */
  ghost predicate Whole(env: EnvId, kept: Kept, size: nat) {
    && OneEpisode(env, kept.open)
    && (forall k | 0 <= k < |kept.stored| :: |kept.stored[k]| == size && OneEpisode(env, kept.stored[k]))
    && Join(kept.stored) + kept.open == kept.history && InOrder(kept.history)
  }

  /** The entries an environment has made since its last reset match its counter. */
  ghost predicate Alive(env: EnvId, life: Life, maxSteps: nat) {
    && -1 <= life.counter <= maxSteps
    && Whole(env, life.kept, maxSteps + 1)
    && (match life.flying
        case Landed =>
          && 0 <= life.counter
          && |life.kept.open| == if life.counter == maxSteps then 0 else life.counter + 1
        case Flying(ret) =>
          && life.counter < maxSteps && |life.kept.open| == life.counter + 1
          && ret == EnvRet(env, life.counter == -1, |life.kept.history|))
  }

  lemma RespondWhole(env: EnvId, kept: Kept, truncated: bool, size: nat)
    requires Whole(env, kept, size) && (truncated ==> size == |kept.open| + 1)
    ensures Whole(env, Respond(kept, Entry(EnvRet(env, kept.open == [], |kept.history|), env), truncated), size)
  {
    var entry := Entry(EnvRet(env, kept.open == [], |kept.history|), env);
    var open := kept.open + [entry];
    var after := Respond(kept, entry, truncated);
    if truncated {
      assert after.stored[..|after.stored| - 1] == kept.stored;
      assert Join(after.stored) == Join(kept.stored) + open;
    }
    assert Join(kept.stored) + open == kept.history + [entry];
  }

  lemma BegunAlive(env: EnvId, maxSteps: nat)
    ensures Alive(env, Begun(env, maxSteps), maxSteps)
  {
    RespondWhole(env, Kept([], [], []), maxSteps == 0, maxSteps + 1);
  }

  /** The next call is a reset exactly when the last entry ended an episode, and it has the next number. */
  lemma SubmitAlive(env: EnvId, life: Life, maxSteps: nat)
    requires Alive(env, life, maxSteps) && life.flying.Landed?
    ensures Alive(env, Submit(env, life, maxSteps), maxSteps)
    ensures Submit(env, life, maxSteps).kept == life.kept
    ensures Submit(env, life, maxSteps).flying == Flying(EnvRet(env, life.kept.open == [], |life.kept.history|))
    ensures life.kept.open == [] <==> life.counter == maxSteps
  {
  }

  /** Collecting never steps the counter past its maximum, and keeps every episode whole. */
  lemma LandAlive(env: EnvId, life: Life, maxSteps: nat)
    requires Alive(env, life, maxSteps) && life.flying.Flying?
    ensures life.counter + 1 <= maxSteps
    ensures Alive(env, Land(env, life, maxSteps), maxSteps)
  {
    RespondWhole(env, life.kept, life.counter + 1 == maxSteps, maxSteps + 1);
  }

  ghost predicate AllAlive(lives: map<EnvId, Life>, maxSteps: map<EnvId, nat>) {
    lives.Keys <= maxSteps.Keys && forall e | e in lives :: Alive(e, lives[e], maxSteps[e])
  }

  function BeginAll(maxSteps: map<EnvId, nat>): map<EnvId, Life> {
    map e | e in maxSteps :: Begun(e, maxSteps[e])
  }

  function SubmitAll(lives: map<EnvId, Life>, batch: set<EnvId>, maxSteps: map<EnvId, nat>): map<EnvId, Life>
    requires lives.Keys <= maxSteps.Keys
  {
    map e | e in lives :: if e in batch then Submit(e, lives[e], maxSteps[e]) else lives[e]
  }

  function LandAll(lives: map<EnvId, Life>, batch: set<EnvId>, maxSteps: map<EnvId, nat>): map<EnvId, Life>
    requires lives.Keys <= maxSteps.Keys
  {
    map e | e in lives :: if e in batch && lives[e].flying.Flying? then Land(e, lives[e], maxSteps[e]) else lives[e]
  }

  /** What is in flight has room for one more step. */
  lemma FlyingBelow(lives: map<EnvId, Life>, maxSteps: map<EnvId, nat>)
    requires AllAlive(lives, maxSteps)
    ensures forall e | e in lives && lives[e].flying.Flying? :: lives[e].counter < maxSteps[e]
  {
    forall e | e in lives && lives[e].flying.Flying? ensures lives[e].counter < maxSteps[e] {
      assert Alive(e, lives[e], maxSteps[e]);
    }
  }

  lemma BeginAllAlive(maxSteps: map<EnvId, nat>)
    ensures AllAlive(BeginAll(maxSteps), maxSteps)
  {
    forall e | e in maxSteps ensures Alive(e, Begun(e, maxSteps[e]), maxSteps[e]) {
      BegunAlive(e, maxSteps[e]);
    }
  }

  lemma SubmitAllAlive(lives: map<EnvId, Life>, batch: set<EnvId>, maxSteps: map<EnvId, nat>)
    requires AllAlive(lives, maxSteps) && forall e | e in batch && e in lives :: lives[e].flying.Landed?
    ensures AllAlive(SubmitAll(lives, batch, maxSteps), maxSteps)
  {
    forall e | e in lives && e in batch ensures Alive(e, Submit(e, lives[e], maxSteps[e]), maxSteps[e]) {
      SubmitAlive(e, lives[e], maxSteps[e]);
    }
  }

  lemma LandAllAlive(lives: map<EnvId, Life>, batch: set<EnvId>, maxSteps: map<EnvId, nat>)
    requires AllAlive(lives, maxSteps)
    ensures AllAlive(LandAll(lives, batch, maxSteps), maxSteps)
  {
    forall e | e in lives && e in batch && lives[e].flying.Flying?
      ensures Alive(e, Land(e, lives[e], maxSteps[e]), maxSteps[e])
    {
      LandAlive(e, lives[e], maxSteps[e]);
    }
  }

  /** The environments that wait for their next call. */
  function Grounded(lives: map<EnvId, Life>): set<EnvId> {
    set e | e in lives && lives[e].flying.Landed?
  }

  /** One pass of the rollout: every waiting environment is submitted, then some results land. */
  function PassAll(lives: map<EnvId, Life>, landed: set<EnvId>, maxSteps: map<EnvId, nat>): map<EnvId, Life>
    requires lives.Keys <= maxSteps.Keys
  {
    LandAll(SubmitAll(lives, Grounded(lives), maxSteps), landed, maxSteps)
  }

  /** The lives after the passes in which these sets of environments landed. */
  function Played(landings: seq<set<EnvId>>, maxSteps: map<EnvId, nat>): (lives: map<EnvId, Life>)
    ensures lives.Keys == maxSteps.Keys
  {
    if landings == [] then BeginAll(maxSteps)
    else PassAll(Played(landings[..|landings| - 1], maxSteps), landings[|landings| - 1], maxSteps)
  }

  /** Whatever lands when, every environment stays alive: no counter passes its maximum, every stored
      episode is whole, and the returns of all calls are kept in the order of the calls. */
  lemma {:induction false} PlayedAlive(landings: seq<set<EnvId>>, maxSteps: map<EnvId, nat>)
    ensures AllAlive(Played(landings, maxSteps), maxSteps)
  {
    hide AllAlive, SubmitAll, LandAll, BeginAll;
    if landings == [] {
      BeginAllAlive(maxSteps);
    } else {
      var before := Played(landings[..|landings| - 1], maxSteps);
      PlayedAlive(landings[..|landings| - 1], maxSteps);
      SubmitAllAlive(before, Grounded(before), maxSteps);
      LandAllAlive(SubmitAll(before, Grounded(before), maxSteps), landings[|landings| - 1], maxSteps);
    }
  }

  /** How often an environment landed. */
  function Landings(landings: seq<set<EnvId>>, e: EnvId): nat {
    if landings == [] then 0
    else Landings(landings[..|landings| - 1], e) + if e in landings[|landings| - 1] then 1 else 0
  }

  lemma PassHistory(lives: map<EnvId, Life>, landed: set<EnvId>, maxSteps: map<EnvId, nat>, e: EnvId)
    requires lives.Keys <= maxSteps.Keys && e in lives
    ensures |PassAll(lives, landed, maxSteps)[e].kept.history| == |lives[e].kept.history| + if e in landed then 1 else 0
  {
    var submitted := SubmitAll(lives, Grounded(lives), maxSteps)[e];
    assert submitted.flying.Flying? && submitted.kept == lives[e].kept;
  }

  /** One entry for the reset and one for each landing. */
  lemma {:induction false} EntriesCount(landings: seq<set<EnvId>>, maxSteps: map<EnvId, nat>, e: EnvId)
    requires e in maxSteps
    ensures |Played(landings, maxSteps)[e].kept.history| == 1 + Landings(landings, e)
  {
    hide PassAll;
    if landings != [] {
      var init, last := landings[..|landings| - 1], landings[|landings| - 1];
      EntriesCount(init, maxSteps, e);
      PassHistory(Played(init, maxSteps), last, maxSteps, e);
    }
  }

  lemma {:induction false} JoinLength(episodes: seq<seq<Entry>>, size: nat)
    requires forall k | 0 <= k < |episodes| :: |episodes[k]| == size
    ensures |Join(episodes)| == Product(|episodes|, size)
  {
    if episodes != [] {
      JoinLength(episodes[..|episodes| - 1], size);
      OneMore(|episodes| - 1, size);
    } else {
      OneMore(0, size);
    }
  }

  lemma AliveCounts(env: EnvId, life: Life, maxSteps: nat)
    requires Alive(env, life, maxSteps)
    ensures |life.kept.history| == Product(|life.kept.stored|, maxSteps + 1) + |life.kept.open|
    ensures |life.kept.open| < maxSteps + 1
  {
    hide Product;
    JoinLength(life.kept.stored, maxSteps + 1);
    assert |life.kept.history| == |Join(life.kept.stored)| + |life.kept.open|;
  }

  /** An environment that landed `n` times has handed over (n + 1) / (maxSteps + 1) episodes and
      keeps the rest open. */
  lemma EpisodesCount(landings: seq<set<EnvId>>, maxSteps: map<EnvId, nat>, e: EnvId)
    requires e in maxSteps
    ensures var kept, n, size := Played(landings, maxSteps)[e].kept, Landings(landings, e) + 1, maxSteps[e] + 1;
      |kept.stored| == n / size && |kept.open| == n % size
  {
    hide Alive, Played, Landings, Product;
    var life := Played(landings, maxSteps)[e];
    PlayedAlive(landings, maxSteps);
    EntriesCount(landings, maxSteps, e);
    AliveCounts(e, life, maxSteps[e]);
    Quotient(|life.kept.stored|, maxSteps[e] + 1, |life.kept.open|);
  }
}
