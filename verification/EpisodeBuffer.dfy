/** Open episodes per environment, fed alternately with environment returns and policy responses,
    and handed to the storage whole when truncated by hand. */
module EpisodeBuffer {
  import opened EpisodeLife
  import opened EnvGroup
  import opened Sequences

  /** The flags that are set are those of the environments in `full`. */
  ghost predicate Flagged(batch: seq<EnvId>, flags: seq<bool>, full: set<EnvId>) {
    |flags| == |batch| && forall i | 0 <= i < |batch| :: flags[i] <==> batch[i] in full
  }

  lemma FlaggedTail(batch: seq<EnvId>, flags: seq<bool>, full: set<EnvId>)
    requires batch != [] && Flagged(batch, flags, full)
    ensures flags != [] && (flags[0] <==> batch[0] in full) && Flagged(batch[1..], flags[1..], full)
  {
  }

  /** An episode pushed into the storage, and the environment it is from. */
  datatype Handed = Handed(env: EnvId, entries: seq<Entry>)

  /** The episodes of one environment, in the order they were pushed. */
  function Of(handed: seq<Handed>, e: EnvId): seq<seq<Entry>> {
    if handed == [] then []
    else
      var last := handed[|handed| - 1];
      Of(handed[..|handed| - 1], e) + if last.env == e then [last.entries] else []
  }

  lemma OfSnoc(handed: seq<Handed>, h: Handed)
    ensures Of(handed + [h], h.env) == Of(handed, h.env) + [h.entries]
    ensures forall e | e != h.env :: Of(handed + [h], e) == Of(handed, e)
  {
    assert (handed + [h])[..|handed|] == handed;
  }

  lemma {:induction false} OfHas(handed: seq<Handed>, i: nat)
    requires i < |handed|
    ensures handed[i].entries in Of(handed, handed[i].env)
  {
    if i < |handed| - 1 {
      OfHas(handed[..|handed| - 1], i);
    }
  }

  class EpisodeBuffer {
    var pending: map<EnvId, EnvRet>               // the transition waiting for its response
    var open: map<EnvId, seq<Entry>>              // entries of the current episode
    var stored: map<EnvId, seq<seq<Entry>>>       // episodes handed to the storage
    var handed: seq<Handed>                       // the same episodes in the order they were pushed
    var doneFlag: set<EnvId>                      // episodes whose last transition was done
    ghost var history: map<EnvId, seq<Entry>>     // every entry ever added

    constructor ()
      ensures pending == map[] && doneFlag == {} && forall e :: KeptOf(e) == Kept([], [], [])
      ensures handed == [] && Agree()
    {
      pending, open, stored, history, handed, doneFlag := map[], map[], map[], map[], [], {};
    }

    /** What was pushed is, environment by environment, what is stored. */
    ghost predicate Agree()
      reads this`stored, this`handed
    {
      forall e :: Of(handed, e) == if e in stored then stored[e] else []
    }

    lemma AgreeKept()
      requires Agree()
      ensures forall e :: Of(handed, e) == KeptOf(e).stored
    {
    }

    ghost function KeptOf(e: EnvId): Kept
      reads this`open, this`stored, this`history
    {
      Kept(if e in open then open[e] else [],
           if e in stored then stored[e] else [],
           if e in history then history[e] else [])
    }

    /** Begin a transition for each environment with a return. */
    method AddEnvRets(rets: map<EnvId, EnvRet>)
      modifies this`pending
      ensures pending == old(pending) + rets
    {
      pending := pending + rets;
    }

    /** Finish the pending transition of an environment with its policy response. */
    method AddResponse(e: EnvId)
      requires e in pending
      modifies this`open, this`history
      ensures KeptOf(e) == Respond(old(KeptOf(e)), Entry(pending[e], e), false)
      ensures forall x | x != e :: KeptOf(x) == old(KeptOf(x))
    {
      var entry := Entry(pending[e], e);
      open := open[e := (if e in open then open[e] else []) + [entry]];
      history := history[e := (if e in history then history[e] else []) + [entry]];
    }

    /** Push an episode into the storage. */
    method Push(e: EnvId, entries: seq<Entry>)
      modifies this`stored, this`handed
      ensures KeptOf(e) == old(KeptOf(e)).(stored := old(KeptOf(e)).stored + [entries])
      ensures forall x | x != e :: KeptOf(x) == old(KeptOf(x))
      ensures handed == old(handed) + [Handed(e, entries)]
      ensures old(Agree()) ==> Agree()
    {
      hide Of;
      OfSnoc(handed, Handed(e, entries));
      handed := handed + [Handed(e, entries)];
      stored := stored[e := (if e in stored then stored[e] else []) + [entries]];
    }

    /** Pop the open episode of an environment and hand it to the storage. */
    method TruncateOneEpisode(e: EnvId)
      requires KeptOf(e).open != []
      modifies this`open, this`stored, this`handed
      ensures KeptOf(e) == Kept([], old(KeptOf(e)).stored + [old(KeptOf(e)).open], old(KeptOf(e)).history)
      ensures forall x | x != e :: KeptOf(x) == old(KeptOf(x))
      ensures old(Agree()) ==> Agree()
    {
      hide Agree;
      Push(e, open[e]);
      open := open - {e};
    }

    /** Finish one transition; hand the episode over when it is truncated. */
    method AddOne(e: EnvId, truncated: bool)
      requires e in pending
      modifies this`open, this`stored, this`handed, this`history
      ensures KeptOf(e) == Respond(old(KeptOf(e)), Entry(pending[e], e), truncated)
      ensures forall x | x != e :: KeptOf(x) == old(KeptOf(x))
      ensures old(Agree()) ==> Agree()
    {
      hide Agree;
      AddResponse(e);
      if truncated {
        TruncateOneEpisode(e);
      }
    }

    /** With automatic truncation: add the transition and remember whether it was done. */
    method AddTransition(e: EnvId, done: bool)
      requires e in pending
      modifies this`open, this`history, this`doneFlag
      ensures KeptOf(e) == Respond(old(KeptOf(e)), Entry(pending[e], e), false)
      ensures forall x | x != e :: KeptOf(x) == old(KeptOf(x))
      ensures doneFlag == old(doneFlag) + if done then {e} else {}
    {
      if done {
        doneFlag := doneFlag + {e};
      }
      AddResponse(e);
    }

    /** Pop the episode of an environment if it is done. */
    method PopDoneEpisode(e: EnvId) returns (episodes: seq<seq<Entry>>)
      requires e in doneFlag ==> KeptOf(e).open != []
      modifies this`open, this`doneFlag
      ensures doneFlag == old(doneFlag) - {e}
      ensures episodes == if e in old(doneFlag) then [old(KeptOf(e)).open] else []
      ensures KeptOf(e) == if e in old(doneFlag) then old(KeptOf(e)).(open := []) else old(KeptOf(e))
      ensures forall x | x != e :: KeptOf(x) == old(KeptOf(x))
    {
      episodes := [];
      if e in doneFlag {
        doneFlag := doneFlag - {e};
        episodes := [open[e]];
        open := open - {e};
      }
    }

    /** Finish one transition with automatic truncation: the episode is handed over exactly when
        the transition was done, as if it had been truncated by hand. */
    method AddOneAuto(e: EnvId, done: bool)
      requires e in pending && e !in doneFlag
      modifies this`open, this`stored, this`handed, this`history, this`doneFlag
      ensures old(Agree()) ==> Agree()
      ensures KeptOf(e) == Respond(old(KeptOf(e)), Entry(pending[e], e), done) && doneFlag == old(doneFlag)
      ensures forall x | x != e :: KeptOf(x) == old(KeptOf(x))
    {
      hide Agree;
      AddTransition(e, done);
      var episodes := PopDoneEpisode(e);
      if episodes != [] {
        Push(e, episodes[0]);
      }
    }

    /** Finish the pending transitions of a batch of different environments; `full` names those
        whose flag is set. */
    method AddResponses(batch: seq<EnvId>, truncations: seq<bool>, ghost full: set<EnvId>)
      requires Distinct(batch) && Ids(batch) <= pending.Keys && Flagged(batch, truncations, full)
      modifies this`open, this`stored, this`handed, this`history
      ensures old(Agree()) ==> Agree()
      ensures forall e | e in pending && e in batch ::
                KeptOf(e) == Respond(old(KeptOf(e)), Entry(pending[e], e), e in full)
      ensures forall e | e !in batch :: KeptOf(e) == old(KeptOf(e))
    {
      hide Agree, KeptOf, Respond, Distinct;
      var rest, flags := batch, truncations;
      ghost var done: set<EnvId> := {};
      while rest != []
        invariant Distinct(rest) && Ids(batch) == done + Ids(rest) && done !! Ids(rest) && Flagged(rest, flags, full)
        invariant old(Agree()) ==> Agree()
        invariant forall e | e in pending && e in done ::
                    KeptOf(e) == Respond(old(KeptOf(e)), Entry(pending[e], e), e in full)
        invariant forall e | e !in done :: KeptOf(e) == old(KeptOf(e))
        decreases |rest|
      {
        HeadTail(rest);
        FlaggedTail(rest, flags, full);
        assert rest[0] in Ids(batch);
        AddOne(rest[0], flags[0]);
        done, rest, flags := done + {rest[0]}, rest[1..], flags[1..];
      }
      assert forall e | e in batch :: e in Ids(batch);
    }

    /** Hand over the open episodes of some environments. */
    method TruncateEpisodes(batch: seq<EnvId>)
      requires Distinct(batch) && forall e | e in batch :: KeptOf(e).open != []
      modifies this`open, this`stored, this`handed
      ensures old(Agree()) ==> Agree()
      ensures forall e | e in batch ::
                KeptOf(e) == Kept([], old(KeptOf(e)).stored + [old(KeptOf(e)).open], old(KeptOf(e)).history)
      ensures forall e | e !in batch :: KeptOf(e) == old(KeptOf(e))
    {
      hide Agree;
      var rest := batch;
      ghost var done: set<EnvId> := {};
      while rest != []
        invariant Distinct(rest) && Ids(batch) == done + Ids(rest) && done !! Ids(rest)
        invariant old(Agree()) ==> Agree()
        invariant forall e | e in rest :: e in batch
        invariant forall e | e in done ::
                    KeptOf(e) == Kept([], old(KeptOf(e)).stored + [old(KeptOf(e)).open], old(KeptOf(e)).history)
        invariant forall e | e !in done :: KeptOf(e) == old(KeptOf(e))
        decreases |rest|
      {
        HeadTail(rest);
        assert rest[0] in Ids(batch);
        TruncateOneEpisode(rest[0]);
        done, rest := done + {rest[0]}, rest[1..];
      }
      assert forall e | e in batch :: e in Ids(batch);
    }
  }
}
