/** Which storage shard an environment writes to, and which training workers read a shard. */
module EpisodeTable {
  import opened Arithmetic
  import opened Sequences

  /** The slot `d` places after `c`, going around. */
  function Around(c: nat, d: nat, n: nat): nat
    requires c < n && d <= n
  {
    if c + d < n then c + d else c + d - n
  }

  /** Going around is counting on modulo the number of slots. */
  lemma AroundIs(c: nat, d: nat, n: nat)
    requires c < n && d <= n
    ensures Around(c, d, n) == (c + d) % n
  {
    hide Product;
    OneMore(0, n);
    if c + d < n {
      Quotient(0, n, c + d);
    } else {
      Quotient(1, n, c + d - n);
    }
  }

  /** Counting one on. */
  lemma NextTurn(l: nat, n: nat)
    requires n >= 1
    ensures (l + 1) % n == (if l % n + 1 == n then 0 else l % n + 1)
    ensures (l + 1) / n == l / n + if l % n + 1 == n then 1 else 0
  {
    hide Product;
    Division(l, n);
    if l % n + 1 == n {
      OneMore(l / n, n);
      Quotient(l / n + 1, n, 0);
    } else {
      Quotient(l / n, n, l % n + 1);
    }
  }

  /** How far `m` is from `c` going around. */
  ghost function Distance(c: nat, m: nat, n: nat): (d: nat)
    requires c < n && m < n
    ensures d < n && Around(c, d, n) == m
  {
    if m >= c then m - c else m + n - c
  }

  ghost predicate IsMin(counts: seq<nat>, x: nat) {
    x in counts && forall i | 0 <= i < |counts| :: x <= counts[i]
  }

  /** The first of the least loaded shards from the cursor on, met after skipping some. */
  ghost predicate FirstLeast(counts: seq<nat>, cursor: nat, shard: nat, skipped: nat)
    requires cursor < |counts| && skipped < |counts|
  {
    && shard == Around(cursor, skipped, |counts|) && IsMin(counts, counts[shard])
    && forall c | 0 <= c < skipped :: counts[Around(cursor, c, |counts|)] > counts[shard]
  }

  /** Where a table stands after registering some environments one after the other. */
  ghost predicate RoundRobin(envs: seq<string>, table: map<string, nat>, counts: seq<nat>, cursor: nat) {
    && |counts| >= 1 && cursor == |envs| % |counts|
    && (forall e :: e in table <==> e in envs)
    && (forall i | 0 <= i < |counts| :: counts[i] == Div(|envs|, |counts|) + if i < cursor then 1 else 0)
    && forall i | 0 <= i < |envs| :: table[envs[i]] == i % |counts|
  }

  lemma RoundRobinNone(n: nat)
    requires n >= 1
    ensures RoundRobin([], map[], seq(n, i => 0), 0)
  {
    OneMore(0, n);
    Quotient(0, n, 0);
  }

  /** The next environment goes to the shard at the cursor. */
  lemma RoundRobinMore(envs: seq<string>, table: map<string, nat>, counts: seq<nat>, cursor: nat, e: string,
                       shard: nat, skipped: nat)
    requires RoundRobin(envs, table, counts, cursor) && e !in envs
    requires cursor < |counts| && skipped < |counts| && FirstLeast(counts, cursor, shard, skipped)
    ensures RoundRobin(envs + [e], table[e := shard], counts[shard := counts[shard] + 1],
                       Around(cursor, skipped + 1, |counts|))
  {
    NextTurn(|envs|, |counts|);
    assert skipped == 0 by {
      assert counts[shard] <= counts[cursor] && counts[cursor] <= counts[shard];
      assert Around(cursor, 0, |counts|) == cursor;
    }
  }

  lemma RoundRobinKnows(envs: seq<string>, table: map<string, nat>, counts: seq<nat>, cursor: nat)
    requires RoundRobin(envs, table, counts, cursor)
    ensures forall e :: e in table <==> e in envs
  {
  }

  method Min(counts: seq<nat>) returns (x: nat)
    requires counts != []
    ensures IsMin(counts, x)
  {
    x := counts[0];
    for i := 1 to |counts|
      invariant x in counts && forall j | 0 <= j < i :: x <= counts[j]
    {
      if counts[i] < x {
        x := counts[i];
      }
    }
  }

  /** Shard loads differ by at most one. */
  ghost predicate Even(counts: seq<nat>) {
    forall i, j | 0 <= i < |counts| && 0 <= j < |counts| :: counts[i] <= counts[j] + 1
  }

  lemma MinKeepsEven(counts: seq<nat>, i: nat)
    requires Even(counts) && i < |counts| && IsMin(counts, counts[i])
    ensures Even(counts[i := counts[i] + 1])
  {
  }

  ghost function MembersOf(table: map<string, nat>, shard: nat): set<string> {
    set e | e in table && table[e] == shard
  }

  class EpisodeTable {
    const numStorages: nat
    var envToStorage: map<string, nat>
    var storageEnvCount: seq<nat>
    var rrCursor: nat

    /** The counts are the sizes of the shards, and they are even. */
    ghost predicate Valid()
      reads this
    {
      && numStorages >= 1 && |storageEnvCount| == numStorages && rrCursor < numStorages
      && (forall e | e in envToStorage :: envToStorage[e] < numStorages)
      && (forall i | 0 <= i < numStorages :: storageEnvCount[i] == |MembersOf(envToStorage, i)|)
      && Even(storageEnvCount)
    }

    /** Refused unless there is a shard; otherwise a table that knows exactly the given environments. */
    static method Create(numStorages: int, envs: seq<string>) returns (table: EpisodeTable?)
      ensures table == null <==> numStorages < 1
      ensures table != null ==> fresh(table) && table.Valid() && table.numStorages == numStorages
      ensures table != null ==> forall e :: e in table.envToStorage <==> e in envs
      ensures table != null && Distinct(envs) ==>
                forall i | 0 <= i < |envs| :: table.envToStorage[envs[i]] == i % numStorages
    {
      if numStorages < 1 {
        return null;
      }
      table := new EpisodeTable(numStorages, envs);
    }

    constructor (numStorages: nat, envs: seq<string>)
      requires numStorages >= 1
      ensures Valid() && this.numStorages == numStorages
      ensures forall e :: e in envToStorage <==> e in envs
      ensures Distinct(envs) ==> RoundRobin(envs, envToStorage, storageEnvCount, rrCursor)
    {
      this.numStorages := numStorages;
      envToStorage, storageEnvCount, rrCursor := map[], seq(numStorages, i => 0), 0;
      new;
      forall i | 0 <= i < numStorages ensures MembersOf(envToStorage, i) == {} {
      }
      RoundRobinNone(numStorages);
      RegisterEnvs(envs);
    }

    /** The first least loaded shard from the cursor on; the fallback after the loop is dead. */
    method SelectStorage() returns (shard: nat, ghost skipped: nat)
      requires numStorages >= 1 && |storageEnvCount| == numStorages && rrCursor < numStorages
      modifies this`rrCursor
      ensures skipped < numStorages && FirstLeast(storageEnvCount, old(rrCursor), shard, skipped)
      ensures rrCursor == Around(old(rrCursor), skipped + 1, numStorages)
    {
      var minLoad := Min(storageEnvCount);
      ghost var least: nat :| least < |storageEnvCount| && storageEnvCount[least] == minLoad;
      ghost var distance := Distance(rrCursor, least, numStorages);
      for step := 0 to numStorages
        invariant step <= distance && rrCursor == Around(old(rrCursor), step, numStorages)
        invariant forall c | 0 <= c < step :: storageEnvCount[Around(old(rrCursor), c, numStorages)] != minLoad
      {
        shard, skipped := rrCursor, step;
        rrCursor := if rrCursor + 1 == numStorages then 0 else rrCursor + 1;
        if storageEnvCount[shard] == minLoad {
          return;
        }
      }
      assert false;
    }

    /** Register an environment once; a new one goes to a least loaded shard. */
    method RegisterEnv(env: string) returns (shard: nat, ghost skipped: nat)
      requires Valid()
      modifies this
      ensures Valid() && env in envToStorage && shard == envToStorage[env]
      ensures env in old(envToStorage) ==>
                && envToStorage == old(envToStorage)
                && storageEnvCount == old(storageEnvCount) && rrCursor == old(rrCursor)
      ensures env !in old(envToStorage) ==>
                && envToStorage == old(envToStorage)[env := shard]
                && |old(storageEnvCount)| == numStorages && old(rrCursor) < numStorages && skipped < numStorages
                && FirstLeast(old(storageEnvCount), old(rrCursor), shard, skipped)
                && storageEnvCount == old(storageEnvCount)[shard := old(storageEnvCount)[shard] + 1]
                && rrCursor == Around(old(rrCursor), skipped + 1, numStorages)
    {
      if env in envToStorage {
        return envToStorage[env], 0;
      }
      shard, skipped := SelectStorage();
      MinKeepsEven(storageEnvCount, shard);
      MembersMore(envToStorage, env, shard);
      envToStorage := envToStorage[env := shard];
      storageEnvCount := storageEnvCount[shard := storageEnvCount[shard] + 1];
    }

    /** Register a batch of environments. */
    method RegisterEnvs(envs: seq<string>)
      requires Valid()
      modifies this
      ensures Valid() && forall e :: e in envToStorage <==> e in old(envToStorage) || e in envs
      ensures forall e | e in old(envToStorage) :: e in envToStorage && envToStorage[e] == old(envToStorage)[e]
      ensures old(RoundRobin([], envToStorage, storageEnvCount, rrCursor)) && Distinct(envs) ==>
                RoundRobin(envs, envToStorage, storageEnvCount, rrCursor)
    {
      hide Valid, RoundRobin, FirstLeast, Around;
      ghost var turns := RoundRobin([], envToStorage, storageEnvCount, rrCursor) && Distinct(envs);
      assert envs[..0] == [];
      for i := 0 to |envs|
        invariant Valid() && forall e :: e in envToStorage <==> e in old(envToStorage) || e in envs[..i]
        invariant forall e | e in old(envToStorage) :: e in envToStorage && envToStorage[e] == old(envToStorage)[e]
        invariant turns ==> RoundRobin(envs[..i], envToStorage, storageEnvCount, rrCursor)
      {
        ghost var table, counts, cursor := envToStorage, storageEnvCount, rrCursor;
        var shard, skipped := RegisterEnv(envs[i]);
        assert envs[..i + 1] == envs[..i] + [envs[i]];
        if turns {
          RoundRobinKnows(envs[..i], table, counts, cursor);
          RoundRobinMore(envs[..i], table, counts, cursor, envs[i], shard, skipped);
        }
      }
      assert envs[..|envs|] == envs;
    }

    /** Group environments by shard for truncation, registering those not seen before. */
    method BucketByStorage(envs: seq<string>) returns (buckets: map<nat, seq<string>>)
      requires Valid()
      modifies this
      ensures Valid() && forall e | e in envs :: e in envToStorage
      ensures forall e | e in old(envToStorage) :: e in envToStorage && envToStorage[e] == old(envToStorage)[e]
      ensures forall shard :: Bucket(buckets, shard) == OfShard(envs, envToStorage, shard)
    {
      hide Valid, OfShard;
      buckets := map[];
      OfShardNone(envToStorage);
      assert envs[..0] == [];
      for i := 0 to |envs|
        invariant Valid() && forall e | e in envs[..i] :: e in envToStorage
        invariant forall e | e in old(envToStorage) :: e in envToStorage && envToStorage[e] == old(envToStorage)[e]
        invariant forall shard :: Bucket(buckets, shard) == OfShard(envs[..i], envToStorage, shard)
      {
        ghost var before := envToStorage;
        var shard, skipped := RegisterEnv(envs[i]);
        OfShardKept(envs[..i], before, envToStorage);
        OfShardSnoc(envs[..i], envs[i], envToStorage);
        assert envs[..i + 1] == envs[..i] + [envs[i]];
        buckets := buckets[shard := Bucket(buckets, shard) + [envs[i]]];
      }
      assert envs[..|envs|] == envs;
    }
  }

  function Bucket(buckets: map<nat, seq<string>>, shard: nat): seq<string> {
    if shard in buckets then buckets[shard] else []
  }

  /** The environments of one shard, in order. */
  ghost function OfShard(envs: seq<string>, table: map<string, nat>, shard: nat): seq<string>
    requires forall e | e in envs :: e in table
  {
    if envs == [] then []
    else
      var last := envs[|envs| - 1];
      OfShard(envs[..|envs| - 1], table, shard) + if table[last] == shard then [last] else []
  }

  lemma OfShardNone(table: map<string, nat>)
    ensures forall shard: nat :: OfShard([], table, shard) == []
  {
  }

  lemma OfShardSnoc(envs: seq<string>, e: string, table: map<string, nat>)
    requires e in table && forall x | x in envs :: x in table
    ensures forall shard: nat ::
              OfShard(envs + [e], table, shard) == OfShard(envs, table, shard) + if table[e] == shard then [e] else []
  {
    assert (envs + [e])[..|envs|] == envs;
  }

  lemma {:induction false} OfShardKept(envs: seq<string>, before: map<string, nat>, after: map<string, nat>)
    requires forall e | e in envs :: e in before
    requires forall e | e in before :: e in after && after[e] == before[e]
    ensures forall shard: nat :: OfShard(envs, after, shard) == OfShard(envs, before, shard)
  {
    if envs != [] {
      OfShardKept(envs[..|envs| - 1], before, after);
    }
  }

  /** Every environment is in the bucket of its own shard and in no other. */
  lemma {:induction false} OfShardHas(envs: seq<string>, table: map<string, nat>, shard: nat)
    requires forall e | e in envs :: e in table
    ensures forall e :: e in OfShard(envs, table, shard) <==> e in envs && table[e] == shard
  {
    if envs != [] {
      OfShardHas(envs[..|envs| - 1], table, shard);
      assert envs == envs[..|envs| - 1] + [envs[|envs| - 1]];
    }
  }

  /** A bucket lists its environments as they were given. */
  lemma {:induction false} OfShardPicks(envs: seq<string>, table: map<string, nat>, shard: nat, there: string -> bool)
    requires forall e | e in envs :: e in table && (there(e) <==> table[e] == shard)
    ensures Picks(OfShard(envs, table, shard), envs, there)
  {
    hide Picks;
    if envs == [] {
      PicksNone(there);
    } else {
      var init, last := envs[..|envs| - 1], envs[|envs| - 1];
      assert envs == init + [last];
      OfShardPicks(init, table, shard, there);
      PicksSnoc(OfShard(init, table, shard), init, there, last);
    }
  }

  lemma MembersMore(table: map<string, nat>, env: string, shard: nat)
    requires env !in table
    ensures forall i: nat :: |MembersOf(table[env := shard], i)| == |MembersOf(table, i)| + if i == shard then 1 else 0
  {
    hide MembersOf;
    forall i: nat
      ensures |MembersOf(table[env := shard], i)| == |MembersOf(table, i)| + if i == shard then 1 else 0
    {
      MembersMoreOf(table, env, shard, i);
    }
  }

  lemma MembersMoreOf(table: map<string, nat>, env: string, shard: nat, i: nat)
    requires env !in table
    ensures |MembersOf(table[env := shard], i)| == |MembersOf(table, i)| + if i == shard then 1 else 0
  {
    assert MembersOf(table[env := shard], i) == MembersOf(table, i) + if i == shard then {env} else {};
  }
}
