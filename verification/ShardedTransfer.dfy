/** Sharded weight transfer: pad, cut into one shard per evaluation rank, scatter, gather in rank
    order, and narrow back. */
module ShardedTransfer {
  import opened Arithmetic
  import opened StateDicts
  import opened FlatTransfer
  import opened Sequences
  import opened DtypeOrder
  import opened NumpyDicts
  import opened WeightTransfer

  /** What must be added to make `n` elements divisible by `ranks`. */
  function Padding(n: nat, ranks: nat): nat
    requires ranks >= 1
  {
    if n % ranks != 0 then ranks - n % ranks else 0
  }

  /** It is the least that does. */
  lemma PaddingIs(n: nat, ranks: nat)
    requires ranks >= 1
    ensures Padding(n, ranks) < ranks && (n + Padding(n, ranks)) % ranks == 0
  {
    hide Product;
    var q := PaddedMultiple(n, ranks);
    Quotient(q, ranks, 0);
  }

  /** The sender's padded vector. */
  function Pad(flat: seq<Bits>, ranks: nat): seq<Bits>
    requires ranks >= 1
  {
    flat + seq(Padding(|flat|, ranks), i => 0)
  }

  /** The receiver's shard length, computed from the described number of elements. */
  function ShardLength(n: nat, ranks: nat): nat
    requires ranks >= 1
  {
    (n + Padding(n, ranks)) / ranks
  }

  /** Pieces of `size` elements, the last one shorter when they do not come out even. */
  function SplitBy(s: seq<Bits>, size: nat): seq<seq<Bits>>
    requires size >= 1
  {
    if |s| <= size then [s] else [s[..size]] + SplitBy(s[size..], size)
  }

  /** `torch.Tensor.chunk`: pieces of the rounded-up length, so possibly fewer than asked for; a
      vector without elements gives as many empty pieces as asked for. */
  function Chunk(s: seq<Bits>, chunks: nat): seq<seq<Bits>>
    requires chunks >= 1
  {
    if s == [] then seq(chunks, i => [])
    else
      assert CeilDiv(|s|, chunks) >= 1 by { CeilPositive(|s|, chunks); }
      SplitBy(s, CeilDiv(|s|, chunks))
  }

  lemma {:induction false} JoinNone(pieces: seq<seq<Bits>>)
    requires forall i | 0 <= i < |pieces| :: pieces[i] == []
    ensures Join(pieces) == []
  {
    if pieces != [] {
      JoinNone(pieces[1..]);
    }
  }

  lemma CeilPositive(n: nat, k: nat)
    requires n >= 1 && k >= 1
    ensures CeilDiv(n, k) >= 1
  {
  }

  function Join(pieces: seq<seq<Bits>>): seq<Bits> {
    if pieces == [] then [] else pieces[0] + Join(pieces[1..])
  }

  lemma PaddedMultiple(n: nat, ranks: nat) returns (q: nat)
    requires ranks >= 1
    ensures n + Padding(n, ranks) == Product(q, ranks) && (q >= 1 <==> n >= 1)
  {
    q := if n % ranks == 0 then n / ranks else n / ranks + 1;
    Division(n, ranks);
    OneMore(n / ranks, ranks);
  }

  /** The padded length is the shard length times the number of ranks, and the sender's pieces
      have the length the receiver computes. */
  lemma PaddedLength(n: nat, ranks: nat)
    requires ranks >= 1
    ensures n + Padding(n, ranks) == Product(ranks, ShardLength(n, ranks))
    ensures CeilDiv(n + Padding(n, ranks), ranks) == ShardLength(n, ranks)
    ensures ShardLength(n, ranks) >= 1 <==> n >= 1
  {
    hide Product;
    var q := PaddedMultiple(n, ranks);
    Exact(q, ranks);
  }

  lemma Exact(q: nat, k: nat)
    requires k >= 1
    ensures Product(q, k) == Product(k, q) && Product(q, k) / k == q && CeilDiv(Product(q, k), k) == q
  {
    hide Product;
    Commutes(q, k);
    Quotient(q, k, 0);
    Quotient(q, k, k - 1);
  }

  /** A vector of `k` full pieces splits into exactly these. */
  lemma {:induction false} SplitEven(s: seq<Bits>, size: nat, k: nat)
    requires size >= 1 && k >= 1 && |s| == Product(k, size)
    ensures |SplitBy(s, size)| == k
    ensures forall piece | piece in SplitBy(s, size) :: |piece| == size
    ensures Join(SplitBy(s, size)) == s
    decreases k
  {
    if k == 1 {
      assert Join([s]) == s + [];
    } else {
      assert Product(k, size) == size + Product(k - 1, size);
      assert Product(k - 1, size) >= size;
      SplitEven(s[size..], size, k - 1);
      assert s == s[..size] + s[size..];
      assert SplitBy(s, size)[1..] == SplitBy(s[size..], size);
    }
  }

  /** The shards of a vector: one per rank, all of the length the receivers expect, and their
      concatenation in rank order narrowed to the original length is the vector. */
  lemma ShardRoundTrip(flat: seq<Bits>, ranks: nat)
    requires ranks >= 1
    ensures var shards := Chunk(Pad(flat, ranks), ranks);
      && |shards| == ranks
      && (forall s | s in shards :: |s| == ShardLength(|flat|, ranks))
      && |Join(shards)| >= |flat| && Join(shards)[..|flat|] == flat
  {
    PaddedLength(|flat|, ranks);
    if flat == [] {
      assert Pad(flat, ranks) == [];
      JoinNone(Chunk(Pad(flat, ranks), ranks));
    } else {
      SplitEven(Pad(flat, ranks), ShardLength(|flat|, ranks), ranks);
    }
  }

  /** The pieces of a padded vector. */
  function Shards(flat: seq<Bits>, ranks: nat): (pieces: seq<seq<Bits>>)
    requires ranks >= 1
    ensures |pieces| == ranks && forall s | s in pieces :: |s| == ShardLength(|flat|, ranks)
  {
    ShardRoundTrip(flat, ranks);
    Chunk(Pad(flat, ranks), ranks)
  }

  /** Element `j` of piece `r` of an evenly split vector. */
  lemma {:induction false} SplitAt(s: seq<Bits>, size: nat, k: nat, r: nat, j: nat)
    requires size >= 1 && |s| == Product(k, size) && r < k && j < size
    ensures |SplitBy(s, size)| == k && |SplitBy(s, size)[r]| == size && Product(r, size) + j < |s|
    ensures SplitBy(s, size)[r][j] == s[Product(r, size) + j]
    decreases k
  {
    hide Product, Join;
    SplitEven(s, size, k);
    assert SplitBy(s, size)[r] in SplitBy(s, size);
    Grows(r + 1, k, size);
    OneMore(r, size);
    OneMore(k - 1, size);
    if r > 0 {
      OneMore(r - 1, size);
      Grows(1, k - 1, size);
      SplitAt(s[size..], size, k - 1, r - 1, j);
    }
  }

  /** Rank `r` gets the `r`-th stretch of the vector; what lies behind the end is zero. */
  lemma ShardAt(flat: seq<Bits>, ranks: nat, r: nat, j: nat)
    requires r < ranks && j < ShardLength(|flat|, ranks)
    ensures var at := Product(r, ShardLength(|flat|, ranks)) + j;
      Shards(flat, ranks)[r][j] == if at < |flat| then flat[at] else 0
  {
    hide Product, SplitBy;
    PaddedLength(|flat|, ranks);
    assert flat != [];
    SplitAt(Pad(flat, ranks), ShardLength(|flat|, ranks), ranks, r, j);
  }

  /** What is scattered of one vector: the pieces behind a dummy of their length. */
  ghost predicate IsScatter(list: seq<seq<Bits>>, flat: seq<Bits>, ranks: nat)
    requires ranks >= 1
  {
    |list| == ranks + 1 && list[1..] == Shards(flat, ranks) && |list[0]| == |list[1]|
  }

  lemma DummyFirst(flat: seq<Bits>, ranks: nat)
    requires ranks >= 1
    ensures var pieces := Shards(flat, ranks); IsScatter([pieces[0]] + pieces, flat, ranks)
  {
    hide Shards;
    var pieces := Shards(flat, ranks);
    assert ([pieces[0]] + pieces)[1..] == pieces;
  }

  /** One scatter list per dtype in sorted order; the sender's own piece is a dummy. */
  method SendSharded(params: map<string, seq<Tensor>>, order: seq<string>, ranks: nat)
    returns (wire: seq<seq<seq<Bits>>>)
    requires ranks >= 1 && Lists(order, params)
    ensures |wire| == |Sort(order)|
    ensures forall i | 0 <= i < |wire| ::
              Sort(order)[i] in params && IsScatter(wire[i], Concat(params[Sort(order)[i]]), ranks)
  {
    hide IsScatter, Shards, Concat, Sort, Ascending;
    wire := [];
    var dtypes := Sort(order);
    SortSorts(order);
    for i := 0 to |dtypes|
      invariant |wire| == i
      invariant forall j | 0 <= j < i :: dtypes[j] in params && IsScatter(wire[j], Concat(params[dtypes[j]]), ranks)
    {
      assert dtypes[i] in order;
      var pieces := Shards(Concat(params[dtypes[i]]), ranks);
      DummyFirst(Concat(params[dtypes[i]]), ranks);
      wire := wire + [[pieces[0]] + pieces];
    }
  }

  /** What one rank keeps for one dtype. */
  datatype Shard = Shard(data: seq<Bits>, metas: seq<Meta>, total: nat)

  /** What a rank keeps after the first `n` scatters. */
  ghost predicate KeepsFirst(shards: map<string, Shard>, wire: seq<seq<seq<Bits>>>, rank: nat,
                           metas: map<string, seq<Meta>>, dtypes: seq<string>, n: nat)
    requires n <= |dtypes| == |wire| && (forall list | list in wire :: rank + 1 < |list|)
    requires forall d | d in dtypes :: d in metas
  {
    && (forall d :: d in shards <==> d in dtypes[..n])
    && forall i | 0 <= i < n ::
         shards[dtypes[i]] == Shard(wire[i][rank + 1], metas[dtypes[i]], Total(metas[dtypes[i]]))
  }

  lemma KeepsAll(shards: map<string, Shard>, wire: seq<seq<seq<Bits>>>, rank: nat,
                     metas: map<string, seq<Meta>>, dtypes: seq<string>)
    requires |dtypes| == |wire| && (forall list | list in wire :: rank + 1 < |list|)
    requires forall d :: d in dtypes <==> d in metas
    ensures KeepsFirst(map[], wire, rank, metas, dtypes, 0)
    ensures KeepsFirst(shards, wire, rank, metas, dtypes, |dtypes|) ==>
              && shards.Keys == metas.Keys
              && forall i | 0 <= i < |dtypes| ::
                   shards[dtypes[i]] == Shard(wire[i][rank + 1], metas[dtypes[i]], Total(metas[dtypes[i]]))
  {
    assert dtypes[..|dtypes|] == dtypes;
  }

  lemma KeepsMore(shards: map<string, Shard>, wire: seq<seq<seq<Bits>>>, rank: nat,
                     metas: map<string, seq<Meta>>, dtypes: seq<string>, n: nat)
    requires n < |dtypes| == |wire| && (forall list | list in wire :: rank + 1 < |list|)
    requires Distinct(dtypes) && forall d | d in dtypes :: d in metas
    requires KeepsFirst(shards, wire, rank, metas, dtypes, n)
    ensures var d := dtypes[n];
      KeepsFirst(shards[d := Shard(wire[n][rank + 1], metas[d], Total(metas[d]))], wire, rank, metas, dtypes, n + 1)
  {
    hide Total;
    assert dtypes[..n + 1] == dtypes[..n] + [dtypes[n]];
  }

  class ShardedWeightBuffer {
    var shards: map<string, Shard>
    var isReady: bool

    constructor ()
      ensures shards == map[] && !isReady
    {
      shards, isReady := map[], false;
    }

    method Clear()
      modifies this
      ensures shards == map[] && !isReady
    {
      shards, isReady := map[], false;
    }

    method AddShard(dtype: string, data: seq<Bits>, metas: seq<Meta>, total: nat, isLast: bool)
      modifies this
      ensures shards == old(shards)[dtype := Shard(data, metas, total)] && (isReady <==> old(isReady) || isLast)
    {
      shards := shards[dtype := Shard(data, metas, total)];
      if isLast {
        isReady := true;
      }
    }

    /** Receive this rank's piece of every scatter; the buffer is ready exactly when there was a
        last dtype. */
    method Receive(wire: seq<seq<seq<Bits>>>, rank: nat, ranks: nat, metas: map<string, seq<Meta>>, dtypes: seq<string>)
      requires rank < ranks && Distinct(dtypes) && |wire| == |dtypes| && forall d :: d in dtypes <==> d in metas
      requires forall i | 0 <= i < |wire| ::
                 |wire[i]| == ranks + 1 && |wire[i][rank + 1]| == ShardLength(Total(metas[dtypes[i]]), ranks)
      modifies this
      ensures shards.Keys == metas.Keys && (isReady <==> dtypes != [])
      ensures forall i | 0 <= i < |dtypes| ::
                shards[dtypes[i]] == Shard(wire[i][rank + 1], metas[dtypes[i]], Total(metas[dtypes[i]]))
    {
      hide KeepsFirst, Total, ShardLength;
      Clear();
      KeepsAll(map[], wire, rank, metas, dtypes);
      for i := 0 to |dtypes|
        invariant KeepsFirst(shards, wire, rank, metas, dtypes, i)
        invariant isReady <==> i == |dtypes| && i > 0
      {
        var d := dtypes[i];
        KeepsMore(shards, wire, rank, metas, dtypes, i);
        AddShard(d, wire[i][rank + 1], metas[d], Total(metas[d]), d == dtypes[|dtypes| - 1]);
      }
      KeepsAll(shards, wire, rank, metas, dtypes);
    }
  }

  /** The pieces of one dtype on all ranks, in rank order. */
  function PiecesOf(peers: seq<map<string, Shard>>, dtype: string): seq<seq<Bits>>
    requires forall p | p in peers :: dtype in p
  {
    seq(|peers|, r requires 0 <= r < |peers| => peers[r][dtype].data)
  }

  /** Gather every dtype from all ranks and drop the padding. */
  method GatherAll(peers: seq<map<string, Shard>>, order: seq<string>) returns (flat: map<string, seq<Bits>>)
    requires peers != [] && forall p, d | p in peers && d in order :: d in p
    requires forall d | d in order :: peers[0][d].total <= |Join(PiecesOf(peers, d))|
    ensures forall d :: d in flat <==> d in order
    ensures forall d | d in order :: flat[d] == Join(PiecesOf(peers, d))[..peers[0][d].total]
  {
    flat := map[];
    for i := 0 to |order|
      invariant forall d :: d in flat <==> d in order[..i]
      invariant forall d | d in flat && d in order :: flat[d] == Join(PiecesOf(peers, d))[..peers[0][d].total]
    {
      var d := order[i];
      flat := flat[d := Join(PiecesOf(peers, d))[..peers[0][d].total]];
    }
    assert order[..|order|] == order;
  }

  /** A rank holds its own piece of every dtype. */
  ghost predicate HeldBy(shards: map<string, Shard>, flat: map<string, seq<Bits>>, metas: map<string, seq<Meta>>,
                         rank: nat, ranks: nat)
    requires flat.Keys == metas.Keys && rank < ranks
  {
    forall d | d in flat :: d in shards && shards[d] == Shard(Shards(flat[d], ranks)[rank], metas[d], Total(metas[d]))
  }

  ghost predicate Scattered(flat: map<string, seq<Bits>>, metas: map<string, seq<Meta>>,
                            peers: seq<map<string, Shard>>) {
    && peers != [] && flat.Keys == metas.Keys
    && forall r | 0 <= r < |peers| :: HeldBy(peers[r], flat, metas, r, |peers|)
  }

  /** Gathering from all ranks gives back each sender vector. */
  lemma GatherExact(flat: map<string, seq<Bits>>, metas: map<string, seq<Meta>>, peers: seq<map<string, Shard>>,
                    d: string)
    requires Scattered(flat, metas, peers) && d in flat && Total(metas[d]) == |flat[d]|
    ensures forall p | p in peers :: d in p
    ensures peers[0][d].total == |flat[d]| <= |Join(PiecesOf(peers, d))|
    ensures Join(PiecesOf(peers, d))[..peers[0][d].total] == flat[d]
  {
    assert PiecesOf(peers, d) == Shards(flat[d], |peers|);
    ShardRoundTrip(flat[d], |peers|);
  }

  lemma GatherAllExact(flat: map<string, seq<Bits>>, metas: map<string, seq<Meta>>, peers: seq<map<string, Shard>>)
    requires Scattered(flat, metas, peers) && forall d | d in flat :: Total(metas[d]) == |flat[d]|
    ensures forall d, p | d in flat && p in peers :: d in p
    ensures forall d | d in flat :: peers[0][d].total == |flat[d]| <= |Join(PiecesOf(peers, d))|
  {
    hide HeldBy, PiecesOf, Join, Total;
    forall d, p | d in flat && p in peers ensures d in p {
      GatherExact(flat, metas, peers, d);
    }
    assert peers[0] in peers;
    forall d | d in flat ensures peers[0][d].total == |flat[d]| <= |Join(PiecesOf(peers, d))| {
      GatherExact(flat, metas, peers, d);
    }
  }

  /** Scattering, gathering and rebuilding gives the sender's dict without its empty modules, for
      any number of ranks. */
  lemma ShardedRoundTrip(modules: seq<Module>, flat: map<string, seq<Bits>>, metas: map<string, seq<Meta>>,
                         peers: seq<map<string, Shard>>, gathered: map<string, seq<Bits>>, order: seq<string>)
    requires Keyed(modules) && forall it | it in Items(modules) :: Shaped(it.tensor)
    requires Flattened(Items(modules), flat, metas) && Scattered(flat, metas, peers)
    requires Lists(order, flat) && gathered.Keys == flat.Keys
    requires forall d | d in flat :: (forall p | p in peers :: d in p)
               && peers[0][d].total <= |Join(PiecesOf(peers, d))|
               && gathered[d] == Join(PiecesOf(peers, d))[..peers[0][d].total]
    ensures gathered == flat && forall d | d in order :: Total(metas[d]) == |flat[d]|
    ensures PutAll(map[], Rebuilt(gathered, metas, order)) == NonEmpty(Meaning(modules))
    ensures PutAll(map[], Rebuilt(gathered, metas, order)) == Meaning(modules)
            <==> forall m | m in modules :: m.params != []
  {
    hide Flattened, Scattered, PiecesOf, Join;
    FullRoundTrip(modules, flat, metas, order);
    forall d | d in flat ensures gathered[d] == flat[d] {
      GatherExact(flat, metas, peers, d);
    }
  }

  /** One rank receives its piece of every scatter. */
  method ReceiveRank(wire: seq<seq<seq<Bits>>>, rank: nat, ranks: nat, ghost flat: map<string, seq<Bits>>,
                     metas: map<string, seq<Meta>>, dtypes: seq<string>)
    returns (shards: map<string, Shard>)
    requires rank < ranks && Lists(dtypes, metas) && flat.Keys == metas.Keys && |wire| == |dtypes|
    requires forall d | d in flat :: Total(metas[d]) == |flat[d]|
    requires forall i | 0 <= i < |wire| :: dtypes[i] in flat && IsScatter(wire[i], flat[dtypes[i]], ranks)
    ensures HeldBy(shards, flat, metas, rank, ranks)
  {
    hide Shards, Total;
    var buffer := new ShardedWeightBuffer();
    forall i | 0 <= i < |wire| ensures wire[i][rank + 1] == Shards(flat[dtypes[i]], ranks)[rank] {
      assert wire[i][rank + 1] == wire[i][1..][rank];
    }
    buffer.Receive(wire, rank, ranks, metas, dtypes);
    shards := buffer.shards;
    forall d | d in flat
      ensures d in shards && shards[d] == Shard(Shards(flat[d], ranks)[rank], metas[d], Total(metas[d]))
    {
      var i :| 0 <= i < |dtypes| && dtypes[i] == d;
    }
  }

  /** Every rank receives. */
  method ReceiveAll(wire: seq<seq<seq<Bits>>>, ranks: nat, ghost flat: map<string, seq<Bits>>,
                    metas: map<string, seq<Meta>>, dtypes: seq<string>)
    returns (peers: seq<map<string, Shard>>)
    requires ranks >= 1 && Lists(dtypes, metas) && flat.Keys == metas.Keys && |wire| == |dtypes|
    requires forall d | d in flat :: Total(metas[d]) == |flat[d]|
    requires forall i | 0 <= i < |wire| :: dtypes[i] in flat && IsScatter(wire[i], flat[dtypes[i]], ranks)
    ensures |peers| == ranks && Scattered(flat, metas, peers)
  {
    hide IsScatter, Shards, Total, HeldBy, Lists;
    peers := [];
    for rank := 0 to ranks
      invariant |peers| == rank
      invariant forall r | 0 <= r < rank :: HeldBy(peers[r], flat, metas, r, ranks)
    {
      var shards := ReceiveRank(wire, rank, ranks, flat, metas, dtypes);
      peers := peers + [shards];
    }
  }

  /** What every rank rebuilds from the pieces of all ranks. */
  method Rebuild(peers: seq<map<string, Shard>>, metas: map<string, seq<Meta>>, ghost modules: seq<Module>,
                 ghost flat: map<string, seq<Bits>>)
    returns (values: Values)
    requires Keyed(modules) && forall it | it in Items(modules) :: Shaped(it.tensor)
    requires Flattened(Items(modules), flat, metas) && Scattered(flat, metas, peers)
    requires flat.Keys == metas.Keys && forall d | d in flat :: Total(metas[d]) == |flat[d]|
    ensures values == Stored(NonEmpty(Meaning(modules)), false)
  {
    hide Stored;
    hide Items, Total, Meaning, NonEmpty, Flattened, PutAll, Rebuilt, Keyed, HeldBy, Join, PiecesOf;
    var order := Keys(metas);
    GatherAllExact(flat, metas, peers);
    var gathered := GatherAll(peers, order);
    ShardedRoundTrip(modules, flat, metas, peers, gathered, order);
    values := FlatToState(gathered, metas, order, false);
  }

  /** One sharded synchronisation. */
  method SyncSharded(modules: seq<Module>, ranks: nat) returns (values: Values)
    requires Keyed(modules) && ranks >= 1 && forall it | it in Items(modules) :: Shaped(it.tensor)
    ensures values == Stored(NonEmpty(Meaning(modules)), false)
  {
    hide Stored;
    hide Items, Concat, Total, Metas, Tensors, Meaning, NonEmpty, Sort, FlatOf, Grouped, Flattened, PutAll, Rebuilt,
      Keyed;
    hide IsScatter, Shards, Scattered, HeldBy, Join, PiecesOf;
    var params, metas := GroupByDtype(modules);
    ghost var flat := FlatOf(params);
    GroupedFlat(Items(modules), params, metas);
    FlatLengths(Items(modules), flat, metas);
    FlattenedKeys(Items(modules), flat, metas);
    var sending := Keys(params);
    var wire := SendSharded(params, sending, ranks);
    var receiving := Keys(metas);
    SortAgrees(sending, receiving);
    SortSorts(receiving);
    AscendingDistinct(Sort(receiving));
    var peers := ReceiveAll(wire, ranks, flat, metas, Sort(receiving));
    values := Rebuild(peers, metas, modules, flat);
  }

  lemma FlattenedKeys(items: seq<Item>, flat: map<string, seq<Bits>>, metas: map<string, seq<Meta>>)
    requires Flattened(items, flat, metas)
    ensures flat.Keys == metas.Keys
  {
  }

  /** Each flat vector has the described length. */
  lemma FlatLengths(items: seq<Item>, flat: map<string, seq<Bits>>, metas: map<string, seq<Meta>>)
    requires Flattened(items, flat, metas) && forall it | it in items :: Shaped(it.tensor)
    ensures forall d | d in flat :: Total(metas[d]) == |flat[d]|
  {
    hide Metas, Tensors, Total;
    forall d | d in flat ensures Total(metas[d]) == |flat[d]| {
      OfDtypeItems(items, d);
      SliceExact(d, OfDtype(items, d));
    }
  }
}
