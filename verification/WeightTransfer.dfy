/** Sending and receiving full weights through a collective that pairs the i-th broadcast of the
    sender with the i-th broadcast of the receiver. */
module WeightTransfer {
  import opened Sequences
  import opened StateDicts
  import opened FlatTransfer
  import opened DtypeOrder
  import opened NumpyDicts

  /** A weight buffer; the CPU buffer keeps numpy arrays, the plain one tensors. */
  class WeightBuffer {
    const numpy: bool
    var buffer: Values
    var isReady: bool

    constructor (numpy: bool)
      ensures this.numpy == numpy && buffer == map[] && !isReady
    {
      this.numpy, buffer, isReady := numpy, map[], false;
    }

    method AddStateDict(values: Values)
      modifies this
      ensures buffer == values && isReady
    {
      buffer, isReady := values, true;
    }

    method Clear()
      modifies this
      ensures buffer == map[] && !isReady
    {
      buffer, isReady := map[], false;
    }
  }

  /** `order` lists the keys of a dict. */
  ghost predicate Lists<V>(order: seq<string>, dict: map<string, V>) {
    Distinct(order) && forall d :: d in order <==> d in dict
  }

  /** One flat vector per dtype. */
  ghost function FlatOf(params: map<string, seq<Tensor>>): (flat: map<string, seq<Bits>>)
    ensures flat.Keys == params.Keys && forall d | d in params :: flat[d] == Concat(params[d])
  {
    map d | d in params :: Concat(params[d])
  }

  /** The payloads a sender puts on the wire. */
  ghost predicate Payloads(dtypes: seq<string>, flat: map<string, seq<Bits>>, wire: seq<seq<Bits>>) {
    |wire| == |dtypes| && forall i | 0 <= i < |dtypes| :: dtypes[i] in flat && wire[i] == flat[dtypes[i]]
  }

  /** One broadcast per dtype, in the sorted order of the dtype names. */
  method SendFull(params: map<string, seq<Tensor>>, order: seq<string>) returns (wire: seq<seq<Bits>>)
    requires Lists(order, params)
    ensures Payloads(Sort(order), FlatOf(params), wire)
  {
    hide Sort, Ascending, Concat, FlatOf;
    wire := [];
    var dtypes := Sort(order);
    SortSorts(order);
    for i := 0 to |dtypes|
      invariant |wire| == i
      invariant forall j | 0 <= j < i :: dtypes[j] in params && wire[j] == Concat(params[dtypes[j]])
    {
      assert dtypes[i] in order;
      wire := wire + [Concat(params[dtypes[i]])];
    }
  }

  /** Receive one broadcast per dtype in sorted order into a vector of the described length, which
      must be the length sent. */
  method RecvFull(wire: seq<seq<Bits>>, metas: map<string, seq<Meta>>, order: seq<string>)
    returns (flat: map<string, seq<Bits>>)
    requires Lists(order, metas) && |wire| == |order| == |Sort(order)|
    requires forall i | 0 <= i < |wire| :: Sort(order)[i] in metas && |wire[i]| == Total(metas[Sort(order)[i]])
    ensures flat.Keys == metas.Keys
    ensures forall i | 0 <= i < |wire| :: Sort(order)[i] in flat && flat[Sort(order)[i]] == wire[i]
  {
    hide Ascending, Sort;
    flat := map[];
    var dtypes := Sort(order);
    SortSorts(order);
    AscendingDistinct(dtypes);
    for i := 0 to |dtypes|
      invariant flat.Keys == Firsts(dtypes, i)
      invariant forall j | 0 <= j < i :: dtypes[j] in flat && flat[dtypes[j]] == wire[j]
    {
      flat := flat[dtypes[i] := wire[i]];
    }
    FirstsAll(dtypes, |dtypes|);
  }

  ghost function Firsts(names: seq<string>, n: nat): set<string>
    requires n <= |names|
  {
    if n == 0 then {} else Firsts(names, n - 1) + {names[n - 1]}
  }

  lemma {:induction false} FirstsAll(names: seq<string>, n: nat)
    requires n <= |names|
    ensures forall d :: d in Firsts(names, n) <==> d in names[..n]
    ensures forall d :: d in Firsts(names, |names|) && n == |names| ==> d in names
    ensures n == |names| ==> forall d :: d in names ==> d in Firsts(names, n)
  {
    if n > 0 {
      FirstsAll(names, n - 1);
    }
    assert names[..|names|] == names;
  }

  lemma {:induction false} AscendingDistinct(names: seq<string>)
    requires Ascending(names)
    ensures Distinct(names)
  {
    if names != [] {
      AscendingDistinct(names[1..]);
      forall i, j | 0 <= i < j < |names| ensures names[i] != names[j] {
        assert names[j] == names[1..][j - 1] && names[j] in names[1..];
        assert i > 0 ==> names[i] == names[1..][i - 1];
      }
    }
  }

  /** `values[owner][name] = value`, creating the module when it is missing. */
  function PutValue(values: Values, owner: string, name: string, value: Value): Values {
    values[owner := (if owner in values then values[owner] else map[])[name := value]]
  }

  /** Keeping a parameter is putting what is kept of it. */
  lemma StoredPut(state: State, it: Item, numpy: bool)
    ensures Stored(Put(state, it), numpy) == PutValue(Stored(state, numpy), it.owner, it.name, Entry(it.tensor, numpy))
  {
    hide Entry;
    var before: map<string, Tensor> := if it.owner in state then state[it.owner] else map[];
    assert EntriesOf(before[it.name := it.tensor], numpy)
        == EntriesOf(before, numpy)[it.name := Entry(it.tensor, numpy)];
  }

  /** Cut one flat vector into the parameters described and put them into the state dict. */
  method PlaceDtype(before: Values, dtype: string, flat: seq<Bits>, metas: seq<Meta>, numpy: bool,
                    ghost placed: seq<Item>)
    returns (values: Values)
    requires Total(metas) <= |flat| && before == Stored(PutAll(map[], placed), numpy)
    ensures values == Stored(PutAll(map[], placed + Slice(dtype, flat, metas)), numpy)
  {
    hide Stored, PutAll, Slice, Put, PutValue;
    values := before;
    var offset := 0;
    NothingPlaced(dtype, flat, metas, placed);
    for i := 0 to |metas|
      invariant offset == Total(metas[..i]) <= Total(metas)
      invariant values == Stored(PutAll(map[], placed + Slice(dtype, flat, metas[..i])), numpy)
    {
      ghost var state := PutAll(map[], placed + Slice(dtype, flat, metas[..i]));
      SliceStep(dtype, flat, metas, i, placed);
      var meta := metas[i];
      var param := Tensor(dtype, meta.shape, flat[offset..offset + meta.numel]);
      StoredPut(state, Item(meta.owner, meta.name, param), numpy);
      var value := KeepParam(param, numpy);
      values := PutValue(values, meta.owner, meta.name, value);
      offset := offset + meta.numel;
    }
    assert metas[..|metas|] == metas;
  }

  /** What is kept of a parameter cut out of a flat vector. */
  method KeepParam(param: Tensor, numpy: bool) returns (value: Value)
    ensures value == Entry(param, numpy)
  {
    if numpy {
      if param.dtype == "bfloat16" {
        value := Numpy(param.(dtype := "uint16"));
      } else {
        value := Numpy(param);
      }
    } else {
      value := Torch(param);
    }
  }

  lemma NothingPlaced(dtype: string, flat: seq<Bits>, metas: seq<Meta>, placed: seq<Item>)
    requires Total(metas) <= |flat|
    ensures Total(metas[..0]) == 0 && placed + Slice(dtype, flat, metas[..0]) == placed
  {
  }

  lemma {:induction false} TotalPrefix(metas: seq<Meta>, i: nat)
    requires i <= |metas|
    ensures Total(metas[..i]) <= Total(metas)
  {
    if i < |metas| {
      assert metas[..|metas| - 1][..i] == metas[..i];
      TotalPrefix(metas[..|metas| - 1], i);
    } else {
      assert metas[..i] == metas;
    }
  }

  lemma SliceStep(dtype: string, flat: seq<Bits>, metas: seq<Meta>, i: nat, placed: seq<Item>)
    requires i < |metas| && Total(metas) <= |flat|
    ensures Total(metas[..i]) + metas[i].numel == Total(metas[..i + 1]) <= Total(metas)
    ensures var it := Item(metas[i].owner, metas[i].name,
            Tensor(dtype, metas[i].shape, flat[Total(metas[..i])..Total(metas[..i + 1])]));
      PutAll(map[], placed + Slice(dtype, flat, metas[..i + 1]))
      == Put(PutAll(map[], placed + Slice(dtype, flat, metas[..i])), it)
  {
    TotalPrefix(metas, i + 1);
    assert metas[..i + 1][..i] == metas[..i];
    var it := Item(metas[i].owner, metas[i].name,
      Tensor(dtype, metas[i].shape, flat[Total(metas[..i])..Total(metas[..i + 1])]));
    assert Slice(dtype, flat, metas[..i + 1]) == Slice(dtype, flat, metas[..i]) + [it];
    PutAllSnoc(placed, Slice(dtype, flat, metas[..i]), it);
  }

  lemma PutAllSnoc(placed: seq<Item>, items: seq<Item>, it: Item)
    ensures PutAll(map[], placed + (items + [it])) == Put(PutAll(map[], placed + items), it)
  {
    var all := placed + (items + [it]);
    assert all[..|all| - 1] == placed + items;
  }

  /** Rebuild the state dict from the flat vectors, as tensors or as numpy arrays. */
  method FlatToState(flat: map<string, seq<Bits>>, metas: map<string, seq<Meta>>, order: seq<string>, numpy: bool)
    returns (values: Values)
    requires forall d | d in order :: d in flat && d in metas && Total(metas[d]) <= |flat[d]|
    ensures values == Stored(PutAll(map[], Rebuilt(flat, metas, order)), numpy)
    ensures Represents(PutAll(map[], Rebuilt(flat, metas, order)), values, numpy)
  {
    hide Stored, Total, Represents;
    StoredRepresents(PutAll(map[], Rebuilt(flat, metas, order)), numpy);
    values := map[];
    NothingStored(numpy);
    for i := 0 to |order|
      invariant values == Stored(PutAll(map[], Rebuilt(flat, metas, order[..i])), numpy)
    {
      var d := order[i];
      assert order[..i + 1][..i] == order[..i];
      values := PlaceDtype(values, d, flat[d], metas[d], numpy, Rebuilt(flat, metas, order[..i]));
    }
    assert order[..|order|] == order;
  }

  lemma NothingStored(numpy: bool)
    ensures Stored(map[], numpy) == map[]
  {
  }

  lemma GroupedFlat(items: seq<Item>, params: map<string, seq<Tensor>>, metas: map<string, seq<Meta>>)
    requires Grouped(items, params, metas)
    ensures Flattened(items, FlatOf(params), metas)
  {
  }

  lemma PayloadLengths(items: seq<Item>, flat: map<string, seq<Bits>>, metas: map<string, seq<Meta>>,
                       dtypes: seq<string>, wire: seq<seq<Bits>>)
    requires (forall it | it in items :: Shaped(it.tensor)) && Flattened(items, flat, metas)
    requires Payloads(dtypes, flat, wire)
    ensures forall i | 0 <= i < |wire| :: dtypes[i] in metas && |wire[i]| == Total(metas[dtypes[i]])
  {
    hide Concat, Total, Metas, Tensors;
    forall i | 0 <= i < |wire| ensures |wire[i]| == Total(metas[dtypes[i]]) {
      OfDtypeItems(items, dtypes[i]);
      SliceExact(dtypes[i], OfDtype(items, dtypes[i]));
    }
  }

  lemma Received(dtypes: seq<string>, sent: map<string, seq<Bits>>, got: map<string, seq<Bits>>, wire: seq<seq<Bits>>)
    requires Payloads(dtypes, sent, wire) && sent.Keys == got.Keys
    requires forall d :: d in dtypes <==> d in sent
    requires forall i | 0 <= i < |wire| :: dtypes[i] in got && got[dtypes[i]] == wire[i]
    ensures got == sent
  {
    forall d | d in sent ensures got[d] == sent[d] {
      var i :| 0 <= i < |dtypes| && dtypes[i] == d;
    }
  }

  /** The keys of a dict in whatever order it has. */
  method Keys<V>(dict: map<string, V>) returns (order: seq<string>)
    ensures Lists(order, dict)
  {
    order := [];
    var rest := dict.Keys;
    while rest != {}
      invariant Distinct(order) && rest <= dict.Keys
      invariant forall d :: d in order <==> d in dict && d !in rest
      decreases rest
    {
      var d :| d in rest;
      order, rest := order + [d], rest - {d};
    }
  }

  /** One transfer by broadcast: the buffer holds the sender's dict without its empty modules. */
  method SyncFull(modules: seq<Module>, buffer: WeightBuffer)
    requires Keyed(modules) && forall it | it in Items(modules) :: Shaped(it.tensor)
    modifies buffer
    ensures buffer.isReady && buffer.buffer == Stored(NonEmpty(Meaning(modules)), buffer.numpy)
    ensures Represents(NonEmpty(Meaning(modules)), buffer.buffer, buffer.numpy)
  {
    hide Represents;
    StoredRepresents(NonEmpty(Meaning(modules)), buffer.numpy);
    hide Items, Concat, Total, Metas, Tensors, Meaning, NonEmpty, Sort, FlatOf, Grouped, Flattened, PutAll, Rebuilt,
      Keyed;
    hide Stored;
    var params, metas := GroupByDtype(modules);
    ghost var flat := FlatOf(params);
    GroupedFlat(Items(modules), params, metas);
    var sending := Keys(params);
    var wire := SendFull(params, sending);
    buffer.Clear();
    var receiving := Keys(metas);
    SortAgrees(sending, receiving);
    SortSorts(sending);
    SortSorts(receiving);
    PayloadLengths(Items(modules), flat, metas, Sort(sending), wire);
    var received := RecvFull(wire, metas, receiving);
    Received(Sort(sending), flat, received, wire);
    var order := Keys(metas);
    FullRoundTrip(modules, received, metas, order);
    var values := FlatToState(received, metas, order, buffer.numpy);
    buffer.AddStateDict(values);
  }

  /** One transfer within a process: the buffer holds the sender's whole dict. */
  method SyncLocal(modules: seq<Module>, buffer: WeightBuffer)
    modifies buffer
    ensures buffer.isReady && buffer.buffer == Stored(Meaning(modules), buffer.numpy)
    ensures Represents(Meaning(modules), buffer.buffer, buffer.numpy)
  {
    hide Stored, Meaning, Represents;
    StoredRepresents(Meaning(modules), buffer.numpy);
    buffer.Clear();
    var values := AsTensors(Meaning(modules));
    if buffer.numpy {
      values := StateToNumpy(Meaning(modules));
    }
    buffer.AddStateDict(values);
  }

  /** The state dict of the sender itself. */
  function AsTensors(state: State): (values: Values)
    ensures values == Stored(state, false)
  {
    map m | m in state :: AsTensorsOf(state[m])
  }

  function AsTensorsOf(params: map<string, Tensor>): (values: map<string, Value>)
    ensures values == EntriesOf(params, false)
  {
    map n | n in params :: Torch(params[n])
  }

  /** One transfer into the shared buffer of the sender's own node: always numpy arrays, and the
      sender's whole dict. */
  method SendCpu(modules: seq<Module>, buffer: WeightBuffer)
    modifies buffer
    ensures buffer.isReady && buffer.buffer == Stored(Meaning(modules), true)
    ensures AreArrays(Meaning(modules), buffer.buffer)
  {
    hide Stored, Meaning, AreArrays;
    var values := StateToNumpy(Meaning(modules));
    buffer.AddStateDict(values);
  }

  /** What a transfer delivers: the whole dict, or what a broadcast leaves of it. */
  ghost function Delivery(modules: seq<Module>, whole: bool): State {
    if whole then Meaning(modules) else NonEmpty(Meaning(modules))
  }

  /** A policy that loads what a transfer left in its buffer gets the sender's dict exactly when the
      transfer was whole or no module is empty, and the buffer keeps tensors or none is uint16. */
  lemma DeliveryLoads(modules: seq<Module>, whole: bool, numpy: bool)
    requires Keyed(modules)
    ensures AllTensors(Stored(Delivery(modules, whole), numpy)) == Meaning(modules)
            <==> (whole || forall m | m in modules :: m.params != []) && (!numpy || !SomeUint16(Meaning(modules)))
  {
    hide Stored, AllTensors, Meaning, NonEmpty, SomeUint16, Keyed;
    var state, sent := Meaning(modules), Delivery(modules, whole);
    MeaningEmpty(modules);
    NumpyRoundTrip(sent, numpy);
    if sent != state {
      LoadedKeys(sent, numpy);
      NonEmptyKeys(state);
    }
  }

  lemma LoadedKeys(state: State, numpy: bool)
    ensures AllTensors(Stored(state, numpy)).Keys == state.Keys
  {
  }

  lemma NonEmptyKeys(state: State)
    ensures NonEmpty(state) != state ==> NonEmpty(state).Keys != state.Keys
  {
    if NonEmpty(state).Keys == state.Keys {
      assert forall m | m in state :: m in NonEmpty(state).Keys && NonEmpty(state)[m] == state[m];
    }
  }

  /** Load the weights from a buffer. */
  method UpdateWeights(buffer: WeightBuffer, ghost state: State) returns (loaded: State)
    requires buffer.isReady && buffer.buffer == Stored(state, buffer.numpy)
    ensures loaded == AllTensors(Stored(state, buffer.numpy))
  {
    StoredUniform(state, buffer.numpy);
    loaded := Load(buffer.buffer, buffer.numpy);
  }
}
