/** Full weight transfer: parameters grouped by dtype, flattened, broadcast in one schedule, and
    sliced back by running offset. */
module FlatTransfer {
  import opened Sequences
  import opened StateDicts

  datatype Meta = Meta(owner: string, name: string, shape: seq<nat>, numel: nat)

  function MetaOf(it: Item): Meta {
    Meta(it.owner, it.name, it.tensor.shape, Numel(it.tensor.shape))
  }

  function Metas(items: seq<Item>): seq<Meta> {
    seq(|items|, i requires 0 <= i < |items| => MetaOf(items[i]))
  }

  function Tensors(items: seq<Item>): seq<Tensor> {
    seq(|items|, i requires 0 <= i < |items| => items[i].tensor)
  }

  function OfDtype(items: seq<Item>, dtype: string): seq<Item> {
    if items == [] then []
    else
      var last := items[|items| - 1];
      OfDtype(items[..|items| - 1], dtype) + if last.tensor.dtype == dtype then [last] else []
  }

  /** Both dicts list, under each dtype, the parameters of that dtype in order. */
  ghost predicate Grouped(items: seq<Item>, params: map<string, seq<Tensor>>, metas: map<string, seq<Meta>>) {
    && params.Keys == metas.Keys
    && (forall d | d in params :: params[d] == Tensors(OfDtype(items, d)) && metas[d] == Metas(OfDtype(items, d)))
    && (forall d :: d in params <==> OfDtype(items, d) != [])
  }

  /** `groups[key].append(value)` of a defaultdict of lists. */
  function Append<V>(groups: map<string, seq<V>>, key: string, value: V): map<string, seq<V>> {
    groups[key := (if key in groups then groups[key] else []) + [value]]
  }

  lemma GroupedSnoc(items: seq<Item>, it: Item, params: map<string, seq<Tensor>>, metas: map<string, seq<Meta>>)
    requires Grouped(items, params, metas)
    ensures Grouped(items + [it], Append(params, it.tensor.dtype, it.tensor),
            Append(metas, it.tensor.dtype, MetaOf(it)))
  {
    hide OfDtype, Tensors, Metas;
    var d := it.tensor.dtype;
    OfDtypeSnoc(items, it);
    ListsSnoc(OfDtype(items, d), it);
    ListsNone();
  }

  lemma OfDtypeSnoc(items: seq<Item>, it: Item)
    ensures OfDtype(items + [it], it.tensor.dtype) == OfDtype(items, it.tensor.dtype) + [it]
    ensures forall d | d != it.tensor.dtype :: OfDtype(items + [it], d) == OfDtype(items, d)
  {
    assert (items + [it])[..|items|] == items;
  }

  lemma ListsSnoc(items: seq<Item>, it: Item)
    ensures Tensors(items + [it]) == Tensors(items) + [it.tensor] && Metas(items + [it]) == Metas(items) + [MetaOf(it)]
  {
  }

  lemma ListsNone()
    ensures Tensors([]) == [] && Metas([]) == []
  {
  }

  lemma ItemsStep(before: seq<Item>, m: Module, j: nat)
    requires j < |m.params|
    ensures before + ItemsOf(m)[..j] + [Item(m.name, m.params[j].name, m.params[j].tensor)]
         == before + ItemsOf(m)[..j + 1]
  {
  }

  lemma ItemsEnds(before: seq<Item>, m: Module)
    ensures before + ItemsOf(m)[..|m.params|] == before + ItemsOf(m) && before + ItemsOf(m)[..0] == before
  {
  }

  lemma ItemsMore(modules: seq<Module>, i: nat)
    requires i < |modules|
    ensures Items(modules[..i + 1]) == Items(modules[..i]) + ItemsOf(modules[i])
  {
    assert modules[..i + 1][..i] == modules[..i];
  }

  /** The inner loop of the grouping. */
  method GroupModule(m: Module, before: map<string, seq<Tensor>>, metasBefore: map<string, seq<Meta>>,
                     ghost seen: seq<Item>)
    returns (params: map<string, seq<Tensor>>, metas: map<string, seq<Meta>>)
    requires Grouped(seen, before, metasBefore)
    ensures Grouped(seen + ItemsOf(m), params, metas)
  {
    hide Grouped, Append, ItemsOf;
    params, metas := before, metasBefore;
    ItemsEnds(seen, m);
    for j := 0 to |m.params|
      invariant Grouped(seen + ItemsOf(m)[..j], params, metas)
    {
      var it := Item(m.name, m.params[j].name, m.params[j].tensor);
      GroupedSnoc(seen + ItemsOf(m)[..j], it, params, metas);
      ItemsStep(seen, m, j);
      params := Append(params, it.tensor.dtype, it.tensor);
      metas := Append(metas, it.tensor.dtype, MetaOf(it));
    }
  }

  /** One list of tensors and one list of descriptions per dtype. */
  method GroupByDtype(modules: seq<Module>) returns (params: map<string, seq<Tensor>>, metas: map<string, seq<Meta>>)
    ensures Grouped(Items(modules), params, metas)
  {
    params, metas := map[], map[];
    for i := 0 to |modules|
      invariant Grouped(Items(modules[..i]), params, metas)
    {
      ItemsMore(modules, i);
      params, metas := GroupModule(modules[i], params, metas, Items(modules[..i]));
    }
    assert modules[..|modules|] == modules;
  }

  /** `parameters_to_vector`. */
  function Concat(params: seq<Tensor>): seq<Bits> {
    if params == [] then [] else Concat(params[..|params| - 1]) + params[|params| - 1].data
  }

  /** The elements of parameter `i` follow those of all parameters before it. */
  lemma {:induction false} ConcatAt(params: seq<Tensor>, i: nat, k: nat)
    requires i < |params| && k < |params[i].data|
    ensures |Concat(params[..i + 1])| == |Concat(params[..i])| + |params[i].data|
    ensures |Concat(params[..i])| + k < |Concat(params)|
    ensures Concat(params)[|Concat(params[..i])| + k] == params[i].data[k]
  {
    var init, last := params[..|params| - 1], |params| - 1;
    assert params[..i + 1][..i] == params[..i];
    if i < last {
      ConcatAt(init, i, k);
      assert init[..i] == params[..i];
    }
  }

  /** The offset behind the described parameters. */
  function Total(metas: seq<Meta>): nat {
    if metas == [] then 0 else Total(metas[..|metas| - 1]) + metas[|metas| - 1].numel
  }

  /** The parameters cut out of a flat vector one behind the other. */
  function Slice(dtype: string, flat: seq<Bits>, metas: seq<Meta>): seq<Item>
    requires Total(metas) <= |flat|
  {
    if metas == [] then []
    else
      var init, last := metas[..|metas| - 1], metas[|metas| - 1];
      Slice(dtype, flat, init)
      + [Item(last.owner, last.name, Tensor(dtype, last.shape, flat[Total(init)..Total(init) + last.numel]))]
  }

  lemma {:induction false} SliceExtends(dtype: string, flat: seq<Bits>, more: seq<Bits>, metas: seq<Meta>)
    requires Total(metas) <= |flat|
    ensures Slice(dtype, flat + more, metas) == Slice(dtype, flat, metas)
  {
    if metas != [] {
      var init, last := metas[..|metas| - 1], metas[|metas| - 1];
      SliceExtends(dtype, flat, more, init);
      assert (flat + more)[Total(init)..Total(init) + last.numel] == flat[Total(init)..Total(init) + last.numel];
    }
  }

  /** One more parameter on both sides. */
  lemma SliceSnoc(dtype: string, flat: seq<Bits>, metas: seq<Meta>, it: Item)
    requires it.tensor.dtype == dtype && Shaped(it.tensor) && Total(metas) == |flat|
    ensures Total(metas + [MetaOf(it)]) == |flat + it.tensor.data|
    ensures Slice(dtype, flat + it.tensor.data, metas + [MetaOf(it)]) == Slice(dtype, flat, metas) + [it]
  {
    assert (metas + [MetaOf(it)])[..|metas|] == metas;
    SliceExtends(dtype, flat, it.tensor.data, metas);
    assert (flat + it.tensor.data)[Total(metas)..Total(metas) + |it.tensor.data|] == it.tensor.data;
    assert Item(it.owner, it.name, Tensor(dtype, it.tensor.shape, it.tensor.data)) == it;
  }

  lemma FlatSnoc(items: seq<Item>)
    requires items != []
    ensures var init, last := items[..|items| - 1], items[|items| - 1];
      && Concat(Tensors(items)) == Concat(Tensors(init)) + last.tensor.data
      && Metas(items) == Metas(init) + [MetaOf(last)]
  {
    assert Tensors(items)[..|items| - 1] == Tensors(items[..|items| - 1]);
  }

  lemma SliceNone(dtype: string)
    ensures Concat(Tensors([])) == [] && Total(Metas([])) == 0 && Slice(dtype, [], Metas([])) == []
  {
  }

  /** Flattening and slicing by running offset is the identity, and the offsets use up the vector. */
  lemma {:induction false} SliceExact(dtype: string, items: seq<Item>)
    requires forall it | it in items :: it.tensor.dtype == dtype && Shaped(it.tensor)
    ensures |Concat(Tensors(items))| == Total(Metas(items))
    ensures Slice(dtype, Concat(Tensors(items)), Metas(items)) == items
  {
    hide Slice, Concat, Total, Tensors, Metas;
    SliceNone(dtype);
    if items != [] {
      var init, last := items[..|items| - 1], items[|items| - 1];
      SliceExact(dtype, init);
      FlatSnoc(items);
      assert last in items;
      SliceSnoc(dtype, Concat(Tensors(init)), Metas(init), last);
      assert items == init + [last];
    }
  }

  lemma {:induction false} OfDtypeItems(items: seq<Item>, dtype: string)
    ensures forall it | it in OfDtype(items, dtype) :: it.tensor.dtype == dtype
    ensures forall it :: it in OfDtype(items, dtype) <==> it in items && it.tensor.dtype == dtype
    ensures Distinct(items) ==> Distinct(OfDtype(items, dtype))
  {
    if items != [] {
      var init, last := items[..|items| - 1], items[|items| - 1];
      OfDtypeItems(init, dtype);
      assert items == init + [last];
    }
  }

  /** The parameters of a dtype are listed as they were met. */
  lemma {:induction false} OfDtypePicks(items: seq<Item>, dtype: string, wanted: Item -> bool)
    requires forall it | it in items :: wanted(it) <==> it.tensor.dtype == dtype
    ensures Picks(OfDtype(items, dtype), items, wanted)
  {
    hide Picks;
    if items == [] {
      PicksNone(wanted);
    } else {
      var init, last := items[..|items| - 1], items[|items| - 1];
      assert items == init + [last];
      OfDtypePicks(init, dtype, wanted);
      PicksSnoc(OfDtype(init, dtype), init, wanted, last);
    }
  }

  /** Everything rebuilt from one flat vector per dtype, dtype after dtype. */
  function Rebuilt(flat: map<string, seq<Bits>>, metas: map<string, seq<Meta>>, order: seq<string>): seq<Item>
    requires forall d | d in order :: d in flat && d in metas && Total(metas[d]) <= |flat[d]|
  {
    if order == [] then []
    else
      var d := order[|order| - 1];
      Rebuilt(flat, metas, order[..|order| - 1]) + Slice(d, flat[d], metas[d])
  }

  /** The parameters dtype after dtype. */
  ghost function Regrouped(items: seq<Item>, order: seq<string>): seq<Item> {
    if order == [] then []
    else Regrouped(items, order[..|order| - 1]) + OfDtype(items, order[|order| - 1])
  }

  lemma {:induction false} RegroupedItems(items: seq<Item>, order: seq<string>)
    requires Distinct(items) && Distinct(order)
    ensures forall it :: it in Regrouped(items, order) <==> it in items && it.tensor.dtype in order
    ensures Distinct(Regrouped(items, order))
  {
    if order != [] {
      var init, last := order[..|order| - 1], order[|order| - 1];
      RegroupedItems(items, init);
      OfDtypeItems(items, last);
      assert order == init + [last];
      DistinctJoin(Regrouped(items, init), OfDtype(items, last));
    }
  }

  lemma DistinctJoin<T>(a: seq<T>, b: seq<T>)
    requires Distinct(a) && Distinct(b) && forall x | x in a :: x !in b
    ensures Distinct(a + b)
  {
    forall i, j | 0 <= i < |a| && 0 <= j < |b| ensures a[i] != b[j] {
      assert a[i] in a && b[j] in b;
    }
  }

  /** What each side holds of the parameters: one flat vector per dtype and the descriptions. */
  ghost predicate Flattened(items: seq<Item>, flat: map<string, seq<Bits>>, metas: map<string, seq<Meta>>) {
    && flat.Keys == metas.Keys
    && (forall d | d in flat :: flat[d] == Concat(Tensors(OfDtype(items, d))) && metas[d] == Metas(OfDtype(items, d)))
    && (forall d :: d in flat <==> OfDtype(items, d) != [])
  }

  lemma {:induction false} RebuiltRegrouped(items: seq<Item>, flat: map<string, seq<Bits>>,
                                            metas: map<string, seq<Meta>>, order: seq<string>)
    requires (forall it | it in items :: Shaped(it.tensor)) && Flattened(items, flat, metas)
    requires forall d | d in order :: d in flat
    ensures forall d | d in order :: Total(metas[d]) == |flat[d]|
    ensures Rebuilt(flat, metas, order) == Regrouped(items, order)
  {
    hide Slice, Concat, Total, Tensors, Metas, OfDtype;
    if order != [] {
      var init, last := order[..|order| - 1], order[|order| - 1];
      OfDtypeItems(items, last);
      SliceExact(last, OfDtype(items, last));
      RebuiltRegrouped(items, flat, metas, init);
      assert order == init + [last];
    }
  }

  /** Grouping by dtype, flattening, and slicing back gives the nested dict without its empty
      modules, so exactly the dict when no module is empty; the order in which the dtypes are
      met does not matter. */
  lemma FullRoundTrip(modules: seq<Module>, flat: map<string, seq<Bits>>, metas: map<string, seq<Meta>>,
                      order: seq<string>)
    requires Keyed(modules) && forall it | it in Items(modules) :: Shaped(it.tensor)
    requires Flattened(Items(modules), flat, metas)
    requires Distinct(order) && forall d :: d in order <==> d in flat
    ensures forall d | d in order :: Total(metas[d]) == |flat[d]|
    ensures PutAll(map[], Rebuilt(flat, metas, order)) == NonEmpty(Meaning(modules))
    ensures PutAll(map[], Rebuilt(flat, metas, order)) == Meaning(modules)
            <==> forall m | m in modules :: m.params != []
  {
    hide Keyed, Items, Rebuilt, Meaning, NonEmpty, PutAll, Total, Unique, OfDtype, Regrouped;
    var items := Items(modules);
    ItemsUnique(modules);
    RebuiltRegrouped(items, flat, metas, order);
    RegroupedItems(items, order);
    forall it | it in items ensures it.tensor.dtype in order {
      OfDtypeItems(items, it.tensor.dtype);
      assert it in OfDtype(items, it.tensor.dtype);
    }
    assert Elements(Regrouped(items, order)) == Elements(items);
    RebuildMeaning(modules, Regrouped(items, order));
  }
}
