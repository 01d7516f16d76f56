/** Nested state dicts: modules of named tensors. */
module StateDicts {
  import opened Arithmetic
  import opened Sequences

  /** The contents of one element; no transfer looks inside. */
  type Bits = int

  datatype Tensor = Tensor(dtype: string, shape: seq<nat>, data: seq<Bits>)

  /** One parameter as the double loop over a state dict meets it. */
  datatype Item = Item(owner: string, name: string, tensor: Tensor)

  datatype Param = Param(name: string, tensor: Tensor)

  /** One module of a state dict, its parameters in insertion order. */
  datatype Module = Module(name: string, params: seq<Param>)

  type State = map<string, map<string, Tensor>>

  function Numel(shape: seq<nat>): nat {
    if shape == [] then 1 else Product(shape[0], Numel(shape[1..]))
  }

  /** The number of elements is the product of all dimensions. */
  lemma {:induction false} NumelSplits(a: seq<nat>, b: seq<nat>)
    ensures Numel(a + b) == Numel(a) * Numel(b) && Numel([]) == 1 && forall n: nat :: Numel([n]) == n
  {
    forall n: nat ensures Numel([n]) == n {
      ProductIs(n, Numel([n][1..]));
    }
    if a == [] {
      assert a + b == b;
    } else {
      NumelSplits(a[1..], b);
      assert (a + b)[1..] == a[1..] + b;
      ProductIs(a[0], Numel(a[1..] + b));
      ProductIs(a[0], Numel(a[1..]));
      Regroup(a[0], Numel(a[1..]), Numel(b));
    }
  }

  lemma Regroup(a: nat, b: nat, c: nat)
    ensures a * (b * c) == (a * b) * c
  {
  }

  ghost predicate Shaped(t: Tensor) {
    |t.data| == Numel(t.shape)
  }

  /** `state[owner][name] = tensor`, creating the module when it is missing. */
  function Put(state: State, it: Item): State {
    state[it.owner := (if it.owner in state then state[it.owner] else map[])[it.name := it.tensor]]
  }

  function PutAll(state: State, items: seq<Item>): State {
    if items == [] then state else Put(PutAll(state, items[..|items| - 1]), items[|items| - 1])
  }

  /** The parameters of one module in order. */
  function ItemsOf(m: Module): (items: seq<Item>)
    ensures |items| == |m.params|
  {
    seq(|m.params|, i requires 0 <= i < |m.params| => Item(m.name, m.params[i].name, m.params[i].tensor))
  }

  /** All parameters in the order of the double loop. */
  function Items(modules: seq<Module>): seq<Item> {
    if modules == [] then [] else Items(modules[..|modules| - 1]) + ItemsOf(modules[|modules| - 1])
  }

  function ParamMap(params: seq<Param>): map<string, Tensor> {
    if params == [] then map[]
    else
      var last := params[|params| - 1];
      ParamMap(params[..|params| - 1])[last.name := last.tensor]
  }

  /** The dict a list of modules stands for. */
  function Meaning(modules: seq<Module>): State {
    if modules == [] then map[]
    else
      var last := modules[|modules| - 1];
      Meaning(modules[..|modules| - 1])[last.name := ParamMap(last.params)]
  }

  /** Module names are distinct, and so are parameter names within a module. */
  ghost predicate Keyed(modules: seq<Module>) {
    && (forall i, j | 0 <= i < j < |modules| :: modules[i].name != modules[j].name)
    && (forall m | m in modules :: forall i, j | 0 <= i < j < |m.params| :: m.params[i].name != m.params[j].name)
  }

  /** The state dict without the modules that have no parameters. */
  ghost function NonEmpty(state: State): State {
    map m | m in state && state[m] != map[] :: state[m]
  }

  /** The parameters of `state` are exactly `items`. */
  ghost predicate Holds(state: State, items: set<Item>) {
    && (forall it | it in items ::
          it.owner in state && it.name in state[it.owner] && state[it.owner][it.name] == it.tensor)
    && (forall m, n | m in state && n in state[m] :: Item(m, n, state[m][n]) in items)
  }

  ghost function Elements(items: seq<Item>): set<Item> {
    set it | it in items
  }

  /** No two items share a module and a name. */
  ghost predicate Unique(items: set<Item>) {
    forall a, b | a in items && b in items && a.owner == b.owner && a.name == b.name :: a == b
  }

  lemma HoldsPut(state: State, items: set<Item>, it: Item)
    requires Holds(state, items) && it !in items && Unique(items + {it})
    ensures Holds(Put(state, it), items + {it})
    ensures NonEmpty(state) == state ==> NonEmpty(Put(state, it)) == Put(state, it)
  {
  }

  /** Two dicts with the same parameters agree on the modules that have some. */
  lemma HoldsOnce(a: State, b: State, items: set<Item>)
    requires Holds(a, items) && Holds(b, items)
    ensures NonEmpty(a) == NonEmpty(b)
  {
    hide Holds;
    forall m | m in a && a[m] != map[] ensures m in b && b[m] == a[m] {
      HoldsOnceAt(a, b, items, m);
    }
    forall m | m in b && b[m] != map[] ensures m in a && b[m] == a[m] {
      HoldsOnceAt(b, a, items, m);
    }
  }

  lemma HoldsOnceAt(a: State, b: State, items: set<Item>, m: string)
    requires Holds(a, items) && Holds(b, items) && m in a && a[m] != map[]
    ensures m in b && b[m] == a[m]
  {
    var n :| n in a[m];
    assert Item(m, n, a[m][n]) in items;
    forall x | x in a[m] ensures x in b[m] && b[m][x] == a[m][x] {
      assert Item(m, x, a[m][x]) in items;
    }
    forall x | x in b[m] ensures x in a[m] {
      assert Item(m, x, b[m][x]) in items;
    }
  }

  lemma ElementsSnoc(items: seq<Item>)
    requires items != []
    ensures Elements(items) == Elements(items[..|items| - 1]) + {items[|items| - 1]}
    ensures Distinct(items) ==> Distinct(items[..|items| - 1]) && items[|items| - 1] !in Elements(items[..|items| - 1])
  {
    assert items == items[..|items| - 1] + [items[|items| - 1]];
  }

  lemma {:induction false} PutAllHolds(items: seq<Item>)
    requires Distinct(items) && Unique(Elements(items))
    ensures Holds(PutAll(map[], items), Elements(items))
    ensures NonEmpty(PutAll(map[], items)) == PutAll(map[], items)
  {
    if items != [] {
      var init, last := items[..|items| - 1], items[|items| - 1];
      ElementsSnoc(items);
      PutAllHolds(init);
      HoldsPut(PutAll(map[], init), Elements(init), last);
    }
  }

  /** A module's dict against its list of parameters. */
  lemma {:induction false} ParamMapHolds(params: seq<Param>)
    requires forall i, j | 0 <= i < j < |params| :: params[i].name != params[j].name
    ensures forall i | 0 <= i < |params| ::
              params[i].name in ParamMap(params) && ParamMap(params)[params[i].name] == params[i].tensor
    ensures forall n | n in ParamMap(params) :: exists i :: 0 <= i < |params| && params[i].name == n
  {
    if params != [] {
      ParamMapHolds(params[..|params| - 1]);
    }
  }

  lemma ModuleHolds(m: Module)
    requires forall i, j | 0 <= i < j < |m.params| :: m.params[i].name != m.params[j].name
    ensures forall it | it in ItemsOf(m) ::
              it.owner == m.name && it.name in ParamMap(m.params) && ParamMap(m.params)[it.name] == it.tensor
    ensures forall n | n in ParamMap(m.params) :: Item(m.name, n, ParamMap(m.params)[n]) in ItemsOf(m)
    ensures ParamMap(m.params) == map[] <==> m.params == []
  {
    ParamMapHolds(m.params);
    forall n | n in ParamMap(m.params) ensures Item(m.name, n, ParamMap(m.params)[n]) in ItemsOf(m) {
      var i :| 0 <= i < |m.params| && m.params[i].name == n;
      assert ItemsOf(m)[i] == Item(m.name, n, ParamMap(m.params)[n]);
    }
    if m.params != [] {
      assert m.params[0].name in ParamMap(m.params);
    }
  }

  /** A whole new module. */
  lemma HoldsModule(state: State, items: set<Item>, m: Module)
    requires Holds(state, items) && m.name !in state
    requires forall i, j | 0 <= i < j < |m.params| :: m.params[i].name != m.params[j].name
    ensures Holds(state[m.name := ParamMap(m.params)], items + Elements(ItemsOf(m)))
  {
    ModuleHolds(m);
    assert forall it | it in Elements(ItemsOf(m)) :: it in ItemsOf(m);
  }

  ghost function Names(modules: seq<Module>): set<string> {
    set m | m in modules :: m.name
  }

  lemma KeyedInit(modules: seq<Module>)
    requires Keyed(modules) && modules != []
    ensures Keyed(modules[..|modules| - 1]) && modules[|modules| - 1].name !in Names(modules[..|modules| - 1])
    ensures modules[|modules| - 1] in modules
  {
  }

  lemma NamesSnoc(init: seq<Module>, last: Module)
    ensures Names(init + [last]) == Names(init) + {last.name}
  {
    assert forall m | m in init + [last] :: m in init || m == last;
    assert last in init + [last] && forall m | m in init :: m in init + [last];
  }

  lemma {:induction false} ItemsSnoc(modules: seq<Module>)
    requires modules != []
    ensures modules == modules[..|modules| - 1] + [modules[|modules| - 1]]
    ensures Elements(Items(modules))
         == Elements(Items(modules[..|modules| - 1])) + Elements(ItemsOf(modules[|modules| - 1]))
  {
    hide ItemsOf;
    ElementsJoin(Items(modules[..|modules| - 1]), ItemsOf(modules[|modules| - 1]));
  }

  lemma ElementsJoin(a: seq<Item>, b: seq<Item>)
    ensures Elements(a + b) == Elements(a) + Elements(b)
  {
  }

  lemma {:induction false} MeaningHolds(modules: seq<Module>)
    requires Keyed(modules)
    ensures Meaning(modules).Keys == Names(modules) && Holds(Meaning(modules), Elements(Items(modules)))
  {
    if modules != [] {
      var init, last := modules[..|modules| - 1], modules[|modules| - 1];
      KeyedInit(modules);
      ItemsSnoc(modules);
      NamesSnoc(modules[..|modules| - 1], modules[|modules| - 1]);
      MeaningHolds(init);
      HoldsModule(Meaning(init), Elements(Items(init)), last);
    }
  }

  /** The dict of a list of modules maps each name of a module to its parameters by their names. */
  lemma {:induction false} MeaningAt(modules: seq<Module>, m: Module, n: string)
    requires Keyed(modules) && m in modules
    ensures m.name in Meaning(modules)
    ensures n in Meaning(modules)[m.name] <==> exists i :: 0 <= i < |m.params| && m.params[i].name == n
    ensures forall i | 0 <= i < |m.params| && m.params[i].name == n ::
              n in Meaning(modules)[m.name] && Meaning(modules)[m.name][n] == m.params[i].tensor
  {
    var init, last := modules[..|modules| - 1], modules[|modules| - 1];
    assert modules == init + [last];
    KeyedInit(modules);
    if m in init {
      assert m.name in Names(init);
      MeaningAt(init, m, n);
    } else {
      ParamMapHolds(m.params);
    }
  }

  /** The double loop meets the parameters module after module, each module's in order. */
  lemma {:induction false} ItemsAt(modules: seq<Module>, i: nat, j: nat)
    requires i < |modules| && j < |modules[i].params|
    ensures |Items(modules[..i + 1])| == |Items(modules[..i])| + |modules[i].params|
    ensures var at, p := |Items(modules[..i])| + j, modules[i].params[j];
      at < |Items(modules)| && Items(modules)[at] == Item(modules[i].name, p.name, p.tensor)
  {
    var init, last := modules[..|modules| - 1], |modules| - 1;
    assert modules[..i + 1][..i] == modules[..i];
    if i < last {
      ItemsAt(init, i, j);
      assert init[..i] == modules[..i];
    }
  }

  lemma FullAdd(state: State, name: string, params: map<string, Tensor>)
    requires name !in state
    ensures NonEmpty(state[name := params]) == state[name := params] <==> NonEmpty(state) == state && params != map[]
  {
    assert NonEmpty(state) == state <==> forall m | m in state :: state[m] != map[];
    var after := state[name := params];
    assert NonEmpty(after) == after <==> forall m | m in after :: after[m] != map[];
    assert after[name] == params;
    assert forall m | m in state :: after[m] == state[m];
  }

  lemma {:induction false} MeaningEmpty(modules: seq<Module>)
    requires Keyed(modules)
    ensures NonEmpty(Meaning(modules)) == Meaning(modules) <==> forall m | m in modules :: m.params != []
  {
    if modules != [] {
      var init, last := modules[..|modules| - 1], modules[|modules| - 1];
      KeyedInit(modules);
      ItemsSnoc(modules);
      NamesSnoc(modules[..|modules| - 1], modules[|modules| - 1]);
      MeaningHolds(init);
      MeaningEmpty(init);
      ModuleHolds(last);
      FullAdd(Meaning(init), last.name, ParamMap(last.params));
      hide Meaning, ParamMap, Holds, NonEmpty;
      assert modules == init + [last];
    }
  }

  lemma {:induction false} ItemsUnique(modules: seq<Module>)
    requires Keyed(modules)
    ensures Unique(Elements(Items(modules))) && Distinct(Items(modules))
    ensures forall it | it in Items(modules) :: it.owner in Names(modules)
  {
    hide ItemsOf, Unique, Elements, Distinct;
    if modules == [] {
      NoItems();
    } else {
      var init, last := modules[..|modules| - 1], modules[|modules| - 1];
      KeyedInit(modules);
      ItemsSnoc(modules);
      NamesSnoc(init, last);
      ItemsUnique(init);
      ModuleUnique(last);
      UniqueJoin(Items(init), ItemsOf(last));
    }
  }

  lemma NoItems()
    ensures Unique(Elements([])) && Distinct<Item>([])
  {
  }

  lemma ModuleUnique(m: Module)
    requires forall i, j | 0 <= i < j < |m.params| :: m.params[i].name != m.params[j].name
    ensures Unique(Elements(ItemsOf(m))) && Distinct(ItemsOf(m))
    ensures forall it | it in ItemsOf(m) :: it.owner == m.name
  {
  }

  lemma UniqueJoin(a: seq<Item>, b: seq<Item>)
    requires Unique(Elements(a)) && Distinct(a) && Unique(Elements(b)) && Distinct(b)
    requires forall x, y | x in a && y in b :: x.owner != y.owner
    ensures Unique(Elements(a + b)) && Distinct(a + b)
  {
    forall i, j | 0 <= i < |a| && 0 <= j < |b| ensures a[i] != b[j] {
      assert a[i] in a && b[j] in b;
    }
  }

  /** Rebuilding from the parameters, in any order, gives back the dict up to modules without
      parameters; so it gives back the dict exactly when there is no such module. */
  lemma RebuildMeaning(modules: seq<Module>, items: seq<Item>)
    requires Keyed(modules) && Distinct(items) && Elements(items) == Elements(Items(modules))
    ensures PutAll(map[], items) == NonEmpty(Meaning(modules))
    ensures PutAll(map[], items) == Meaning(modules) <==> forall m | m in modules :: m.params != []
  {
    ItemsUnique(modules);
    PutAllHolds(items);
    MeaningHolds(modules);
    MeaningEmpty(modules);
    HoldsOnce(PutAll(map[], items), Meaning(modules), Elements(items));
  }

  /** A module without parameters is lost. */
  lemma EmptyLost()
    ensures PutAll(map[], Items([Module("head", [])])) == map[] != Meaning([Module("head", [])])
  {
    var modules := [Module("head", [])];
    assert modules[..0] == [];
    assert "head" in Meaning(modules);
  }
}
