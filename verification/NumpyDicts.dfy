/** State dicts as numpy arrays: numpy has no bfloat16, so those tensors travel as uint16. */
module NumpyDicts {
  import opened StateDicts

  /** An entry of a state dict on either side; a view keeps the bits and changes the dtype. */
  datatype Value = Torch(tensor: Tensor) | Numpy(content: Tensor)

  type Values = map<string, map<string, Value>>

  /** A tensor as it is kept: as a numpy array or as it is. */
  function Entry(t: Tensor, numpy: bool): Value {
    if !numpy then Torch(t) else if t.dtype == "bfloat16" then Numpy(t.(dtype := "uint16")) else Numpy(t)
  }

  function ToTensor(v: Value): Tensor {
    match v
    case Torch(t) => t
    case Numpy(a) => if a.dtype == "uint16" then a.(dtype := "bfloat16") else a
  }

  function EntriesOf(params: map<string, Tensor>, numpy: bool): map<string, Value> {
    map n | n in params :: Entry(params[n], numpy)
  }

  function TensorsOf(params: map<string, Value>): map<string, Tensor> {
    map n | n in params :: ToTensor(params[n])
  }

  /** A whole state dict as it is kept. */
  function Stored(state: State, numpy: bool): Values {
    map m | m in state :: EntriesOf(state[m], numpy)
  }

  function AllTensors(values: Values): State {
    map m | m in values :: TensorsOf(values[m])
  }

  /** The same modules and names, every entry a numpy array of the same shape and bits; bfloat16, which
      numpy does not have, has become uint16 and nothing else has changed its dtype. */
  ghost predicate AreArrays(state: State, values: Values) {
    && values.Keys == state.Keys
    && (forall m | m in state :: values[m].Keys == state[m].Keys)
    && (forall m, n | m in state && n in state[m] :: IsArray(state[m][n], values[m][n]))
  }

  ghost predicate IsArray(t: Tensor, v: Value) {
    && v.Numpy? && v.content.shape == t.shape && v.content.data == t.data
    && v.content.dtype != "bfloat16"
    && (v.content.dtype == "uint16" <==> t.dtype == "bfloat16" || t.dtype == "uint16")
    && (t.dtype != "bfloat16" ==> v.content.dtype == t.dtype)
  }

  /** The same modules and names, every entry the tensor itself. */
  ghost predicate AreTensors(state: State, values: Values) {
    && values.Keys == state.Keys
    && (forall m | m in state :: values[m].Keys == state[m].Keys)
    && (forall m, n | m in state && n in state[m] :: values[m][n] == Torch(state[m][n]))
  }

  ghost predicate Represents(state: State, values: Values, numpy: bool) {
    if numpy then AreArrays(state, values) else AreTensors(state, values)
  }

  /** What is kept of a state dict. */
  lemma StoredRepresents(state: State, numpy: bool)
    ensures Represents(state, Stored(state, numpy), numpy)
  {
    forall m | m in state ensures Stored(state, numpy)[m] == EntriesOf(state[m], numpy) {
    }
  }

  method ModuleToNumpy(params: map<string, Tensor>) returns (arrays: map<string, Value>)
    ensures arrays == EntriesOf(params, true)
  {
    arrays := map[];
    var rest := params.Keys;
    while rest != {}
      invariant rest <= params.Keys && arrays.Keys == params.Keys - rest
      invariant forall n | n in arrays :: arrays[n] == Entry(params[n], true)
      decreases rest
    {
      var n :| n in rest;
      var param := params[n];
      if param.dtype == "bfloat16" {
        arrays := arrays[n := Numpy(param.(dtype := "uint16"))];
      } else {
        arrays := arrays[n := Numpy(param)];
      }
      rest := rest - {n};
    }
  }

  method StateToNumpy(state: State) returns (values: Values)
    ensures values == Stored(state, true) && AreArrays(state, values)
  {
    hide EntriesOf, AreArrays;
    StoredRepresents(state, true);
    values := map[];
    var rest := state.Keys;
    while rest != {}
      invariant rest <= state.Keys && values.Keys == state.Keys - rest
      invariant forall m | m in values :: values[m] == EntriesOf(state[m], true)
      decreases rest
    {
      var m :| m in rest;
      var arrays := ModuleToNumpy(state[m]);
      values, rest := values[m := arrays], rest - {m};
    }
  }

  method ModuleToTensors(params: map<string, Value>) returns (tensors: map<string, Tensor>)
    ensures tensors == TensorsOf(params)
  {
    tensors := map[];
    var rest := params.Keys;
    while rest != {}
      invariant rest <= params.Keys && tensors.Keys == params.Keys - rest
      invariant forall n | n in tensors :: tensors[n] == ToTensor(params[n])
      decreases rest
    {
      var n :| n in rest;
      match params[n] {
        case Numpy(a) =>
          if a.dtype == "uint16" {
            tensors := tensors[n := a.(dtype := "bfloat16")];
          } else {
            tensors := tensors[n := a];
          }
        case Torch(t) =>
          tensors := tensors[n := t];
      }
      rest := rest - {n};
    }
  }

  method StateToTensors(values: Values) returns (state: State)
    ensures state == AllTensors(values)
  {
    hide TensorsOf;
    state := map[];
    var rest := values.Keys;
    while rest != {}
      invariant rest <= values.Keys && state.Keys == values.Keys - rest
      invariant forall m | m in state :: state[m] == TensorsOf(values[m])
      decreases rest
    {
      var m :| m in rest;
      var tensors := ModuleToTensors(values[m]);
      state, rest := state[m := tensors], rest - {m};
    }
  }

  /** All entries are of one kind. */
  ghost predicate Uniform(values: Values, numpy: bool) {
    forall m, n | m in values && n in values[m] :: values[m][n].Numpy? <==> numpy
  }

  ghost predicate Bare(values: Values) {
    forall m | m in values :: values[m] == map[]
  }

  lemma StoredUniform(state: State, numpy: bool)
    ensures Uniform(Stored(state, numpy), numpy)
  {
  }

  /** Whether a state dict holds numpy arrays, told from the first parameter met. */
  method IsNumpy(values: Values) returns (numpy: bool)
    ensures Bare(values) ==> !numpy
    ensures !Bare(values) ==> exists m, n :: m in values && n in values[m] && (values[m][n].Numpy? <==> numpy)
  {
    var rest := values.Keys;
    while rest != {}
      invariant rest <= values.Keys && forall m | m in values && m !in rest :: values[m] == map[]
      decreases rest
    {
      var m :| m in rest;
      if values[m] != map[] {
        var n :| n in values[m];
        return values[m][n].Numpy?;
      }
      rest := rest - {m};
    }
    numpy := false;
  }

  /** The tensors of a state dict without arrays. */
  function Plain(values: Values): (state: State)
    requires forall m, n | m in values && n in values[m] :: values[m][n].Torch?
    ensures state == AllTensors(values)
  {
    map m | m in values :: PlainParams(values[m])
  }

  function PlainParams(params: map<string, Value>): (tensors: map<string, Tensor>)
    requires forall n | n in params :: params[n].Torch?
    ensures tensors == TensorsOf(params)
  {
    map n | n in params :: params[n].tensor
  }

  /** What a policy loads from a state dict of either kind. */
  method Load(values: Values, ghost kind: bool) returns (state: State)
    requires Uniform(values, kind)
    ensures state == AllTensors(values)
  {
    hide AllTensors;
    var numpy := IsNumpy(values);
    if numpy {
      state := StateToTensors(values);
    } else {
      state := Plain(values);
    }
  }

  ghost predicate SomeUint16(state: State) {
    exists m, n :: m in state && n in state[m] && state[m][n].dtype == "uint16"
  }

  lemma ModuleRoundTrip(params: map<string, Tensor>, numpy: bool)
    ensures TensorsOf(EntriesOf(params, numpy)) == params
            <==> !numpy || forall n | n in params :: params[n].dtype != "uint16"
  {
    if n :| numpy && n in params && params[n].dtype == "uint16" {
      assert TensorsOf(EntriesOf(params, numpy))[n].dtype == "bfloat16";
    } else {
      forall n | n in params ensures TensorsOf(EntriesOf(params, numpy))[n] == params[n] {
      }
    }
  }

  /** Loading what was kept gives the state dict exactly when it was not kept as numpy arrays or
      has no uint16 tensor. */
  lemma NumpyRoundTrip(state: State, numpy: bool)
    ensures AllTensors(Stored(state, numpy)) == state <==> !numpy || !SomeUint16(state)
  {
    hide TensorsOf, EntriesOf;
    var back := AllTensors(Stored(state, numpy));
    forall m | m in state
      ensures back[m] == state[m] <==> !numpy || forall n | n in state[m] :: state[m][n].dtype != "uint16"
    {
      ModuleRoundTrip(state[m], numpy);
    }
  }

  /** A uint16 tensor comes back as bfloat16. */
  lemma Uint16Lost()
    ensures var t := Tensor("uint16", [1], [7]);
      AllTensors(Stored(map["m" := map["w" := t]], true))["m"]["w"] == t.(dtype := "bfloat16")
  {
    var t := Tensor("uint16", [1], [7]);
    assert EntriesOf(map["w" := t], true)["w"] == Numpy(t);
  }
}
