/** The Qwen 3 0.6B adapter of backend/adapters/qwen3_0_6b.py: its static info, the module
    path of every decoder layer and of its attention and MLP sub-modules, the loaded /
    unloaded state, and the hook discipline of the two capturing inference calls. Loading
    weights, tokenising and generating are foreign calls: the loaded network is a
    `TorchModel.Model`, and what a forward pass does is given as the hook calls it makes,
    whether it raised, and the text it produced. */
module Qwen {
  import opened Wrappers
  import opened Text
  import opened Registry
  import opened Tensors
  import opened TorchModel
  import opened HookSpec
  import opened HookPlan
  import opened Hooks

  /** Decoder layers of Qwen 3 0.6B. */
  const NumLayers: nat := 28

  /** `Qwen3_0_6B_Adapter.info()`. */
  const Info: ModelInfo := ModelInfo(
    "qwen3-0.6b", "Qwen 3 0.6B", "Qwen/Qwen3-0.6B",
    ["qwen3-0.6b", "qwen3-0_6b", "qwen-0.6b"],
    NumLayers, 16, 8, 1024, 3072, 151936, 32768, "0.6B")

  // ----- Module paths -----

  /** `module_path_for_layer`: `f"model.layers.{i}"`. */
  function LayerPath(i: nat): string {
    "model.layers." + NatToString(i)
  }

  /** `module_path_for_attn`: the layer path followed by `.self_attn`. */
  function AttnPath(i: nat): string {
    LayerPath(i) + ".self_attn"
  }

  /** `module_path_for_mlp`: the layer path followed by `.mlp`. */
  function MlpPath(i: nat): string {
    LayerPath(i) + ".mlp"
  }

  /** The adapter as the accumulators' `install` sees it. */
  const Paths := PathScheme(LayerPath, AttnPath, MlpPath)

  /** A layer path ends in a decimal digit, an attention path in 'n', an MLP path in 'p'. */
  lemma PathEndings(i: nat)
    ensures '0' <= LayerPath(i)[|LayerPath(i)| - 1] <= '9'
    ensures AttnPath(i)[|AttnPath(i)| - 1] == 'n'
    ensures MlpPath(i)[|MlpPath(i)| - 1] == 'p'
  {
    var d := NatToString(i);
    assert LayerPath(i)[|LayerPath(i)| - 1] == d[|d| - 1];
  }

  /** Each path function is injective in the layer index, and no two of them share a path:
      every (layer, kind) pair names its own module. */
  lemma PathsDistinct(i: nat, j: nat)
    ensures LayerPath(i) == LayerPath(j) <==> i == j
    ensures AttnPath(i) == AttnPath(j) <==> i == j
    ensures MlpPath(i) == MlpPath(j) <==> i == j
    ensures LayerPath(i) != AttnPath(j) && LayerPath(i) != MlpPath(j) && AttnPath(i) != MlpPath(j)
  {
    PathEndings(i);
    PathEndings(j);
    if LayerPath(i) == LayerPath(j) {
      LayerPathDigits(i);
      LayerPathDigits(j);
      NatToStringInjective(i, j);
    }
    if AttnPath(i) == AttnPath(j) {
      assert AttnPath(i)[..|LayerPath(i)|] == LayerPath(i);
      assert AttnPath(j)[..|LayerPath(j)|] == LayerPath(j);
      LayerPathDigits(i);
      LayerPathDigits(j);
      NatToStringInjective(i, j);
    }
    if MlpPath(i) == MlpPath(j) {
      assert MlpPath(i)[..|LayerPath(i)|] == LayerPath(i);
      assert MlpPath(j)[..|LayerPath(j)|] == LayerPath(j);
      LayerPathDigits(i);
      LayerPathDigits(j);
      NatToStringInjective(i, j);
    }
  }

  /** The layer path is the fixed prefix followed by the decimal form of the index. */
  lemma LayerPathDigits(i: nat)
    ensures |LayerPath(i)| == 13 + |NatToString(i)|
    ensures LayerPath(i)[13..] == NatToString(i)
  {
  }

  /** The module the k-th hook of the slice accumulator's install sits on. */
  function PlanPath(i: nat, r: nat): string
    requires r < 3
  {
    if r == 0 then LayerPath(i) else if r == 1 then AttnPath(i) else MlpPath(i)
  }

  lemma SlicePlanPath(n: nat, k: nat)
    requires k < 3 * n
    ensures SlicePlan(Paths, n)[k].path == PlanPath(k / 3, k % 3)
  {
    assert SlicePlan(Paths, n)[k] == LayerHooks(Paths, k / 3)[k % 3];
  }

  /** The 3 * n hooks of the slice accumulator's install sit on pairwise distinct modules. */
  lemma SlicePlanOnDistinctModules(n: nat, k1: nat, k2: nat)
    requires k1 < k2 < 3 * n
    ensures SlicePlan(Paths, n)[k1].path != SlicePlan(Paths, n)[k2].path
  {
    var i1, r1, i2, r2 := k1 / 3, k1 % 3, k2 / 3, k2 % 3;
    assert k1 == 3 * i1 + r1 && k2 == 3 * i2 + r2;
    SlicePlanPath(n, k1);
    SlicePlanPath(n, k2);
    PathsDistinct(i1, i2);
    PathsDistinct(i2, i1);
  }

  /** The id is one of its own aliases, and the layer count is 28. */
  lemma InfoFacts()
    ensures Info.adapterId in Info.aliases && Info.layers == 28
    ensures Distinct(Lowered(Info.aliases))
  {
    assert Info.aliases[0] == Info.adapterId;
    LowerFixedPoints(Info.aliases[0]);
    LowerFixedPoints(Info.aliases[1]);
    LowerFixedPoints(Info.aliases[2]);
    var ls := Lowered(Info.aliases);
    assert ls == Info.aliases;
    assert ls[0][7] != ls[1][7] && ls[0][4] != ls[2][4] && ls[1][4] != ls[2][4];
  }

  // ----- The adapter object -----

  /** Why a capturing inference call ended with an exception. */
  datatype HookRunError =
    | TokenizerRaised   // `forward_with_slices` only: the tokeniser raised, before `install`
    | InstallKeyError   // a module path is missing: raised by `install`, outside the try
    | InferenceRaised   // raised inside the try (`generate_with_hooks`: tokeniser, generation;
                        // `forward_with_slices`: the forward pass)

  datatype HeatOutput = HeatOutput(text: string, blockHeat: seq<real>)
  datatype SliceOutput = SliceOutput(text: string, blockHeat: seq<real>, serialized: Serialized)

  /** No delta captured yet, one slot per layer. */
  function NoDeltas(n: nat): (d: seq<Option<Tensor>>)
    ensures |d| == n && forall i :: 0 <= i < n ==> d[i].None?
  {
    seq(n, _ => None)
  }

  /** The forward passes of generation: the delta hook runs for every call, in order. */
  method RunDeltaCalls(acc: ActivationAccumulator, nm: Numerics, calls: seq<DeltaCall>)
    requires DeltaCallsWithin(calls, |acc.residualDeltas|)
    modifies acc
    ensures acc.residualDeltas == ReplayDeltas(nm, old(acc.residualDeltas), calls)
    ensures acc.handles == old(acc.handles)
  {
    ghost var d0 := acc.residualDeltas;
    for k := 0 to |calls|
      invariant acc.residualDeltas == ReplayDeltas(nm, d0, calls[..k])
      invariant acc.handles == old(acc.handles)
    {
      assert calls[..k + 1][..k] == calls[..k];
      acc.RunHook(nm, calls[k].layer, calls[k].input, calls[k].output);
    }
    assert calls[..|calls|] == calls;
  }

  /** One forward pass: the slice hook each call names runs, in order. */
  method RunSliceCalls(acc: ActivationSliceAccumulator, calls: seq<SliceCall>)
    requires acc.Valid() && CallsWithin(calls, acc.numLayers)
    modifies acc
    ensures acc.Valid()
    ensures acc.Captured() == Replay(old(acc.Captured()), calls)
    ensures acc.handles == old(acc.handles)
  {
    ghost var s0 := acc.Captured();
    for k := 0 to |calls|
      invariant acc.Valid()
      invariant acc.Captured() == Replay(s0, calls[..k])
      invariant acc.handles == old(acc.handles)
    {
      assert calls[..k + 1][..k] == calls[..k];
      match calls[k]
      case LayerCall(layer, input, output) => acc.RunLayerHook(layer, input, output);
      case AttnCall(layer, output) => acc.RunAttnHook(layer, output);
      case MlpCall(layer, output) => acc.RunMlpHook(layer, output);
    }
    assert calls[..|calls|] == calls;
  }

  /** The try / finally of `forward_with_slices` once `install` has returned: the forward
      pass, block heat and serialisation when it did not raise, and `remove`, which gives
      back the hook table as it was before `install`. */
  method CaptureThenRemove(acc: ActivationSliceAccumulator, model: Model, nm: Numerics, calls: seq<SliceCall>,
                           raises: bool, ghost plan: seq<Hook>, ghost hooks0: map<nat, Hook>, ghost h0: nat)
    returns (heat: seq<real>, ser: Serialized)
    requires acc.Valid() && acc.Captured() == EmptySlots(acc.numLayers) && model.Valid() && WellBehaved(nm)
    requires CallsWithin(calls, acc.numLayers) && ShapesAgree(Replay(EmptySlots(acc.numLayers), calls))
    requires forall h :: h in hooks0 ==> h < h0
    requires acc.handles == HandleRange(h0, |plan|) && model.hooks == hooks0 + Installed(h0, plan[..|plan|])
    modifies acc, model
    ensures model.Valid() && model.hooks == hooks0
    ensures !raises ==>
      var s := Replay(EmptySlots(acc.numLayers), calls);
      heat == BlockHeat(nm, s) && ser == Serialize(nm, s)
  {
    RunSliceCalls(acc, calls);
    heat, ser := [], Serialized([], SliceMeta([], 0, 0, 0), [], []);
    if !raises {
      heat := acc.ComputeBlockHeat(nm);
      ser := acc.NormalizeAndSerialize(nm);
    }
    acc.Remove(model);
    InstallThenRemove(hooks0, h0, plan, |plan|);
  }

  /** How the foreign steps of `load` end: `AutoTokenizer.from_pretrained` raises,
      `AutoModelForCausalLM.from_pretrained` raises, `.to(device)` or `.eval()` raises on the
      fetched network, or all of them return and the network is ready. */
  datatype Fetch = TokenizerFails | ModelFails | PlacementFails(network: Model) | Loaded(network: Model)

  class Adapter {
    /** `_model`: the loaded network, or None. */
    var model: Model?
    /** `_tokenizer` is not None. */
    var hasTokenizer: bool

    /** A fresh adapter holds neither model nor tokenizer. */
    constructor ()
      ensures model == null && !hasTokenizer && !IsLoaded()
    {
      model := null;
      hasTokenizer := false;
    }

    /** `is_loaded`: a model is held. */
    function IsLoaded(): bool
      reads this
    {
      model != null
    }

    /** `load`: the tokenizer is fetched and stored, then the network is fetched, stored,
        moved to the device and put in eval mode. Any of these foreign steps may raise, and
        `raised` reports that the exception propagates: a failed tokenizer fetch changes
        nothing, a failed network fetch leaves the tokenizer set and the model as it was, and
        a failed move leaves the network stored. Only a load that does not raise guarantees a
        loaded adapter. */
    method Load(fetch: Fetch) returns (raised: bool)
      modifies this
      ensures raised <==> !fetch.Loaded?
      ensures fetch.TokenizerFails? ==> model == old(model) && hasTokenizer == old(hasTokenizer)
      ensures !fetch.TokenizerFails? ==> hasTokenizer
      ensures fetch.ModelFails? ==> model == old(model)
      ensures fetch.PlacementFails? ==> model == fetch.network
      ensures fetch.Loaded? ==> model == fetch.network && IsLoaded()
    {
      if fetch.TokenizerFails? {
        return true;
      }
      hasTokenizer := true;
      if fetch.ModelFails? {
        return true;
      }
      model := fetch.network;
      raised := fetch.PlacementFails?;
    }

    /** The state `unload` leaves behind, given whether a model was held and whether a
        tokenizer was: no model, and the tokenizer dropped along with a held model. */
    ghost predicate UnloadedFrom(wasLoaded: bool, hadTokenizer: bool)
      reads this
    {
      !IsLoaded() && hasTokenizer == (hadTokenizer && !wasLoaded)
    }

    /** `unload`: drops model and tokenizer when a model is held, and does nothing otherwise. */
    method Unload()
      modifies this
      ensures UnloadedFrom(old(IsLoaded()), old(hasTokenizer))
      ensures !old(IsLoaded()) ==> model == old(model) && hasTokenizer == old(hasTokenizer)
    {
      if model != null {
        model := null;
        hasTokenizer := false;
      }
    }

    /** `generate_with_hooks`: a residual-delta hook on every layer, the forward passes of
        generation (which make `calls` and may raise), block heat, and `remove` in `finally`.
        A missing module path raises in `install`, before the try, so the hooks registered
        until then stay on the model; once `install` has returned, the hook table is given
        back exactly, whether or not the inference raised. */
    method GenerateWithHooks(nm: Numerics, calls: seq<DeltaCall>, raises: bool, text: string)
      returns (r: Result<HeatOutput, HookRunError>)
      requires model != null && model.Valid() && DeltaCallsWithin(calls, NumLayers)
      modifies model
      ensures model.Valid()
      ensures var plan := DeltaPlan(Paths, NumLayers);
        var m := Reachable(plan, model.modules);
        && (m < |plan| ==>
              r == Err(InstallKeyError) &&
              model.hooks == old(model.hooks) + Installed(old(model.nextHandle), plan[..m]))
        && (m == |plan| ==> model.hooks == old(model.hooks))
        && (m == |plan| && raises ==> r == Err(InferenceRaised))
        && (m == |plan| && !raises ==> r == Ok(HeatOutput(text, DeltaHeat(nm, ReplayDeltas(nm, NoDeltas(NumLayers), calls)))))
    {
      ghost var plan := DeltaPlan(Paths, NumLayers);
      ghost var hooks0, h0 := model.hooks, model.nextHandle;
      var acc := new ActivationAccumulator(NumLayers);
      assert acc.residualDeltas == NoDeltas(NumLayers);
      var ok := acc.Install(model, Paths);
      if !ok {
        return Err(InstallKeyError);
      }
      assert acc.handles == HandleRange(h0, |plan|);
      // try:
      RunDeltaCalls(acc, nm, calls);
      var heat: seq<real> := [];
      if !raises {
        heat := acc.ComputeBlockHeat(nm);
      }
      // finally:
      acc.Remove(model);
      InstallThenRemove(hooks0, h0, plan, |plan|);
      assert plan[..|plan|] == plan;
      if raises {
        return Err(InferenceRaised);
      }
      return Ok(HeatOutput(text, heat));
    }

    /** `forward_with_slices`: the prompt is tokenised first, before any hook exists, so a
        tokeniser that raises leaves the hook table untouched. Then slice hooks on every
        layer, one forward pass (which makes `calls` and may raise), block heat and the
        serialised slices, `remove` in `finally`, and only then generation, which produces
        `text`. As above, a missing module path leaves the hooks registered so far; otherwise
        the hook table is given back exactly, and it is already back when generation runs
        (`hooksAtGenerate`). */
    method ForwardWithSlices(nm: Numerics, tokenizerRaises: bool, calls: seq<SliceCall>, raises: bool, text: string)
      returns (r: Result<SliceOutput, HookRunError>, ghost hooksAtGenerate: map<nat, Hook>)
      requires model != null && model.Valid() && WellBehaved(nm)
      requires CallsWithin(calls, NumLayers) && ShapesAgree(Replay(EmptySlots(NumLayers), calls))
      modifies model
      ensures model.Valid()
      ensures tokenizerRaises ==> r == Err(TokenizerRaised) && model.hooks == old(model.hooks)
      ensures !tokenizerRaises ==>
        var plan := SlicePlan(Paths, NumLayers);
        var m := Reachable(plan, model.modules);
        var s := Replay(EmptySlots(NumLayers), calls);
        && (m < |plan| ==>
              r == Err(InstallKeyError) &&
              model.hooks == old(model.hooks) + Installed(old(model.nextHandle), plan[..m]))
        && (m == |plan| ==> model.hooks == old(model.hooks))
        && (m == |plan| && raises ==> r == Err(InferenceRaised))
        && (m == |plan| && !raises ==>
              r == Ok(SliceOutput(text, BlockHeat(nm, s), Serialize(nm, s))) &&
              hooksAtGenerate == old(model.hooks))
    {
      hooksAtGenerate := model.hooks;
      if tokenizerRaises {
        return Err(TokenizerRaised), hooksAtGenerate;
      }
      ghost var plan := SlicePlan(Paths, NumLayers);
      ghost var hooks0, h0 := model.hooks, model.nextHandle;
      var acc := new ActivationSliceAccumulator(NumLayers);
      var ok := acc.Install(model, Paths);
      if !ok {
        return Err(InstallKeyError), hooksAtGenerate;
      }
      var heat, ser := CaptureThenRemove(acc, model, nm, calls, raises, plan, hooks0, h0);
      if raises {
        return Err(InferenceRaised), hooksAtGenerate;
      }
      // generation, with no hook attached
      hooksAtGenerate := model.hooks;
      return Ok(SliceOutput(text, heat, ser)), hooksAtGenerate;
    }
  }
}
