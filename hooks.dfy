/** The two activation accumulators of backend/hooks.py: per-layer capture lists written by
    forward-hook closures, a list of hook handles appended by `install` and emptied by
    `remove`, and the loops of `compute_block_heat` and `normalize_and_serialize`. */
module Hooks {
  import opened Wrappers
  import opened Bytes
  import opened Tensors
  import opened Layout
  import opened TorchModel
  import opened HookSpec
  import opened HookPlan

  /** `buf[offset:offset + len(block)] = block`: one slice assignment into a preallocated buffer. */
  method WriteBlock(buf: array<real>, offset: nat, block: seq<real>)
    requires offset + |block| <= buf.Length
    modifies buf
    ensures buf[..offset + |block|] == old(buf[..offset]) + block
    ensures buf[offset + |block|..] == old(buf[offset + |block|..])
  {
    forall j | 0 <= j < |block| {
      buf[offset + j] := block[j];
    }
  }

  /** The first `upTo` elements of buf are blocks 0 .. b - 1, laid end to end. */
  ghost predicate Filled(buf: array<real>, upTo: int, blocks: seq<seq<real>>, b: nat)
    reads buf
  {
    0 <= upTo <= buf.Length && b <= |blocks| && buf[..upTo] == Concat(blocks[..b])
  }

  /** Once every block index has been filled, the whole buffer is the concatenation. */
  lemma FilledAll(buf: array<real>, blocks: seq<seq<real>>, numLayers: nat, n: nat)
    requires |blocks| == numLayers * NumSlices && buf.Length == numLayers * NumSlices * n
    requires Filled(buf, BlockIndex(numLayers, 0) * n, blocks, BlockIndex(numLayers, 0))
    ensures buf[..] == Concat(blocks)
  {
    assert blocks[..BlockIndex(numLayers, 0)] == blocks;
    assert buf[..] == buf[..BlockIndex(numLayers, 0) * n];
  }

  /** Writing block b right after blocks 0 .. b - 1 extends the filled prefix by that block. */
  method WriteNextBlock(buf: array<real>, offset: nat, block: seq<real>, ghost blocks: seq<seq<real>>, ghost b: nat)
    requires b < |blocks| && block == blocks[b]
    requires offset + |block| <= buf.Length
    requires Filled(buf, offset, blocks, b)
    modifies buf
    ensures Filled(buf, offset + |block|, blocks, b + 1)
  {
    WriteBlock(buf, offset, block);
    ConcatStep(blocks, b);
  }

  /** One step of a fill loop over a buffer of numLayers * 6 blocks of length n: block (L, S)
      written at its start extends the filled prefix to the start of block (L, S + 1). */
  method WriteStageBlock(buf: array<real>, offset: nat, block: seq<real>, ghost blocks: seq<seq<real>>,
                         ghost numLayers: nat, ghost layer: nat, ghost stage: nat, ghost n: nat)
    requires layer < numLayers && stage < NumSlices && buf.Length == numLayers * NumSlices * n
    requires BlockIndex(layer, stage) < |blocks| && block == blocks[BlockIndex(layer, stage)]
    requires offset == BlockIndex(layer, stage) * n && |block| == n
    requires Filled(buf, offset, blocks, BlockIndex(layer, stage))
    modifies buf
    ensures Filled(buf, BlockIndex(layer, stage + 1) * n, blocks, BlockIndex(layer, stage + 1))
  {
    FillStep(numLayers, layer, stage, n);
    WriteNextBlock(buf, offset, block, blocks, BlockIndex(layer, stage));
  }

  /** The first buffer of `normalize_and_serialize`: for every layer and stage, the stage
      tensor normalised and written at `(L * 6 + S) * seq_len * d_model`. */
  method FillSliceBuffer(nm: Numerics, s: Slots, seqLen: nat, dModel: nat) returns (floats: seq<real>)
    requires WellBehaved(nm) && AllShaped(s, seqLen, dModel)
    ensures floats == Concat(SliceBlocks(nm, s, seqLen, dModel))
  {
    var numLayers := |s.residPre|;
    var n := seqLen * dModel;
    var buf := new real[numLayers * NumSlices * n](_ => 0.0);
    FillSliceLayers(nm, s, buf, seqLen, dModel);
    FilledAll(buf, SliceBlocks(nm, s, seqLen, dModel), numLayers, n);
    floats := buf[..];
  }

  /** The outer loop of the slice fill: layer by layer. */
  method FillSliceLayers(nm: Numerics, s: Slots, buf: array<real>, seqLen: nat, dModel: nat)
    requires WellBehaved(nm) && AllShaped(s, seqLen, dModel)
    requires buf.Length == |s.residPre| * NumSlices * (seqLen * dModel)
    modifies buf
    ensures Filled(buf, BlockIndex(|s.residPre|, 0) * (seqLen * dModel), SliceBlocks(nm, s, seqLen, dModel), BlockIndex(|s.residPre|, 0))
  {
    ghost var blocks := SliceBlocks(nm, s, seqLen, dModel);
    ghost var n := seqLen * dModel;
    for layer := 0 to |s.residPre|
      invariant Filled(buf, BlockIndex(layer, 0) * n, blocks, BlockIndex(layer, 0))
    {
      var slicesRaw := StageTensors(nm, s, layer, seqLen, dModel);
      FillLayerSlices(nm, s, buf, layer, seqLen, dModel, slicesRaw);
    }
  }

  /** The inner loop of the slice fill for one layer: stage S normalised and written at
      `(L * 6 + S) * seq_len * d_model`. */
  method FillLayerSlices(nm: Numerics, s: Slots, buf: array<real>, layer: nat, seqLen: nat, dModel: nat, slicesRaw: seq<Tensor>)
    requires WellBehaved(nm) && AllShaped(s, seqLen, dModel) && layer < |s.residPre|
    requires slicesRaw == StageTensors(nm, s, layer, seqLen, dModel)
    requires buf.Length == |s.residPre| * NumSlices * (seqLen * dModel)
    requires Filled(buf, BlockIndex(layer, 0) * (seqLen * dModel), SliceBlocks(nm, s, seqLen, dModel), BlockIndex(layer, 0))
    modifies buf
    ensures Filled(buf, BlockIndex(layer + 1, 0) * (seqLen * dModel), SliceBlocks(nm, s, seqLen, dModel), BlockIndex(layer + 1, 0))
  {
    var numLayers := |s.residPre|;
    ghost var blocks := SliceBlocks(nm, s, seqLen, dModel);
    ghost var n := seqLen * dModel;
    for stage := 0 to NumSlices
      invariant Filled(buf, BlockIndex(layer, stage) * n, blocks, BlockIndex(layer, stage))
    {
      var normalized := nm.normalize(slicesRaw[stage].data);
      var offset := (layer * NumSlices + stage) * seqLen * dModel;
      SliceStageBlock(nm, s, seqLen, dModel, layer, stage);
      OffsetsAreBlockStarts(layer, stage, seqLen, dModel);
      WriteStageBlock(buf, offset, normalized, blocks, numLayers, layer, stage, n);
    }
    assert BlockIndex(layer, NumSlices) == BlockIndex(layer + 1, 0);
  }

  /** The projection buffers of `normalize_and_serialize`: for every layer and stage, the
      normalised per-position norms at `L * 6 * seq_len + S * seq_len` and the normalised
      per-feature norms at `L * 6 * d_model + S * d_model`. */
  method FillProjectionBuffers(nm: Numerics, s: Slots, seqLen: nat, dModel: nat) returns (tokenFloats: seq<real>, dimFloats: seq<real>)
    requires WellBehaved(nm) && AllShaped(s, seqLen, dModel)
    ensures tokenFloats == Concat(TokenBlocks(nm, s, seqLen, dModel))
    ensures dimFloats == Concat(DimBlocks(nm, s, seqLen, dModel))
  {
    ghost var tBlocks := TokenBlocks(nm, s, seqLen, dModel);
    ghost var dBlocks := DimBlocks(nm, s, seqLen, dModel);
    var numLayers := |s.residPre|;
    var tokenProjBuf := new real[numLayers * NumSlices * seqLen](_ => 0.0);
    var dimProjBuf := new real[numLayers * NumSlices * dModel](_ => 0.0);
    for layer := 0 to numLayers
      invariant Filled(tokenProjBuf, BlockIndex(layer, 0) * seqLen, tBlocks, BlockIndex(layer, 0))
      invariant Filled(dimProjBuf, BlockIndex(layer, 0) * dModel, dBlocks, BlockIndex(layer, 0))
    {
      var rawSlices := StageTensors(nm, s, layer, seqLen, dModel);
      FillLayerProjections(nm, s, tokenProjBuf, dimProjBuf, layer, seqLen, dModel, rawSlices);
    }
    FilledAll(tokenProjBuf, tBlocks, numLayers, seqLen);
    FilledAll(dimProjBuf, dBlocks, numLayers, dModel);
    tokenFloats := tokenProjBuf[..];
    dimFloats := dimProjBuf[..];
  }

  /** The inner loop of the projection fill for one layer: for stage S, the normalised row
      norms at `L * 6 * seq_len + S * seq_len` and the normalised column norms at
      `L * 6 * d_model + S * d_model`. */
  method FillLayerProjections(nm: Numerics, s: Slots, tokenProjBuf: array<real>, dimProjBuf: array<real>,
                              layer: nat, seqLen: nat, dModel: nat, rawSlices: seq<Tensor>)
    requires WellBehaved(nm) && AllShaped(s, seqLen, dModel) && layer < |s.residPre|
    requires rawSlices == StageTensors(nm, s, layer, seqLen, dModel)
    requires tokenProjBuf != dimProjBuf
    requires tokenProjBuf.Length == |s.residPre| * NumSlices * seqLen && dimProjBuf.Length == |s.residPre| * NumSlices * dModel
    requires Filled(tokenProjBuf, BlockIndex(layer, 0) * seqLen, TokenBlocks(nm, s, seqLen, dModel), BlockIndex(layer, 0))
    requires Filled(dimProjBuf, BlockIndex(layer, 0) * dModel, DimBlocks(nm, s, seqLen, dModel), BlockIndex(layer, 0))
    modifies tokenProjBuf, dimProjBuf
    ensures Filled(tokenProjBuf, BlockIndex(layer + 1, 0) * seqLen, TokenBlocks(nm, s, seqLen, dModel), BlockIndex(layer + 1, 0))
    ensures Filled(dimProjBuf, BlockIndex(layer + 1, 0) * dModel, DimBlocks(nm, s, seqLen, dModel), BlockIndex(layer + 1, 0))
  {
    var numLayers := |s.residPre|;
    ghost var tBlocks := TokenBlocks(nm, s, seqLen, dModel);
    ghost var dBlocks := DimBlocks(nm, s, seqLen, dModel);
    for stage := 0 to NumSlices
      invariant Filled(tokenProjBuf, BlockIndex(layer, stage) * seqLen, tBlocks, BlockIndex(layer, stage))
      invariant Filled(dimProjBuf, BlockIndex(layer, stage) * dModel, dBlocks, BlockIndex(layer, stage))
    {
      var tensor := rawSlices[stage];
      ProjectionStageBlocks(nm, s, seqLen, dModel, layer, stage);
      OffsetsAreBlockStarts(layer, stage, seqLen, dModel);

      var tokProj := nm.rowNorms(tensor);
      var tOffset := layer * NumSlices * seqLen + stage * seqLen;
      WriteStageBlock(tokenProjBuf, tOffset, nm.normalize(tokProj), tBlocks, numLayers, layer, stage, seqLen);

      var dimProj := nm.colNorms(tensor);
      var dOffset := layer * NumSlices * dModel + stage * dModel;
      WriteStageBlock(dimProjBuf, dOffset, nm.normalize(dimProj), dBlocks, numLayers, layer, stage, dModel);
    }
    assert BlockIndex(layer, NumSlices) == BlockIndex(layer + 1, 0);
  }

  /** `ActivationAccumulator`: the residual delta (output - input) of every decoder layer. */
  class ActivationAccumulator {
    var residualDeltas: seq<Option<Tensor>>
    var handles: seq<nat>

    constructor (numLayers: nat)
      ensures |residualDeltas| == numLayers
      ensures forall i :: 0 <= i < numLayers ==> residualDeltas[i].None?
      ensures handles == []
    {
      residualDeltas := seq(numLayers, _ => None);
      handles := [];
    }

    /** The closure of `_make_hook(layer)`, run by the forward pass with the layer's input
        and output. */
    method RunHook(nm: Numerics, layer: nat, input: Tensor, output: Tensor)
      requires layer < |residualDeltas|
      modifies this
      ensures residualDeltas == ApplyDelta(nm, old(residualDeltas), layer, input, output)
      ensures handles == old(handles)
    {
      residualDeltas := residualDeltas[layer := Some(nm.sub(output, input))];
    }

    /** `install`: one forward hook per layer on `module_path_for_layer(i)`. A path that is
        not a module raises KeyError (ok = false) after the earlier registrations. */
    method Install(model: Model, paths: PathScheme) returns (ok: bool)
      requires model.Valid()
      modifies this, model
      ensures model.Valid() && residualDeltas == old(residualDeltas)
      ensures var plan := DeltaPlan(paths, |residualDeltas|);
        var m := Reachable(plan, model.modules);
        && (ok <==> m == |plan|)
        && handles == old(handles) + HandleRange(old(model.nextHandle), m)
        && model.hooks == old(model.hooks) + Installed(old(model.nextHandle), plan[..m])
        && model.nextHandle == old(model.nextHandle) + m
    {
      ghost var plan := DeltaPlan(paths, |residualDeltas|);
      ghost var h0, hooks0, handles0 := model.nextHandle, model.hooks, handles;
      var i := 0;
      while i < |residualDeltas|
        invariant 0 <= i <= |residualDeltas|
        invariant model.Valid() && residualDeltas == old(residualDeltas)
        invariant Progress(model.modules, model.hooks, handles, model.nextHandle, hooks0, handles0, h0, plan, i)
      {
        var path := paths.layer(i);
        if path !in model.modules {
          ProgressStops(model.modules, model.hooks, handles, model.nextHandle, hooks0, handles0, h0, plan, i);
          return false;
        }
        ProgressStep(model.modules, model.hooks, handles, model.nextHandle, hooks0, handles0, h0, plan, i);
        var handle := model.RegisterForwardHook(Hook(path, DeltaHook, i));
        handles := handles + [handle];
        i := i + 1;
      }
      ProgressStops(model.modules, model.hooks, handles, model.nextHandle, hooks0, handles0, h0, plan, i);
      return true;
    }

    /** `remove`: every handle's hook is detached, then the handle list is cleared. */
    method Remove(model: Model)
      requires model.Valid()
      modifies this, model
      ensures model.Valid() && model.nextHandle == old(model.nextHandle)
      ensures model.hooks == old(model.hooks) - (set h | h in old(handles))
      ensures handles == [] && residualDeltas == old(residualDeltas)
    {
      var k := 0;
      while k < |handles|
        invariant 0 <= k <= |handles|
        invariant handles == old(handles) && residualDeltas == old(residualDeltas)
        invariant model.Valid() && model.nextHandle == old(model.nextHandle)
        invariant model.hooks == old(model.hooks) - (set h | h in handles[..k])
      {
        model.RemoveHook(handles[k]);
        assert handles[..k + 1] == handles[..k] + [handles[k]];
        k := k + 1;
      }
      assert handles[..k] == handles;
      handles := [];
    }

    /** `compute_block_heat`: one entry per layer, 0.0 where no delta was captured. */
    method ComputeBlockHeat(nm: Numerics) returns (norms: seq<real>)
      ensures norms == DeltaHeat(nm, residualDeltas)
    {
      norms := [];
      var i := 0;
      while i < |residualDeltas|
        invariant 0 <= i <= |residualDeltas|
        invariant norms == DeltaHeat(nm, residualDeltas)[..i]
      {
        var delta := residualDeltas[i];
        if delta.Some? {
          norms := norms + [nm.meanRowNorm(delta.value)];
        } else {
          norms := norms + [0.0];
        }
        i := i + 1;
      }
    }
  }

  /** `ActivationSliceAccumulator`: resid_pre, attn_out, mlp_out and resid_post of every layer. */
  class ActivationSliceAccumulator {
    const numLayers: nat
    var residPre: seq<Option<Tensor>>
    var residPost: seq<Option<Tensor>>
    var attnOut: seq<Option<Tensor>>
    var mlpOut: seq<Option<Tensor>>
    var handles: seq<nat>

    /** One slot per layer in each list. */
    ghost predicate Valid()
      reads this
    {
      |residPre| == numLayers && |residPost| == numLayers && |attnOut| == numLayers && |mlpOut| == numLayers
    }

    /** The four capture lists as one value. */
    function Captured(): Slots
      reads this
    {
      Slots(residPre, attnOut, mlpOut, residPost)
    }

    constructor (numLayers: nat)
      ensures Valid() && this.numLayers == numLayers
      ensures Captured() == EmptySlots(numLayers) && handles == []
    {
      this.numLayers := numLayers;
      residPre := seq(numLayers, _ => None);
      residPost := seq(numLayers, _ => None);
      attnOut := seq(numLayers, _ => None);
      mlpOut := seq(numLayers, _ => None);
      handles := [];
    }

    /** The closure of `_make_layer_hook(layer)`: batch element 0 of the layer's input and output. */
    method RunLayerHook(layer: nat, input: Tensor, output: Tensor)
      requires Valid() && layer < numLayers
      modifies this
      ensures Valid() && handles == old(handles)
      ensures Captured() == ApplyCall(old(Captured()), LayerCall(layer, input, output))
    {
      residPre := residPre[layer := Some(input)];
      residPost := residPost[layer := Some(output)];
    }

    /** The closure of `_make_attn_hook(layer)`: batch element 0 of the attention output. */
    method RunAttnHook(layer: nat, output: Tensor)
      requires Valid() && layer < numLayers
      modifies this
      ensures Valid() && handles == old(handles)
      ensures Captured() == ApplyCall(old(Captured()), AttnCall(layer, output))
    {
      attnOut := attnOut[layer := Some(output)];
    }

    /** The closure of `_make_mlp_hook(layer)`: batch element 0 of the MLP output. */
    method RunMlpHook(layer: nat, output: Tensor)
      requires Valid() && layer < numLayers
      modifies this
      ensures Valid() && handles == old(handles)
      ensures Captured() == ApplyCall(old(Captured()), MlpCall(layer, output))
    {
      mlpOut := mlpOut[layer := Some(output)];
    }

    /** `modules[path].register_forward_hook(...)` followed by `self._handles.append(...)`, as
        registration m of plan: ok is false where the lookup raises KeyError, and then nothing
        changes; otherwise the progress through the plan advances by one. */
    method Attach(model: Model, hook: Hook, ghost plan: seq<Hook>, ghost m: nat,
                  ghost h0: nat, ghost hooks0: map<nat, Hook>, ghost handles0: seq<nat>) returns (ok: bool)
      requires model.Valid() && m < |plan| && plan[m] == hook
      requires Progress(model.modules, model.hooks, handles, model.nextHandle, hooks0, handles0, h0, plan, m)
      modifies this, model
      ensures model.Valid() && Valid() == old(Valid()) && Captured() == old(Captured())
      ensures ok <==> hook.path in model.modules
      ensures ok ==> Progress(model.modules, model.hooks, handles, model.nextHandle, hooks0, handles0, h0, plan, m + 1)
      ensures !ok ==> handles == old(handles) && model.hooks == old(model.hooks) && model.nextHandle == old(model.nextHandle)
    {
      if hook.path !in model.modules {
        return false;
      }
      ProgressStep(model.modules, model.hooks, handles, model.nextHandle, hooks0, handles0, h0, plan, m);
      var handle := model.RegisterForwardHook(hook);
      handles := handles + [handle];
      return true;
    }

    /** `install`: for each layer, hooks on the layer, its attention module and its MLP, in
        that order. A path that is not a module raises KeyError (ok = false) and the hooks
        registered before it stay registered. */
    method Install(model: Model, paths: PathScheme) returns (ok: bool)
      requires Valid() && model.Valid()
      modifies this, model
      ensures Valid() && model.Valid() && Captured() == old(Captured())
      ensures var plan := SlicePlan(paths, numLayers);
        var m := Reachable(plan, model.modules);
        && (ok <==> m == |plan|)
        && handles == old(handles) + HandleRange(old(model.nextHandle), m)
        && model.hooks == old(model.hooks) + Installed(old(model.nextHandle), plan[..m])
        && model.nextHandle == old(model.nextHandle) + m
    {
      ghost var plan := SlicePlan(paths, numLayers);
      ghost var h0, hooks0, handles0 := model.nextHandle, model.hooks, handles;
      for i := 0 to numLayers
        invariant Valid() && model.Valid() && Captured() == old(Captured())
        invariant Progress(model.modules, model.hooks, handles, model.nextHandle, hooks0, handles0, h0, plan, 3 * i)
      {
        SlicePlanPerLayer(paths, numLayers, i);
        ok := Attach(model, Hook(paths.layer(i), LayerHook, i), plan, 3 * i, h0, hooks0, handles0);
        if !ok {
          ProgressStops(model.modules, model.hooks, handles, model.nextHandle, hooks0, handles0, h0, plan, 3 * i);
          return;
        }
        ok := Attach(model, Hook(paths.attn(i), AttnHook, i), plan, 3 * i + 1, h0, hooks0, handles0);
        if !ok {
          ProgressStops(model.modules, model.hooks, handles, model.nextHandle, hooks0, handles0, h0, plan, 3 * i + 1);
          return;
        }
        ok := Attach(model, Hook(paths.mlp(i), MlpHook, i), plan, 3 * i + 2, h0, hooks0, handles0);
        if !ok {
          ProgressStops(model.modules, model.hooks, handles, model.nextHandle, hooks0, handles0, h0, plan, 3 * i + 2);
          return;
        }
      }
      ProgressStops(model.modules, model.hooks, handles, model.nextHandle, hooks0, handles0, h0, plan, 3 * numLayers);
      ok := true;
    }

    /** `remove`: every handle's hook is detached, then the handle list is cleared. */
    method Remove(model: Model)
      requires model.Valid()
      modifies this, model
      ensures model.Valid() && model.nextHandle == old(model.nextHandle)
      ensures model.hooks == old(model.hooks) - (set h | h in old(handles))
      ensures handles == [] && Valid() == old(Valid()) && Captured() == old(Captured())
    {
      var k := 0;
      while k < |handles|
        invariant 0 <= k <= |handles|
        invariant handles == old(handles) && Captured() == old(Captured())
        invariant model.Valid() && model.nextHandle == old(model.nextHandle)
        invariant model.hooks == old(model.hooks) - (set h | h in handles[..k])
      {
        model.RemoveHook(handles[k]);
        assert handles[..k + 1] == handles[..k] + [handles[k]];
        k := k + 1;
      }
      assert handles[..k] == handles;
      handles := [];
    }

    /** `compute_block_heat`: one entry per layer, 0.0 where resid_pre or resid_post is missing. */
    method ComputeBlockHeat(nm: Numerics) returns (norms: seq<real>)
      requires Valid()
      ensures norms == BlockHeat(nm, Captured())
    {
      norms := [];
      for i := 0 to numLayers
        invariant norms == BlockHeat(nm, Captured())[..i]
      {
        var pre := residPre[i];
        var post := residPost[i];
        if pre.Some? && post.Some? {
          var delta := nm.sub(post.value, pre.value);
          norms := norms + [nm.meanRowNorm(delta)];
        } else {
          norms := norms + [0.0];
        }
      }
    }

    /** The dimension scan of `normalize_and_serialize`: shape of the first captured resid_pre. */
    method FirstCapturedDims() returns (seqLen: nat, dModel: nat)
      requires Valid()
      ensures (seqLen, dModel) == FirstDims(residPre)
    {
      seqLen, dModel := 0, 0;
      var i := 0;
      while i < numLayers
        invariant 0 <= i <= numLayers
        invariant forall k :: 0 <= k < i ==> residPre[k].None?
        invariant seqLen == 0 && dModel == 0
      {
        if residPre[i].Some? {
          seqLen := residPre[i].value.rows;
          dModel := residPre[i].value.cols;
          return;
        }
        i := i + 1;
      }
    }

    /** `normalize_and_serialize`: empty buffers and zero dimensions when no resid_pre was
        captured; otherwise the three float32 buffers and the metadata. */
    method NormalizeAndSerialize(nm: Numerics) returns (out: Serialized)
      requires Valid() && WellBehaved(nm) && ShapesAgree(Captured())
      ensures out == Serialize(nm, Captured())
    {
      var seqLen, dModel := FirstCapturedDims();
      if seqLen == 0 || dModel == 0 {
        return Serialized([], SliceMeta(SliceNames, numLayers, 0, 0), [], []);
      }
      var slices := FillSliceBuffer(nm, Captured(), seqLen, dModel);
      var tokenProj, dimProj := FillProjectionBuffers(nm, Captured(), seqLen, dModel);
      var meta := SliceMeta(SliceNames, numLayers, seqLen, dModel);
      return Serialized(ToBytes(nm.encode, slices), meta, ToBytes(nm.encode, tokenProj), ToBytes(nm.encode, dimProj));
    }
  }
}
