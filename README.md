# rikugan backend core in Dafny

This is a Dafny model of the bookkeeping core of the rikugan backend, a FastAPI server. The server loads a causal language model, runs inference on prompts sent over a WebSocket, and streams per-layer activation data back to the client. The model covers:

- **Activation accumulators** (`backend/hooks.py`).
  - Forward-hook closures write per-layer capture slots.
  - `install` and `remove` manage the hook handles.
  - `compute_block_heat` builds a list of per-layer heat values.
  - `normalize_and_serialize` fills three preallocated float buffers. The slice buffer holds block (layer, stage) at `(L*6+S)*seq_len*d_model`. The token-projection and dimension-projection buffers use `L*6*n + S*n`.
- **Adapter registry** (`backend/adapters/__init__.py`).
  - `discover` builds the id → class map and the lower-cased alias → id map. It raises on a duplicate id or an alias collision.
  - `resolve` is case-insensitive, and a direct id wins over an alias.
  - `list_all` returns one info per registered adapter.
- **Server state** (`backend/state.py`). This is the active adapter and its id, and it decides when the old adapter is unloaded.
- **Model routes** (`backend/routes/models.py`). These are `list_models`, `load_model` (a 404, "already loaded", a raising `load` that leaves the state unchanged, or load-and-activate) and `model_info`.
- **WebSocket endpoint** (`backend/routes/ws.py`).
  - Binary frames are a little-endian uint32 tag (1 = slices, 2 = projections) followed by the payload.
  - The replies sent for each received message follow a fixed, conditional order.
  - The receive loop runs until the client disconnects or a turn raises.
  - `ConnectionManager.active` is the list of open sockets.
- **Qwen 3 0.6B adapter** (`backend/adapters/qwen3_0_6b.py`).
  - Its module paths are `model.layers.<i>`, plus `.self_attn` or `.mlp`.
  - Its static info is a constant.
  - Loading and unloading change its fields.
  - The hook discipline of `generate_with_hooks` and `forward_with_slices`: install, run, and remove in `finally`.

## Approach

**PyTorch's hook table.** `TorchModel.Model` stands for it. It holds the set of module paths of `named_modules()`, a map from handle to registered hook, and the next handle. "Hooks are always removed" is therefore a statement about that map: after the adapter's methods return, it equals what it was before, unless `install` raises `KeyError` on a missing module path; the hooks registered before that path then stay.

**Install plans.** `HookPlan` describes what an `install` registers, in order:
- `SlicePlan` registers three hooks per layer; `DeltaPlan` registers one.
- `Reachable` is how far the loop gets before `modules[path]` raises `KeyError`.
- `Installed` is the map of handles that were registered.

**Hook calls.** The hook calls a forward pass makes are an input sequence (`SliceCall`, `DeltaCall`). `HookSpec.Replay` and `HookSpec.ReplayDeltas` give the capture slots after those calls. `HookSpec.Serialize` and `HookSpec.BlockHeat` give what the accumulators compute from the slots.

**Numerics.** Percentile normalisation, L2 norms, tensor subtraction and float32 encoding are the fields of a `Tensors.Numerics` value. They are constrained only by the lengths and shapes they return.

**Imperative code.** Code that is imperative in the source is imperative here. It uses classes with `modifies` clauses, a `real` array per preallocated buffer, and loops whose invariants tie the state to the specification functions above.

## Model

| member | source | states |
|---|---|---|
| Bytes.UnpackPack | backend/routes/ws.py:98 | decoding the 4 little-endian bytes of `struct.pack('<I', x)` gives back x for every x below 2^32 |
| Bytes.PackUnpack | backend/routes/ws.py:115 | every 4-byte string is the little-endian encoding of the number it decodes to |
| Text.Lower | backend/adapters/__init__.py:78 | `lower()` keeps the length, yields a string with no upper-case letter, and keeps every character that is not an upper-case letter |
| Text.LowerFixedPoints | backend/adapters/__init__.py:88-89 | lowering is idempotent, and a string equals its lowering exactly when it has no upper-case letter |
| Text.NatToString | backend/adapters/qwen3_0_6b.py:93 | the decimal form of a layer index is a non-empty string of digits, with at least two digits from 10 on |
| Text.NatToStringInjective | backend/adapters/qwen3_0_6b.py:93 | different layer indices have different decimal forms |
| Layout.ConcatLength | backend/hooks.py:154-155 | a buffer made of blocks of n floats has exactly (number of blocks) * n elements |
| Layout.ConcatBlock | backend/hooks.py:191-192 | block b of a buffer of uniform blocks occupies `[b*n, b*n+n)` and holds exactly that block |
| Layout.ConcatAt | backend/hooks.py:191-192 | element `b*n+j` of the buffer is element j of block b |
| Layout.BlockIndexBijective | backend/hooks.py:137-139 | (layer, slice) ↦ `layer*6+slice` is a bijection from `[0,numLayers) x [0,6)` onto `[0,numLayers*6)` |
| Layout.SliceOffset | backend/hooks.py:191 | `(L*6+S)*seq_len*d_model`, shown to be a block start by OffsetsAreBlockStarts |
| Layout.TokenOffset | backend/hooks.py:223 | `L*6*seq_len + S*seq_len`, shown to be a block start by OffsetsAreBlockStarts |
| Layout.DimOffset | backend/hooks.py:228 | `L*6*d_model + S*d_model`, shown to be a block start by OffsetsAreBlockStarts |
| Layout.OffsetsAreBlockStarts | backend/hooks.py:191-228 | the slice, token-projection and dimension-projection offsets are each the block index times the block length |
| Layout.BlocksInBoundsAndDisjoint | backend/hooks.py:137-192 | every (layer, stage) block lies inside the buffer, and two different blocks do not overlap |
| Layout.BlocksCover | backend/hooks.py:154-192 | every position of the buffer lies in the block of some (layer, stage) |
| Tensors.Zeros | backend/hooks.py:157 | `torch.zeros(seq_len, d_model)` has that shape and all entries 0.0 |
| Tensors.ToBytesLength | backend/hooks.py:237 | `tobytes()` of n float32 values is 4n bytes |
| Tensors.ToBytesAt | backend/hooks.py:237 | bytes `[4k, 4k+4)` of `tobytes()` encode element k |
| TorchModel.Model.constructor | backend/hooks.py:43 | a model starts with its module paths and no hooks |
| TorchModel.Model.RegisterForwardHook | backend/hooks.py:47 | registering returns a fresh handle and adds exactly that hook |
| TorchModel.Model.RemoveHook | backend/hooks.py:52 | `handle.remove()` deletes exactly that hook and nothing else |
| HookSpec.EmptySlots | backend/hooks.py:70-76 | a fresh slice accumulator has four lists of num_layers entries, all None |
| HookSpec.ApplyCall | backend/hooks.py:79-97 | a layer hook sets resid_pre and resid_post of its layer only, an attention hook attn_out only, an MLP hook mlp_out only; every other slot is unchanged |
| HookSpec.Replay | backend/hooks.py:79-97 | after any sequence of hook calls the four lists keep num_layers entries each |
| HookSpec.ReplayPreCaptured | backend/hooks.py:79-85 | resid_pre of layer i is set after a forward pass exactly when some layer hook of layer i ran |
| HookSpec.FirstDims | backend/hooks.py:142-148 | seq_len and d_model are the shape of the first layer's resid_pre that is set, and (0, 0) when none is set |
| HookSpec.StageTensors | backend/hooks.py:160-185 | the six stages of a layer, in the order resid_pre, attn_out, delta_attn, mlp_out, delta_mlp, resid_post, with zeros for a missing capture |
| HookSpec.StageShapes | backend/hooks.py:165-185 | when captures share the first capture's shape, all six stage tensors of a layer have that shape |
| HookSpec.BlocksUniform | backend/hooks.py:187-229 | every normalised slice block has `seq_len*d_model` floats, every token block seq_len floats, every dimension block d_model floats |
| HookSpec.NothingCapturedIsEmpty | backend/hooks.py:150-152 | with no resid_pre captured the result is three empty byte strings and metadata with seq_len 0 and d_model 0 |
| HookSpec.SerializedSizes | backend/hooks.py:151-237 | the slice, token and dimension bytes are 4 * `num_layers*6*seq_len*d_model`, 4 * `num_layers*6*seq_len` and 4 * `num_layers*6*d_model`; the metadata carries the slice names and num_layers |
| HookSpec.Serialize | backend/hooks.py:133-238 | the metadata carries the slice names and num_layers, and reports seq_len and d_model both zero or both the shape of the first captured resid_pre |
| HookSpec.SliceStageBlock | backend/hooks.py:187-192 | block (L, S) of the slice buffer is the normalised, flattened stage tensor S of layer L |
| HookSpec.ProjectionStageBlocks | backend/hooks.py:218-229 | block (L, S) of the token buffer is the normalised row norms of stage S of layer L, and of the dimension buffer its normalised column norms |
| HookSpec.SliceBlockContents | backend/hooks.py:178-192 | the floats at `[(L*6+S)*seq_len*d_model, +seq_len*d_model)` are the normalised stage S of layer L |
| HookSpec.TokenBlockContents | backend/hooks.py:221-224 | the floats at `[L*6*seq_len + S*seq_len, +seq_len)` are the normalised row norms of stage S of layer L |
| HookSpec.DimBlockContents | backend/hooks.py:226-229 | the floats at `[L*6*d_model + S*d_model, +d_model)` are the normalised column norms of stage S of layer L |
| HookSpec.SliceBytesAt | backend/hooks.py:187-237 | the four returned slice bytes of float `k = (L*6+S)*seq_len*d_model + j` are the float32 encoding of element j of stage S of layer L, normalised |
| HookSpec.TokenBytesAt | backend/hooks.py:218-237 | the four returned token-projection bytes of float `k = L*6*seq_len + S*seq_len + j` encode the normalised norm of position j of stage S of layer L |
| HookSpec.DimBytesAt | backend/hooks.py:218-237 | the four returned dimension-projection bytes of float `k = L*6*d_model + S*d_model + j` encode the normalised norm of feature j of stage S of layer L |
| HookSpec.DeltaAttnDuplicatesAttnOut | backend/hooks.py:173-175 | blocks S=1 (attn_out) and S=2 (delta_attn) of every layer hold identical floats |
| HookSpec.MissingCaptureIsZeros | backend/hooks.py:157-171 | a stage whose capture is None (every stage but delta_mlp) holds the normalised zero tensor |
| HookSpec.BlockHeat | backend/hooks.py:120-131 | the slice accumulator's heat list has one entry per layer |
| HookSpec.BlockHeatShape | backend/hooks.py:120-131 | heat has num_layers entries and is 0.0 for every layer missing resid_pre or resid_post |
| HookSpec.UnvisitedLayerIsCold | backend/hooks.py:79-131 | after a forward pass in which a layer's hook never ran, that layer's heat is 0.0 |
| HookSpec.SublayerHooksKeepHeat | backend/hooks.py:87-131 | attention and MLP hooks do not change the block heat |
| HookSpec.ApplyDelta | backend/hooks.py:35-40 | a delta hook sets entry layer_idx to `out - inp` and leaves every other entry unchanged |
| HookSpec.ReplayDeltas | backend/hooks.py:35-40 | after any sequence of delta hook calls the list keeps its length |
| HookSpec.ReplayDeltasUntouched | backend/hooks.py:35-40 | a layer whose delta hook never ran keeps its entry |
| HookSpec.UnvisitedDeltaLayerIsCold | backend/hooks.py:32-63 | after a forward pass from a fresh accumulator, a layer whose hook never ran has heat 0.0 |
| HookSpec.DeltaHeat | backend/hooks.py:55-63 | one heat entry per delta, 0.0 where the delta is None |
| HookSpec.AccumulatorsAgree | backend/hooks.py:39-127 | for the same layer-module call, both accumulators report the same heat for that layer |
| HookPlan.SlicePlan | backend/hooks.py:99-113 | the slice install registers 3 hooks per layer, registration k being hook k%3 (layer, attention, MLP) of layer k/3 |
| HookPlan.SlicePlanPerLayer | backend/hooks.py:101-113 | layer i's three hooks are registrations 3i, 3i+1, 3i+2, and no other registration belongs to layer i |
| HookPlan.DeltaPlan | backend/hooks.py:44-47 | the delta install registers one hook per layer, on the layer's path |
| HookPlan.Reachable | backend/hooks.py:43-112 | the install loop registers a prefix of its plan and stops at the first path missing from `named_modules()`, where `modules[path]` raises KeyError |
| HookPlan.SlicePlanReachable | backend/hooks.py:99-113 | the slice install completes exactly when all three paths of every layer exist |
| HookPlan.HandleRange | backend/hooks.py:48 | the handle list holds consecutive fresh handles, in registration order |
| HookPlan.Installed | backend/hooks.py:47 | the registered hooks are exactly the handles issued, each mapped to its plan entry |
| HookPlan.InstallThenRemove | backend/hooks.py:50-118 | removing every handle the install appended restores the model's hook table exactly |
| Hooks.WriteBlock | backend/hooks.py:192 | a slice assignment writes exactly the block at its offset and leaves the rest of the buffer alone |
| Hooks.FillSliceBuffer | backend/hooks.py:154-192 | the filled slice buffer is the concatenation, in (layer, stage) order, of the normalised stage blocks |
| Hooks.FillSliceLayers | backend/hooks.py:159-192 | the layer loop fills every block of every layer |
| Hooks.FillLayerSlices | backend/hooks.py:160-192 | one layer's pass fills its six blocks, after those of earlier layers |
| Hooks.FillProjectionBuffers | backend/hooks.py:196-229 | the token and dimension buffers are the concatenations of their normalised projection blocks |
| Hooks.FillLayerProjections | backend/hooks.py:200-229 | one layer's pass fills its six token and six dimension blocks |
| Hooks.ActivationAccumulator.constructor | backend/hooks.py:31-33 | num_layers deltas, all None, and no handles |
| Hooks.ActivationAccumulator.RunHook | backend/hooks.py:35-40 | a hook call stores `out - inp` for its layer only |
| Hooks.ActivationAccumulator.Install | backend/hooks.py:42-48 | registers the delta plan up to the first missing path, appends exactly those handles, reports success exactly when the plan completes, and leaves the deltas alone |
| Hooks.ActivationAccumulator.Remove | backend/hooks.py:50-53 | removes exactly the hooks whose handles it held and empties the handle list |
| Hooks.ActivationAccumulator.ComputeBlockHeat | backend/hooks.py:55-63 | the heat list is the per-delta heat, 0.0 for a missing delta |
| Hooks.ActivationSliceAccumulator.constructor | backend/hooks.py:70-77 | four empty capture lists of num_layers entries and no handles |
| Hooks.ActivationSliceAccumulator.RunLayerHook | backend/hooks.py:79-85 | a layer hook call changes the captures as ApplyCall says |
| Hooks.ActivationSliceAccumulator.RunAttnHook | backend/hooks.py:87-91 | an attention hook call changes the captures as ApplyCall says |
| Hooks.ActivationSliceAccumulator.RunMlpHook | backend/hooks.py:93-97 | an MLP hook call changes the captures as ApplyCall says |
| Hooks.ActivationSliceAccumulator.Attach | backend/hooks.py:103-113 | one registration: succeeds exactly when the path exists, then extends the handles and the hook table by one |
| Hooks.ActivationSliceAccumulator.Install | backend/hooks.py:99-113 | registers the slice plan up to the first missing path, appends exactly those handles, succeeds exactly when all 3 * num_layers are registered, and leaves the captures alone |
| Hooks.ActivationSliceAccumulator.Remove | backend/hooks.py:115-118 | removes exactly the hooks whose handles it held and empties the handle list |
| Hooks.ActivationSliceAccumulator.ComputeBlockHeat | backend/hooks.py:120-131 | the heat list is BlockHeat of the captures |
| Hooks.ActivationSliceAccumulator.FirstCapturedDims | backend/hooks.py:141-148 | the loop finds the shape of the first captured resid_pre, or (0, 0) |
| Hooks.ActivationSliceAccumulator.NormalizeAndSerialize | backend/hooks.py:133-237 | the returned bytes and metadata are Serialize of the captures |
| Registry.Lowered | backend/adapters/__init__.py:77-78 | the aliases lower-cased one by one, in order |
| Registry.AddAliases | backend/adapters/__init__.py:77-84 | the alias loop keeps the id map and the existing aliases, and every new alias key is a lowered alias of this adapter pointing to its id |
| Registry.AddAliasesErrorSticks | backend/adapters/__init__.py:79-83 | after a collision the remaining aliases are not looked at |
| Registry.RegisterAllErrorSticks | backend/adapters/__init__.py:66-83 | after a raised error no further adapter class is registered |
| Registry.AddAliasesSucceeds | backend/adapters/__init__.py:77-84 | the alias loop succeeds exactly when the lowered aliases are pairwise distinct and none is already claimed |
| Registry.AddAliasesKeys | backend/adapters/__init__.py:84 | after a successful alias loop the alias keys are the old keys plus the lowered aliases |
| Registry.Register | backend/adapters/__init__.py:73-84 | one found class: a duplicate id raises before anything is written, otherwise the id is filed at the end of the order and its aliases follow; its properties are RegisterSucceeds and RegisterKeepsValid |
| Registry.RegisterAll | backend/adapters/__init__.py:66-84 | the found classes registered in order, stopping at the first raise; its properties are RegisterAllKeepsValid and RegisterAllKeys |
| Registry.Discovered | backend/adapters/__init__.py:58-84 | after a `discover` that raises nothing, the registration order is the discovery order and each found id maps to its own class |
| Registry.RegisterAllOrder | backend/adapters/__init__.py:74-76 | after a clean run over the found classes, the order is their ids and each id maps to its class, since no id repeats |
| Registry.RegisterSucceeds | backend/adapters/__init__.py:73-84 | registering an adapter succeeds exactly when its id is new, its lowered aliases are distinct, and none is claimed |
| Registry.DuplicateIdRejected | backend/adapters/__init__.py:74-75 | a registered id raises "Duplicate adapter_id" and changes nothing |
| Registry.SameAdapterAliasesCollide | backend/adapters/__init__.py:79-83 | two aliases of one adapter that agree after lowering raise an alias collision |
| Registry.AliasCollisionKeepsId | backend/adapters/__init__.py:76-83 | on an alias collision the adapter's id stays registered |
| Registry.RegisterKeepsValid | backend/adapters/__init__.py:76-84 | registration, successful or not, keeps every alias lower-case and pointing to a registered id, each id filed under itself and listed once |
| Registry.RegisterAllKeepsValid | backend/adapters/__init__.py:66-84 | the registration loop keeps that invariant, even when it stops on an error |
| Registry.DiscoveredValid | backend/adapters/__init__.py:58-84 | the maps `discover` leaves, whether it raises or not, satisfy the invariant |
| Registry.RegisterAllKeys | backend/adapters/__init__.py:59-84 | after a clean discovery the ids are exactly the found adapters' ids and the aliases exactly their lowered aliases: nothing from before the clear survives |
| Registry.RegisterNext | backend/adapters/__init__.py:73-84 | after a clean discovery of some adapters, the next one registers exactly when its id is new and its lowered aliases are distinct from each other and from all earlier ones |
| Registry.DiscoverSucceeds | backend/adapters/__init__.py:58-84 | `discover` raises nothing exactly when the ids are pairwise distinct and all lowered aliases are pairwise distinct |
| Registry.ResolveSound | backend/adapters/__init__.py:87-94 | a resolved class is registered and reached by the lowered name as an id or through an alias; None exactly when neither the id nor a non-empty alias target exists |
| Registry.ResolveIdFirst | backend/adapters/__init__.py:89-90 | when the lowered name is both an id and an alias, the id wins |
| Registry.ResolveIgnoresCase | backend/adapters/__init__.py:88 | resolving a name and its lowering give the same answer |
| Registry.MixedCaseIdOnlyViaAlias | backend/adapters/__init__.py:76-93 | an adapter whose id has an upper-case letter can only be resolved through an alias |
| Registry.Resolve | backend/adapters/__init__.py:87-94 | what `resolve` returns is always a registered class; ResolveSound and ResolveIdFirst state how it is reached |
| Registry.ListAll | backend/adapters/__init__.py:96-98 | one info per registered adapter, entry i being the class registered i-th, no id twice, and exactly the registered infos |
| Registry.ListAllDiscovered | backend/adapters/__init__.py:57-98 | after a `discover` that raises nothing, `list_all` returns exactly the classes found, in the order they were found |
| Registry.AdapterRegistry.constructor | backend/adapters/__init__.py:54-55 | the class-level maps start empty |
| Registry.AdapterRegistry.Discover | backend/adapters/__init__.py:57-84 | the maps and the raised error afterwards are Discovered of the found adapters, which starts from cleared maps |
| Registry.AdapterRegistry.RegisterAliases | backend/adapters/__init__.py:77-84 | the alias loop leaves the maps and the error as AddAliases says: lowered aliases filed under the id until the first one already claimed |
| Qwen.PathEndings | backend/adapters/qwen3_0_6b.py:92-99 | a layer path ends in a digit, an attention path in 'n', an MLP path in 'p' |
| Qwen.LayerPath | backend/adapters/qwen3_0_6b.py:92-93 | `model.layers.<i>`; PathsDistinct and LayerPathDigits state its properties |
| Qwen.AttnPath | backend/adapters/qwen3_0_6b.py:95-96 | the layer path followed by `.self_attn`; PathsDistinct states its properties |
| Qwen.MlpPath | backend/adapters/qwen3_0_6b.py:98-99 | the layer path followed by `.mlp`; PathsDistinct states its properties |
| Qwen.PathsDistinct | backend/adapters/qwen3_0_6b.py:92-99 | each of the three path functions is injective in the layer index, and their ranges are pairwise disjoint |
| Qwen.LayerPathDigits | backend/adapters/qwen3_0_6b.py:93 | the layer path is "model.layers." followed by the decimal form of the index |
| Qwen.SlicePlanPath | backend/adapters/qwen3_0_6b.py:92-99 | registration k of the slice install goes to path k%3 of layer k/3 |
| Qwen.SlicePlanOnDistinctModules | backend/hooks.py:99-113 | no two registrations of the slice install target the same module |
| Qwen.InfoFacts | backend/adapters/qwen3_0_6b.py:17-30 | the adapter id is among its own aliases, the model has 28 layers, and its lowered aliases are distinct |
| Qwen.NoDeltas | backend/hooks.py:32 | a fresh delta list of n entries, all None |
| Qwen.RunDeltaCalls | backend/adapters/qwen3_0_6b.py:80-84 | the forward passes of generation leave the deltas as ReplayDeltas says |
| Qwen.RunSliceCalls | backend/adapters/qwen3_0_6b.py:116 | the forward pass leaves the captures as Replay says |
| Qwen.CaptureThenRemove | backend/adapters/qwen3_0_6b.py:115-122 | the hook table is restored whether or not the forward pass raises; if it returns, heat and bytes are those of the captures |
| Qwen.Adapter.constructor | backend/adapters/qwen3_0_6b.py:11-13 | a fresh adapter has no model and no tokenizer and is not loaded |
| Qwen.Adapter.Load | backend/adapters/qwen3_0_6b.py:32-48 | `load` raises exactly when one of its foreign steps does; a failed tokenizer fetch changes nothing, a failed network fetch leaves the tokenizer set and the model as it was, a failed move leaves the network stored, and only a load that returns leaves the adapter loaded with that network |
| Qwen.Adapter.Unload | backend/adapters/qwen3_0_6b.py:53-59 | after `unload`, the adapter is not loaded; the tokenizer is dropped only if it was loaded, and an unloaded adapter is unchanged |
| Qwen.Adapter.GenerateWithHooks | backend/adapters/qwen3_0_6b.py:74-90 | a missing layer path raises KeyError and leaves its hooks installed; otherwise the hook table is restored even when generation raises, and a normal return gives the text and the heat of the generated deltas |
| Qwen.Adapter.ForwardWithSlices | backend/adapters/qwen3_0_6b.py:101-133 | a tokeniser that raises leaves the hook table untouched, since it runs before `install`; a missing path raises KeyError and leaves its hooks installed; otherwise the hook table is restored even when the forward pass raises, generation runs with the hook table as before, and the result holds the heat and bytes of the captures |
| State.ServerState.constructor | backend/state.py:7-9 | a fresh state has no adapter and no id |
| State.ServerState.SetAdapter | backend/state.py:11-15 | the new pair is set; the old adapter is unloaded exactly when it exists and its id differs, and is untouched when the id is the same |
| State.ServerState.Clear | backend/state.py:17-21 | both fields become None and the old adapter, if any, is unloaded; on an empty state it unloads nothing |
| ModelsRoutes.ModelInfoRoute | backend/routes/models.py:55-60 | a 404 "Unknown model" exactly when the name does not resolve, otherwise the info of the class it resolves to |
| ModelsRoutes.LoadModel | backend/routes/models.py:25-52 | an unresolved name gets a 404 with the state unchanged; an active and loaded id gets "already loaded" with nothing changed; a `load` that raises propagates with the state and the previous adapter untouched; otherwise the new adapter is loaded and made active under the canonical id, the old one unloaded when its id differs |
| ModelsRoutes.LoadTwice | backend/routes/models.py:25-52 | once a load of a name has succeeded, loading it again answers "already loaded" and leaves the state as the first call left it |
| ModelsRoutes.ListModels | backend/routes/models.py:14-22 | entry k is the k-th class `list_all` returns (registration order), loaded exactly when its id is the active id, and at most one entry loaded |
| Ws.EncodeFrame | backend/routes/ws.py:98-115 | every frame starts with a 4-byte tag |
| Ws.FrameHeaders | backend/routes/ws.py:96-115 | the slice frame is `01 00 00 00` then the slice bytes unchanged; the projection frame starts `02 00 00 00` |
| Ws.ParseEncode | backend/routes/ws.py:98-115 | reading a frame back, splitting the projections at the announced token_proj_size, gives the frame sent |
| Ws.EncodeParse | backend/routes/ws.py:98-115 | every byte string that reads as a frame is exactly the encoding of that frame |
| Ws.TurnCases | backend/routes/ws.py:48-144 | invalid JSON, an unknown type (whatever its payload) and a request without a loaded model each get one error reply and run no inference; a message that is not an object, or an inference.run whose payload is not an object, raises out of the loop even with no model loaded; an inference that returns gets replies ending in inference.result and no error |
| Ws.Turn | backend/routes/ws.py:47-144 | one pass of the receive loop; TurnCases states its cases |
| Ws.InferenceReplies | backend/routes/ws.py:71-139 | the messages after a returned inference; SlicesReplyOrder states their order |
| Ws.Session | backend/routes/ws.py:43-147 | the replies and the ending over a sequence of events; SessionEnded and SessionExtends state its properties |
| Ws.SlicesReplyOrder | backend/routes/ws.py:79-139 | activation.frame, activation.slices, the 0x01 frame only when the slice bytes are non-empty, activation.projections and the 0x02 frame only when both projection buffers are non-empty, then inference.result; num_layers is `len(block_heat)`, num_stages is 6, and each frame reads back as its payload |
| Ws.NothingCapturedSendsNoFrames | backend/routes/ws.py:97-102 | with nothing captured, only activation.frame, activation.slices and inference.result are sent |
| Ws.QwenSlicesReplies | backend/routes/ws.py:79-139 | for the Qwen adapter activation.frame reports 28 layers; six messages go out when the first captured resid_pre has non-zero seq_len and d_model, three otherwise (also when only sub-layer outputs were captured) |
| Ws.SessionEnded | backend/routes/ws.py:146-147 | once the loop has left, later events change nothing |
| Ws.SessionExtends | backend/routes/ws.py:46-144 | while the loop runs, replies are only ever appended |
| Ws.RemoveFirst | backend/routes/ws.py:25 | `list.remove` drops one occurrence: length one less, same multiset minus the socket |
| Ws.RemoveAppended | backend/routes/ws.py:20-25 | disconnecting a socket that was just connected restores the list |
| Ws.ConnectionManager.constructor | backend/routes/ws.py:17-18 | the manager starts with no sockets |
| Ws.ConnectionManager.Connect | backend/routes/ws.py:20-22 | connecting appends the socket |
| Ws.ConnectionManager.Disconnect | backend/routes/ws.py:24-25 | disconnecting removes the first occurrence, or fails and changes nothing when the socket is absent |
| Ws.ConnectionManager.Endpoint | backend/routes/ws.py:42-147 | the endpoint sends exactly the replies of Session; the socket leaves the list on a client disconnect and stays on it when a turn raises |

## Left out

- Float numerics are not modelled: percentile normalisation, `np.linalg.norm`, `.mean()`, tensor subtraction, float32 rounding and the byte encoding of a float are uninterpreted functions constrained only by the lengths they return.
- PyTorch and transformers (forward hooks firing, `named_modules`, tokenizer, `generate`, `.to(device)`, `torch.cuda.empty_cache`) are foreign code: the hook calls a forward pass makes, the generated text, whether a forward pass or generation raises, and how the `from_pretrained` fetches and the move to the device end are inputs.
- FastAPI, WebSocket I/O, JSON encoding and decoding, `send_json`, `send_bytes` and `broadcast_json` are I/O; a received message is given already decoded and an outgoing message as a constructor; a `type` that is not a string (a number, a boolean, a list) is not modelled, so the unknown-type error prints only a string or `None`, not Python's form of other JSON values.
- `importlib`/`pkgutil` discovery in backend/adapters/__init__.py:61-72 is not modelled: the adapter classes found are given as a sequence of their infos, in discovery order.
- backend/main.py, backend/config.py and backend/routes/inference.py are not part of this model; `config.DEVICE` is a parameter.
- Text.Lower: lower-cases ASCII letters only; Python's `str.lower` also folds non-ASCII letters.
- Qwen.Adapter: one class stands for every adapter class, since the Qwen adapter is the only one in the repository; its `info()` is the constant `Qwen.Info`.
- Qwen.Adapter.GenerateWithHooks: `max_new_tokens` is passed through to generation and not modelled; whether generation raises is a flag.
- Qwen.Adapter.ForwardWithSlices: the text is a parameter, and a raise from the unhooked `generate` after the `finally` is not modelled; it also requires that all captures share the shape of the first resid_pre (the source assumes it when slicing the buffers).
- HookSpec.Serialize: stated under the same shape assumption; a capture of another shape, which would make numpy raise, is not modelled.
- Ws.ConnectionManager.Endpoint: whether the active adapter is loaded is given per event; a message that is not a JSON object, and an inference.run message whose payload is not an object, are the events that raise out of the loop (`Ws.Request.NotAnObject` and `Ws.Request.BadPayload`); with any other type a payload that is not an object gets the unknown-type error.
- HookSpec.AccumulatorsAgree: hook tensors are batch-one activations with the batch axis already dropped, so the slice accumulator's `inp[0]` squeeze and the delta accumulator's unsqueezed `out - inp` hold the same values; batches larger than one are not modelled.
- Concurrency between connections, and between the endpoint and the model routes, is not modelled.
- ModelsRoutes: the registry is passed in as a value satisfying `Registry.Valid`, the state `discover` leaves behind.
