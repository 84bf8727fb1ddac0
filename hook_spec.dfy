/** What the activation accumulators of backend/hooks.py capture and what
    `ActivationSliceAccumulator.normalize_and_serialize` produces from it, as functions of
    the captured tensors; the classes in module Hooks are proved against these. */
module HookSpec {
  import opened Wrappers
  import opened Bytes
  import opened Tensors
  import opened Layout
  import opened TorchModel

  /** Stage order within a layer; NumSlices (6) is its length. */
  const SliceNames: seq<string> := ["resid_pre", "attn_out", "delta_attn", "mlp_out", "delta_mlp", "resid_post"]

  /** The module paths an adapter reports for layer i. */
  datatype PathScheme = PathScheme(layer: nat -> string, attn: nat -> string, mlp: nat -> string)

  // ----- What the hooks capture -----

  /** The four per-layer capture lists of ActivationSliceAccumulator. */
  datatype Slots = Slots(
    residPre: seq<Option<Tensor>>,
    attnOut: seq<Option<Tensor>>,
    mlpOut: seq<Option<Tensor>>,
    residPost: seq<Option<Tensor>>)

  predicate SlotsFor(s: Slots, n: nat) {
    |s.residPre| == n && |s.attnOut| == n && |s.mlpOut| == n && |s.residPost| == n
  }

  function EmptySlots(n: nat): (s: Slots)
    ensures SlotsFor(s, n)
    ensures forall i :: 0 <= i < n ==> s.residPre[i].None? && s.attnOut[i].None? && s.mlpOut[i].None? && s.residPost[i].None?
  {
    var none := seq(n, _ => None);
    Slots(none, none, none, none)
  }

  /** One invocation of a hook closure by the forward pass: the layer hook sees the
      layer's input and output, the attention and MLP hooks their module's output. */
  datatype SliceCall =
    | LayerCall(layer: nat, input: Tensor, output: Tensor)
    | AttnCall(layer: nat, output: Tensor)
    | MlpCall(layer: nat, output: Tensor)

  /** The effect of one hook invocation: the closure made for layer i writes slot i of its
      own lists, and nothing else changes. */
  function ApplyCall(s: Slots, c: SliceCall): (r: Slots)
    requires SlotsFor(s, |s.residPre|) && c.layer < |s.residPre|
    ensures SlotsFor(r, |s.residPre|)
    ensures forall i :: 0 <= i < |s.residPre| && i != c.layer ==>
      r.residPre[i] == s.residPre[i] && r.attnOut[i] == s.attnOut[i] &&
      r.mlpOut[i] == s.mlpOut[i] && r.residPost[i] == s.residPost[i]
    ensures c.LayerCall? ==> r.residPre[c.layer] == Some(c.input) && r.residPost[c.layer] == Some(c.output)
                              && r.attnOut == s.attnOut && r.mlpOut == s.mlpOut
    ensures c.AttnCall? ==> r.attnOut[c.layer] == Some(c.output)
                             && r.residPre == s.residPre && r.mlpOut == s.mlpOut && r.residPost == s.residPost
    ensures c.MlpCall? ==> r.mlpOut[c.layer] == Some(c.output)
                            && r.residPre == s.residPre && r.attnOut == s.attnOut && r.residPost == s.residPost
  {
    match c
    case LayerCall(i, input, output) =>
      s.(residPre := s.residPre[i := Some(input)], residPost := s.residPost[i := Some(output)])
    case AttnCall(i, output) => s.(attnOut := s.attnOut[i := Some(output)])
    case MlpCall(i, output) => s.(mlpOut := s.mlpOut[i := Some(output)])
  }

  predicate CallsWithin(calls: seq<SliceCall>, n: nat) {
    forall k :: 0 <= k < |calls| ==> calls[k].layer < n
  }

  /** The lists after the forward pass made the given hook calls, in order. */
  function Replay(s: Slots, calls: seq<SliceCall>): (r: Slots)
    requires SlotsFor(s, |s.residPre|) && CallsWithin(calls, |s.residPre|)
    ensures SlotsFor(r, |s.residPre|)
    decreases |calls|
  {
    if calls == [] then s else ApplyCall(Replay(s, calls[..|calls| - 1]), calls[|calls| - 1])
  }

  /** A layer's resid_pre slot is empty after a forward pass exactly when no layer hook
      call for that layer was made. */
  lemma {:induction false} ReplayPreCaptured(n: nat, calls: seq<SliceCall>, i: nat)
    requires CallsWithin(calls, n) && i < n
    ensures Replay(EmptySlots(n), calls).residPre[i].Some? <==>
            exists k :: 0 <= k < |calls| && calls[k].LayerCall? && calls[k].layer == i
    decreases |calls|
  {
    if calls != [] {
      var init := calls[..|calls| - 1];
      ReplayPreCaptured(n, init, i);
      var last := calls[|calls| - 1];
      if exists k :: 0 <= k < |calls| && calls[k].LayerCall? && calls[k].layer == i {
        var k :| 0 <= k < |calls| && calls[k].LayerCall? && calls[k].layer == i;
        if k < |calls| - 1 {
          assert init[k] == calls[k];
        }
      } else {
        forall k | 0 <= k < |init| ensures !(init[k].LayerCall? && init[k].layer == i) {
          assert init[k] == calls[k];
        }
      }
    }
  }

  // ----- Dimensions and shapes -----

  /** `seq_len, d_model` of the first layer whose resid_pre was captured; (0, 0) if none was. */
  function FirstDims(pre: seq<Option<Tensor>>): (d: (nat, nat))
    ensures (forall i :: 0 <= i < |pre| ==> pre[i].None?) ==> d == (0, 0)
    ensures forall i :: 0 <= i < |pre| && pre[i].Some? && (forall k :: 0 <= k < i ==> pre[k].None?) ==>
              d == (pre[i].value.rows, pre[i].value.cols)
    decreases |pre|
  {
    if pre == [] then (0, 0)
    else if pre[0].Some? then (pre[0].value.rows, pre[0].value.cols)
    else
      assert forall i :: 1 <= i < |pre| ==> pre[1..][i - 1] == pre[i];
      FirstDims(pre[1..])
  }

  predicate SlotShaped(t: Option<Tensor>, r: nat, c: nat) {
    t.Some? ==> HasShape(t.value, r, c)
  }

  /** Every captured tensor has shape [r, c]. */
  predicate AllShaped(s: Slots, r: nat, c: nat) {
    && SlotsFor(s, |s.residPre|)
    && forall i :: 0 <= i < |s.residPre| ==>
         SlotShaped(s.residPre[i], r, c) && SlotShaped(s.attnOut[i], r, c) &&
         SlotShaped(s.mlpOut[i], r, c) && SlotShaped(s.residPost[i], r, c)
  }

  /** The assumption normalize_and_serialize makes of one forward pass: when something
      was captured, every capture has the shape of the first resid_pre. */
  predicate ShapesAgree(s: Slots) {
    var d := FirstDims(s.residPre);
    d.0 > 0 && d.1 > 0 ==> AllShaped(s, d.0, d.1)
  }

  // ----- The six stages of a layer -----

  /** A missing capture contributes the zero tensor of the common shape. */
  function OrZeros(t: Option<Tensor>, r: nat, c: nat): Tensor {
    if t.Some? then t.value else Zeros(r, c)
  }

  /** The stage tensors of one layer, in SliceNames order: delta_attn is the attention
      output itself, delta_mlp is resid_post - resid_pre - attn_out. */
  function StageTensors(nm: Numerics, s: Slots, layer: nat, r: nat, c: nat): (ts: seq<Tensor>)
    requires SlotsFor(s, |s.residPre|) && layer < |s.residPre|
    ensures |ts| == NumSlices
  {
    var pre := OrZeros(s.residPre[layer], r, c);
    var attn := OrZeros(s.attnOut[layer], r, c);
    var mlp := OrZeros(s.mlpOut[layer], r, c);
    var post := OrZeros(s.residPost[layer], r, c);
    [pre, attn, attn, mlp, nm.sub(nm.sub(post, pre), attn), post]
  }

  lemma StageShapes(nm: Numerics, s: Slots, layer: nat, r: nat, c: nat)
    requires WellBehaved(nm) && AllShaped(s, r, c) && layer < |s.residPre|
    ensures forall k :: 0 <= k < NumSlices ==> HasShape(StageTensors(nm, s, layer, r, c)[k], r, c)
  {
    var ts := StageTensors(nm, s, layer, r, c);
    assert SlotShaped(s.residPre[layer], r, c) && SlotShaped(s.attnOut[layer], r, c);
    assert SlotShaped(s.mlpOut[layer], r, c) && SlotShaped(s.residPost[layer], r, c);
    SubKeepsShape(nm, ts[5], ts[0], r, c);
    SubKeepsShape(nm, nm.sub(ts[5], ts[0]), ts[1], r, c);
  }

  // ----- The three buffers -----

  /** Block b of the slice buffer: stage b % 6 of layer b / 6, percentile-normalised and flattened. */
  function SliceBlocks(nm: Numerics, s: Slots, r: nat, c: nat): (bs: seq<seq<real>>)
    requires SlotsFor(s, |s.residPre|)
    ensures |bs| == |s.residPre| * NumSlices
  {
    seq(|s.residPre| * NumSlices, b requires 0 <= b < |s.residPre| * NumSlices =>
      nm.normalize(StageTensors(nm, s, b / NumSlices, r, c)[b % NumSlices].data))
  }

  /** Block b of the token-projection buffer: per-position L2 norms of the stage, normalised. */
  function TokenBlocks(nm: Numerics, s: Slots, r: nat, c: nat): (bs: seq<seq<real>>)
    requires SlotsFor(s, |s.residPre|)
    ensures |bs| == |s.residPre| * NumSlices
  {
    seq(|s.residPre| * NumSlices, b requires 0 <= b < |s.residPre| * NumSlices =>
      nm.normalize(nm.rowNorms(StageTensors(nm, s, b / NumSlices, r, c)[b % NumSlices])))
  }

  /** Block b of the dimension-projection buffer: per-feature L2 norms of the stage, normalised. */
  function DimBlocks(nm: Numerics, s: Slots, r: nat, c: nat): (bs: seq<seq<real>>)
    requires SlotsFor(s, |s.residPre|)
    ensures |bs| == |s.residPre| * NumSlices
  {
    seq(|s.residPre| * NumSlices, b requires 0 <= b < |s.residPre| * NumSlices =>
      nm.normalize(nm.colNorms(StageTensors(nm, s, b / NumSlices, r, c)[b % NumSlices])))
  }

  lemma BlocksUniform(nm: Numerics, s: Slots, r: nat, c: nat)
    requires WellBehaved(nm) && AllShaped(s, r, c)
    ensures Uniform(SliceBlocks(nm, s, r, c), r * c)
    ensures Uniform(TokenBlocks(nm, s, r, c), r)
    ensures Uniform(DimBlocks(nm, s, r, c), c)
  {
    forall b | 0 <= b < |s.residPre| * NumSlices
      ensures |SliceBlocks(nm, s, r, c)[b]| == r * c
      ensures |TokenBlocks(nm, s, r, c)[b]| == r
      ensures |DimBlocks(nm, s, r, c)[b]| == c
    {
      StageShapes(nm, s, b / NumSlices, r, c);
    }
  }

  datatype SliceMeta = SliceMeta(sliceTypes: seq<string>, numLayers: nat, seqLen: nat, dModel: nat)

  /** `(slice_bytes, metadata, token_proj_bytes, dim_proj_bytes)`. */
  datatype Serialized = Serialized(slices: seq<byte>, meta: SliceMeta, tokenProj: seq<byte>, dimProj: seq<byte>)

  /** What normalize_and_serialize returns for the given captures. */
  function Serialize(nm: Numerics, s: Slots): (out: Serialized)
    requires SlotsFor(s, |s.residPre|)
    ensures out.meta.numLayers == |s.residPre| && out.meta.sliceTypes == SliceNames
    ensures out.meta.seqLen == 0 <==> out.meta.dModel == 0
    ensures out.meta.seqLen > 0 ==> (out.meta.seqLen, out.meta.dModel) == FirstDims(s.residPre)
  {
    var d := FirstDims(s.residPre);
    var r, c := d.0, d.1;
    if r == 0 || c == 0 then
      Serialized([], SliceMeta(SliceNames, |s.residPre|, 0, 0), [], [])
    else
      Serialized(ToBytes(nm.encode, Concat(SliceBlocks(nm, s, r, c))),
                 SliceMeta(SliceNames, |s.residPre|, r, c),
                 ToBytes(nm.encode, Concat(TokenBlocks(nm, s, r, c))),
                 ToBytes(nm.encode, Concat(DimBlocks(nm, s, r, c))))
  }

  /** When no layer captured resid_pre, all three byte strings are empty and the metadata
      reports seq_len = d_model = 0. */
  lemma NothingCapturedIsEmpty(nm: Numerics, s: Slots)
    requires SlotsFor(s, |s.residPre|)
    requires forall i :: 0 <= i < |s.residPre| ==> s.residPre[i].None?
    ensures Serialize(nm, s) == Serialized([], SliceMeta(SliceNames, |s.residPre|, 0, 0), [], [])
  {
  }

  /** Sizes: `num_layers * 6 * seq_len * d_model` floats of slices, `num_layers * 6 * seq_len`
      of token projections and `num_layers * 6 * d_model` of dimension projections, four bytes each;
      the metadata reports the dimensions of the first captured resid_pre. */
  lemma SerializedSizes(nm: Numerics, s: Slots)
    requires WellBehaved(nm) && SlotsFor(s, |s.residPre|) && ShapesAgree(s)
    ensures var out := Serialize(nm, s);
      && out.meta.numLayers == |s.residPre| && out.meta.sliceTypes == SliceNames
      && |out.slices| == 4 * (|s.residPre| * NumSlices * (out.meta.seqLen * out.meta.dModel))
      && |out.tokenProj| == 4 * (|s.residPre| * NumSlices * out.meta.seqLen)
      && |out.dimProj| == 4 * (|s.residPre| * NumSlices * out.meta.dModel)
  {
    var d := FirstDims(s.residPre);
    var r, c := d.0, d.1;
    if r > 0 && c > 0 {
      BlocksUniform(nm, s, r, c);
      var sb, tb, db := SliceBlocks(nm, s, r, c), TokenBlocks(nm, s, r, c), DimBlocks(nm, s, r, c);
      ConcatLength(sb, r * c);
      ConcatLength(tb, r);
      ConcatLength(db, c);
      ToBytesLength(nm.encode, Concat(sb));
      ToBytesLength(nm.encode, Concat(tb));
      ToBytesLength(nm.encode, Concat(db));
    } else {
      assert Serialize(nm, s).meta.seqLen * Serialize(nm, s).meta.dModel == 0;
    }
  }

  /** The float contents of the three buffers before `tobytes`. */
  function SliceFloats(nm: Numerics, s: Slots): seq<real>
    requires SlotsFor(s, |s.residPre|)
  {
    var d := FirstDims(s.residPre);
    Concat(SliceBlocks(nm, s, d.0, d.1))
  }

  function TokenFloats(nm: Numerics, s: Slots): seq<real>
    requires SlotsFor(s, |s.residPre|)
  {
    var d := FirstDims(s.residPre);
    Concat(TokenBlocks(nm, s, d.0, d.1))
  }

  function DimFloats(nm: Numerics, s: Slots): seq<real>
    requires SlotsFor(s, |s.residPre|)
  {
    var d := FirstDims(s.residPre);
    Concat(DimBlocks(nm, s, d.0, d.1))
  }

  /** Block (L, S) of the slice buffer is stage S of layer L normalised, seq_len * d_model long. */
  lemma SliceStageBlock(nm: Numerics, s: Slots, r: nat, c: nat, layer: nat, stage: nat)
    requires WellBehaved(nm) && AllShaped(s, r, c) && layer < |s.residPre| && stage < NumSlices
    ensures BlockIndex(layer, stage) < |SliceBlocks(nm, s, r, c)|
    ensures SliceBlocks(nm, s, r, c)[BlockIndex(layer, stage)] == nm.normalize(StageTensors(nm, s, layer, r, c)[stage].data)
    ensures |nm.normalize(StageTensors(nm, s, layer, r, c)[stage].data)| == r * c
  {
    BlockIndexBijective(|s.residPre|, layer, stage, BlockIndex(layer, stage));
    StageShapes(nm, s, layer, r, c);
  }

  /** Block (L, S) of the projection buffers: the normalised row norms (seq_len long) and column
      norms (d_model long) of stage S of layer L. */
  lemma ProjectionStageBlocks(nm: Numerics, s: Slots, r: nat, c: nat, layer: nat, stage: nat)
    requires WellBehaved(nm) && AllShaped(s, r, c) && layer < |s.residPre| && stage < NumSlices
    ensures BlockIndex(layer, stage) < |TokenBlocks(nm, s, r, c)| && BlockIndex(layer, stage) < |DimBlocks(nm, s, r, c)|
    ensures TokenBlocks(nm, s, r, c)[BlockIndex(layer, stage)] == nm.normalize(nm.rowNorms(StageTensors(nm, s, layer, r, c)[stage]))
    ensures DimBlocks(nm, s, r, c)[BlockIndex(layer, stage)] == nm.normalize(nm.colNorms(StageTensors(nm, s, layer, r, c)[stage]))
    ensures |nm.normalize(nm.rowNorms(StageTensors(nm, s, layer, r, c)[stage]))| == r
    ensures |nm.normalize(nm.colNorms(StageTensors(nm, s, layer, r, c)[stage]))| == c
  {
    BlockIndexBijective(|s.residPre|, layer, stage, BlockIndex(layer, stage));
    StageShapes(nm, s, layer, r, c);
  }

  /** Block (L, S) of the slice buffer starts at `(L * 6 + S) * seq_len * d_model` and holds
      stage S of layer L, percentile-normalised and flattened. */
  lemma SliceBlockContents(nm: Numerics, s: Slots, r: nat, c: nat, layer: nat, stage: nat)
    requires WellBehaved(nm) && SlotsFor(s, |s.residPre|) && ShapesAgree(s)
    requires FirstDims(s.residPre) == (r, c) && r > 0 && c > 0
    requires layer < |s.residPre| && stage < NumSlices
    ensures SliceOffset(layer, stage, r, c) + r * c <= |SliceFloats(nm, s)|
    ensures SliceFloats(nm, s)[SliceOffset(layer, stage, r, c) .. SliceOffset(layer, stage, r, c) + r * c]
         == nm.normalize(StageTensors(nm, s, layer, r, c)[stage].data)
  {
    var b := BlockIndex(layer, stage);
    assert AllShaped(s, r, c);
    SliceStageBlock(nm, s, r, c, layer, stage);
    OffsetsAreBlockStarts(layer, stage, r, c);
    BlocksUniform(nm, s, r, c);
    ConcatBlock(SliceBlocks(nm, s, r, c), r * c, b);
  }

  /** Block (L, S) of the token-projection buffer starts at `L * 6 * seq_len + S * seq_len`
      and holds the normalised per-position norms of stage S of layer L. */
  lemma TokenBlockContents(nm: Numerics, s: Slots, r: nat, c: nat, layer: nat, stage: nat)
    requires WellBehaved(nm) && SlotsFor(s, |s.residPre|) && ShapesAgree(s)
    requires FirstDims(s.residPre) == (r, c) && r > 0 && c > 0
    requires layer < |s.residPre| && stage < NumSlices
    ensures TokenOffset(layer, stage, r) + r <= |TokenFloats(nm, s)|
    ensures TokenFloats(nm, s)[TokenOffset(layer, stage, r) .. TokenOffset(layer, stage, r) + r]
         == nm.normalize(nm.rowNorms(StageTensors(nm, s, layer, r, c)[stage]))
  {
    var b := BlockIndex(layer, stage);
    assert AllShaped(s, r, c);
    ProjectionStageBlocks(nm, s, r, c, layer, stage);
    OffsetsAreBlockStarts(layer, stage, r, c);
    BlocksUniform(nm, s, r, c);
    ConcatBlock(TokenBlocks(nm, s, r, c), r, b);
  }

  /** Block (L, S) of the dimension-projection buffer starts at `L * 6 * d_model + S * d_model`
      and holds the normalised per-feature norms of stage S of layer L. */
  lemma DimBlockContents(nm: Numerics, s: Slots, r: nat, c: nat, layer: nat, stage: nat)
    requires WellBehaved(nm) && SlotsFor(s, |s.residPre|) && ShapesAgree(s)
    requires FirstDims(s.residPre) == (r, c) && r > 0 && c > 0
    requires layer < |s.residPre| && stage < NumSlices
    ensures DimOffset(layer, stage, c) + c <= |DimFloats(nm, s)|
    ensures DimFloats(nm, s)[DimOffset(layer, stage, c) .. DimOffset(layer, stage, c) + c]
         == nm.normalize(nm.colNorms(StageTensors(nm, s, layer, r, c)[stage]))
  {
    var b := BlockIndex(layer, stage);
    assert AllShaped(s, r, c);
    ProjectionStageBlocks(nm, s, r, c, layer, stage);
    OffsetsAreBlockStarts(layer, stage, r, c);
    BlocksUniform(nm, s, r, c);
    ConcatBlock(DimBlocks(nm, s, r, c), c, b);
  }

  /** Outside the empty case the three byte strings encode the three float buffers. */
  lemma SerializedEncodes(nm: Numerics, s: Slots)
    requires SlotsFor(s, |s.residPre|) && FirstDims(s.residPre).0 > 0 && FirstDims(s.residPre).1 > 0
    ensures Serialize(nm, s).slices == ToBytes(nm.encode, SliceFloats(nm, s))
    ensures Serialize(nm, s).tokenProj == ToBytes(nm.encode, TokenFloats(nm, s))
    ensures Serialize(nm, s).dimProj == ToBytes(nm.encode, DimFloats(nm, s))
  {
  }

  /** The returned slice bytes, end to end: the four bytes of float
      `k = (L * 6 + S) * seq_len * d_model + j` are the float32 encoding of element j of
      stage S of layer L, normalised. */
  lemma SliceBytesAt(nm: Numerics, s: Slots, r: nat, c: nat, layer: nat, stage: nat, j: nat, k: nat)
    requires WellBehaved(nm) && SlotsFor(s, |s.residPre|) && ShapesAgree(s)
    requires FirstDims(s.residPre) == (r, c) && r > 0 && c > 0
    requires layer < |s.residPre| && stage < NumSlices && j < r * c && k == SliceOffset(layer, stage, r, c) + j
    ensures var block := nm.normalize(StageTensors(nm, s, layer, r, c)[stage].data);
      && j < |block| && 4 * k + 4 <= |Serialize(nm, s).slices|
      && Serialize(nm, s).slices[4 * k .. 4 * k + 4] == nm.encode(block[j])
  {
    var o, xs, block := SliceOffset(layer, stage, r, c), SliceFloats(nm, s), nm.normalize(StageTensors(nm, s, layer, r, c)[stage].data);
    SliceBlockContents(nm, s, r, c, layer, stage);
    SerializedEncodes(nm, s);
    ToBytesBlockAt(nm.encode, xs, Serialize(nm, s).slices, o, block, j, k);
  }

  /** The returned token-projection bytes, end to end: the four bytes of float
      `k = L * 6 * seq_len + S * seq_len + j` encode the normalised norm of position j of stage S
      of layer L. */
  lemma TokenBytesAt(nm: Numerics, s: Slots, r: nat, c: nat, layer: nat, stage: nat, j: nat, k: nat)
    requires WellBehaved(nm) && SlotsFor(s, |s.residPre|) && ShapesAgree(s)
    requires FirstDims(s.residPre) == (r, c) && r > 0 && c > 0
    requires layer < |s.residPre| && stage < NumSlices && j < r && k == TokenOffset(layer, stage, r) + j
    ensures var block := nm.normalize(nm.rowNorms(StageTensors(nm, s, layer, r, c)[stage]));
      && j < |block| && 4 * k + 4 <= |Serialize(nm, s).tokenProj|
      && Serialize(nm, s).tokenProj[4 * k .. 4 * k + 4] == nm.encode(block[j])
  {
    var o, xs, block := TokenOffset(layer, stage, r), TokenFloats(nm, s), nm.normalize(nm.rowNorms(StageTensors(nm, s, layer, r, c)[stage]));
    TokenBlockContents(nm, s, r, c, layer, stage);
    SerializedEncodes(nm, s);
    ToBytesBlockAt(nm.encode, xs, Serialize(nm, s).tokenProj, o, block, j, k);
  }

  /** The returned dimension-projection bytes, end to end: the four bytes of float
      `k = L * 6 * d_model + S * d_model + j` encode the normalised norm of feature j of stage S
      of layer L. */
  lemma DimBytesAt(nm: Numerics, s: Slots, r: nat, c: nat, layer: nat, stage: nat, j: nat, k: nat)
    requires WellBehaved(nm) && SlotsFor(s, |s.residPre|) && ShapesAgree(s)
    requires FirstDims(s.residPre) == (r, c) && r > 0 && c > 0
    requires layer < |s.residPre| && stage < NumSlices && j < c && k == DimOffset(layer, stage, c) + j
    ensures var block := nm.normalize(nm.colNorms(StageTensors(nm, s, layer, r, c)[stage]));
      && j < |block| && 4 * k + 4 <= |Serialize(nm, s).dimProj|
      && Serialize(nm, s).dimProj[4 * k .. 4 * k + 4] == nm.encode(block[j])
  {
    var o, xs, block := DimOffset(layer, stage, c), DimFloats(nm, s), nm.normalize(nm.colNorms(StageTensors(nm, s, layer, r, c)[stage]));
    DimBlockContents(nm, s, r, c, layer, stage);
    SerializedEncodes(nm, s);
    ToBytesBlockAt(nm.encode, xs, Serialize(nm, s).dimProj, o, block, j, k);
  }

  /** Blocks (L, 1) and (L, 2) of the concatenated slice blocks are equal. */
  lemma AttnBlocksEqual(nm: Numerics, s: Slots, r: nat, c: nat, layer: nat, o1: nat, o2: nat)
    requires WellBehaved(nm) && AllShaped(s, r, c) && layer < |s.residPre|
    requires o1 == SliceOffset(layer, 1, r, c) && o2 == SliceOffset(layer, 2, r, c)
    ensures o1 + r * c <= |Concat(SliceBlocks(nm, s, r, c))| && o2 + r * c <= |Concat(SliceBlocks(nm, s, r, c))|
    ensures Concat(SliceBlocks(nm, s, r, c))[o1 .. o1 + r * c] == Concat(SliceBlocks(nm, s, r, c))[o2 .. o2 + r * c]
  {
    var ts := StageTensors(nm, s, layer, r, c);
    assert ts[1] == ts[2];
    SliceStageBlock(nm, s, r, c, layer, 1);
    SliceStageBlock(nm, s, r, c, layer, 2);
    BlocksUniform(nm, s, r, c);
    OffsetsAreBlockStarts(layer, 1, r, c);
    OffsetsAreBlockStarts(layer, 2, r, c);
    ConcatSameBlocks(SliceBlocks(nm, s, r, c), r * c, BlockIndex(layer, 1), BlockIndex(layer, 2), o1, o2);
  }

  /** delta_attn is the attention output itself, so for any normaliser blocks (L, 1) and
      (L, 2) of the slice buffer hold the same floats. */
  lemma DeltaAttnDuplicatesAttnOut(nm: Numerics, s: Slots, r: nat, c: nat, layer: nat)
    requires WellBehaved(nm) && SlotsFor(s, |s.residPre|) && ShapesAgree(s)
    requires FirstDims(s.residPre) == (r, c) && r > 0 && c > 0 && layer < |s.residPre|
    ensures SliceOffset(layer, 1, r, c) + r * c <= |SliceFloats(nm, s)|
    ensures SliceOffset(layer, 2, r, c) + r * c <= |SliceFloats(nm, s)|
    ensures SliceFloats(nm, s)[SliceOffset(layer, 1, r, c) .. SliceOffset(layer, 1, r, c) + r * c]
         == SliceFloats(nm, s)[SliceOffset(layer, 2, r, c) .. SliceOffset(layer, 2, r, c) + r * c]
  {
    var o1, o2 := SliceOffset(layer, 1, r, c), SliceOffset(layer, 2, r, c);
    assert AllShaped(s, r, c);
    AttnBlocksEqual(nm, s, r, c, layer, o1, o2);
  }

  /** The capture a stage is built from directly: resid_pre for stage 0, attn_out for
      stages 1 and 2, mlp_out for stage 3, resid_post for stage 5 (delta_mlp, stage 4, is
      computed from three captures). */
  function CaptureOf(s: Slots, layer: nat, stage: nat): Option<Tensor>
    requires SlotsFor(s, |s.residPre|) && layer < |s.residPre| && stage < NumSlices && stage != 4
  {
    if stage == 0 then s.residPre[layer]
    else if stage <= 2 then s.attnOut[layer]
    else if stage == 3 then s.mlpOut[layer]
    else s.residPost[layer]
  }

  /** A capture slot that is still None is replaced by the zero tensor of the common shape:
      the stage blocks it feeds are the normalisation of all zeros. */
  lemma MissingCaptureIsZeros(nm: Numerics, s: Slots, r: nat, c: nat, layer: nat, stage: nat)
    requires WellBehaved(nm) && SlotsFor(s, |s.residPre|) && ShapesAgree(s)
    requires FirstDims(s.residPre) == (r, c) && r > 0 && c > 0
    requires layer < |s.residPre| && stage < NumSlices && stage != 4
    requires CaptureOf(s, layer, stage).None?
    ensures SliceOffset(layer, stage, r, c) + r * c <= |SliceFloats(nm, s)|
    ensures SliceFloats(nm, s)[SliceOffset(layer, stage, r, c) .. SliceOffset(layer, stage, r, c) + r * c]
         == nm.normalize(Zeros(r, c).data)
  {
    SliceBlockContents(nm, s, r, c, layer, stage);
  }

  // ----- Block heat -----

  /** Entry of `ActivationSliceAccumulator.compute_block_heat` for one layer: the mean
      per-position norm of resid_post - resid_pre when both were captured, else 0.0. */
  function LayerHeat(nm: Numerics, pre: Option<Tensor>, post: Option<Tensor>): real {
    if pre.Some? && post.Some? then nm.meanRowNorm(nm.sub(post.value, pre.value)) else 0.0
  }

  function BlockHeat(nm: Numerics, s: Slots): (h: seq<real>)
    requires SlotsFor(s, |s.residPre|)
    ensures |h| == |s.residPre|
  {
    seq(|s.residPre|, i requires 0 <= i < |s.residPre| => LayerHeat(nm, s.residPre[i], s.residPost[i]))
  }

  /** One entry per layer; a layer missing resid_pre or resid_post reads 0.0. */
  lemma BlockHeatShape(nm: Numerics, s: Slots)
    requires SlotsFor(s, |s.residPre|)
    ensures |BlockHeat(nm, s)| == |s.residPre|
    ensures forall i :: 0 <= i < |s.residPre| && (s.residPre[i].None? || s.residPost[i].None?) ==>
              BlockHeat(nm, s)[i] == 0.0
  {
  }

  /** After a forward pass, a layer whose layer hook never ran reads 0.0. */
  lemma UnvisitedLayerIsCold(nm: Numerics, n: nat, calls: seq<SliceCall>, i: nat)
    requires CallsWithin(calls, n) && i < n
    requires forall k :: 0 <= k < |calls| ==> !(calls[k].LayerCall? && calls[k].layer == i)
    ensures BlockHeat(nm, Replay(EmptySlots(n), calls))[i] == 0.0
  {
    ReplayPreCaptured(n, calls, i);
  }

  /** Only the layer hook feeds block heat: the attention and MLP hooks leave it unchanged. */
  lemma SublayerHooksKeepHeat(nm: Numerics, s: Slots, c: SliceCall)
    requires SlotsFor(s, |s.residPre|) && c.layer < |s.residPre| && !c.LayerCall?
    ensures BlockHeat(nm, ApplyCall(s, c)) == BlockHeat(nm, s)
  {
  }

  // ----- The residual-delta accumulator -----

  /** `ActivationAccumulator`'s hook for layer i stores output - input in slot i. */
  function ApplyDelta(nm: Numerics, deltas: seq<Option<Tensor>>, layer: nat, input: Tensor, output: Tensor): (r: seq<Option<Tensor>>)
    requires layer < |deltas|
    ensures |r| == |deltas|
    ensures r[layer] == Some(nm.sub(output, input))
    ensures forall i :: 0 <= i < |deltas| && i != layer ==> r[i] == deltas[i]
  {
    deltas[layer := Some(nm.sub(output, input))]
  }

  /** One invocation of `ActivationAccumulator`'s hook by the forward pass: the layer's
      input and output. */
  datatype DeltaCall = DeltaCall(layer: nat, input: Tensor, output: Tensor)

  predicate DeltaCallsWithin(calls: seq<DeltaCall>, n: nat) {
    forall k :: 0 <= k < |calls| ==> calls[k].layer < n
  }

  /** The delta list after the forward pass made the given hook calls, in order. */
  function ReplayDeltas(nm: Numerics, deltas: seq<Option<Tensor>>, calls: seq<DeltaCall>): (r: seq<Option<Tensor>>)
    requires DeltaCallsWithin(calls, |deltas|)
    ensures |r| == |deltas|
    decreases |calls|
  {
    if calls == [] then deltas
    else
      var c := calls[|calls| - 1];
      ApplyDelta(nm, ReplayDeltas(nm, deltas, calls[..|calls| - 1]), c.layer, c.input, c.output)
  }

  /** A layer whose hook never ran keeps its slot. */
  lemma {:induction false} ReplayDeltasUntouched(nm: Numerics, deltas: seq<Option<Tensor>>, calls: seq<DeltaCall>, i: nat)
    requires DeltaCallsWithin(calls, |deltas|) && i < |deltas|
    requires forall k :: 0 <= k < |calls| ==> calls[k].layer != i
    ensures ReplayDeltas(nm, deltas, calls)[i] == deltas[i]
    decreases |calls|
  {
    if calls != [] {
      var init := calls[..|calls| - 1];
      assert forall k :: 0 <= k < |init| ==> init[k] == calls[k];
      ReplayDeltasUntouched(nm, deltas, init, i);
    }
  }

  /** After generation, a layer whose hook never ran reads 0.0. */
  lemma {:induction false} UnvisitedDeltaLayerIsCold(nm: Numerics, n: nat, calls: seq<DeltaCall>, i: nat)
    requires DeltaCallsWithin(calls, n) && i < n
    requires forall k :: 0 <= k < |calls| ==> calls[k].layer != i
    ensures DeltaHeat(nm, ReplayDeltas(nm, seq(n, _ => None), calls))[i] == 0.0
  {
    ReplayDeltasUntouched(nm, seq(n, _ => None), calls, i);
  }

  /** `ActivationAccumulator.compute_block_heat`: mean per-position norm of each stored delta, 0.0 for a
      missing one. */
  function DeltaHeat(nm: Numerics, deltas: seq<Option<Tensor>>): (h: seq<real>)
    ensures |h| == |deltas|
    ensures forall i :: 0 <= i < |deltas| && deltas[i].None? ==> h[i] == 0.0
  {
    seq(|deltas|, i requires 0 <= i < |deltas| => if deltas[i].Some? then nm.meanRowNorm(deltas[i].value) else 0.0)
  }

  /** The two accumulators agree: once layer i's hook has seen the same input and output,
      both report the same heat for layer i. Both sides are the mean row norm of
      `output - input` by definition. The hook tensors here are batch-one activations with
      the batch axis dropped, so the slice accumulator's `inp[0]` and the delta accumulator's
      unsqueezed `out - inp` carry the same values, and a mean over one batch entry is the
      mean over positions. Larger batches are not modelled. */
  lemma AccumulatorsAgree(nm: Numerics, deltas: seq<Option<Tensor>>, s: Slots, layer: nat, input: Tensor, output: Tensor)
    requires SlotsFor(s, |s.residPre|) && layer < |s.residPre| && layer < |deltas|
    ensures DeltaHeat(nm, ApplyDelta(nm, deltas, layer, input, output))[layer]
         == BlockHeat(nm, ApplyCall(s, LayerCall(layer, input, output)))[layer]
  {
  }
}
