/** The flat float32 layout of `normalize_and_serialize`: a buffer is the concatenation of
    `num_layers * 6` equally long blocks, block (L, S) at block index `L * 6 + S`. */
module Layout {

  /** Number of stages per layer: resid_pre, attn_out, delta_attn, mlp_out, delta_mlp, resid_post. */
  const NumSlices: nat := 6

  /** Blocks laid end to end, in order (how `buf[offset:offset + n] = block` fills a buffer
      when offsets advance by n). */
  function Concat<T>(blocks: seq<seq<T>>): seq<T>
    decreases |blocks|
  {
    if blocks == [] then [] else Concat(blocks[..|blocks| - 1]) + blocks[|blocks| - 1]
  }

  predicate Uniform<T>(blocks: seq<seq<T>>, n: nat) {
    forall b :: 0 <= b < |blocks| ==> |blocks[b]| == n
  }

  lemma {:induction false} ConcatLength<T>(blocks: seq<seq<T>>, n: nat)
    requires Uniform(blocks, n)
    ensures |Concat(blocks)| == |blocks| * n
    decreases |blocks|
  {
    if blocks != [] {
      ConcatLength(blocks[..|blocks| - 1], n);
      NextBlockStart(|blocks| - 1, n);
    }
  }

  /** The blocks up to b, laid end to end, are a prefix of the whole buffer. */
  lemma {:induction false} ConcatPrefix<T>(blocks: seq<seq<T>>, b: nat)
    requires b <= |blocks|
    ensures |Concat(blocks[..b])| <= |Concat(blocks)|
    ensures Concat(blocks)[..|Concat(blocks[..b])|] == Concat(blocks[..b])
    decreases |blocks|
  {
    if b == |blocks| {
      assert blocks[..b] == blocks;
    } else {
      var init := blocks[..|blocks| - 1];
      assert init[..b] == blocks[..b];
      ConcatPrefix(init, b);
      assert Concat(blocks) == Concat(init) + blocks[|blocks| - 1];
    }
  }

  /** Block b of a concatenation of n-long blocks occupies exactly [b * n, b * n + n). */
  lemma ConcatBlock<T>(blocks: seq<seq<T>>, n: nat, b: nat)
    requires Uniform(blocks, n) && b < |blocks|
    ensures |Concat(blocks)| == |blocks| * n
    ensures b * n + n <= |blocks| * n
    ensures Concat(blocks)[b * n .. b * n + n] == blocks[b]
  {
    ConcatLength(blocks, n);
    var upTo := blocks[..b + 1];
    ConcatPrefix(blocks, b + 1);
    ConcatStep(blocks, b);
    ConcatLength(blocks[..b], n);
    BlockEnd(b, |blocks|, n);
    var bn := b * n;
    assert Concat(upTo) == Concat(blocks[..b]) + blocks[b];
    assert Concat(blocks)[bn .. bn + n] == Concat(upTo)[bn .. bn + n];
  }

  /** Two equal blocks occupy ranges of the buffer with equal contents. */
  lemma ConcatSameBlocks<T>(blocks: seq<seq<T>>, n: nat, b1: nat, b2: nat, o1: nat, o2: nat)
    requires Uniform(blocks, n) && b1 < |blocks| && b2 < |blocks| && blocks[b1] == blocks[b2]
    requires o1 == b1 * n && o2 == b2 * n
    ensures o1 + n <= |Concat(blocks)| && o2 + n <= |Concat(blocks)|
    ensures Concat(blocks)[o1 .. o1 + n] == Concat(blocks)[o2 .. o2 + n]
  {
    ConcatBlock(blocks, n, b1);
    ConcatBlock(blocks, n, b2);
  }

  /** Element j of block b sits at b * n + j. */
  lemma ConcatAt<T>(blocks: seq<seq<T>>, n: nat, b: nat, j: nat)
    requires Uniform(blocks, n) && b < |blocks| && j < n
    ensures b * n + j < |Concat(blocks)|
    ensures Concat(blocks)[b * n + j] == blocks[b][j]
  {
    ConcatBlock(blocks, n, b);
    assert Concat(blocks)[b * n .. b * n + n][j] == blocks[b][j];
  }

  lemma MulMono(a: nat, b: nat, n: nat)
    requires a <= b
    ensures a * n <= b * n
  {
  }

  /** A block that starts before block b ends no later than block b starts. */
  lemma BlockEnd(a: nat, b: nat, n: nat)
    requires a < b
    ensures a * n + n <= b * n
  {
    var d := b - a - 1;
    assert b * n == (a + 1 + d) * n == a * n + n + d * n;
  }

  /** Block index of (layer, slice). */
  function BlockIndex(layer: nat, slice: nat): nat {
    layer * NumSlices + slice
  }

  /** (layer, slice) <-> block index is a bijection between [0, numLayers) x [0, 6) and
      [0, numLayers * 6). */
  lemma BlockIndexBijective(numLayers: nat, layer: nat, slice: nat, b: nat)
    ensures layer < numLayers && slice < NumSlices ==> BlockIndex(layer, slice) < numLayers * NumSlices
    ensures slice < NumSlices ==> (BlockIndex(layer, slice) == b <==> layer == b / NumSlices && slice == b % NumSlices)
    ensures b < numLayers * NumSlices ==> b / NumSlices < numLayers && BlockIndex(b / NumSlices, b % NumSlices) == b
  {
  }

  /** `(L * 6 + S) * seq_len * d_model`: start of block (L, S) in the slice buffer. */
  function SliceOffset(layer: nat, slice: nat, seqLen: nat, dModel: nat): nat {
    (layer * NumSlices + slice) * seqLen * dModel
  }

  /** `L * 6 * seq_len + S * seq_len`: start of block (L, S) in the token-projection buffer. */
  function TokenOffset(layer: nat, stage: nat, seqLen: nat): nat {
    layer * NumSlices * seqLen + stage * seqLen
  }

  /** `L * 6 * d_model + S * d_model`: start of block (L, S) in the dimension-projection buffer. */
  function DimOffset(layer: nat, stage: nat, dModel: nat): nat {
    layer * NumSlices * dModel + stage * dModel
  }

  /** All three buffers use the same scheme: block (L, S) starts at BlockIndex(L, S) times the
      block length. */
  lemma OffsetsAreBlockStarts(layer: nat, slice: nat, seqLen: nat, dModel: nat)
    ensures SliceOffset(layer, slice, seqLen, dModel) == BlockIndex(layer, slice) * (seqLen * dModel)
    ensures TokenOffset(layer, slice, seqLen) == BlockIndex(layer, slice) * seqLen
    ensures DimOffset(layer, slice, dModel) == BlockIndex(layer, slice) * dModel
  {
    var b := BlockIndex(layer, slice);
    assert b * seqLen * dModel == b * (seqLen * dModel);
    assert layer * NumSlices * seqLen + slice * seqLen == (layer * NumSlices + slice) * seqLen;
    assert layer * NumSlices * dModel + slice * dModel == (layer * NumSlices + slice) * dModel;
  }

  /** Blocks of length n at block indices in [0, numLayers * 6) lie inside a buffer of
      `numLayers * 6 * n` elements and do not overlap. */
  lemma BlocksInBoundsAndDisjoint(numLayers: nat, n: nat, l1: nat, s1: nat, l2: nat, s2: nat)
    requires l1 < numLayers && s1 < NumSlices && l2 < numLayers && s2 < NumSlices
    ensures BlockIndex(l1, s1) * n + n <= numLayers * NumSlices * n
    ensures (l1, s1) != (l2, s2) ==>
      BlockIndex(l1, s1) * n + n <= BlockIndex(l2, s2) * n || BlockIndex(l2, s2) * n + n <= BlockIndex(l1, s1) * n
  {
    var b1, b2 := BlockIndex(l1, s1), BlockIndex(l2, s2);
    var total := numLayers * NumSlices;
    assert b1 < total;
    BlockEnd(b1, total, n);
    if (l1, s1) != (l2, s2) {
      BlockIndexBijective(numLayers, l1, s1, b2);
      if b1 < b2 { BlockEnd(b1, b2, n); } else { BlockEnd(b2, b1, n); }
    }
  }

  /** Every element of a `numLayers * 6 * n` buffer belongs to some block (L, S): the blocks
      cover the buffer. The block is found by dividing. */
  lemma BlocksCover(numLayers: nat, n: nat, k: nat)
    requires k < numLayers * NumSlices * n
    ensures n > 0
    ensures var b := k / n; b / NumSlices < numLayers && b % NumSlices < NumSlices
    ensures var b := k / n; BlockIndex(b / NumSlices, b % NumSlices) * n <= k < BlockIndex(b / NumSlices, b % NumSlices) * n + n
  {
    var b := k / n;
    assert k == b * n + k % n;
    if b >= numLayers * NumSlices {
      MulMono(numLayers * NumSlices, b, n);
    }
    BlockIndexBijective(numLayers, b / NumSlices, b % NumSlices, b);
  }

  /** Appending block b to the concatenation of the blocks before it. */
  lemma ConcatStep<T>(blocks: seq<seq<T>>, b: nat)
    requires b < |blocks|
    ensures Concat(blocks[..b + 1]) == Concat(blocks[..b]) + blocks[b]
  {
    assert blocks[..b + 1][..b] == blocks[..b];
  }

  /** The next block starts where block b ends. */
  lemma NextBlockStart(b: nat, n: nat)
    ensures (b + 1) * n == b * n + n
  {
  }

  /** The arithmetic of one step of a fill loop with blocks of length n: the source's offset
      formula is the start of block (L, S), the next block starts where this one ends, and
      this one ends inside a buffer of numLayers * 6 blocks. */
  lemma FillStep(numLayers: nat, layer: nat, stage: nat, n: nat)
    requires layer < numLayers && stage < NumSlices
    ensures BlockIndex(layer, stage) * n + n == BlockIndex(layer, stage + 1) * n
    ensures BlockIndex(layer, stage + 1) * n <= numLayers * NumSlices * n
  {
    NextBlockStart(BlockIndex(layer, stage), n);
    BlockEnd(BlockIndex(layer, stage), numLayers * NumSlices, n);
  }
}
