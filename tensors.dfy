/** Captured activations and the floating-point routines the accumulators hand them to.
    The numerics themselves (numpy percentiles, L2 norms, float32 rounding) are not
    modelled: they are the fields of a `Numerics` value, constrained only by the shapes
    they return. */
module Tensors {
  import opened Bytes
  import opened Layout

  /** A `[rows, cols]` activation (batch dimension already squeezed), row-major. */
  datatype Tensor = Tensor(rows: nat, cols: nat, data: seq<real>)

  predicate HasShape(t: Tensor, r: nat, c: nat) {
    t.rows == r && t.cols == c && |t.data| == r * c
  }

  /** `torch.zeros(r, c)`. */
  function Zeros(r: nat, c: nat): (t: Tensor)
    ensures HasShape(t, r, c)
    ensures forall k :: 0 <= k < |t.data| ==> t.data[k] == 0.0
  {
    Tensor(r, c, seq(r * c, _ => 0.0))
  }

  /** The numeric routines, as uninterpreted functions:
      - normalize: `percentile_normalize` applied to an array and flattened (`ravel`);
      - rowNorms / colNorms: `np.linalg.norm(arr, axis=1)` / `axis=0`;
      - meanRowNorm: `t.norm(dim=-1).mean().item()`;
      - sub: element-wise tensor subtraction `a - b`;
      - encode: the four little-endian bytes of one float32 (`ndarray.tobytes`). */
  datatype Numerics = Numerics(
    normalize: seq<real> -> seq<real>,
    rowNorms: Tensor -> seq<real>,
    colNorms: Tensor -> seq<real>,
    meanRowNorm: Tensor -> real,
    sub: (Tensor, Tensor) -> Tensor,
    encode: real -> seq<byte>)

  /** What the model assumes of the numerics: each returns the shape numpy/torch return. */
  ghost predicate WellBehaved(nm: Numerics) {
    && (forall x :: |nm.normalize(x)| == |x|)
    && (forall t :: |nm.rowNorms(t)| == t.rows)
    && (forall t :: |nm.colNorms(t)| == t.cols)
    && (forall a: Tensor, b: Tensor :: a.rows == b.rows && a.cols == b.cols && |a.data| == |b.data| ==>
          nm.sub(a, b).rows == a.rows && nm.sub(a, b).cols == a.cols && |nm.sub(a, b).data| == |a.data|)
    && (forall x :: |nm.encode(x)| == 4)
  }

  /** `sub` keeps a shared shape. */
  lemma SubKeepsShape(nm: Numerics, a: Tensor, b: Tensor, r: nat, c: nat)
    requires WellBehaved(nm) && HasShape(a, r, c) && HasShape(b, r, c)
    ensures HasShape(nm.sub(a, b), r, c)
  {
  }

  /** `ndarray.tobytes()` of a float32 array: the element encodings, in order. */
  function ToBytes(encode: real -> seq<byte>, xs: seq<real>): seq<byte> {
    Concat(Encodings(encode, xs))
  }

  function Encodings(encode: real -> seq<byte>, xs: seq<real>): (es: seq<seq<byte>>)
    ensures |es| == |xs| && forall i :: 0 <= i < |xs| ==> es[i] == encode(xs[i])
  {
    seq(|xs|, i requires 0 <= i < |xs| => encode(xs[i]))
  }

  lemma ToBytesLength(encode: real -> seq<byte>, xs: seq<real>)
    requires forall x: real :: |encode(x)| == 4
    ensures |ToBytes(encode, xs)| == 4 * |xs|
  {
    EncodingsUniform(encode, xs);
    ConcatLength(Encodings(encode, xs), 4);
  }

  /** Bytes 4k .. 4k + 3 are the encoding of element k: nothing is lost or reordered. */
  lemma ToBytesAt(encode: real -> seq<byte>, xs: seq<real>, k: nat)
    requires forall x: real :: |encode(x)| == 4
    requires k < |xs|
    ensures 4 * k + 4 <= |ToBytes(encode, xs)|
    ensures ToBytes(encode, xs)[4 * k .. 4 * k + 4] == encode(xs[k])
  {
    EncodingsUniform(encode, xs);
    ConcatBlock(Encodings(encode, xs), 4, k);
  }

  /** When `bytes` is the encoding of xs and floats `o .. o + |block|` of xs are `block`, the
      four bytes of float `k = o + j` are the encoding of element j of the block. */
  lemma ToBytesBlockAt(encode: real -> seq<byte>, xs: seq<real>, bytes: seq<byte>, o: nat, block: seq<real>, j: nat, k: nat)
    requires forall x: real :: |encode(x)| == 4
    requires bytes == ToBytes(encode, xs)
    requires o + |block| <= |xs| && xs[o .. o + |block|] == block && j < |block| && k == o + j
    ensures 4 * k + 4 <= |bytes|
    ensures bytes[4 * k .. 4 * k + 4] == encode(block[j])
  {
    assert xs[k] == block[j];
    ToBytesAt(encode, xs, k);
  }

  lemma EncodingsUniform(encode: real -> seq<byte>, xs: seq<real>)
    requires forall x: real :: |encode(x)| == 4
    ensures Uniform(Encodings(encode, xs), 4)
  {
    var es := Encodings(encode, xs);
    forall b | 0 <= b < |es| ensures |es[b]| == 4 {
      EncodingLength(encode, xs[b]);
    }
  }

  lemma EncodingLength(encode: real -> seq<byte>, y: real)
    requires forall x: real :: |encode(x)| == 4
    ensures |encode(y)| == 4
  {
  }
}
