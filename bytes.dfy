/** Bytes and the little-endian unsigned 32-bit integers that `struct.pack('<I', …)`
    writes in front of every binary WebSocket frame. */
module Bytes {

  type byte = x: int | 0 <= x < 256

  const U32Limit: int := 0x1_0000_0000

  /** `struct.pack('<I', x)`: least significant byte first. */
  function PackU32LE(x: nat): (r: seq<byte>)
    requires x < U32Limit
    ensures |r| == 4
  {
    [x % 256, (x / 256) % 256, (x / 65536) % 256, x / 16777216]
  }

  /** `struct.unpack('<I', b)`. */
  function UnpackU32LE(b: seq<byte>): (x: nat)
    requires |b| == 4
    ensures x < U32Limit
  {
    b[0] as int + 256 * b[1] as int + 65536 * b[2] as int + 16777216 * b[3] as int
  }

  /** Unpacking what was packed gives the number back. */
  lemma UnpackPack(x: nat)
    requires x < U32Limit
    ensures UnpackU32LE(PackU32LE(x)) == x
  {
    var q1 := x / 256;
    var q2 := q1 / 256;
    assert x == x % 256 + 256 * q1;
    assert q1 == q1 % 256 + 256 * q2;
    assert q2 == q2 % 256 + 256 * (q2 / 256);
    assert x / 65536 == q2;
    assert x / 16777216 == q2 / 256;
  }

  /** Packing what was unpacked gives the four bytes back: the encoding is a bijection
      between [0, 2^32) and four-byte strings. */
  lemma PackUnpack(b: seq<byte>)
    requires |b| == 4
    ensures PackU32LE(UnpackU32LE(b)) == b
  {
    var x := UnpackU32LE(b);
    var hi: int := b[1] as int + 256 * b[2] as int + 65536 * b[3] as int;
    assert x == b[0] as int + 256 * hi;
    assert x % 256 == b[0] && x / 256 == hi;
    var hi2: int := b[2] as int + 256 * b[3] as int;
    assert hi == b[1] as int + 256 * hi2;
    assert hi % 256 == b[1] && hi / 256 == hi2;
    assert hi2 % 256 == b[2] && hi2 / 256 == b[3];
    assert x / 65536 == hi / 256;
    assert x / 16777216 == hi2 / 256;
  }
}
