/**
 * Bytes and the unsigned 32-bit little-endian integers of the GLB container.
 *
 * The exporter writes its integer fields with `struct.pack("I", n)`, which
 * uses the machine's byte order and raises for values outside 0 .. 2^32 - 1.
 * The GLB format fixes little-endian order, which is what this module encodes.
 */
module Bytes {

  type byte = x: int | 0 <= x < 256

  const U32Limit: nat := 0x1_0000_0000

  predicate FitsU32(n: int) { 0 <= n < U32Limit }

  /** The four bytes of `n`, least significant first. */
  function U32LE(n: nat): (r: seq<byte>)
    requires FitsU32(n)
    ensures |r| == 4
  {
    [n % 256, (n / 256) % 256, (n / 65536) % 256, n / 16777216]
  }

  /** The number that four little-endian bytes stand for. */
  function DecodeU32(b: seq<byte>): (n: nat)
    requires |b| == 4
    ensures FitsU32(n)
  {
    var b0, b1, b2, b3: int := b[0], b[1], b[2], b[3];
    b0 + 256 * (b1 + 256 * (b2 + 256 * b3))
  }

  /** Euclidean division by 256 is determined by quotient and remainder. */
  lemma DivMod256(x: int, q: int, r: int)
    requires x == q * 256 + r && 0 <= r < 256
    ensures x / 256 == q && x % 256 == r
  {
  }

  lemma {:induction false} DecodeEncode(n: nat)
    requires FitsU32(n)
    ensures DecodeU32(U32LE(n)) == n
  {
    var q1 := n / 256;
    var q2 := q1 / 256;
    DivMod256(q2, q2 / 256, q2 % 256);
    assert q2 / 256 == n / 16777216;
    assert q2 == (q2 % 256) + 256 * (n / 16777216);
    assert q1 == (q1 % 256) + 256 * q2;
    assert n == (n % 256) + 256 * q1;
  }

  lemma {:induction false} EncodeDecode(b: seq<byte>)
    requires |b| == 4
    ensures U32LE(DecodeU32(b)) == b
  {
    var n := DecodeU32(b);
    var b1, b2, b3: int := b[1], b[2], b[3];
    var q2 := b2 + 256 * b3;
    var q1 := b1 + 256 * q2;
    DivMod256(n, q1, b[0]);
    DivMod256(q1, q2, b[1]);
    DivMod256(q2, b[3], b[2]);
    assert n / 65536 == q2 by {
      assert n / 65536 == (n / 256) / 256;
    }
    assert n / 16777216 == b[3] by {
      assert n / 16777216 == ((n / 256) / 256) / 256;
    }
  }
}
