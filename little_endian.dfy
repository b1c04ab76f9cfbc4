/**
 * Little-endian reading and writing of unsigned integers, the way a
 * `reinterpret_cast` of a byte buffer reads them on a little-endian machine.
 */
module LittleEndian {
  type byte = x: int | 0 <= x < 256

  function Pow256(n: nat): (p: nat)
    ensures p > 0
  {
    if n == 0 then 1 else 256 * Pow256(n - 1)
  }

  /** The unsigned value of `b`, least significant byte first. */
  function LE(b: seq<byte>): nat
  {
    if |b| == 0 then 0 else b[0] + 256 * LE(b[1..])
  }

  /** Reading `n` bytes gives a value below 256^n. */
  lemma {:induction false} LEBound(b: seq<byte>)
    ensures LE(b) < Pow256(|b|)
  {
    if |b| > 0 {
      LEBound(b[1..]);
    }
  }

  /** The `n` least significant bytes of `x`, least significant first. */
  function LEBytes(x: nat, n: nat): (b: seq<byte>)
    ensures |b| == n
  {
    if n == 0 then [] else [x % 256] + LEBytes(x / 256, n - 1)
  }

  /** Writing then reading `n` bytes gives back every value that fits. */
  lemma {:induction false} LERoundTrip(x: nat, n: nat)
    requires x < Pow256(n)
    ensures LE(LEBytes(x, n)) == x
  {
    if n > 0 {
      var b := LEBytes(x, n);
      assert b[1..] == LEBytes(x / 256, n - 1);
      LERoundTrip(x / 256, n - 1);
    }
  }

  /** A value splits into its `n` low bytes and the bytes above them. */
  lemma {:induction false} LESplit(b: seq<byte>, n: nat)
    requires n <= |b|
    ensures LE(b) == LE(b[..n]) + Pow256(n) * LE(b[n..])
  {
    if n > 0 {
      var lo, hi, p := LE(b[1..][..n - 1]), LE(b[n..]), Pow256(n - 1);
      assert LE(b[1..]) == lo + p * hi by {
        LESplit(b[1..], n - 1);
        assert b[1..][n - 1..] == b[n..];
      }
      assert LE(b[..n]) == b[0] + 256 * lo by {
        assert b[..n][1..] == b[1..][..n - 1];
      }
      Distribute(b[0], lo, p, hi, LE(b), LE(b[..n]));
    }
  }

  lemma Distribute(b0: int, lo: int, p: int, hi: int, whole: int, low: int)
    requires whole == b0 + 256 * (lo + p * hi) && low == b0 + 256 * lo
    ensures whole == low + (256 * p) * hi
  {
  }

  /** Truncating an 8-byte field to `uint32_t` keeps its four low bytes. */
  lemma LowHalf(b: seq<byte>)
    requires |b| == 8
    ensures LE(b) % 0x1_0000_0000 == LE(b[..4])
  {
    LESplit(b, 4);
    LEBound(b[..4]);
    assert Pow256(4) == 0x1_0000_0000;
    ModMultiple(LE(b[..4]), LE(b[4..]));
  }

  /** Adding a multiple of 2^32 to a value below 2^32 leaves the remainder unchanged. */
  lemma ModMultiple(lo: int, hi: int)
    requires 0 <= lo < 0x1_0000_0000
    ensures (lo + 0x1_0000_0000 * hi) % 0x1_0000_0000 == lo
  {
  }
}
