/** Octets and fixed-width integers as the capture format stores them.

    The 8-octet timestamps are written and read through an external integer
    stream library; this model fixes one byte order (big-endian) and uses it
    on both the writing and the reading side. */
module Octets {

  type Byte = x: int | 0 <= x < 256

  const TWO_63: int := 0x8000_0000_0000_0000
  const TWO_64: int := 0x1_0000_0000_0000_0000

  /** Go's uint64 and int64. */
  type Uint64 = x: int | 0 <= x < 0x1_0000_0000_0000_0000
  type Int64 = x: int | -0x8000_0000_0000_0000 <= x < 0x8000_0000_0000_0000

  function Pow256(n: nat): (p: nat)
    ensures p >= 1
  {
    if n == 0 then 1 else 256 * Pow256(n - 1)
  }

  /** The low `n` octets of `x`, most significant first. */
  function EncodeBE(x: nat, n: nat): (s: seq<Byte>)
    ensures |s| == n
  {
    if n == 0 then [] else EncodeBE(x / 256, n - 1) + [x % 256]
  }

  /** The number whose big-endian representation is `s`. */
  function DecodeBE(s: seq<Byte>): (x: nat)
    ensures x < Pow256(|s|)
  {
    if s == [] then 0 else DecodeBE(s[..|s| - 1]) * 256 + s[|s| - 1]
  }

  lemma {:induction false} DecodeEncodeBE(x: nat, n: nat)
    requires x < Pow256(n)
    ensures DecodeBE(EncodeBE(x, n)) == x
  {
    if n > 0 {
      var s := EncodeBE(x, n);
      DecodeEncodeBE(x / 256, n - 1);
      assert s[..n - 1] == EncodeBE(x / 256, n - 1);
    }
  }

  lemma {:induction false} EncodeDecodeBE(s: seq<Byte>)
    ensures EncodeBE(DecodeBE(s), |s|) == s
  {
    if s != [] {
      var n := |s|;
      var d := DecodeBE(s[..n - 1]);
      assert DecodeBE(s) / 256 == d && DecodeBE(s) % 256 == s[n - 1];
      EncodeDecodeBE(s[..n - 1]);
      assert s == s[..n - 1] + [s[n - 1]];
    }
  }

  /** WriteUint64: eight octets, most significant first. */
  function Enc64(x: Uint64): (s: seq<Byte>)
    ensures |s| == 8
  {
    EncodeBE(x, 8)
  }

  /** ReadUint64 over exactly eight octets. */
  function Dec64(s: seq<Byte>): (x: Uint64)
    requires |s| == 8
    ensures Enc64(x) == s
  {
    assert Pow256(8) == TWO_64;
    EncodeDecodeBE(s);
    DecodeBE(s)
  }

  lemma Dec64Enc64(x: Uint64)
    ensures Dec64(Enc64(x)) == x
  {
    assert Pow256(8) == TWO_64;
    DecodeEncodeBE(x, 8);
  }

  /** Enc64 is injective: two timestamps with the same octets are equal. */
  lemma Enc64Injective(x: Uint64, y: Uint64)
    requires Enc64(x) == Enc64(y)
    ensures x == y
  {
    Dec64Enc64(x);
    Dec64Enc64(y);
  }

  /** Go's conversion uint64(t) of an int64: the same bits, read unsigned. */
  function ToUint64(t: Int64): (u: Uint64)
    ensures (u - t) % TWO_64 == 0
  {
    if t < 0 then t + TWO_64 else t
  }

  /** Go's conversion int64(u) of a uint64: the same bits, read signed. */
  function ToInt64(u: Uint64): (t: Int64)
    ensures (u - t) % TWO_64 == 0
    ensures ToUint64(t) == u
  {
    if u < TWO_63 then u else u - TWO_64
  }

  /** Go's int64 addition: the mathematical sum wrapped into the int64 range. */
  function WrapInt64(x: int): (t: Int64)
    ensures (x - t) % TWO_64 == 0
    ensures -TWO_63 <= x < TWO_63 ==> t == x
  {
    var m := x % TWO_64;
    if m < TWO_63 then m else m - TWO_64
  }

  /** A timestamp written as uint64(t) and read back as int64(..) is t again. */
  lemma Int64RoundTrip(t: Int64)
    ensures ToInt64(ToUint64(t)) == t
  {
  }
}
