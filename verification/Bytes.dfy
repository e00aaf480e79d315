/** struct's little-endian integers: encoding, decoding and their round trips. */
module Bytes {
  type Byte = b: int | 0 <= b < 256

  /** What a 32-bit checksum returns. */
  type Word = n: int | 0 <= n < 0x1_0000_0000

  function Pow256(width: nat): nat { if width == 0 then 1 else 256 * Pow256(width - 1) }

  /** The `width` low bytes of `v`, least significant first. */
  function Le(width: nat, v: nat): (bs: seq<Byte>)
    ensures |bs| == width
  {
    if width == 0 then [] else [v % 256] + Le(width - 1, v / 256)
  }

  function FromLe(bs: seq<Byte>): nat {
    if bs == [] then 0 else bs[0] + 256 * FromLe(bs[1..])
  }

  lemma {:induction false} LeRoundTrip(width: nat, v: nat)
    requires v < Pow256(width)
    ensures FromLe(Le(width, v)) == v
  {
    if width > 0 {
      assert v / 256 < Pow256(width - 1);
      LeRoundTrip(width - 1, v / 256);
      assert Le(width, v)[1..] == Le(width - 1, v / 256);
    }
  }

  /** Byte `k` has weight 256^k. */
  lemma {:induction false} LeByte(width: nat, v: nat, k: nat)
    requires k < width
    ensures Pow256(k) > 0 && Le(width, v)[k] == (v / Pow256(k)) % 256
    decreases k
  {
    if k > 0 {
      LeByte(width - 1, v / 256, k - 1);
      QuotientTwice(v, Pow256(k - 1));
    }
  }

  lemma QuotientTwice(v: nat, p: nat)
    requires p > 0
    ensures (v / 256) / p == v / (256 * p)
  {
    var u := v / 256;
    var (q, r) := (u / p, u % p);
    assert v == 256 * u + v % 256 && u == q * p + r;
    var rest := 256 * r + v % 256;
    assert v == q * (256 * p) + rest;
    assert rest < 256 * p;
    QuotientIs(v, 256 * p, q, rest);
  }

  lemma QuotientIs(v: int, d: int, q: int, rest: int)
    requires d > 0 && v == q * d + rest && 0 <= rest < d
    ensures v / d == q
  {
    var k := v / d - q;
    assert v == (v / d) * d + v % d;
    assert k * d == rest - v % d;
    assert k >= 1 ==> k * d >= d;
    assert k <= -1 ==> k * d <= -d;
  }

  /** struct's "H", "I" and "Q" accept exactly these values. */
  predicate FitsUnsigned(width: nat, v: int) { 0 <= v < Pow256(width) }

  lemma Pow256Values()
    ensures Pow256(1) == 0x100 && Pow256(2) == 0x1_0000 && Pow256(4) == 0x1_0000_0000
    ensures Pow256(8) == 0x1_0000_0000_0000_0000
  {
    assert Pow256(4) == 256 * Pow256(3) && Pow256(3) == 256 * Pow256(2) && Pow256(2) == 256 * Pow256(1);
    assert Pow256(8) == 256 * Pow256(7) && Pow256(7) == 256 * Pow256(6) && Pow256(6) == 256 * Pow256(5) && Pow256(5) == 256 * Pow256(4);
  }

  /** struct's "h": two's complement on 16 bits. */
  function LeSigned16(v: int): (bs: seq<Byte>)
    requires -0x8000 <= v < 0x8000
    ensures |bs| == 2
  {
    Le(2, if v < 0 then v + 0x1_0000 else v)
  }

  function FromLeSigned16(bs: seq<Byte>): int {
    var v := FromLe(bs);
    if v < 0x8000 then v else v - 0x1_0000
  }

  lemma Signed16RoundTrip(v: int)
    requires -0x8000 <= v < 0x8000
    ensures FromLeSigned16(LeSigned16(v)) == v
  {
    Pow256Values();
    LeRoundTrip(2, if v < 0 then v + 0x1_0000 else v);
  }
}
