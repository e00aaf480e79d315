/** The folded 16-bit checksum of a downlink frame (broadcast_manager.sync_checksum), and why no single
  * flipped bit escapes it. */
module SyncChecksum {
  const M32 := 0x1_0000_0000

  /** The two folding steps; the final mask may drop a carry. */
  function Fold(total: nat): nat {
    var once := total % 0x1_0000 + total / 0x1_0000;
    (once + once / 0x1_0000) % 0x1_0000
  }

  function Total(utc: nat, state: nat, sequenceId: nat): nat {
    utc % M32 + utc / M32 + state % 256 + sequenceId % M32
  }

  function Checksum(utc: nat, state: nat, sequenceId: nat): nat { Fold(Total(utc, state, sequenceId)) }

  function Pow2(i: nat): nat { if i == 0 then 1 else 2 * Pow2(i - 1) }

  /** `x` with bit `i` inverted. */
  function Flip(x: nat, i: nat): int
    requires Pow2(i) > 0
  {
    if (x / Pow2(i)) % 2 == 0 then x + Pow2(i) else x - Pow2(i)
  }

  lemma {:induction false} Pow2Positive(i: nat)
    ensures Pow2(i) > 0
  {
    if i > 0 {
      Pow2Positive(i - 1);
    }
  }

  lemma DoubleFirst(a: nat, b: nat)
    ensures (2 * a) * b == 2 * (a * b)
  {
  }

  lemma {:induction false} Pow2Adds(i: nat, j: nat)
    ensures Pow2(i) * Pow2(j) == Pow2(i + j)
  {
    if i == 0 {
      assert 1 * Pow2(j) == Pow2(j);
    } else {
      Pow2Adds(i - 1, j);
      Pow2Next(i);
      Pow2Next(i + j);
      hide Pow2;
      DoubleFirst(Pow2(i - 1), Pow2(j));
    }
  }

  lemma Pow2Next(i: nat)
    requires i > 0
    ensures Pow2(i) == 2 * Pow2(i - 1)
  {
  }

  lemma {:induction false} Pow2Monotone(i: nat, j: nat)
    requires i <= j
    ensures Pow2(i) <= Pow2(j)
    decreases j
  {
    if i < j {
      Pow2Monotone(i, j - 1);
    }
  }

  lemma Pow2Of15()
    ensures Pow2(15) == 0x8000 && Pow2(16) == 0x1_0000
  {
    assert Pow2(5) == 32;
    Pow2Adds(5, 5);
    Pow2Adds(10, 5);
  }

  lemma Pow2Of32()
    ensures Pow2(32) == M32
  {
    Pow2Of15();
    Pow2Adds(16, 16);
  }

  // ---------------------------------------------------------------- folding

  /** One folding step moves by the same small amount, possibly less one wrap of 65535. */
  lemma FoldStep(t: nat, u: nat, e: nat)
    requires t < 0x6_0000 && u < 0x6_0000 && 1 <= e <= 0x8000
    requires u == t + e || u == t + e - 0xFFFF
    ensures (t + t / 0x1_0000) % 0x1_0000 != (u + u / 0x1_0000) % 0x1_0000
  {
    var a, b, c, d := t / 0x1_0000, t % 0x1_0000, u / 0x1_0000, u % 0x1_0000;
    assert a <= 5 && c <= 5;
    assert t + a == 0x1_0000 * a + (a + b) && u + c == 0x1_0000 * c + (c + d);
    assert (t + a) % 0x1_0000 == if a + b < 0x1_0000 then a + b else a + b - 0x1_0000;
    assert (u + c) % 0x1_0000 == if c + d < 0x1_0000 then c + d else c + d - 0x1_0000;
    assert c - a == 0 || c - a == 1 || c - a == -1;
  }

  lemma FoldPlusLow(n: nat, e: nat)
    requires 1 <= e <= 0x8000 && n + e < 5 * M32
    ensures Fold(n) != Fold(n + e)
  {
    var m := n + e;
    FoldStep(n % 0x1_0000 + n / 0x1_0000, m % 0x1_0000 + m / 0x1_0000, e);
  }

  lemma FoldPlusHigh(n: nat, e: nat)
    requires 1 <= e <= 0x8000 && n + 0x1_0000 * e < 5 * M32
    ensures Fold(n) != Fold(n + 0x1_0000 * e)
  {
    var m := n + 0x1_0000 * e;
    FoldStep(n % 0x1_0000 + n / 0x1_0000, m % 0x1_0000 + m / 0x1_0000, e);
  }

  /** No total folds like the same total plus a power of two below 2^32: congruence modulo 65535 rules
    * out everything but the carry the last mask drops, and that carry cannot differ by exactly one. */
  lemma FoldSeparates(n: nat, i: nat)
    requires i < 32 && n + Pow2(i) < 5 * M32
    ensures Fold(n) != Fold(n + Pow2(i))
  {
    hide Fold;
    Pow2Of15();
    Pow2Positive(i);
    if i < 16 {
      Pow2Monotone(i, 15);
      FoldPlusLow(n, Pow2(i));
    } else {
      Pow2Adds(16, i - 16);
      Pow2Monotone(i - 16, 15);
      Pow2Positive(i - 16);
      FoldPlusHigh(n, Pow2(i - 16));
    }
  }

  /** Totals a power of two apart, either way, fold differently. */
  lemma TotalsSeparate(n: nat, m: nat, i: nat)
    requires i < 32 && n < 4 * M32 && m < 4 * M32 && (m == n + Pow2(i) || n == m + Pow2(i))
    ensures Fold(n) != Fold(m)
  {
    Pow2Of32();
    Pow2Monotone(i, 32);
    if m == n + Pow2(i) {
      FoldSeparates(n, i);
    } else {
      FoldSeparates(m, i);
    }
  }

  /** The checksum is the total modulo 65535, as a sum of its halves; the last mask drops at most one carry. */
  lemma FoldIsResidue(n: nat) returns (s: nat)
    requires n < 5 * M32
    ensures s % 0xFFFF == n % 0xFFFF && (s == 0 <==> n == 0) && s <= 0x1_0004
    ensures Fold(n) == if s < 0x1_0000 then s else s - 0x1_0000
  {
    var once := n % 0x1_0000 + n / 0x1_0000;
    s := once % 0x1_0000 + once / 0x1_0000;
    HalvesResidue(n);
    HalvesResidue(once);
    var hi, low := once / 0x1_0000, once % 0x1_0000;
    assert once + hi == 0x1_0000 * hi + s;
  }

  lemma HalvesResidue(n: nat)
    ensures (n % 0x1_0000 + n / 0x1_0000) % 0xFFFF == n % 0xFFFF
  {
    var hi, low := n / 0x1_0000, n % 0x1_0000;
    assert n == 0xFFFF * hi + (hi + low);
    ModShift(hi + low, hi);
  }

  lemma ModShift(x: nat, k: nat)
    ensures (0xFFFF * k + x) % 0xFFFF == x % 0xFFFF
  {
  }

  /** The total is the sum of the timestamp's halves, the state and the sequence id. */
  lemma TotalIs(high: nat, low: nat, state: nat, sequenceId: nat)
    requires low < M32 && state < 256 && sequenceId < M32
    ensures Total(high * M32 + low, state, sequenceId) == high + low + state + sequenceId
  {
    DivMod(high * M32 + low, high, low);
  }

  // ---------------------------------------------------------------- flipping a bit

  lemma DivMod(x: int, c: int, low: int)
    requires x == c * M32 + low && 0 <= low < M32
    ensures x / M32 == c && x % M32 == low
  {
  }

  /** Flipping one of the low 32 bits moves the low half by that power of two and leaves the high half. */
  lemma FlipLow(x: nat, i: nat)
    requires i < 32
    ensures Pow2(i) > 0 && Flip(x, i) >= 0
    ensures Flip(x, i) / M32 == x / M32
    ensures Flip(x, i) % M32 == x % M32 + Pow2(i) || Flip(x, i) % M32 == x % M32 - Pow2(i)
  {
    Pow2Of32();
    Pow2Positive(i);
    Pow2Positive(31 - i);
    Pow2Adds(i, 31 - i);
    assert Pow2(32) == 2 * Pow2(31);
    hide Pow2;
    FlipLowBy(x, i, Pow2(i), Pow2(31 - i));
  }

  /** `x` as its high half, its bit of weight `p`, and the rest of its low half. */
  lemma SplitAtBit(x: nat, p: nat, k: nat) returns (c: nat, low0: int)
    requires p > 0 && k > 0 && 2 * (p * k) == M32
    ensures x == c * M32 + low0 + (x / p) % 2 * p
    ensures 0 <= low0 && low0 + p < M32
  {
    var q, v := x / p, x % p;
    var u, b := q / 2, q % 2;
    c := u / k;
    var w := u % k;
    DivisionFact(x, p);
    DivisionFact(u, k);
    low0 := Low(w, p, v);
    Assemble(p, k, q, v, u, b, c, w);
  }

  function Low(w: nat, p: nat, v: nat): int { 2 * w * p + v }

  lemma Assemble(p: nat, k: nat, q: nat, v: nat, u: nat, b: nat, c: nat, w: nat)
    requires q == 2 * u + b && u == c * k + w && v < p && w < k && 2 * (p * k) == M32
    ensures q * p + v == c * M32 + Low(w, p, v) + b * p
    ensures 0 <= Low(w, p, v) && Low(w, p, v) + p < M32
  {
    HighPart(c, k, p, w, b, v);
    LowPart(p, k, v, w);
    ScaleModulus(c, p * k);
  }

  lemma DivisionFact(x: nat, p: nat)
    requires p > 0
    ensures x == (x / p) * p + x % p && 0 <= x % p < p && x / p >= 0
  {
  }

  lemma ScaleModulus(c: nat, pk: nat)
    requires 2 * pk == M32
    ensures c * (2 * pk) == c * M32
  {
  }

  lemma HighPart(c: nat, k: nat, p: nat, w: nat, b: nat, v: nat)
    ensures (2 * (c * k + w) + b) * p + v == c * (2 * (p * k)) + (2 * w * p + v) + b * p
  {
    assert c * k * p == c * (p * k);
  }

  lemma LowPart(p: nat, k: nat, v: nat, w: nat)
    requires v < p && w < k
    ensures 0 <= 2 * w * p + v && 2 * w * p + v + p < 2 * (p * k)
  {
    var d := k - 1 - w;
    assert 2 * (p * k) - (2 * w * p + v + p) == 2 * (d * p) + (p - v);
    assert d * p >= 0 && w * p >= 0;
  }

  lemma FlipLowBy(x: nat, i: nat, p: nat, k: nat)
    requires Pow2(i) == p && p > 0 && k > 0 && 2 * (p * k) == M32
    ensures Flip(x, i) >= 0 && Flip(x, i) / M32 == x / M32
    ensures Flip(x, i) % M32 == x % M32 + p || Flip(x, i) % M32 == x % M32 - p
  {
    hide Pow2;
    var c, low0 := SplitAtBit(x, p, k);
    if (x / p) % 2 == 0 {
      DivMod(x, c, low0);
      DivMod(Flip(x, i), c, low0 + p);
    } else {
      DivMod(x, c, low0 + p);
      DivMod(Flip(x, i), c, low0);
    }
  }

  /** Flipping a higher bit moves the high half and leaves the low one. */
  lemma FlipHigh(x: nat, i: nat)
    requires 32 <= i < 64
    ensures Pow2(i) > 0 && Flip(x, i) >= 0
    ensures Flip(x, i) % M32 == x % M32
    ensures Flip(x, i) / M32 == x / M32 + Pow2(i - 32) || Flip(x, i) / M32 == x / M32 - Pow2(i - 32)
  {
    Pow2Of32();
    Pow2Adds(32, i - 32);
    Pow2Positive(i);
    hide Pow2;
    FlipHighBy(x, i, Pow2(i - 32));
  }

  lemma FlipHighBy(x: nat, i: nat, e: nat)
    requires Pow2(i) == M32 * e && e > 0
    ensures Flip(x, i) >= 0 && Flip(x, i) % M32 == x % M32
    ensures Flip(x, i) / M32 == x / M32 + e || Flip(x, i) / M32 == x / M32 - e
  {
    hide Pow2;
    var p, hi, low := M32 * e, x / M32, x % M32;
    if (x / p) % 2 == 0 {
      assert Flip(x, i) == (hi + e) * M32 + low;
      DivMod(Flip(x, i), hi + e, low);
    } else {
      SmallQuotient(x, p);
      assert Flip(x, i) == (hi - e) * M32 + low;
      DivMod(Flip(x, i), hi - e, low);
    }
  }

  lemma SmallQuotient(x: nat, p: nat)
    requires p > 0
    ensures x < p ==> x / p == 0
  {
  }

  lemma TimestampBit(utc: nat, state: nat, sequenceId: nat, i: nat)
    requires utc < M32 * M32 && state < 256 && sequenceId < M32 && i < 64
    ensures Pow2(i) > 0 && Flip(utc, i) >= 0
    ensures Checksum(Flip(utc, i), state, sequenceId) != Checksum(utc, state, sequenceId)
  {
    hide Fold, Flip, Pow2;
    assert utc / M32 < M32;
    if i < 32 {
      FlipLow(utc, i);
      TotalsSeparate(Total(utc, state, sequenceId), Total(Flip(utc, i), state, sequenceId), i);
    } else {
      FlipHigh(utc, i);
      HalfOfM32(i - 32);
      TotalsSeparate(Total(utc, state, sequenceId), Total(Flip(utc, i), state, sequenceId), i - 32);
    }
  }

  lemma HalfOfM32(i: nat)
    requires i < 32
    ensures 2 * Pow2(i) <= M32
  {
    Pow2Of32();
    Pow2Monotone(i, 31);
    assert Pow2(32) == 2 * Pow2(31);
  }

  lemma SequenceBit(utc: nat, state: nat, sequenceId: nat, i: nat)
    requires utc < M32 * M32 && state < 256 && sequenceId < M32 && i < 32
    ensures Pow2(i) > 0 && Flip(sequenceId, i) >= 0
    ensures Checksum(utc, state, Flip(sequenceId, i)) != Checksum(utc, state, sequenceId)
  {
    hide Fold, Flip, Pow2;
    FlipLow(sequenceId, i);
    TotalsSeparate(Total(utc, state, sequenceId), Total(utc, state, Flip(sequenceId, i)), i);
  }

  lemma TotalOfByte(utc: nat, state: nat, sequenceId: nat)
    requires utc < M32 * M32 && state < 256 && sequenceId < M32
    ensures Total(utc, state, sequenceId) == Total(utc, 0, sequenceId) + state < 4 * M32
  {
    assert utc / M32 < M32;
  }

  lemma StateBit(utc: nat, state: nat, sequenceId: nat, i: nat)
    requires utc < M32 * M32 && state < 256 && sequenceId < M32 && i < 8
    ensures Pow2(i) > 0 && Flip(state, i) >= 0
    ensures Checksum(utc, Flip(state, i), sequenceId) != Checksum(utc, state, sequenceId)
  {
    hide Fold, Flip, Pow2, Total;
    FlipByte(state, i);
    TotalOfByte(utc, state, sequenceId);
    TotalOfByte(utc, Flip(state, i), sequenceId);
    TotalsSeparate(Total(utc, state, sequenceId), Total(utc, Flip(state, i), sequenceId), i);
  }

  /** Any single-bit change of the timestamp, the state or the sequence id changes the checksum. */
  lemma SingleBitDetected(utc: nat, state: nat, sequenceId: nat, i: nat)
    requires utc < M32 * M32 && state < 256 && sequenceId < M32 && i < 64
    ensures Pow2(i) > 0
    ensures Flip(utc, i) >= 0 && Checksum(Flip(utc, i), state, sequenceId) != Checksum(utc, state, sequenceId)
    ensures i < 8 ==> Flip(state, i) >= 0 && Checksum(utc, Flip(state, i), sequenceId) != Checksum(utc, state, sequenceId)
    ensures i < 32 ==>
      Flip(sequenceId, i) >= 0 && Checksum(utc, state, Flip(sequenceId, i)) != Checksum(utc, state, sequenceId)
  {
    hide Checksum, Flip, Pow2;
    TimestampBit(utc, state, sequenceId, i);
    if i < 32 {
      SequenceBit(utc, state, sequenceId, i);
    }
    if i < 8 {
      StateBit(utc, state, sequenceId, i);
    }
  }

  /** Flipping a bit of a byte gives a byte. */
  lemma FlipByte(x: nat, i: nat)
    requires x < 256 && i < 8
    ensures Pow2(i) > 0 && 0 <= Flip(x, i) < 256
    ensures Flip(x, i) == x + Pow2(i) || Flip(x, i) == x - Pow2(i)
  {
    Pow2Positive(i);
    EighthPower(i);
    var p := Pow2(i);
    hide Pow2;
    ByteBit(x, p, 128 / p);
  }

  lemma EighthPower(i: nat)
    requires i < 8
    ensures Pow2(i) in {1, 2, 4, 8, 16, 32, 64, 128}
  {
    assert Pow2(0) == 1 && Pow2(1) == 2 && Pow2(2) == 4 && Pow2(3) == 8;
    assert Pow2(4) == 16 && Pow2(5) == 32 && Pow2(6) == 64 && Pow2(7) == 128;
  }

  /** A clear bit of weight `p` leaves room for it below 256; a set one is contained. */
  lemma ByteBit(x: nat, p: nat, k: nat)
    requires x < 256 && p in {1, 2, 4, 8, 16, 32, 64, 128} && k == 128 / p
    ensures if (x / p) % 2 == 0 then x + p < 256 else x >= p
  {
  }
}
