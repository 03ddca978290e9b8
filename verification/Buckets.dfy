// The log-linear bucket layout of the latency histograms: one bucket per
// nanosecond below LINEAR, then SUB_BUCKETS equal ones per power of two.
module Buckets {
  import opened Arithmetic

  const SUB_BITS := 6
  const SUB_BUCKETS := 64
  const LINEAR := 128
  const MAX_TRACKED := 3_600_000_000_000 // one hour in nanoseconds
  const NUM_BUCKETS := 2345

  function Pow2(n: nat): (p: nat)
    ensures 0 < p
  {
    if n == 0 then 1 else 2 * Pow2(n - 1)
  }

  /** bits.Len64: the number of bits needed to write v. */
  function BitLen(v: nat): (n: nat)
    ensures v < Pow2(n) && (0 < n ==> Pow2(n - 1) <= v)
  {
    if v == 0 then 0
    else
      var n := BitLen(v / 2);
      assert 0 < n ==> Pow2(n) == 2 * Pow2(n - 1);
      n + 1
  }

  lemma {:induction false} Pow2Plus(a: nat, b: nat)
    ensures Pow2(a + b) == Pow2(a) * Pow2(b)
  {
    if a == 0 {
    } else {
      Pow2Plus(a - 1, b);
      assert 2 * (Pow2(a - 1) * Pow2(b)) == 2 * Pow2(a - 1) * Pow2(b);
    }
  }

  lemma {:induction false} Pow2Grows(a: nat, b: nat)
    requires a <= b
    ensures Pow2(a) <= Pow2(b)
  {
    if a == b {
    } else {
      Pow2Grows(a, b - 1);
    }
  }

  /** Any v of at least LINEAR is shifted until its top seven bits are left. */
  function Shift(v: nat): (s: nat)
    requires LINEAR <= v
    ensures 1 <= s && SUB_BUCKETS <= v / Pow2(s) < LINEAR
  {
    ShiftBounds(v, BitLen(v));
    BitLen(v) - (SUB_BITS + 1)
  }

  lemma ShiftBounds(v: nat, n: nat)
    requires LINEAR <= v < Pow2(n) && (0 < n ==> Pow2(n - 1) <= v)
    ensures 8 <= n && SUB_BUCKETS <= v / Pow2(n - 7) < LINEAR
  {
    if n <= 7 { Pow2Grows(n, 7); }
    var p := Pow2(n - 7);
    Pow2Plus(6, n - 7);
    Pow2Plus(7, n - 7);
    assert Pow2(6) == 64 && Pow2(7) == 128;
    DivRange(v, p, 64, 128);
  }

  lemma ProductBelow(q: int, b: int, p: int, v: int)
    requires 0 < p && q * p <= v < b * p
    ensures q < b
  {
    assert (b - q) * p == b * p - q * p;
    SignOfProduct(p, b - q);
  }

  lemma DivRange(v: nat, p: nat, a: nat, b: nat)
    requires 0 < p && a * p <= v < b * p
    ensures a <= v / p < b
  {
    var q := v / p;
    assert q * p <= v < q * p + p;
    ProductBelow(q, b, p, v);
    ProductBelow(a - 1, q, p, a * p - p);
  }

  function BucketIndex(v: nat): (i: nat)
  {
    if v < LINEAR then v
    else
      var shift := Shift(v);
      var top := v / Pow2(shift);
      LINEAR + (shift - 1) * SUB_BUCKETS + (top - SUB_BUCKETS)
  }

  /** The smallest value of bucket i: where the bucket starts. */
  function Low(i: nat): nat {
    if i < LINEAR then i
    else (SUB_BUCKETS + (i - LINEAR) % SUB_BUCKETS) * Pow2((i - LINEAR) / SUB_BUCKETS + 1)
  }

  /** How many values bucket i holds. */
  function Width(i: nat): (w: nat)
    ensures 0 < w
  {
    if i < LINEAR then 1 else Pow2((i - LINEAR) / SUB_BUCKETS + 1)
  }

  function BucketMid(i: nat): nat {
    if i < LINEAR then i
    else
      var shift := (i - LINEAR) / SUB_BUCKETS + 1;
      var top := SUB_BUCKETS + (i - LINEAR) % SUB_BUCKETS;
      var lo := top * Pow2(shift);
      lo + Pow2(shift) / 2
  }

  /** Each bucket starts where the one before it ends: no gaps, no overlaps. */
  lemma Adjacent(i: nat)
    ensures Low(i) + Width(i) == Low(i + 1)
  {
    if LINEAR <= i {
      var r, s := (i - LINEAR) % SUB_BUCKETS, (i - LINEAR) / SUB_BUCKETS;
      if r + 1 < SUB_BUCKETS {
        assert (i + 1 - LINEAR) % SUB_BUCKETS == r + 1 && (i + 1 - LINEAR) / SUB_BUCKETS == s;
      } else {
        assert (i + 1 - LINEAR) % SUB_BUCKETS == 0 && (i + 1 - LINEAR) / SUB_BUCKETS == s + 1;
      }
    } else if i == LINEAR - 1 {
      assert Pow2(1) == 2;
    }
  }

  lemma {:induction false} LowGrows(i: nat, j: nat)
    requires i <= j
    ensures Low(i) + (j - i) <= Low(j)
  {
    if i == j {
    } else {
      LowGrows(i, j - 1);
      Adjacent(j - 1);
    }
  }

  /** Where bucket i starts, how wide it is and its midpoint, from the shift and
      the leading bits its index encodes. */
  lemma BucketOf(i: nat, shift: nat, top: nat)
    requires 1 <= shift && SUB_BUCKETS <= top < LINEAR && i == LINEAR + (shift - 1) * SUB_BUCKETS + (top - SUB_BUCKETS)
    ensures Low(i) == top * Pow2(shift) && Width(i) == Pow2(shift) && BucketMid(i) == top * Pow2(shift) + Pow2(shift) / 2
  {
    assert (i - LINEAR) / SUB_BUCKETS == shift - 1 && (i - LINEAR) % SUB_BUCKETS == top - SUB_BUCKETS;
  }

  lemma QuotientTimes(v: nat, p: nat)
    requires 0 < p
    ensures v / p * p <= v < v / p * p + p
  {
  }

  /** v is in the bucket BucketIndex gives it. */
  lemma InBucket(v: nat)
    ensures Low(BucketIndex(v)) <= v < Low(BucketIndex(v)) + Width(BucketIndex(v))
  {
    if LINEAR <= v {
      var shift := Shift(v);
      QuotientTimes(v, Pow2(shift));
      BucketOf(BucketIndex(v), shift, v / Pow2(shift));
    }
  }

  /** The layout, exactly: bucket i holds the values from Low(i) up to Low(i + 1). */
  lemma BucketIsInterval(v: nat, i: nat)
    ensures BucketIndex(v) == i <==> Low(i) <= v < Low(i + 1)
  {
    InBucket(v);
    Adjacent(BucketIndex(v));
    if i < BucketIndex(v) { LowGrows(i + 1, BucketIndex(v)); }
    if BucketIndex(v) < i { LowGrows(BucketIndex(v) + 1, i); }
  }

  /** Indexes follow values: monotone, and never skipping a bucket. */
  lemma IndexMonotone(v: nat, w: nat)
    requires v <= w
    ensures BucketIndex(v) <= BucketIndex(w)
  {
    BucketIsInterval(v, BucketIndex(v));
    BucketIsInterval(w, BucketIndex(w));
    if BucketIndex(w) < BucketIndex(v) { LowGrows(BucketIndex(w) + 1, BucketIndex(v)); }
  }

  lemma IndexSkipsNothing(v: nat)
    ensures BucketIndex(v) <= BucketIndex(v + 1) <= BucketIndex(v) + 1
  {
    IndexMonotone(v, v + 1);
    var i := BucketIndex(v);
    BucketIsInterval(v, i);
    LowGrows(i + 1, i + 2);
    BelowBucket(v + 1, i + 2);
  }

  lemma BelowBucket(v: nat, i: nat)
    requires v < Low(i)
    ensures BucketIndex(v) < i
  {
    var j := BucketIndex(v);
    InBucket(v);
    if i <= j { LowGrows(i, j); }
  }

  /** A bucket's midpoint is one of its own values. */
  lemma MidInBucket(i: nat)
    ensures BucketIndex(BucketMid(i)) == i
    ensures BucketMid(i) == Low(i) + Width(i) / 2
  {
    Adjacent(i);
    BucketIsInterval(BucketMid(i), i);
  }

  /** Above LINEAR, SUB_BUCKETS widths of a bucket do not exceed its start. */
  lemma Narrow(i: nat)
    ensures LINEAR <= i ==> SUB_BUCKETS * Width(i) <= Low(i) && Width(i) % 2 == 0
  {
  }

  /** Reporting the midpoint of v's bucket is off by at most v/128. */
  lemma MidError(v: nat)
    ensures 128 * (BucketMid(BucketIndex(v)) - v) <= v
    ensures 128 * (v - BucketMid(BucketIndex(v))) <= v
  {
    var i := BucketIndex(v);
    InBucket(v);
    MidInBucket(i);
    Narrow(i);
  }

  /** The q-th of equal parts of width p, counting from the SUB_BUCKETS-th. */
  lemma PartOf(v: nat, p: nat, q: nat)
    requires 0 < p && SUB_BUCKETS * p <= v && q == (v - SUB_BUCKETS * p) / p
    ensures (SUB_BUCKETS + q) * p <= v < (SUB_BUCKETS + q) * p + p
  {
    QuotientTimes(v - SUB_BUCKETS * p, p);
    assert (SUB_BUCKETS + q) * p == SUB_BUCKETS * p + q * p;
  }

  /** The layout as a formula: a value below LINEAR is a bucket of its own, and the k-th
      power of two and up are SUB_BUCKETS equal parts. */
  lemma LogLinear(v: nat, k: nat)
    requires 7 <= k && Pow2(k) <= v < Pow2(k + 1)
    ensures BucketIndex(v) == LINEAR + (k - 7) * SUB_BUCKETS + (v - Pow2(k)) / Pow2(k - 6)
  {
    var p := Pow2(k - 6);
    PowersAt(k);
    var q := (v - Pow2(k)) / p;
    DivRange(v - Pow2(k), p, 0, SUB_BUCKETS);
    PartOf(v, p, q);
    LogLinearAt(v, k, q);
  }

  lemma PowersAt(k: nat)
    requires 7 <= k
    ensures Pow2(k) == SUB_BUCKETS * Pow2(k - 6) && Pow2(k + 1) == LINEAR * Pow2(k - 6)
  {
    Pow2Plus(6, k - 6);
    Pow2Plus(7, k - 6);
    assert Pow2(6) == SUB_BUCKETS && Pow2(7) == LINEAR;
  }

  lemma LogLinearAt(v: nat, k: nat, q: nat)
    requires 7 <= k && q < SUB_BUCKETS
    requires (SUB_BUCKETS + q) * Pow2(k - 6) <= v < (SUB_BUCKETS + q) * Pow2(k - 6) + Pow2(k - 6)
    ensures BucketIndex(v) == LINEAR + (k - 7) * SUB_BUCKETS + q
  {
    var i := LINEAR + (k - 7) * SUB_BUCKETS + q;
    BucketOf(i, k - 6, SUB_BUCKETS + q);
    Adjacent(i);
    IsInBucket(v, i);
  }

  lemma Pow2Of35()
    ensures Pow2(35) == 34_359_738_368
  {
    assert Pow2(5) == 32 && Pow2(10) == 1024;
    Pow2Plus(10, 5);
    Pow2Plus(10, 15);
    Pow2Plus(10, 25);
  }

  lemma IsInBucket(v: nat, i: nat)
    requires Low(i) <= v < Low(i + 1)
    ensures BucketIndex(v) == i
  {
    BucketIsInterval(v, i);
  }

  /** NUM_BUCKETS is what the code computes: MAX_TRACKED is in the last bucket. */
  lemma LastBucket()
    ensures BucketIndex(MAX_TRACKED) == NUM_BUCKETS - 1
    ensures Low(NUM_BUCKETS - 1) == 3_573_412_790_272 && BucketMid(NUM_BUCKETS - 1) == 3_590_592_659_456
  {
    Pow2Of35();
    BucketOf(NUM_BUCKETS - 1, 35, 104);
    Adjacent(NUM_BUCKETS - 1);
    IsInBucket(MAX_TRACKED, NUM_BUCKETS - 1);
  }
}
