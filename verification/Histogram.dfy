// Latency histograms as values: what one holds after a sequence of recordings,
// how several are combined, and how far a percentile read from one can be off.
module Histogram {
  import opened GoInts
  import opened Buckets

  /** The fields of a histogram; also the merged view of several (combined). */
  datatype Hist = Hist(counts: seq<nat>, n: nat, sum: nat, min: int, max: int)

  function Min(a: int, b: int): (m: int)
    ensures m <= a && m <= b && (m == a || m == b)
  {
    if a < b then a else b
  }

  function Max(a: int, b: int): (m: int)
    ensures a <= m && b <= m && (m == a || m == b)
  {
    if a < b then b else a
  }

  /** The bucket v is counted in: values above MAX_TRACKED share the last one. */
  function Tracked(v: nat): (b: nat)
    ensures b < NUM_BUCKETS
  {
    LastBucket();
    IndexMonotone(Min(v, MAX_TRACKED), MAX_TRACKED);
    BucketIndex(Min(v, MAX_TRACKED))
  }

  lemma TrackedMonotone(v: nat, w: nat)
    requires v <= w
    ensures Tracked(v) <= Tracked(w)
  {
    IndexMonotone(Min(v, MAX_TRACKED), Min(w, MAX_TRACKED));
  }

  /** The bucket v belongs to: up to MAX_TRACKED the one it lies in, beyond it the last. */
  ghost predicate BelongsTo(v: nat, b: nat) {
    if v <= MAX_TRACKED then Low(b) <= v < Low(b + 1) else b == NUM_BUCKETS - 1
  }

  lemma TrackedIsBucket(v: nat)
    ensures BelongsTo(v, Tracked(v))
  {
    if v <= MAX_TRACKED {
      LiesInBucket(v, BucketIndex(v));
    } else {
      TrackedLast(v);
    }
  }

  lemma LiesInBucket(v: nat, i: nat)
    requires v <= MAX_TRACKED && BucketIndex(v) == i
    ensures BelongsTo(v, i)
  {
    BucketIsInterval(v, i);
  }

  // ---------- What a histogram holds ----------

  /** How many of the values are counted in bucket b. */
  ghost function CountIn(vals: seq<nat>, b: nat): nat {
    if vals == [] then 0 else (if Tracked(vals[0]) == b then 1 else 0) + CountIn(vals[1..], b)
  }

  ghost function Sum(vals: seq<nat>): nat {
    if vals == [] then 0 else vals[0] + Sum(vals[1..])
  }

  ghost function Smallest(vals: seq<nat>): int {
    if vals == [] then MAX_INT64 else Min(vals[0], Smallest(vals[1..]))
  }

  ghost function Largest(vals: seq<nat>): nat {
    if vals == [] then 0 else Max(vals[0], Largest(vals[1..]))
  }

  /** The histogram of the values recorded. */
  ghost function HistOf(vals: seq<nat>): Hist {
    Hist(seq(NUM_BUCKETS, b requires 0 <= b => CountIn(vals, b)), |vals|, Sum(vals), Smallest(vals), Largest(vals))
  }

  ghost function Flat(logs: seq<seq<nat>>): seq<nat> {
    if logs == [] then [] else Flat(logs[..|logs| - 1]) + logs[|logs| - 1]
  }

  lemma {:induction false} CountInConcat(a: seq<nat>, c: seq<nat>, b: nat)
    ensures CountIn(a + c, b) == CountIn(a, b) + CountIn(c, b)
  {
    if a == [] {
      assert a + c == c;
    } else {
      CountInConcat(a[1..], c, b);
      assert (a + c)[1..] == a[1..] + c && (a + c)[0] == a[0];
    }
  }

  lemma {:induction false} TotalsConcat(a: seq<nat>, c: seq<nat>)
    ensures Sum(a + c) == Sum(a) + Sum(c)
    ensures Smallest(a + c) == Min(Smallest(a), Smallest(c))
    ensures Largest(a + c) == Max(Largest(a), Largest(c))
  {
    if a == [] {
      assert a + c == c;
      SmallestBound(c);
    } else {
      TotalsConcat(a[1..], c);
      assert (a + c)[1..] == a[1..] + c && (a + c)[0] == a[0];
    }
  }

  lemma {:induction false} SmallestBound(c: seq<nat>)
    ensures Smallest(c) <= MAX_INT64
  {
    if c == [] {
    } else {
      SmallestBound(c[1..]);
    }
  }

  lemma {:induction false} Extremes(vals: seq<nat>, j: nat)
    requires j < |vals|
    ensures Smallest(vals) <= vals[j] <= Largest(vals)
  {
    if j == 0 {
    } else {
      Extremes(vals[1..], j - 1);
    }
  }

  /** Recording one more value, when nobody else records. */
  function Recorded(h: Hist, v: nat): Hist
    requires |h.counts| == NUM_BUCKETS
  {
    Hist(h.counts[Tracked(v) := h.counts[Tracked(v)] + 1], h.n + 1, h.sum + v, Min(h.min, v), Max(h.max, v))
  }

  /** What recording v changes: one count, of the bucket v lies in, and the totals. */
  ghost predicate OneMore(was: Hist, now: Hist, v: nat) {
    && now.n == was.n + 1 && now.sum == was.sum + v
    && now.min == (if v < was.min then v else was.min) && now.max == (if was.max < v then v else was.max)
    && exists b: nat :: BelongsTo(v, b) && b < |was.counts| && now.counts == was.counts[b := was.counts[b] + 1]
  }

  lemma RecordedIsOneMore(h: Hist, v: nat)
    requires |h.counts| == NUM_BUCKETS
    ensures OneMore(h, Recorded(h, v), v)
  {
    var b := Tracked(v);
    TrackedIsBucket(v);
    assert BelongsTo(v, b) && Recorded(h, v).counts == h.counts[b := h.counts[b] + 1];
  }

  lemma RecordedIsHistOf(vals: seq<nat>, v: nat)
    requires v <= MAX_INT64
    ensures Recorded(HistOf(vals), v) == HistOf(vals + [v])
  {
    forall b: nat | b < NUM_BUCKETS
      ensures HistOf(vals + [v]).counts[b] == HistOf(vals).counts[b] + if Tracked(v) == b then 1 else 0
    {
      CountInConcat(vals, [v], b);
      assert CountIn([v], b) == if Tracked(v) == b then 1 else 0;
    }
    TotalsConcat(vals, [v]);
    assert Sum([v]) == v && Smallest([v]) == v && Largest([v]) == v;
    assert Recorded(HistOf(vals), v).counts == HistOf(vals + [v]).counts;
  }

  lemma MergedIsHistOf(x: seq<nat>, y: seq<nat>, counts: seq<nat>)
    requires |counts| == NUM_BUCKETS
    requires forall b: nat :: b < NUM_BUCKETS ==> counts[b] == CountIn(x, b) + CountIn(y, b)
    ensures counts == HistOf(x + y).counts
  {
    forall b: nat | b < NUM_BUCKETS ensures counts[b] == CountIn(x + y, b) {
      CountInConcat(x, y, b);
    }
  }

  /** Merging histograms gives the histogram of all their values together. */
  method Combine(hs: seq<Hist>, ghost logs: seq<seq<nat>>) returns (c: Hist)
    requires |logs| == |hs| && forall k :: 0 <= k < |hs| ==> hs[k] == HistOf(logs[k])
    ensures c == HistOf(Flat(logs))
  {
    c := Hist(seq(NUM_BUCKETS, b => 0), 0, 0, MAX_INT64, 0);
    assert c == HistOf([]);
    for k := 0 to |hs|
      invariant c == HistOf(Flat(logs[..k]))
    {
      var h := hs[k];
      ghost var before := Flat(logs[..k]);
      assert logs[..k + 1][..k] == logs[..k];
      var counts := c.counts;
      for i := 0 to |h.counts|
        invariant |counts| == NUM_BUCKETS
        invariant forall b :: 0 <= b < i ==> counts[b] == c.counts[b] + h.counts[b]
        invariant forall b :: i <= b < NUM_BUCKETS ==> counts[b] == c.counts[b]
      {
        counts := counts[i := counts[i] + h.counts[i]];
      }
      MergedIsHistOf(before, logs[k], counts);
      TotalsConcat(before, logs[k]);
      c := Hist(counts, c.n + h.n, c.sum + h.sum, Min(c.min, h.min), Max(c.max, h.max));
    }
    assert logs[..|hs|] == logs;
  }

  // ---------- Nearest ranks ----------

  ghost function Less(vals: seq<nat>, e: nat): nat {
    if vals == [] then 0 else (if vals[0] < e then 1 else 0) + Less(vals[1..], e)
  }

  ghost function AtMost(vals: seq<nat>, e: nat): nat {
    if vals == [] then 0 else (if vals[0] <= e then 1 else 0) + AtMost(vals[1..], e)
  }

  /** e is the r-th smallest of the values, counting from 1. */
  ghost predicate IsNearestRank(vals: seq<nat>, r: nat, e: nat) {
    e in vals && Less(vals, e) < r <= AtMost(vals, e)
  }

  ghost predicate Sorted(s: seq<nat>) {
    forall i, j :: 0 <= i <= j < |s| ==> s[i] <= s[j]
  }

  lemma {:induction false} CountsOfConcat(a: seq<nat>, c: seq<nat>, e: nat)
    ensures Less(a + c, e) == Less(a, e) + Less(c, e) && AtMost(a + c, e) == AtMost(a, e) + AtMost(c, e)
  {
    if a == [] {
      assert a + c == c;
    } else {
      CountsOfConcat(a[1..], c, e);
      assert (a + c)[1..] == a[1..] + c;
    }
  }

  /** Taking one element out of each of two permutations leaves permutations. */
  lemma WithoutFirst(a: seq<nat>, c: seq<nat>) returns (j: nat)
    requires a != [] && multiset(a) == multiset(c)
    ensures j < |c| && c[j] == a[0] && multiset(a[1..]) == multiset(c[..j] + c[j + 1..])
  {
    assert a[0] in multiset(a);
    j :| 0 <= j < |c| && c[j] == a[0];
    assert a == [a[0]] + a[1..];
    assert c == c[..j] + [c[j]] + c[j + 1..];
    assert multiset(a[1..]) == multiset(a) - multiset{a[0]};
  }

  /** Order does not matter to the counts. */
  lemma {:induction false} CountsOfPermutation(a: seq<nat>, c: seq<nat>, e: nat)
    requires multiset(a) == multiset(c)
    ensures Less(a, e) == Less(c, e) && AtMost(a, e) == AtMost(c, e) && |a| == |c|
    decreases |a|
  {
    if a == [] {
      assert |multiset(c)| == 0;
    } else {
      var j := WithoutFirst(a, c);
      CountsOfPermutation(a[1..], c[..j] + c[j + 1..], e);
      CountsOfConcat(c[..j], c[j + 1..], e);
      CountsOfConcat(c[..j], [a[0]] + c[j + 1..], e);
      assert c == c[..j] + ([a[0]] + c[j + 1..]) && ([a[0]] + c[j + 1..])[1..] == c[j + 1..];
    }
  }

  lemma {:induction false} CountsSplit(s: seq<nat>, e: nat)
    ensures (forall v :: v in s ==> v <= e) ==> AtMost(s, e) == |s|
    ensures (forall v :: v in s ==> e <= v) ==> Less(s, e) == 0
    ensures AtMost(s, e) <= |s| && Less(s, e) <= |s|
  {
    if s == [] {
    } else {
      assert s[0] in s && forall v :: v in s[1..] ==> v in s;
      CountsSplit(s[1..], e);
    }
  }

  /** In sorted order the r-th smallest is at index r - 1. */
  lemma NearestRankInSortedOrder(vals: seq<nat>, s: seq<nat>, r: nat)
    requires multiset(s) == multiset(vals) && Sorted(s) && 1 <= r <= |s|
    ensures IsNearestRank(vals, r, s[r - 1])
  {
    var e := s[r - 1];
    CountsOfPermutation(s, vals, e);
    assert e in multiset(s);
    SortedAtMost(s, r);
    SortedLess(s, r);
  }

  lemma SortedAtMost(s: seq<nat>, r: nat)
    requires Sorted(s) && 1 <= r <= |s|
    ensures r <= AtMost(s, s[r - 1])
  {
    assert s == s[..r] + s[r..];
    CountsOfConcat(s[..r], s[r..], s[r - 1]);
    CountsSplit(s[..r], s[r - 1]);
  }

  lemma SortedLess(s: seq<nat>, r: nat)
    requires Sorted(s) && 1 <= r <= |s|
    ensures Less(s, s[r - 1]) < r
  {
    assert s == s[..r - 1] + s[r - 1..];
    CountsOfConcat(s[..r - 1], s[r - 1..], s[r - 1]);
    CountsSplit(s[r - 1..], s[r - 1]);
    CountsSplit(s[..r - 1], s[r - 1]);
  }

  // ---------- Percentiles ----------

  function Ceil(x: real): (c: int)
    ensures (c - 1) as real < x <= c as real
  {
    -((-x).Floor)
  }

  /** The rank of percentile p among n values, exactly: the least r of at least 1
      that is p percent of n or more. */
  function Rank(p: real, n: nat): (r: nat)
    requires 0.0 < p <= 100.0 && 0 < n
    ensures 1 <= r <= n
    ensures p * n as real <= 100.0 * r as real
    ensures r == 1 || 100.0 * (r - 1) as real < p * n as real
  {
    var x := p * n as real / 100.0;
    assert x <= n as real by { assert p * n as real <= 100.0 * n as real; }
    assert 0.0 < x by { assert 0.0 < p * n as real; }
    Max(Ceil(x), 1)
  }

  ghost function Prefix(counts: seq<nat>, i: nat): nat
    requires i <= |counts|
  {
    if i == 0 then 0 else Prefix(counts, i - 1) + counts[i - 1]
  }

  /** Bucket i holds the given rank. */
  ghost predicate HoldsRank(counts: seq<nat>, rank: nat, i: nat) {
    i < |counts| && Prefix(counts, i) < rank <= Prefix(counts, i + 1)
  }

  /** The value from lo to hi that is nearest to x. */
  ghost function Nearest(x: int, lo: int, hi: int): (y: int)
    ensures lo <= hi ==> lo <= y <= hi
  {
    if hi < x || hi < lo then hi else if x < lo then lo else x
  }

  /** Percentile p, read off the bucket that holds its rank: its midpoint, brought
      between min and max, or just max if the counts do not reach the rank. */
  method Percentile(c: Hist, p: real) returns (d: int)
    requires 0.0 < p <= 100.0 && 0 < c.n
    ensures c.min <= c.max ==> c.min <= d <= c.max
    ensures forall i: nat :: HoldsRank(c.counts, Rank(p, c.n), i) && c.min <= BucketMid(i) <= c.max ==> d == BucketMid(i)
    ensures forall i: nat :: HoldsRank(c.counts, Rank(p, c.n), i) ==> d == Nearest(BucketMid(i), c.min, c.max)
    ensures Prefix(c.counts, |c.counts|) < Rank(p, c.n) ==> d == c.max
  {
    var rank := Rank(p, c.n);
    var seen := 0;
    for i := 0 to |c.counts|
      invariant seen == Prefix(c.counts, i) && seen < rank
    {
      seen := seen + c.counts[i];
      if seen >= rank {
        forall j: nat | HoldsRank(c.counts, rank, j) ensures j == i {
          OneHolder(c.counts, rank, i, j);
        }
        PrefixGrows(c.counts, i + 1, |c.counts|);
        return Min(Max(BucketMid(i), c.min), c.max);
      }
    }
    forall j: nat | HoldsRank(c.counts, rank, j) ensures false {
      PrefixGrows(c.counts, j + 1, |c.counts|);
    }
    return c.max;
  }

  lemma {:induction false} PrefixGrows(counts: seq<nat>, i: nat, j: nat)
    requires i <= j <= |counts|
    ensures Prefix(counts, i) <= Prefix(counts, j)
  {
    if i == j {
    } else {
      PrefixGrows(counts, i, j - 1);
    }
  }

  /** A rank the counts reach is held by some bucket. */
  lemma {:induction false} SomeHolder(counts: seq<nat>, rank: nat, n: nat) returns (i: nat)
    requires n <= |counts| && 1 <= rank <= Prefix(counts, n)
    ensures HoldsRank(counts, rank, i)
  {
    if rank <= Prefix(counts, n - 1) {
      i := SomeHolder(counts, rank, n - 1);
    } else {
      i := n - 1;
    }
  }

  lemma OneHolder(counts: seq<nat>, rank: nat, i: nat, j: nat)
    requires HoldsRank(counts, rank, i) && HoldsRank(counts, rank, j)
    ensures i == j
  {
    if i < j { PrefixGrows(counts, i + 1, j); }
    if j < i { PrefixGrows(counts, j + 1, i); }
  }

  /** How many of the values are counted in the buckets before b. */
  ghost function CountBefore(vals: seq<nat>, b: nat): nat {
    if vals == [] then 0 else (if Tracked(vals[0]) < b then 1 else 0) + CountBefore(vals[1..], b)
  }

  lemma {:induction false} PrefixCounts(vals: seq<nat>, i: nat)
    requires i <= NUM_BUCKETS
    ensures Prefix(HistOf(vals).counts, i) == CountBefore(vals, i)
  {
    if i == 0 {
      NoneBeforeFirst(vals);
    } else {
      PrefixCounts(vals, i - 1);
      OneMoreBucket(vals, i - 1);
    }
  }

  lemma {:induction false} NoneBeforeFirst(vals: seq<nat>)
    ensures CountBefore(vals, 0) == 0
  {
    if vals == [] {
    } else {
      NoneBeforeFirst(vals[1..]);
    }
  }

  lemma {:induction false} OneMoreBucket(vals: seq<nat>, b: nat)
    ensures CountBefore(vals, b + 1) == CountBefore(vals, b) + CountIn(vals, b)
  {
    if vals == [] {
    } else {
      OneMoreBucket(vals[1..], b);
    }
  }

  /** Values at most e are in buckets up to e's, and values in earlier buckets are below e. */
  lemma {:induction false} BucketsBracket(vals: seq<nat>, e: nat)
    ensures CountBefore(vals, Tracked(e)) <= Less(vals, e)
    ensures AtMost(vals, e) <= CountBefore(vals, Tracked(e) + 1)
  {
    if vals == [] {
    } else {
      BucketsBracket(vals[1..], e);
      if vals[0] <= e { TrackedMonotone(vals[0], e); } else { TrackedMonotone(e, vals[0]); }
    }
  }

  /** The rank's bucket is the bucket of the true value. */
  lemma RankBucketIsTrueBucket(vals: seq<nat>, r: nat, e: nat)
    requires IsNearestRank(vals, r, e)
    ensures HoldsRank(HistOf(vals).counts, r, Tracked(e))
  {
    BucketsBracket(vals, e);
    PrefixCounts(vals, Tracked(e));
    PrefixCounts(vals, Tracked(e) + 1);
  }

  /** d is within 1/128 of e. */
  predicate Within(d: int, e: nat) {
    128 * (d - e) <= e && 128 * (e - d) <= e
  }

  lemma BoundsHelp(x: int, lo: int, hi: int, e: nat)
    requires lo <= e <= hi && Within(x, e)
    ensures Within(Nearest(x, lo, hi), e)
  {
  }

  /** Any report of a midpoint brought between bounds around the true value is within 1/128 of it. */
  lemma MidpointWithin(e: nat, lo: int, hi: int)
    requires lo <= e <= hi && e <= MAX_TRACKED
    ensures Within(Nearest(BucketMid(Tracked(e)), lo, hi), e)
  {
    MidError(e);
    BoundsHelp(BucketMid(BucketIndex(e)), lo, hi, e);
  }

  /** A percentile of the merged histograms, over any spread of the values, is
      within 1/128 of the true nearest-rank value. */
  method MergedPercentile(hs: seq<Hist>, ghost logs: seq<seq<nat>>, p: real, ghost s: seq<nat>) returns (d: int)
    requires |logs| == |hs| && forall k :: 0 <= k < |hs| ==> hs[k] == HistOf(logs[k])
    requires 0.0 < p <= 100.0 && Flat(logs) != []
    requires multiset(s) == multiset(Flat(logs)) && Sorted(s)
    ensures |s| == |Flat(logs)|
    ensures s[Rank(p, |s|) - 1] <= MAX_TRACKED ==> Within(d, s[Rank(p, |s|) - 1])
  {
    var c := Combine(hs, logs);
    d := Percentile(c, p);
    ghost var vals := Flat(logs);
    CountsOfPermutation(s, vals, 0);
    ghost var r := Rank(p, |s|);
    ghost var e := s[r - 1];
    NearestRankInSortedOrder(vals, s, r);
    RankBucketIsTrueBucket(vals, r, e);
    ghost var j :| 0 <= j < |vals| && vals[j] == e;
    Extremes(vals, j);
    if e <= MAX_TRACKED {
      MidpointWithin(e, c.min, c.max);
    }
  }

  lemma TrackedLast(v: nat)
    requires MAX_TRACKED <= v
    ensures Tracked(v) == NUM_BUCKETS - 1
  {
    LastBucket();
  }

  // ---------- How long a latency may be for that to hold ----------

  /** What a percentile reports for the true value e of the values. */
  ghost function Reported(vals: seq<nat>, e: nat): int {
    Nearest(BucketMid(Tracked(e)), Smallest(vals), Largest(vals))
  }

  /** Every percentile of every set of latencies up to m is within 1/128. */
  ghost predicate AccurateUpTo(m: nat) {
    forall vals: seq<nat>, r: nat, e: nat ::
      IsNearestRank(vals, r, e) && (forall v :: v in vals ==> v <= m) ==> Within(Reported(vals, e), e)
  }

  /** The bound reaches a little past MAX_TRACKED, and not further: values above
      it share the last bucket, and the midpoint of that is all that is known of them. */
  lemma AccuracyLimit(m: nat)
    ensures AccurateUpTo(m) <==> 127 * m <= 128 * BucketMid(NUM_BUCKETS - 1)
  {
    if 127 * m <= 128 * BucketMid(NUM_BUCKETS - 1) {
      forall vals: seq<nat>, r: nat, e: nat | IsNearestRank(vals, r, e) && forall v :: v in vals ==> v <= m
        ensures Within(Reported(vals, e), e)
      {
        AccurateWithinLimit(vals, e);
      }
    } else {
      InaccurateBeyondLimit(m);
    }
  }

  /** Of the values themselves: one in the last bucket or beyond is reported within
      1/128 if and only if the last midpoint, or the least value if that is above
      it, is near enough. */
  lemma AccurateIff(vals: seq<nat>, e: nat)
    requires e in vals && MAX_TRACKED <= e
    ensures Within(Reported(vals, e), e) <==> 127 * e <= 128 * Max(BucketMid(NUM_BUCKETS - 1), Smallest(vals))
  {
    LastBucket();
    TrackedLast(e);
    var j :| 0 <= j < |vals| && vals[j] == e;
    Extremes(vals, j);
  }

  lemma AccurateWithinLimit(vals: seq<nat>, e: nat)
    requires e in vals && 127 * e <= 128 * BucketMid(NUM_BUCKETS - 1)
    ensures Within(Reported(vals, e), e)
  {
    var mid := BucketMid(NUM_BUCKETS - 1);
    LastBucket();
    var j :| 0 <= j < |vals| && vals[j] == e;
    Extremes(vals, j);
    if e <= MAX_TRACKED {
      MidpointWithin(e, Smallest(vals), Largest(vals));
    } else {
      TrackedLast(e);
      BoundsHelp(mid, Smallest(vals), Largest(vals), e);
    }
  }

  lemma InaccurateBeyondLimit(m: nat)
    requires 128 * BucketMid(NUM_BUCKETS - 1) < 127 * m
    ensures IsNearestRank([0, m], 2, m) && !Within(Reported([0, m], m), m)
  {
    LastBucket();
    var vals := [0, m];
    assert vals[1..] == [m] && Smallest([m]) == Min(m, MAX_INT64) && Largest([m]) == m;
    assert Less([m], m) == 0 && AtMost([m], m) == 1;
    TrackedLast(m);
    assert Reported(vals, m) == BucketMid(NUM_BUCKETS - 1);
  }
}
