// The sampler turns the cumulative histograms of the shards into one point per
// interval. Here: what one call of Sample computes from the values its atomic
// loads return, and what a series of points adds up to. SamplerRuns.dfy
// interleaves the loads with the recorders.
module Sampler {
  import opened Buckets
  import opened Histogram

  /** The atomics Sample loads: a bucket or the latency sum of a shard's ok or
      failed histogram, or the number of its failed requests. */
  datatype Loc = Count(shard: nat, failed: bool, i: nat) | SumOf(shard: nat, failed: bool) | FailedN(shard: nat)

  predicate ValidLoc(shards: nat, l: Loc) {
    l.shard < shards && (l.Count? ==> l.i < NUM_BUCKETS)
  }

  /** What the loads of one call of Sample return. */
  type Snapshot = map<Loc, nat>

  ghost predicate Complete(shards: nat, snap: Snapshot) {
    forall l :: ValidLoc(shards, l) ==> l in snap
  }

  /** Every counter is at least what it was. */
  ghost predicate Grown(shards: nat, a: Snapshot, b: Snapshot)
    requires Complete(shards, a) && Complete(shards, b)
  {
    forall l :: ValidLoc(shards, l) ==> a[l] <= b[l]
  }

  // ---------- Sums over the first n of the shards ----------

  ghost function CountAt(shards: nat, snap: Snapshot, i: nat, n: nat): nat
    requires Complete(shards, snap) && n <= shards && i < NUM_BUCKETS
  {
    if n == 0 then 0 else CountAt(shards, snap, i, n - 1) + snap[Count(n - 1, false, i)] + snap[Count(n - 1, true, i)]
  }

  ghost function SumAt(shards: nat, snap: Snapshot, n: nat): nat
    requires Complete(shards, snap) && n <= shards
  {
    if n == 0 then 0 else SumAt(shards, snap, n - 1) + snap[SumOf(n - 1, false)] + snap[SumOf(n - 1, true)]
  }

  ghost function FailedAt(shards: nat, snap: Snapshot, n: nat): nat
    requires Complete(shards, snap) && n <= shards
  {
    if n == 0 then 0 else FailedAt(shards, snap, n - 1) + snap[FailedN(n - 1)]
  }

  /** The requests a snapshot shows in the first m buckets. */
  ghost function Requests(shards: nat, snap: Snapshot, m: nat): nat
    requires Complete(shards, snap) && m <= NUM_BUCKETS
  {
    if m == 0 then 0 else Requests(shards, snap, m - 1) + CountAt(shards, snap, m - 1, shards)
  }

  ghost function Total(shards: nat, snap: Snapshot): nat
    requires Complete(shards, snap)
  {
    Requests(shards, snap, NUM_BUCKETS)
  }

  ghost function Failures(shards: nat, snap: Snapshot): nat
    requires Complete(shards, snap)
  {
    FailedAt(shards, snap, shards)
  }

  lemma {:induction false} CountAtGrows(shards: nat, a: Snapshot, b: Snapshot, i: nat, n: nat)
    requires Complete(shards, a) && Complete(shards, b) && Grown(shards, a, b) && n <= shards && i < NUM_BUCKETS
    ensures CountAt(shards, a, i, n) <= CountAt(shards, b, i, n)
  {
    if n == 0 {
    } else {
      CountAtGrows(shards, a, b, i, n - 1);
    }
  }

  lemma {:induction false} SumsGrow(shards: nat, a: Snapshot, b: Snapshot, n: nat)
    requires Complete(shards, a) && Complete(shards, b) && Grown(shards, a, b) && n <= shards
    ensures SumAt(shards, a, n) <= SumAt(shards, b, n) && FailedAt(shards, a, n) <= FailedAt(shards, b, n)
  {
    if n == 0 {
    } else {
      SumsGrow(shards, a, b, n - 1);
    }
  }

  // ---------- One point ----------

  datatype Point = Point(at: int, requests: nat, failed: nat, mean: nat, p50: int, p95: int, p99: int, vus: int)

  /** The interval's own bucket counts. */
  ghost function Interval(shards: nat, last: Snapshot, snap: Snapshot): seq<nat>
    requires Complete(shards, last) && Complete(shards, snap) && Grown(shards, last, snap)
  {
    seq(NUM_BUCKETS, i requires 0 <= i < NUM_BUCKETS => Added(shards, last, snap, i))
  }

  ghost function Added(shards: nat, last: Snapshot, snap: Snapshot, i: nat): nat
    requires Complete(shards, last) && Complete(shards, snap) && Grown(shards, last, snap) && i < NUM_BUCKETS
  {
    CountAtGrows(shards, last, snap, i, shards);
    CountAt(shards, snap, i, shards) - CountAt(shards, last, i, shards)
  }

  /** d is the midpoint of the bucket that holds percentile p's rank (of all that
      do, but there is just one if the counts add up to n), at most an hour. */
  ghost predicate IsPercentile(counts: seq<nat>, n: nat, p: real, d: int)
    requires 0.0 < p <= 100.0 && 0 < n
  {
    forall i: nat :: HoldsRank(counts, Rank(p, n), i) ==> d == Nearest(BucketMid(i), 0, MAX_TRACKED)
  }

  /** The mean and percentiles of n latencies with the given bucket counts and sum. */
  ghost predicate Describes(counts: seq<nat>, n: nat, sum: nat, p: Point) {
    Prefix(counts, |counts|) == n &&
    if n == 0 then p.mean == p.p50 == p.p95 == p.p99 == 0
    else
      && p.mean == sum / n
      && IsPercentile(counts, n, 50.0, p.p50) && IsPercentile(counts, n, 95.0, p.p95) && IsPercentile(counts, n, 99.0, p.p99)
  }

  /** What the point of an interval must say, given the snapshots at its ends
      and the failures reported before it. */
  ghost predicate IsPoint(shards: nat, last: Snapshot, snap: Snapshot, reported: nat, p: Point)
    requires Complete(shards, last) && Complete(shards, snap) && Grown(shards, last, snap)
    requires reported <= Failures(shards, snap)
  {
    SumsGrow(shards, last, snap, shards);
    && p.requests == Total(shards, snap) - Total(shards, last)
    && p.failed == Min(Failures(shards, snap) - reported, p.requests)
    && Describes(Interval(shards, last, snap), p.requests, SumAt(shards, snap, shards) - SumAt(shards, last, shards), p)
  }

  method Describe(counts: seq<nat>, n: nat, sum: nat, at: int, failed: nat, vus: int) returns (p: Point)
    requires Prefix(counts, |counts|) == n
    ensures Describes(counts, n, sum, p)
    ensures p.at == at && p.requests == n && p.failed == failed && p.vus == vus
  {
    var mean, p50, p95, p99 := 0, 0, 0, 0;
    if n > 0 {
      var interval := Hist(counts, n, 0, 0, MAX_TRACKED);
      mean := sum / n;
      p50 := Percentile(interval, 50.0);
      p95 := Percentile(interval, 95.0);
      p99 := Percentile(interval, 99.0);
    }
    p := Point(at, n, failed, mean, p50, p95, p99, vus);
  }

  // ---------- How accurate a point is ----------

  lemma {:induction false} AllBefore(vals: seq<nat>)
    ensures CountBefore(vals, NUM_BUCKETS) == |vals|
  {
    if vals == [] {
    } else {
      AllBefore(vals[1..]);
    }
  }

  /** For any latencies an interval may hold, its percentile is within 1/128 of their
      true nearest-rank value e if and only if e is at most 128/127 of the last
      bucket's midpoint: an hour and some. */
  lemma IntervalAccurateIff(vals: seq<nat>, p: real, d: int, e: nat)
    requires 0.0 < p <= 100.0 && vals != [] && IsPercentile(HistOf(vals).counts, |vals|, p, d)
    requires IsNearestRank(vals, Rank(p, |vals|), e)
    ensures Within(d, e) <==> 127 * e <= 128 * BucketMid(NUM_BUCKETS - 1)
  {
    RankBucketIsTrueBucket(vals, Rank(p, |vals|), e);
    CappedMidIff(e);
  }

  lemma CappedMidIff(e: nat)
    ensures Within(Nearest(BucketMid(Tracked(e)), 0, MAX_TRACKED), e) <==> 127 * e <= 128 * BucketMid(NUM_BUCKETS - 1)
  {
    LastBucket();
    if e <= MAX_TRACKED {
      MidpointWithin(e, 0, MAX_TRACKED);
    } else {
      TrackedLast(e);
    }
  }

  /** The percentiles of a point, and how many latencies it describes, for any
      latencies that fall into the interval's buckets. */
  lemma PointAccurateIff(counts: seq<nat>, n: nat, sum: nat, pt: Point, vals: seq<nat>, p: real, e: nat)
    requires Describes(counts, n, sum, pt) && counts == HistOf(vals).counts
    ensures n == |vals|
    ensures p in {50.0, 95.0, 99.0} && vals != [] && IsNearestRank(vals, Rank(p, n), e) ==>
      var d := if p == 50.0 then pt.p50 else if p == 95.0 then pt.p95 else pt.p99;
      Within(d, e) <==> 127 * e <= 128 * BucketMid(NUM_BUCKETS - 1)
  {
    PrefixCounts(vals, NUM_BUCKETS);
    AllBefore(vals);
    if p in {50.0, 95.0, 99.0} && vals != [] && IsNearestRank(vals, Rank(p, n), e) {
      var d := if p == 50.0 then pt.p50 else if p == 95.0 then pt.p95 else pt.p99;
      IntervalAccurateIff(vals, p, d, e);
    }
  }

  /** The interval's counts add up to the requests since the last snapshot. */
  lemma {:induction false} IntervalTotal(shards: nat, last: Snapshot, snap: Snapshot, m: nat)
    requires Complete(shards, last) && Complete(shards, snap) && Grown(shards, last, snap) && m <= NUM_BUCKETS
    ensures Prefix(Interval(shards, last, snap), m) == Requests(shards, snap, m) - Requests(shards, last, m)
  {
    if m == 0 {
    } else {
      IntervalTotal(shards, last, snap, m - 1);
      CountAtGrows(shards, last, snap, m - 1, shards);
    }
  }

  /** The counters before anything was recorded. */
  ghost function Nothing(shards: nat): (z: Snapshot)
    ensures Complete(shards, z) && forall l :: l in z ==> z[l] == 0
  {
    var buckets := set s, i | 0 <= s < shards && 0 <= i < NUM_BUCKETS :: (s, i);
    var locs := (set x | x in buckets :: Count(x.0, false, x.1)) + (set x | x in buckets :: Count(x.0, true, x.1))
              + (set s | 0 <= s < shards :: SumOf(s, false)) + (set s | 0 <= s < shards :: SumOf(s, true))
              + (set s | 0 <= s < shards :: FailedN(s));
    assert forall l :: ValidLoc(shards, l) && l.Count? ==> (l.shard, l.i) in buckets;
    map l | l in locs :: 0
  }

  lemma {:induction false} NothingIsZero(shards: nat, z: Snapshot, i: nat, n: nat)
    requires Complete(shards, z) && (forall l :: l in z ==> z[l] == 0) && i < NUM_BUCKETS && n <= shards
    ensures CountAt(shards, z, i, n) == SumAt(shards, z, n) == FailedAt(shards, z, n) == 0
  {
    if n == 0 {
    } else {
      NothingIsZero(shards, z, i, n - 1);
    }
  }

  lemma {:induction false} NothingTotalsZero(shards: nat, z: Snapshot, m: nat)
    requires Complete(shards, z) && (forall l :: l in z ==> z[l] == 0) && m <= NUM_BUCKETS
    ensures Requests(shards, z, m) == 0
  {
    if m == 0 {
    } else {
      NothingIsZero(shards, z, m - 1, shards);
      NothingTotalsZero(shards, z, m - 1);
    }
  }

  // ---------- The sampler ----------

  class Sampler {
    const shards: nat
    // Cumulative bucket counts of the last call and of this one: two buffers,
    // swapped by each call.
    var prev: array<nat>
    var cur: array<nat>
    // The failures reported so far, and the latency sum of the last call.
    var prevFailed: nat
    var curFailed: nat
    var prevSum: nat
    var curSum: nat
    /** The snapshot of the last call. */
    ghost var last: Snapshot

    ghost predicate Valid()
      reads this, prev
    {
      && Complete(shards, last)
      && prev.Length == NUM_BUCKETS == cur.Length && prev != cur
      && (forall i :: 0 <= i < NUM_BUCKETS ==> prev[i] == CountAt(shards, last, i, shards))
      && prevFailed <= Failures(shards, last)
      && prevSum == SumAt(shards, last, shards)
    }

    constructor (shards: nat)
      ensures Valid() && fresh(prev) && fresh(cur)
      ensures this.shards == shards && last == Nothing(shards) && prevFailed == 0
    {
      this.shards := shards;
      prev := new nat[NUM_BUCKETS](_ => 0);
      cur := new nat[NUM_BUCKETS](_ => 0);
      prevFailed, curFailed, prevSum, curSum := 0, 0, 0, 0;
      last := Nothing(shards);
      new;
      forall i: nat | i < NUM_BUCKETS ensures CountAt(shards, last, i, shards) == 0 {
        NothingIsZero(shards, last, i, shards);
      }
      NothingIsZero(shards, last, 0, shards);
    }

    /** Adds the loads of one histogram of shard s to cur and curSum. */
    method AddHistogram(snap: Snapshot, s: nat, failed: bool)
      requires Complete(shards, snap) && s < shards && cur.Length == NUM_BUCKETS
      modifies this`curSum, cur
      ensures curSum == old(curSum) + snap[SumOf(s, failed)]
      ensures forall i :: 0 <= i < NUM_BUCKETS ==> cur[i] == old(cur[i]) + snap[Count(s, failed, i)]
    {
      for i := 0 to NUM_BUCKETS
        invariant curSum == old(curSum)
        invariant forall j :: 0 <= j < i ==> cur[j] == old(cur[j]) + snap[Count(s, failed, j)]
        invariant forall j :: i <= j < NUM_BUCKETS ==> cur[j] == old(cur[j])
      {
        cur[i] := cur[i] + snap[Count(s, failed, i)];
      }
      curSum := curSum + snap[SumOf(s, failed)];
    }

    /** Adds the loads of shard s to the sums over the shards before it. */
    method AddShard(snap: Snapshot, s: nat)
      requires Complete(shards, snap) && s < shards && cur.Length == NUM_BUCKETS
      requires forall i :: 0 <= i < NUM_BUCKETS ==> cur[i] == CountAt(shards, snap, i, s)
      requires curFailed == FailedAt(shards, snap, s) && curSum == SumAt(shards, snap, s)
      modifies this`curFailed, this`curSum, cur
      ensures forall i :: 0 <= i < NUM_BUCKETS ==> cur[i] == CountAt(shards, snap, i, s + 1)
      ensures curFailed == FailedAt(shards, snap, s + 1) && curSum == SumAt(shards, snap, s + 1)
    {
      AddHistogram(snap, s, false);
      AddHistogram(snap, s, true);
      curFailed := curFailed + snap[FailedN(s)];
    }

    method Clear()
      requires cur.Length == NUM_BUCKETS
      modifies cur
      ensures forall i :: 0 <= i < NUM_BUCKETS ==> cur[i] == 0
    {
      for i := 0 to NUM_BUCKETS
        invariant forall j :: 0 <= j < i ==> cur[j] == 0
      {
        cur[i] := 0;
      }
    }

    /** The loads of one call, summed over the shards. */
    method Gather(snap: Snapshot)
      requires Complete(shards, snap) && cur.Length == NUM_BUCKETS
      modifies this`curFailed, this`curSum, cur
      ensures forall i :: 0 <= i < NUM_BUCKETS ==> cur[i] == CountAt(shards, snap, i, shards)
      ensures curFailed == Failures(shards, snap) && curSum == SumAt(shards, snap, shards)
    {
      Clear();
      curFailed, curSum := 0, 0;
      for s := 0 to shards
        invariant forall i :: 0 <= i < NUM_BUCKETS ==> cur[i] == CountAt(shards, snap, i, s)
        invariant curFailed == FailedAt(shards, snap, s) && curSum == SumAt(shards, snap, s)
      {
        AddShard(snap, s);
      }
    }

    /** Replaces prev by the interval's counts and returns how many there are. */
    method Subtract(ghost snap: Snapshot) returns (n: nat)
      requires Valid() && Complete(shards, snap) && Grown(shards, last, snap)
      requires forall i :: 0 <= i < NUM_BUCKETS ==> cur[i] == CountAt(shards, snap, i, shards)
      modifies prev
      ensures n == Total(shards, snap) - Total(shards, last)
      ensures prev[..] == Interval(shards, last, snap)
    {
      n := 0;
      for i := 0 to NUM_BUCKETS
        invariant n == Requests(shards, snap, i) - Requests(shards, last, i)
        invariant forall j :: 0 <= j < i ==> prev[j] == Added(shards, last, snap, j)
        invariant forall j :: i <= j < NUM_BUCKETS ==> prev[j] == CountAt(shards, last, j, shards)
      {
        CountAtGrows(shards, last, snap, i, shards);
        // The unsigned subtraction cannot underflow.
        var d: nat := cur[i] - prev[i];
        prev[i] := d;
        n := n + d;
      }
    }

    /** The point of the interval whose counts are in prev. */
    method MakePoint(ghost snap: Snapshot, n: nat, at: int, vus: int) returns (p: Point)
      requires Complete(shards, last) && Complete(shards, snap) && Grown(shards, last, snap)
      requires prev[..] == Interval(shards, last, snap) && n == Total(shards, snap) - Total(shards, last)
      requires prevFailed <= curFailed == Failures(shards, snap)
      requires prevSum == SumAt(shards, last, shards) && curSum == SumAt(shards, snap, shards)
      ensures IsPoint(shards, last, snap, prevFailed, p) && p.at == at && p.vus == vus
    {
      SumsGrow(shards, last, snap, shards);
      IntervalTotal(shards, last, snap, NUM_BUCKETS);
      var unreported: nat := curFailed - prevFailed;
      var sum: nat := curSum - prevSum;
      p := Describe(prev[..], n, sum, at, Min(unreported, n), vus);
    }

    /** One call, given what its loads return (snap): no counter is below what it was
        at the last call. */
    method Sample(snap: Snapshot, at: int, vus: int) returns (p: Point)
      requires Valid() && Complete(shards, snap) && Grown(shards, last, snap)
      modifies this, prev, cur
      ensures Valid() && last == snap && {prev, cur} == old({prev, cur})
      ensures old(prevFailed) <= Failures(shards, snap) && IsPoint(shards, old(last), snap, old(prevFailed), p)
      ensures p.at == at && p.vus == vus
      ensures prevFailed == old(prevFailed) + p.failed
    {
      SumsGrow(shards, last, snap, shards);
      Gather(snap);
      var n := Subtract(snap);
      p := MakePoint(snap, n, at, vus);
      prev, cur := cur, prev;
      // What the clamp kept out of this point is left for the next.
      prevFailed := prevFailed + p.failed;
      prevSum := curSum;
      last := snap;
    }
  }
}
