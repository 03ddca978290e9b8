// What the points of a whole run add up to, given the snapshots they are made from.
module SampleSeries {
  import opened Buckets
  import opened Histogram
  import opened Sampler

  // ---------- Requests by outcome ----------

  ghost function OutcomeAt(shards: nat, snap: Snapshot, failed: bool, i: nat, n: nat): nat
    requires Complete(shards, snap) && n <= shards && i < NUM_BUCKETS
  {
    if n == 0 then 0 else OutcomeAt(shards, snap, failed, i, n - 1) + snap[Count(n - 1, failed, i)]
  }

  /** The requests of one outcome in the first m buckets of the first n shards. */
  ghost function Outcomes(shards: nat, snap: Snapshot, failed: bool, m: nat, n: nat): nat
    requires Complete(shards, snap) && n <= shards && m <= NUM_BUCKETS
  {
    if m == 0 then 0 else Outcomes(shards, snap, failed, m - 1, n) + OutcomeAt(shards, snap, failed, m - 1, n)
  }

  /** The requests of one outcome in the first m buckets of shard s. */
  ghost function InShard(shards: nat, snap: Snapshot, failed: bool, s: nat, m: nat): nat
    requires Complete(shards, snap) && s < shards && m <= NUM_BUCKETS
  {
    if m == 0 then 0 else InShard(shards, snap, failed, s, m - 1) + snap[Count(s, failed, m - 1)]
  }

  ghost function FailedSeen(shards: nat, snap: Snapshot): nat
    requires Complete(shards, snap)
  {
    Outcomes(shards, snap, true, NUM_BUCKETS, shards)
  }

  lemma {:induction false} CountAtByOutcome(shards: nat, snap: Snapshot, i: nat, n: nat)
    requires Complete(shards, snap) && n <= shards && i < NUM_BUCKETS
    ensures CountAt(shards, snap, i, n) == OutcomeAt(shards, snap, false, i, n) + OutcomeAt(shards, snap, true, i, n)
  {
    if n == 0 {
    } else {
      CountAtByOutcome(shards, snap, i, n - 1);
    }
  }

  lemma {:induction false} RequestsByOutcome(shards: nat, snap: Snapshot, m: nat)
    requires Complete(shards, snap) && m <= NUM_BUCKETS
    ensures Requests(shards, snap, m) == Outcomes(shards, snap, false, m, shards) + Outcomes(shards, snap, true, m, shards)
  {
    if m == 0 {
    } else {
      RequestsByOutcome(shards, snap, m - 1);
      CountAtByOutcome(shards, snap, m - 1, shards);
    }
  }

  /** Summing by bucket or by shard is the same. */
  lemma {:induction false} OneMoreShard(shards: nat, snap: Snapshot, failed: bool, m: nat, n: nat)
    requires Complete(shards, snap) && n < shards && m <= NUM_BUCKETS
    ensures Outcomes(shards, snap, failed, m, n + 1) == Outcomes(shards, snap, failed, m, n) + InShard(shards, snap, failed, n, m)
  {
    if m == 0 {
    } else {
      OneMoreShard(shards, snap, failed, m - 1, n);
    }
  }

  lemma {:induction false} NoShards(shards: nat, snap: Snapshot, failed: bool, m: nat)
    requires Complete(shards, snap) && m <= NUM_BUCKETS
    ensures Outcomes(shards, snap, failed, m, 0) == 0
  {
    if m == 0 {
    } else {
      NoShards(shards, snap, failed, m - 1);
    }
  }

  lemma {:induction false} OutcomeGrows(shards: nat, a: Snapshot, b: Snapshot, failed: bool, i: nat, n: nat)
    requires Complete(shards, a) && Complete(shards, b) && Grown(shards, a, b) && n <= shards && i < NUM_BUCKETS
    ensures OutcomeAt(shards, a, failed, i, n) <= OutcomeAt(shards, b, failed, i, n)
  {
    if n == 0 {
    } else {
      OutcomeGrows(shards, a, b, failed, i, n - 1);
    }
  }

  lemma {:induction false} OutcomesGrow(shards: nat, a: Snapshot, b: Snapshot, failed: bool, m: nat)
    requires Complete(shards, a) && Complete(shards, b) && Grown(shards, a, b) && m <= NUM_BUCKETS
    ensures Outcomes(shards, a, failed, m, shards) <= Outcomes(shards, b, failed, m, shards)
  {
    if m == 0 {
    } else {
      OutcomesGrow(shards, a, b, failed, m - 1);
      OutcomeGrows(shards, a, b, failed, m - 1, shards);
    }
  }

  lemma TotalGrows(shards: nat, a: Snapshot, b: Snapshot)
    requires Complete(shards, a) && Complete(shards, b) && Grown(shards, a, b)
    ensures Total(shards, a) <= Total(shards, b)
    ensures FailedSeen(shards, b) - FailedSeen(shards, a) <= Total(shards, b) - Total(shards, a)
  {
    RequestsByOutcome(shards, a, NUM_BUCKETS);
    RequestsByOutcome(shards, b, NUM_BUCKETS);
    OutcomesGrow(shards, a, b, false, NUM_BUCKETS);
    OutcomesGrow(shards, a, b, true, NUM_BUCKETS);
  }

  // ---------- The series ----------

  /** Successive snapshots of counters that only grow. */
  ghost predicate Growing(shards: nat, snaps: seq<Snapshot>) {
    && (forall k :: 0 <= k < |snaps| ==> Complete(shards, snaps[k]))
    && forall j, k :: 0 <= j < k < |snaps| && k == j + 1 ==> Grown(shards, snaps[j], snaps[k])
  }

  /** The snapshot before the k-th, counting from 0. */
  ghost function Before(shards: nat, snaps: seq<Snapshot>, k: nat): Snapshot
    requires k <= |snaps|
  {
    if k == 0 then Nothing(shards) else snaps[k - 1]
  }

  lemma BeforeIsLess(shards: nat, snaps: seq<Snapshot>, k: nat)
    requires Growing(shards, snaps) && k < |snaps|
    ensures Complete(shards, Before(shards, snaps, k)) && Grown(shards, Before(shards, snaps, k), snaps[k])
  {
    if k > 0 { assert Grown(shards, snaps[k - 1], snaps[k]); }
  }

  /** The failures the first k points report. */
  ghost function ReportedFailures(shards: nat, snaps: seq<Snapshot>, k: nat): nat
    requires Growing(shards, snaps) && k <= |snaps|
    ensures k > 0 ==> ReportedFailures(shards, snaps, k) <= Failures(shards, snaps[k - 1])
    ensures k == 0 ==> ReportedFailures(shards, snaps, k) == 0
  {
    if k == 0 then 0
    else
      BeforeIsLess(shards, snaps, k - 1);
      TotalGrows(shards, Before(shards, snaps, k - 1), snaps[k - 1]);
      SumsGrow(shards, Before(shards, snaps, k - 1), snaps[k - 1], shards);
      var r := ReportedFailures(shards, snaps, k - 1);
      r + Min(Failures(shards, snaps[k - 1]) - r, Total(shards, snaps[k - 1]) - Total(shards, Before(shards, snaps, k - 1)))
  }

  ghost function SumRequests(points: seq<Point>): nat {
    if points == [] then 0 else SumRequests(points[..|points| - 1]) + points[|points| - 1].requests
  }

  ghost function SumFailed(points: seq<Point>): nat {
    if points == [] then 0 else SumFailed(points[..|points| - 1]) + points[|points| - 1].failed
  }

  /** The first points of a series: no more failures than requests in any, requests
      adding up to what the last snapshot shows, failures to ReportedFailures. */
  ghost predicate AddsUp(shards: nat, snaps: seq<Snapshot>, points: seq<Point>)
    requires Growing(shards, snaps) && |points| <= |snaps|
  {
    && Complete(shards, Before(shards, snaps, |points|))
    && (forall j :: 0 <= j < |points| ==> points[j].failed <= points[j].requests)
    && SumRequests(points) == Total(shards, Before(shards, snaps, |points|))
    && SumFailed(points) == ReportedFailures(shards, snaps, |points|)
  }

  lemma ExtendSeries(shards: nat, snaps: seq<Snapshot>, points: seq<Point>, p: Point)
    requires Growing(shards, snaps) && |points| < |snaps| && AddsUp(shards, snaps, points)
    requires var k := |points|;
             && Grown(shards, Before(shards, snaps, k), snaps[k])
             && ReportedFailures(shards, snaps, k) <= Failures(shards, snaps[k])
             && IsPoint(shards, Before(shards, snaps, k), snaps[k], ReportedFailures(shards, snaps, k), p)
    ensures AddsUp(shards, snaps, points + [p])
    ensures ReportedFailures(shards, snaps, |points| + 1) == ReportedFailures(shards, snaps, |points|) + p.failed
  {
    assert (points + [p])[..|points|] == points;
    TotalGrows(shards, Before(shards, snaps, |points|), snaps[|points|]);
  }

  /** The sampler has made these points, from the first snapshots. */
  ghost predicate Made(sampler: Sampler, snaps: seq<Snapshot>, points: seq<Point>)
    reads sampler, sampler.prev
  {
    && sampler.Valid() && Growing(sampler.shards, snaps) && |points| <= |snaps|
    && AddsUp(sampler.shards, snaps, points)
    && sampler.last == Before(sampler.shards, snaps, |points|)
    && sampler.prevFailed == ReportedFailures(sampler.shards, snaps, |points|)
  }

  method NextPoint(sampler: Sampler, snaps: seq<Snapshot>, points: seq<Point>, at: int, vus: int) returns (more: seq<Point>)
    requires Made(sampler, snaps, points) && |points| < |snaps|
    modifies sampler, sampler.prev, sampler.cur
    ensures Made(sampler, snaps, more) && {sampler.prev, sampler.cur} == old({sampler.prev, sampler.cur})
    ensures |more| == |points| + 1 && more[..|points|] == points
    ensures more[|points|].at == at && more[|points|].vus == vus
  {
    var k := |points|;
    BeforeIsLess(sampler.shards, snaps, k);
    var p := sampler.Sample(snaps[k], at, vus);
    ExtendSeries(sampler.shards, snaps, points, p);
    more := points + [p];
  }

  /** The series of a run: one point per snapshot. */
  method Series(shards: nat, snaps: seq<Snapshot>, ats: seq<int>, vus: seq<int>) returns (points: seq<Point>)
    requires Growing(shards, snaps) && |ats| == |vus| == |snaps|
    ensures |points| == |snaps| && AddsUp(shards, snaps, points)
    ensures forall k :: 0 <= k < |points| ==> points[k].at == ats[k] && points[k].vus == vus[k]
  {
    var sampler := new Sampler(shards);
    points := [];
    NothingTotalsZero(shards, Nothing(shards), NUM_BUCKETS);
    while |points| < |snaps|
      invariant Made(sampler, snaps, points) && sampler.shards == shards
      invariant fresh(sampler) && fresh({sampler.prev, sampler.cur})
      invariant forall j :: 0 <= j < |points| ==> points[j].at == ats[j] && points[j].vus == vus[j]
    {
      var k := |points|;
      points := NextPoint(sampler, snaps, points, ats[k], vus[k]);
      assert forall j :: 0 <= j < k ==> points[j] == points[..k][j];
    }
  }

  // ---------- When the failures add up too ----------

  /** A snapshot that counts every failure whose bucket it saw. */
  ghost predicate Covered(shards: nat, snap: Snapshot)
    requires Complete(shards, snap)
  {
    FailedSeen(shards, snap) <= Failures(shards, snap)
  }

  ghost predicate AllCovered(shards: nat, snaps: seq<Snapshot>, k: nat)
    requires Growing(shards, snaps) && k <= |snaps|
  {
    forall j :: 0 <= j < k ==> Covered(shards, snaps[j])
  }

  /** The key invariant: what is reported is never behind the failed buckets seen. */
  lemma {:induction false} ReportedCoversSeen(shards: nat, snaps: seq<Snapshot>, k: nat)
    requires Growing(shards, snaps) && k <= |snaps| && AllCovered(shards, snaps, k)
    ensures k > 0 ==> FailedSeen(shards, snaps[k - 1]) <= ReportedFailures(shards, snaps, k)
  {
    if k == 0 {
    } else {
      ReportedCoversSeen(shards, snaps, k - 1);
      var last := Before(shards, snaps, k - 1);
      BeforeIsLess(shards, snaps, k - 1);
      TotalGrows(shards, last, snaps[k - 1]);
      if k == 1 {
        NothingSeen(shards, last);
      }
    }
  }

  lemma NothingSeen(shards: nat, z: Snapshot)
    requires Complete(shards, z) && forall l :: l in z ==> z[l] == 0
    ensures FailedSeen(shards, z) == 0
  {
    NothingTotalsZero(shards, z, NUM_BUCKETS);
    RequestsByOutcome(shards, z, NUM_BUCKETS);
  }

  /** If every snapshot is covered, and the last one's failed buckets and failure
      counts agree, then all failures are reported. */
  lemma FailuresAddUp(shards: nat, snaps: seq<Snapshot>)
    requires Growing(shards, snaps) && snaps != [] && AllCovered(shards, snaps, |snaps|)
    requires var last := snaps[|snaps| - 1]; FailedSeen(shards, last) == Failures(shards, last)
    ensures ReportedFailures(shards, snaps, |snaps|) == Failures(shards, snaps[|snaps| - 1])
  {
    ReportedCoversSeen(shards, snaps, |snaps|);
  }

  // ---------- Exactly when they do ----------

  /** The requests a snapshot shows, less the failures it counts. */
  ghost function Ahead(shards: nat, snap: Snapshot): int
    requires Complete(shards, snap)
  {
    Total(shards, snap) - Failures(shards, snap)
  }

  lemma BeforeIsComplete(shards: nat, snaps: seq<Snapshot>, k: nat)
    requires Growing(shards, snaps) && k <= |snaps|
    ensures Complete(shards, Before(shards, snaps, k))
    ensures k == 0 ==> Total(shards, Before(shards, snaps, k)) == Failures(shards, Before(shards, snaps, k)) == 0
  {
    if k == 0 {
      NothingTotalsZero(shards, Nothing(shards), NUM_BUCKETS);
      NothingIsZero(shards, Nothing(shards), 0, shards);
    }
  }

  lemma ReportedStep(shards: nat, snaps: seq<Snapshot>, k: nat)
    requires Growing(shards, snaps) && k < |snaps|
    ensures Complete(shards, Before(shards, snaps, k))
    ensures ReportedFailures(shards, snaps, k + 1)
         == Min(Failures(shards, snaps[k]), ReportedFailures(shards, snaps, k) + Total(shards, snaps[k]) - Total(shards, Before(shards, snaps, k)))
  {
    BeforeIsComplete(shards, snaps, k);
    BeforeIsLess(shards, snaps, k);
    TotalGrows(shards, Before(shards, snaps, k), snaps[k]);
    SumsGrow(shards, Before(shards, snaps, k), snaps[k], shards);
  }

  /** What is reported after k calls, looked at from the j-th: the failures counted
      there and the requests since leave room for no more. */
  lemma {:induction false} ReportedAtMost(shards: nat, snaps: seq<Snapshot>, k: nat, j: nat)
    requires Growing(shards, snaps) && j <= k <= |snaps|
    ensures var (from, to) := (Before(shards, snaps, j), Before(shards, snaps, k));
      && Complete(shards, from) && Complete(shards, to)
      && ReportedFailures(shards, snaps, k) <= Total(shards, to) - Ahead(shards, from)
  {
    BeforeIsComplete(shards, snaps, j);
    BeforeIsComplete(shards, snaps, k);
    if j == k {
    } else {
      ReportedAtMost(shards, snaps, k - 1, j);
      ReportedStep(shards, snaps, k - 1);
    }
  }

  /** k calls report just as many as the j-th leaves room for. */
  ghost predicate AttainedFrom(shards: nat, snaps: seq<Snapshot>, k: nat, j: nat)
    requires Growing(shards, snaps) && j <= k <= |snaps|
  {
    var (from, to) := (Before(shards, snaps, j), Before(shards, snaps, k));
    && Complete(shards, from) && Complete(shards, to)
    && ReportedFailures(shards, snaps, k) == Total(shards, to) - Ahead(shards, from)
  }

  lemma AttainedStep(shards: nat, snaps: seq<Snapshot>, k: nat, j: nat)
    requires Growing(shards, snaps) && j <= k < |snaps| && AttainedFrom(shards, snaps, k, j)
    ensures AttainedFrom(shards, snaps, k + 1, j) || AttainedFrom(shards, snaps, k + 1, k + 1)
  {
    ReportedStep(shards, snaps, k);
    BeforeIsComplete(shards, snaps, k + 1);
  }

  /** From some call on it is just that much. */
  lemma {:induction false} ReportedAttains(shards: nat, snaps: seq<Snapshot>, k: nat) returns (j: nat)
    requires Growing(shards, snaps) && k <= |snaps|
    ensures j <= k && AttainedFrom(shards, snaps, k, j)
  {
    if k == 0 {
      BeforeIsComplete(shards, snaps, 0);
      j := 0;
    } else {
      j := ReportedAttains(shards, snaps, k - 1);
      AttainedStep(shards, snaps, k - 1, j);
      if !AttainedFrom(shards, snaps, k, j) {
        j := k;
      }
    }
  }

  /** All failures the last snapshot counts are reported if and only if no snapshot,
      nor the start, is further ahead of its failure counts than the last one. */
  lemma FailuresAddUpIff(shards: nat, snaps: seq<Snapshot>)
    requires Growing(shards, snaps) && snaps != []
    ensures var last := snaps[|snaps| - 1];
      ReportedFailures(shards, snaps, |snaps|) == Failures(shards, last)
      <==> 0 <= Ahead(shards, last) && forall j :: 0 <= j < |snaps| ==> Ahead(shards, snaps[j]) <= Ahead(shards, last)
  {
    var n := |snaps|;
    var j := ReportedAttains(shards, snaps, n);
    BeforeIsComplete(shards, snaps, 0);
    ReportedAtMost(shards, snaps, n, 0);
    forall i | 0 <= i < n
      ensures ReportedFailures(shards, snaps, n) <= Total(shards, snaps[n - 1]) - Ahead(shards, snaps[i])
    {
      ReportedAtMost(shards, snaps, n, i + 1);
    }
  }
}
