// The summary of a run, and what it must say of the calls recorded. Nothing
// here depends on which recorder, shard or table a call went through, or when.
module Summaries {
  import opened Options
  import opened Histogram
  import opened Buckets
  import opened RecordingCalls

  datatype StatusCount = StatusCount(code: nat, count: nat)
  datatype Percentiles = Percentiles(p50: int, p90: int, p95: int, p99: int)

  /** One check's tally, in one recorder or merged. */
  datatype CheckCount = CheckCount(passes: nat, fails: nat, firstError: string)
  datatype CheckResult = CheckResult(name: string, count: CheckCount)

  datatype Summary = Summary(
    requests: nat, successes: nat, failures: nat, sent: nat, errorRate: real,
    min: int, mean: int, max: int, overall: Percentiles, success: Percentiles,
    scriptErrors: nat, firstScriptError: string, checks: seq<CheckResult>,
    iterations: nat, http1: nat, http2: nat, otherProtocols: nat,
    statusCodes: seq<StatusCount>, latency: Option<Hist>)

  // ---------- Percentiles of the latencies ----------

  lemma {:induction false} LessThanNext(vals: seq<nat>, e: nat)
    ensures Less(vals, e + 1) == AtMost(vals, e) == Less(vals, e) + multiset(vals)[e]
  {
    if vals == [] {
    } else {
      assert vals == [vals[0]] + vals[1..];
      LessThanNext(vals[1..], e);
    }
  }

  /** Among the values up to m, one has rank r. */
  lemma {:induction false} RankUpTo(vals: seq<nat>, r: nat, m: nat) returns (e: nat)
    requires 1 <= r <= AtMost(vals, m)
    ensures IsNearestRank(vals, r, e)
  {
    LessThanNext(vals, m);
    if r <= Less(vals, m) {
      if m == 0 {
        CountsSplit(vals, 0);
      }
      LessThanNext(vals, m - 1);
      e := RankUpTo(vals, r, m - 1);
    } else {
      assert m in multiset(vals);
      e := m;
    }
  }

  lemma NearestRank(vals: seq<nat>, r: nat) returns (e: nat)
    requires 1 <= r <= |vals|
    ensures IsNearestRank(vals, r, e)
  {
    forall v | v in vals ensures v <= Largest(vals) {
      var j :| 0 <= j < |vals| && vals[j] == v;
      Extremes(vals, j);
    }
    CountsSplit(vals, Largest(vals));
    e := RankUpTo(vals, r, Largest(vals));
  }

  /** d is what is reported for percentile p of the values: the midpoint of the
      bucket of the nearest-rank value, brought between the least and the greatest. */
  ghost predicate IsPercentileOf(vals: seq<nat>, p: real, d: int)
    requires 0.0 < p <= 100.0
  {
    vals != [] && exists e: nat :: IsNearestRank(vals, Rank(p, |vals|), e) && d == Reported(vals, e)
  }

  /** Up to MAX_TRACKED that is within 1/128 of the nearest-rank value. */
  lemma PercentileWithin(vals: seq<nat>, p: real, d: int, f: nat)
    requires 0.0 < p <= 100.0 && IsPercentileOf(vals, p, d)
    requires IsNearestRank(vals, Rank(p, |vals|), f) && f <= MAX_TRACKED
    ensures Within(d, f)
  {
    var r := Rank(p, |vals|);
    var e: nat :| IsNearestRank(vals, r, e) && d == Reported(vals, e);
    OneNearestRank(vals, r, e, f);
    var j :| 0 <= j < |vals| && vals[j] == e;
    Extremes(vals, j);
    MidpointWithin(e, Smallest(vals), Largest(vals));
  }

  lemma OneNearestRank(vals: seq<nat>, r: nat, e: nat, f: nat)
    requires IsNearestRank(vals, r, e) && IsNearestRank(vals, r, f)
    ensures e == f
  {
    if e < f { AtMostBelow(vals, e, f); }
    if f < e { AtMostBelow(vals, f, e); }
  }

  lemma {:induction false} AtMostBelow(vals: seq<nat>, e: nat, f: nat)
    requires e < f
    ensures AtMost(vals, e) <= Less(vals, f)
  {
    if vals == [] {
    } else {
      AtMostBelow(vals[1..], e, f);
    }
  }

  method OnePercentile(c: Hist, p: real, ghost vals: seq<nat>) returns (d: int)
    requires 0.0 < p <= 100.0 && c == HistOf(vals) && vals != []
    ensures IsPercentileOf(vals, p, d)
  {
    d := Percentile(c, p);
    ghost var r := Rank(p, |vals|);
    ghost var e := NearestRank(vals, r);
    RankBucketIsTrueBucket(vals, r, e);
  }

  ghost predicate Describe(vals: seq<nat>, q: Percentiles) {
    if vals == [] then q == Percentiles(0, 0, 0, 0)
    else
      && IsPercentileOf(vals, 50.0, q.p50) && IsPercentileOf(vals, 90.0, q.p90)
      && IsPercentileOf(vals, 95.0, q.p95) && IsPercentileOf(vals, 99.0, q.p99)
  }

  method PercentilesOf(c: Hist, ghost vals: seq<nat>) returns (q: Percentiles)
    requires c == HistOf(vals)
    ensures Describe(vals, q)
  {
    if c.n == 0 {
      return Percentiles(0, 0, 0, 0);
    }
    var p50 := OnePercentile(c, 50.0, vals);
    var p90 := OnePercentile(c, 90.0, vals);
    var p95 := OnePercentile(c, 95.0, vals);
    var p99 := OnePercentile(c, 99.0, vals);
    q := Percentiles(p50, p90, p95, p99);
  }

  // ---------- Percentiles are in order ----------

  lemma RankGrows(p: real, q: real, n: nat)
    requires 0.0 < p <= q <= 100.0 && 0 < n
    ensures Rank(p, n) <= Rank(q, n)
  {
    var r := Rank(p, n);
    if 1 < r {
      assert 100.0 * (r - 1) as real < p * n as real <= q * n as real <= 100.0 * Rank(q, n) as real;
    }
  }

  lemma NearestRankGrows(vals: seq<nat>, r: nat, t: nat, e: nat, f: nat)
    requires r <= t && IsNearestRank(vals, r, e) && IsNearestRank(vals, t, f)
    ensures e <= f
  {
    if f < e { AtMostBelow(vals, f, e); }
  }

  lemma MidGrows(i: nat, j: nat)
    requires i <= j
    ensures BucketMid(i) <= BucketMid(j)
  {
    MidInBucket(i);
    MidInBucket(j);
    if i < j {
      Adjacent(i);
      LowGrows(i + 1, j);
    }
  }

  /** Greater percentiles are not less, and all are between the least value and the
      greatest. */
  lemma PercentilesInOrder(vals: seq<nat>, p: real, d: int, q: real, d': int)
    requires 0.0 < p <= q <= 100.0 && IsPercentileOf(vals, p, d) && IsPercentileOf(vals, q, d')
    ensures Smallest(vals) <= d <= d' <= Largest(vals)
  {
    var n := |vals|;
    var e: nat :| IsNearestRank(vals, Rank(p, n), e) && d == Reported(vals, e);
    var f: nat :| IsNearestRank(vals, Rank(q, n), f) && d' == Reported(vals, f);
    RankGrows(p, q, n);
    NearestRankGrows(vals, Rank(p, n), Rank(q, n), e, f);
    TrackedMonotone(e, f);
    MidGrows(Tracked(e), Tracked(f));
    var j :| 0 <= j < n && vals[j] == e;
    Extremes(vals, j);
  }

  lemma InOrder(vals: seq<nat>, q: Percentiles)
    requires vals != [] && Describe(vals, q)
    ensures Smallest(vals) <= q.p50 <= q.p90 <= q.p95 <= q.p99 <= Largest(vals)
  {
    PercentilesInOrder(vals, 50.0, q.p50, 90.0, q.p90);
    PercentilesInOrder(vals, 90.0, q.p90, 95.0, q.p95);
    PercentilesInOrder(vals, 95.0, q.p95, 99.0, q.p99);
  }

  // ---------- The order of the latencies does not matter ----------

  lemma {:induction false} HistOfPermutation(a: seq<nat>, c: seq<nat>)
    requires multiset(a) == multiset(c)
    ensures HistOf(a) == HistOf(c)
  {
    SameSize(a, c);
    TotalsOfPermutation(a, c);
    forall b: nat | b < NUM_BUCKETS ensures HistOf(a).counts[b] == HistOf(c).counts[b] {
      CountInPermutation(a, c, b);
    }
    assert HistOf(a).counts == HistOf(c).counts;
  }

  lemma {:induction false} CountInPermutation(a: seq<nat>, c: seq<nat>, b: nat)
    requires multiset(a) == multiset(c)
    ensures CountIn(a, b) == CountIn(c, b)
    decreases |a|
  {
    SameSize(a, c);
    if a == [] {
    } else {
      var j := WithoutFirst(a, c);
      CountInPermutation(a[1..], c[..j] + c[j + 1..], b);
      CountInConcat(c[..j], c[j + 1..], b);
      CountInConcat(c[..j], [a[0]] + c[j + 1..], b);
      assert c == c[..j] + ([a[0]] + c[j + 1..]) && ([a[0]] + c[j + 1..])[1..] == c[j + 1..];
    }
  }

  lemma {:induction false} TotalsOfPermutation(a: seq<nat>, c: seq<nat>)
    requires multiset(a) == multiset(c)
    ensures Sum(a) == Sum(c) && Smallest(a) == Smallest(c) && Largest(a) == Largest(c)
    decreases |a|
  {
    SameSize(a, c);
    if a == [] {
    } else {
      var j := WithoutFirst(a, c);
      TotalsOfPermutation(a[1..], c[..j] + c[j + 1..]);
      TotalsConcat(c[..j], c[j + 1..]);
      TotalsConcat(c[..j], [a[0]] + c[j + 1..]);
      assert c == c[..j] + ([a[0]] + c[j + 1..]) && ([a[0]] + c[j + 1..])[1..] == c[j + 1..];
    }
  }

  lemma PercentilePermutation(a: seq<nat>, c: seq<nat>, p: real, d: int)
    requires 0.0 < p <= 100.0 && multiset(a) == multiset(c) && IsPercentileOf(a, p, d)
    ensures IsPercentileOf(c, p, d)
  {
    SameSize(a, c);
    TotalsOfPermutation(a, c);
    var r := Rank(p, |a|);
    var e: nat :| IsNearestRank(a, r, e) && d == Reported(a, e);
    CountsOfPermutation(a, c, e);
    assert e in multiset(a);
    assert IsNearestRank(c, r, e);
  }

  lemma DescribePermutation(a: seq<nat>, c: seq<nat>, q: Percentiles)
    requires multiset(a) == multiset(c) && Describe(a, q)
    ensures Describe(c, q)
  {
    SameSize(a, c);
    if a != [] {
      PercentilePermutation(a, c, 50.0, q.p50);
      PercentilePermutation(a, c, 90.0, q.p90);
      PercentilePermutation(a, c, 95.0, q.p95);
      PercentilePermutation(a, c, 99.0, q.p99);
    }
  }

  // ---------- Status codes ----------

  /** Ascending codes with their counts, none of them zero, and no code left out. */
  ghost predicate IsStatusTable(out: seq<StatusCount>, codes: multiset<nat>) {
    && (forall i, j :: 0 <= i < j < |out| ==> out[i].code < out[j].code)
    && (forall i :: 0 <= i < |out| ==> 0 < out[i].count == codes[out[i].code])
    && (forall c :: c in codes ==> exists i :: 0 <= i < |out| && out[i].code == c)
  }

  function Counts(out: seq<StatusCount>): nat {
    if out == [] then 0 else Counts(out[..|out| - 1]) + out[|out| - 1].count
  }

  /** Codes that do not occur add nothing. */
  lemma {:induction false} LessSkips(codes: seq<nat>, a: nat, b: nat)
    requires a <= b && forall c :: a <= c < b ==> c !in codes
    ensures Less(codes, a) == Less(codes, b)
  {
    if a == b {
    } else {
      assert b - 1 !in codes;
      assert multiset(codes)[b - 1] == 0;
      LessSkips(codes, a, b - 1);
      LessThanNext(codes, b - 1);
    }
  }

  lemma GapIsEmpty(out: seq<StatusCount>, codes: seq<nat>, m: nat)
    requires IsStatusTable(out, multiset(codes)) && m < |out|
    ensures Less(codes, CodesBefore(out, m)) == Less(codes, out[m].code)
  {
    forall c | CodesBefore(out, m) <= c < out[m].code ensures c !in codes {
      assert forall i :: 0 <= i < |out| ==> if i < m then out[i].code < c else c < out[i].code;
      assert c !in multiset(codes);
    }
    LessSkips(codes, CodesBefore(out, m), out[m].code);
  }

  /** The first code that may still follow the first m entries. */
  function CodesBefore(out: seq<StatusCount>, m: nat): nat
    requires m <= |out|
  {
    if m == 0 then 0 else out[m - 1].code + 1
  }

  lemma {:induction false} CountsUpTo(out: seq<StatusCount>, codes: seq<nat>, m: nat)
    requires IsStatusTable(out, multiset(codes)) && m <= |out|
    ensures Counts(out[..m]) == Less(codes, CodesBefore(out, m))
  {
    if m == 0 {
      CountsSplit(codes, 0);
    } else {
      assert out[..m][..m - 1] == out[..m - 1];
      CountsUpTo(out, codes, m - 1);
      GapIsEmpty(out, codes, m - 1);
      LessThanNext(codes, out[m - 1].code);
    }
  }

  /** The counts add up to the number of responses whose status was recorded. */
  lemma StatusCountsAddUp(out: seq<StatusCount>, codes: seq<nat>)
    requires IsStatusTable(out, multiset(codes))
    ensures Counts(out) == |codes|
  {
    var top := CodesBefore(out, |out|);
    assert out[..|out|] == out;
    CountsUpTo(out, codes, |out|);
    forall c | c in codes ensures c < top {
      assert c in multiset(codes);
    }
    AllLess(codes, top);
  }

  lemma {:induction false} AllLess(codes: seq<nat>, top: nat)
    requires forall c :: c in codes ==> c < top
    ensures Less(codes, top) == |codes|
  {
    if codes == [] {
    } else {
      assert codes[0] in codes && forall c :: c in codes[1..] ==> c in codes;
      AllLess(codes[1..], top);
    }
  }

  // ---------- What a summary says ----------

  /** The requests and latencies of a summary, given the latencies of the
      requests that succeeded and that failed and the number never sent. */
  ghost predicate Reports(s: Summary, ok: seq<nat>, failed: seq<nat>, unsent: nat) {
    var all := ok + failed;
    && s.successes == |ok| && s.sent == |all|
    && s.failures == |failed| + unsent
    && s.requests == s.successes + s.failures == s.sent + unsent
    && s.errorRate == (if s.requests == 0 then 0.0 else s.failures as real / s.requests as real)
    && Describe(ok, s.success) && Describe(all, s.overall)
    && if all == [] then s.min == s.mean == s.max == 0 && s.latency == None
       else s.min == Smallest(all) && s.mean == Sum(all) / |all| && s.max == Largest(all) && s.latency == Some(HistOf(all))
  }

  lemma ReportsPermutation(s: Summary, ok: seq<nat>, failed: seq<nat>, unsent: nat, ok': seq<nat>, failed': seq<nat>)
    requires Reports(s, ok, failed, unsent)
    requires multiset(ok) == multiset(ok') && multiset(failed) == multiset(failed')
    ensures Reports(s, ok', failed', unsent)
  {
    SameSize(ok, ok');
    SameSize(failed, failed');
    assert multiset(ok + failed) == multiset(ok' + failed');
    HistOfPermutation(ok + failed, ok' + failed');
    DescribePermutation(ok, ok', s.success);
    DescribePermutation(ok + failed, ok' + failed', s.overall);
  }

  /** The percentile over every request sent; None for no request, or p out of range. */
  method PercentileOf(s: Summary, p: real, ghost all: seq<nat>) returns (d: Option<int>)
    requires s.latency == if all == [] then None else Some(HistOf(all))
    ensures d == None <==> all == [] || p <= 0.0 || 100.0 < p
    ensures d.Some? ==> IsPercentileOf(all, p, d.value)
  {
    if s.latency == None || p <= 0.0 || p > 100.0 {
      return None;
    }
    var x := OnePercentile(s.latency.value, p, all);
    return Some(x);
  }

  /** The checks of a summary: every name run, once, with its tally. */
  ghost predicate ListsChecks(checks: seq<CheckResult>, calls: seq<Call>) {
    && (forall i, j :: 0 <= i < j < |checks| ==> checks[i].name != checks[j].name)
    && (forall i :: 0 <= i < |checks| ==>
         && checks[i].count.passes == |Values(calls, Pass(checks[i].name))|
         && checks[i].count.fails == |Values(calls, Fail(checks[i].name))|)
    && (forall n :: (exists i :: 0 <= i < |checks| && checks[i].name == n) <==> n in FirstRuns(calls))
  }

  /** A summary is a direct fold over the calls, whatever they went through. */
  ghost predicate Summarises(s: Summary, calls: seq<Call>) {
    && Reports(s, Values(calls, Ok), Values(calls, Failed), |Values(calls, Unsent)|)
    && IsStatusTable(s.statusCodes, multiset(Values(calls, Status)))
    && ListsChecks(s.checks, calls)
    && s.scriptErrors == |Values(calls, ScriptError)|
    && s.iterations == |Values(calls, Iteration)|
    && s.http1 == |Values(calls, Http1)| && s.http2 == |Values(calls, Http2)|
    && s.otherProtocols == |Values(calls, OtherProtocol)|
  }
}
