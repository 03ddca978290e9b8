// The sampler's atomic loads interleaved with recorders in every possible way.
module SamplerRuns {
  import opened Buckets
  import opened Sampler
  import opened SampleSeries
  import opened GoInts
  import opened Options
  import R = Recording

  /** A shard's two histograms, each as the calls of record on it: its counters
      are sums over them (Recording.CountersAreSums). */
  datatype Shard = Shard(ok: seq<R.Call>, failed: seq<R.Call>)

  /** next is the sampler's next load, if it is inside Sample, and snap what this
      call has loaded so far. ended: every recorder has returned. final: this call
      was started after that, to make the last point; finished: it has made it. */
  datatype State = State(
    shards: seq<Shard>, ended: bool,
    next: Option<Loc>, snap: Snapshot, final: bool, snaps: seq<Snapshot>, finished: bool)

  function Of(sh: Shard, failed: bool): seq<R.Call> {
    if failed then sh.failed else sh.ok
  }

  // ---------- The order of the loads ----------

  /** Where in its shard's part of the loads a location comes. */
  function Stage(l: Loc): nat {
    match l
    case Count(_, failed, i) => (if failed then NUM_BUCKETS + 1 else 0) + i
    case SumOf(_, failed) => (if failed then NUM_BUCKETS + 1 else 0) + NUM_BUCKETS
    case FailedN(_) => 2 * NUM_BUCKETS + 2
  }

  predicate Earlier(a: Loc, b: Loc) {
    a.shard < b.shard || (a.shard == b.shard && Stage(a) < Stage(b))
  }

  function Following(l: Loc): Loc {
    match l
    case Count(s, failed, i) => if i + 1 < NUM_BUCKETS then Count(s, failed, i + 1) else SumOf(s, failed)
    case SumOf(s, failed) => if failed then FailedN(s) else Count(s, true, 0)
    case FailedN(s) => Count(s + 1, false, 0)
  }

  lemma LoadsAreOrdered(l: Loc, x: Loc)
    requires (l.Count? ==> l.i < NUM_BUCKETS) && (x.Count? ==> x.i < NUM_BUCKETS)
    ensures Earlier(x, Following(l)) <==> Earlier(x, l) || x == l
  {
  }

  // ---------- Steps ----------

  /** The counter a load reads. */
  ghost function Counter(shards: seq<Shard>, l: Loc): nat
    requires ValidLoc(|shards|, l)
  {
    match l
    case Count(j, failed, i) => R.Counted(Of(shards[j], failed), i)
    case SumOf(j, failed) => R.Summed(Of(shards[j], failed))
    case FailedN(j) => R.Numbered(shards[j].failed)
  }

  ghost predicate Init(s: State) {
    && 0 < |s.shards| && (forall j :: 0 <= j < |s.shards| ==> s.shards[j] == Shard([], []))
    && s == State(s.shards, false, None, map[], false, [], false)
  }

  function WithCalls(sh: Shard, failed: bool, calls: seq<R.Call>): Shard {
    if failed then sh.(failed := calls) else sh.(ok := calls)
  }

  /** One step of one recording call in shard j. */
  ghost predicate Record(s: State, s': State, j: nat, failed: bool, calls: seq<R.Call>) {
    && !s.ended && j < |s.shards| && R.CallsStep(Of(s.shards[j], failed), calls)
    && s' == s.(shards := s.shards[j := WithCalls(s.shards[j], failed, calls)])
  }

  ghost predicate AllDone(shards: seq<Shard>) {
    forall j :: 0 <= j < |shards| ==> R.AllDone(shards[j].ok) && R.AllDone(shards[j].failed)
  }

  /** Every VU goroutine has been waited for. */
  ghost predicate Join(s: State, s': State) {
    AllDone(s.shards) && s' == s.(ended := true)
  }

  /** Sample is called, on a tick or, once the recorders have ended, for the last point. */
  ghost predicate BeginSample(s: State, s': State, final: bool) {
    && s.next.None? && !s.finished && (final ==> s.ended)
    && s' == s.(next := Some(Count(0, false, 0)), snap := map[], final := final)
  }

  /** Sample makes its next load. */
  ghost predicate Load(s: State, s': State) {
    && s.next.Some? && ValidLoc(|s.shards|, s.next.value)
    && var l := s.next.value;
       var snap := s.snap[l := Counter(s.shards, l)];
       var more := Following(l);
       if more.shard < |s.shards| then s' == s.(next := Some(more), snap := snap)
       else s' == s.(next := None, snap := snap, snaps := s.snaps + [snap], finished := s.final)
  }

  ghost predicate Next(s: State, s': State) {
    || (exists j: nat, failed, calls :: Record(s, s', j, failed, calls))
    || Join(s, s')
    || (exists final :: BeginSample(s, s', final))
    || Load(s, s')
  }

  ghost predicate Run(run: seq<State>) {
    && 0 < |run| && Init(run[0])
    && forall i, j :: 0 <= i < j < |run| && j == i + 1 ==> Next(run[i], run[j])
  }

  // ---------- What every run keeps ----------

  /** This call's loads, so far: exactly the locations before next, none above its
      counter now, and each at the counter itself in the final call. */
  ghost predicate SnapInv(s: State) {
    s.next.Some? ==>
      && ValidLoc(|s.shards|, s.next.value)
      && (forall l :: ValidLoc(|s.shards|, l) ==> (l in s.snap <==> Earlier(l, s.next.value)))
      && (forall l :: ValidLoc(|s.shards|, l) && l in s.snap ==> s.snap[l] <= Counter(s.shards, l))
      && (s.final ==> s.ended && forall l :: ValidLoc(|s.shards|, l) && l in s.snap ==> s.snap[l] == Counter(s.shards, l))
  }

  ghost predicate LastInv(s: State) {
    && Growing(|s.shards|, s.snaps)
    && (s.snaps != [] ==>
          var last := s.snaps[|s.snaps| - 1];
          forall l :: ValidLoc(|s.shards|, l) ==>
            && last[l] <= Counter(s.shards, l)
            && (s.next.Some? && l in s.snap ==> last[l] <= s.snap[l]))
    && (s.finished ==>
          && s.ended && s.next.None? && s.snaps != []
          && var last := s.snaps[|s.snaps| - 1];
             forall l :: ValidLoc(|s.shards|, l) ==> last[l] == Counter(s.shards, l))
  }

  ghost predicate Inv(s: State) {
    0 < |s.shards| && SnapInv(s) && LastInv(s) && (s.ended ==> AllDone(s.shards))
  }

  lemma RecordGrowsCounter(s: State, s': State, j: nat, failed: bool, calls: seq<R.Call>, l: Loc)
    requires Record(s, s', j, failed, calls) && ValidLoc(|s.shards|, l)
    ensures Counter(s.shards, l) <= Counter(s'.shards, l)
  {
    R.CountersGrow(Of(s.shards[j], failed), calls, if l.Count? then l.i else 0);
  }

  lemma RecordKeepsInv(s: State, s': State, j: nat, failed: bool, calls: seq<R.Call>)
    requires Inv(s) && Record(s, s', j, failed, calls)
    ensures Inv(s')
  {
    forall l | ValidLoc(|s.shards|, l) ensures Counter(s.shards, l) <= Counter(s'.shards, l) {
      RecordGrowsCounter(s, s', j, failed, calls, l);
    }
  }

  lemma LoadKeepsInv(s: State, s': State)
    requires Inv(s) && Load(s, s')
    ensures Inv(s')
  {
    var l := s.next.value;
    forall x | ValidLoc(|s.shards|, x) ensures Earlier(x, Following(l)) <==> Earlier(x, l) || x == l {
      LoadsAreOrdered(l, x);
    }
    if Following(l).shard < |s.shards| {
      assert s'.snap == s.snap[l := Counter(s.shards, l)];
    } else {
      LastLoadKeepsInv(s, s');
    }
  }

  lemma LastLoadKeepsInv(s: State, s': State)
    requires Inv(s) && Load(s, s') && Following(s.next.value).shard >= |s.shards|
    requires forall x :: ValidLoc(|s.shards|, x) ==> (Earlier(x, Following(s.next.value)) <==> Earlier(x, s.next.value) || x == s.next.value)
    ensures Inv(s')
  {
    var snap := s'.snap;
    assert Complete(|s.shards|, snap);
    assert s'.snaps == s.snaps + [snap];
    if s.snaps != [] {
      assert Grown(|s.shards|, s.snaps[|s.snaps| - 1], snap);
    }
  }

  lemma StepKeepsInv(s: State, s': State)
    requires Inv(s) && Next(s, s')
    ensures Inv(s')
  {
    if j: nat, failed, calls :| Record(s, s', j, failed, calls) {
      RecordKeepsInv(s, s', j, failed, calls);
    } else if Load(s, s') {
      LoadKeepsInv(s, s');
    } else if final :| BeginSample(s, s', final) {
      assert forall l :: ValidLoc(|s.shards|, l) ==> !Earlier(l, Count(0, false, 0));
    }
  }

  lemma InitInv(s: State)
    requires Init(s)
    ensures Inv(s)
  {
  }

  lemma StepKeepsShards(s: State, s': State)
    requires Next(s, s')
    ensures |s'.shards| == |s.shards|
  {
  }

  lemma RunStepKeepsInv(run: seq<State>, i: nat)
    requires Run(run) && 0 < i < |run| && Inv(run[i - 1])
    ensures Inv(run[i]) && |run[i].shards| == |run[i - 1].shards|
  {
    assert Next(run[i - 1], run[i]);
    StepKeepsInv(run[i - 1], run[i]);
    StepKeepsShards(run[i - 1], run[i]);
  }

  lemma {:induction false} RunKeepsInv(run: seq<State>, i: nat)
    requires Run(run) && i < |run|
    ensures Inv(run[i]) && |run[i].shards| == |run[0].shards|
  {
    if i == 0 {
      InitInv(run[0]);
    } else {
      RunKeepsInv(run, i - 1);
      RunStepKeepsInv(run, i);
    }
  }

  // ---------- Requests are conserved ----------

  /** How many requests of one outcome have been recorded in the first n shards. */
  ghost function Calls(shards: seq<Shard>, failed: bool, n: nat): nat
    requires n <= |shards|
  {
    if n == 0 then 0 else Calls(shards, failed, n - 1) + |Of(shards[n - 1], failed)|
  }

  /** A snapshot that shows every counter as it is, once all calls are done. */
  ghost predicate Exact(shards: seq<Shard>, snap: Snapshot) {
    Complete(|shards|, snap) && forall l :: ValidLoc(|shards|, l) ==> snap[l] == Counter(shards, l)
  }

  lemma {:induction false} ExactShard(shards: seq<Shard>, snap: Snapshot, failed: bool, j: nat, m: nat)
    requires Exact(shards, snap) && j < |shards| && m <= NUM_BUCKETS
    ensures InShard(|shards|, snap, failed, j, m) == R.CountedBelow(Of(shards[j], failed), m)
  {
    if m == 0 {
    } else {
      ExactShard(shards, snap, failed, j, m - 1);
      assert snap[Count(j, failed, m - 1)] == Counter(shards, Count(j, failed, m - 1));
    }
  }

  lemma {:induction false} ExactOutcome(shards: seq<Shard>, snap: Snapshot, failed: bool, n: nat)
    requires Exact(shards, snap) && AllDone(shards) && n <= |shards|
    ensures Outcomes(|shards|, snap, failed, NUM_BUCKETS, n) == Calls(shards, failed, n)
    ensures failed ==> FailedAt(|shards|, snap, n) == Calls(shards, failed, n)
  {
    if n == 0 {
      NoShards(|shards|, snap, failed, NUM_BUCKETS);
    } else {
      ExactOutcome(shards, snap, failed, n - 1);
      OneMoreShard(|shards|, snap, failed, NUM_BUCKETS, n - 1);
      ExactShard(shards, snap, failed, n - 1, NUM_BUCKETS);
      var h := Of(shards[n - 1], failed);
      R.BucketsAreNPlusHalfRecorded(h);
      R.DoneIsWhole(h);
      if failed { assert snap[FailedN(n - 1)] == Counter(shards, FailedN(n - 1)); }
    }
  }

  /** In every interleaving: snapshots only grow, so no subtraction underflows,
      and the last one, made after all recording, shows every request recorded. */
  lemma FinalSnapshotShowsAll(run: seq<State>, i: nat)
    requires Run(run) && i < |run| && run[i].finished
    ensures var s := run[i]; var n := |s.shards|;
            && Growing(n, s.snaps) && s.snaps != []
            && var last := s.snaps[|s.snaps| - 1];
               && Total(n, last) == Calls(s.shards, false, n) + Calls(s.shards, true, n)
               && Failures(n, last) == FailedSeen(n, last) == Calls(s.shards, true, n)
  {
    RunKeepsInv(run, i);
    var s := run[i];
    var last := s.snaps[|s.snaps| - 1];
    assert Exact(s.shards, last);
    ExactOutcome(s.shards, last, false, |s.shards|);
    ExactOutcome(s.shards, last, true, |s.shards|);
    RequestsByOutcome(|s.shards|, last, NUM_BUCKETS);
  }

  /** The points of a run add up: requests exactly; failures never to more than
      there were, and exactly if and only if no snapshot shows more requests it
      does not count as failures than succeeded in the whole run. */
  lemma RunAddsUp(run: seq<State>, i: nat, points: seq<Point>)
    requires Run(run) && i < |run| && run[i].finished
    requires Growing(|run[i].shards|, run[i].snaps) && |points| == |run[i].snaps| && AddsUp(|run[i].shards|, run[i].snaps, points)
    ensures var s := run[i]; var n := |s.shards|;
            && SumRequests(points) == Calls(s.shards, false, n) + Calls(s.shards, true, n)
            && SumFailed(points) <= Calls(s.shards, true, n)
            && (SumFailed(points) == Calls(s.shards, true, n)
                <==> forall j :: 0 <= j < |s.snaps| ==> Total(n, s.snaps[j]) - Failures(n, s.snaps[j]) <= Calls(s.shards, false, n))
  {
    FinalSnapshotShowsAll(run, i);
    FailuresAddUpIff(|run[i].shards|, run[i].snaps);
    var s := run[i];
    var n := |s.shards|;
    assert forall j :: 0 <= j < |s.snaps| ==> Ahead(n, s.snaps[j]) == Total(n, s.snaps[j]) - Failures(n, s.snaps[j]);
  }

  // ---------- Failures too, if no failure is caught half recorded ----------

  /** No load of a shard's number of failures falls between the two adds of a
      failed request in that shard, as when record is one step. */
  ghost predicate Unsplit(run: seq<State>) {
    forall i, j :: 0 <= i < j < |run| && j == i + 1 && run[i].next.Some? && run[i].next.value.FailedN?
                   && run[i].next.value.shard < |run[i].shards| && Load(run[i], run[j])
      ==> R.HalfRecorded(run[i].shards[run[i].next.value.shard].failed) == 0
  }

  /** A shard's failed buckets, as loaded, do not exceed its number of failures, as loaded. */
  ghost predicate ShardCovered(shards: nat, snap: Snapshot, j: nat)
    requires j < shards
  {
    && (forall l :: ValidLoc(shards, l) && l.shard == j && l.Count? ==> l in snap)
    && FailedN(j) in snap && LoadedFailures(snap, j, NUM_BUCKETS) <= snap[FailedN(j)]
  }

  ghost function LoadedFailures(snap: Snapshot, j: nat, m: nat): nat {
    if m == 0 then 0 else LoadedFailures(snap, j, m - 1) + if Count(j, true, m - 1) in snap then snap[Count(j, true, m - 1)] else 0
  }

  ghost predicate CoveredInv(s: State)
    requires Inv(s)
  {
    && (forall k :: 0 <= k < |s.snaps| ==> Covered(|s.shards|, s.snaps[k]))
    && (s.next.Some? ==> forall j :: 0 <= j < s.next.value.shard ==> ShardCovered(|s.shards|, s.snap, j))
  }

  lemma {:induction false} LoadedFailuresSame(a: Snapshot, b: Snapshot, j: nat, m: nat)
    requires forall i :: 0 <= i < m ==> (Count(j, true, i) in a <==> Count(j, true, i) in b)
    requires forall i :: 0 <= i < m && Count(j, true, i) in a ==> a[Count(j, true, i)] == b[Count(j, true, i)]
    ensures LoadedFailures(a, j, m) == LoadedFailures(b, j, m)
  {
    if m == 0 {
    } else {
      LoadedFailuresSame(a, b, j, m - 1);
    }
  }

  lemma {:induction false} LoadedAtMost(s: State, j: nat, m: nat)
    requires j < |s.shards| && m <= NUM_BUCKETS
    requires forall l :: ValidLoc(|s.shards|, l) && l in s.snap ==> s.snap[l] <= Counter(s.shards, l)
    ensures LoadedFailures(s.snap, j, m) <= R.CountedBelow(s.shards[j].failed, m)
  {
    if m == 0 {
    } else {
      LoadedAtMost(s, j, m - 1);
      assert ValidLoc(|s.shards|, Count(j, true, m - 1));
      assert Counter(s.shards, Count(j, true, m - 1)) == R.Counted(s.shards[j].failed, m - 1);
    }
  }

  lemma {:induction false} AllShardsCovered(shards: nat, snap: Snapshot, n: nat)
    requires Complete(shards, snap) && n <= shards && forall j :: 0 <= j < n ==> ShardCovered(shards, snap, j)
    ensures Outcomes(shards, snap, true, NUM_BUCKETS, n) <= FailedAt(shards, snap, n)
  {
    if n == 0 {
      NoShards(shards, snap, true, NUM_BUCKETS);
    } else {
      AllShardsCovered(shards, snap, n - 1);
      OneMoreShard(shards, snap, true, NUM_BUCKETS, n - 1);
      InShardIsLoaded(shards, snap, n - 1, NUM_BUCKETS);
      assert ShardCovered(shards, snap, n - 1);
    }
  }

  lemma {:induction false} InShardIsLoaded(shards: nat, snap: Snapshot, j: nat, m: nat)
    requires Complete(shards, snap) && j < shards && m <= NUM_BUCKETS
    ensures InShard(shards, snap, true, j, m) == LoadedFailures(snap, j, m)
  {
    if m == 0 {
    } else {
      InShardIsLoaded(shards, snap, j, m - 1);
      assert ValidLoc(shards, Count(j, true, m - 1));
    }
  }

  /** The load of a shard's number of failures, made when none is half recorded,
      covers the failed buckets loaded before it. */
  lemma LoadCoversShard(s: State, s': State, j: nat)
    requires Inv(s) && Load(s, s') && s.next.value == FailedN(j)
    requires R.HalfRecorded(s.shards[j].failed) == 0
    ensures ShardCovered(|s.shards|, s'.snap, j)
  {
    assert s'.snap == s.snap[FailedN(j) := Counter(s.shards, FailedN(j))];
    LoadedAtMost(s, j, NUM_BUCKETS);
    R.BucketsAreNPlusHalfRecorded(s.shards[j].failed);
    LoadedFailuresSame(s.snap, s'.snap, j, NUM_BUCKETS);
    forall l | ValidLoc(|s.shards|, l) && l.shard == j && l.Count? ensures l in s'.snap {
      assert Earlier(l, s.next.value);
    }
  }

  lemma LoadKeepsCovered(s: State, s': State, j: nat)
    requires Inv(s) && Load(s, s') && j < s.next.value.shard && ShardCovered(|s.shards|, s.snap, j)
    ensures ShardCovered(|s.shards|, s'.snap, j)
  {
    LoadedFailuresSame(s.snap, s'.snap, j, NUM_BUCKETS);
  }

  lemma LoadKeepsCoveredInv(s: State, s': State)
    requires Inv(s) && Inv(s') && CoveredInv(s) && Load(s, s')
    requires s.next.value.FailedN? ==> R.HalfRecorded(s.shards[s.next.value.shard].failed) == 0
    ensures CoveredInv(s')
  {
    var l := s.next.value;
    forall j: nat | j < Following(l).shard ensures ShardCovered(|s.shards|, s'.snap, j) {
      if j < l.shard { LoadKeepsCovered(s, s', j); } else { LoadCoversShard(s, s', j); }
    }
    if Following(l).shard >= |s.shards| {
      assert s'.snaps == s.snaps + [s'.snap];
      AllShardsCovered(|s.shards|, s'.snap, |s.shards|);
    }
  }

  lemma StepKeepsCovered(s: State, s': State)
    requires Inv(s) && Inv(s') && CoveredInv(s) && Next(s, s')
    requires Load(s, s') && s.next.value.FailedN? ==> R.HalfRecorded(s.shards[s.next.value.shard].failed) == 0
    ensures CoveredInv(s')
  {
    if Load(s, s') {
      LoadKeepsCoveredInv(s, s');
    }
  }

  lemma {:induction false} RunKeepsCovered(run: seq<State>, i: nat)
    requires Run(run) && Unsplit(run) && i < |run|
    ensures Inv(run[i]) && CoveredInv(run[i])
  {
    RunKeepsInv(run, i);
    if i == 0 {
      assert Init(run[0]);
    } else {
      RunKeepsCovered(run, i - 1);
      var s, s' := run[i - 1], run[i];
      RunKeepsInv(run, i - 1);
      assert Next(s, s');
      if Load(s, s') && s.next.value.FailedN? {
        assert R.HalfRecorded(s.shards[s.next.value.shard].failed) == 0;
      }
      StepKeepsCovered(s, s');
    }
  }

  /** Unless a failure is caught half recorded, failures add up exactly as well. */
  lemma UnsplitRunAddsUp(run: seq<State>, i: nat, points: seq<Point>)
    requires Run(run) && Unsplit(run) && i < |run| && run[i].finished
    requires Growing(|run[i].shards|, run[i].snaps) && |points| == |run[i].snaps| && AddsUp(|run[i].shards|, run[i].snaps, points)
    ensures SumFailed(points) == Calls(run[i].shards, true, |run[i].shards|)
  {
    RunKeepsCovered(run, i);
    FinalSnapshotShowsAll(run, i);
    FailuresAddUp(|run[i].shards|, run[i].snaps);
  }

  // ---------- A failure caught half recorded is lost ----------

  function Last(run: seq<State>): State
    requires run != []
  {
    run[|run| - 1]
  }

  lemma Extend(run: seq<State>, s: State)
    requires Run(run) && Next(Last(run), s)
    ensures Run(run + [s])
  {
  }

  ghost predicate LoadedExactly(s: State) {
    forall l :: ValidLoc(|s.shards|, l) && l in s.snap ==> s.snap[l] == Counter(s.shards, l)
  }

  /** With one shard and nobody recording meanwhile, a call of Sample loads every
      counter as it is. */
  lemma FinishSample(run: seq<State>) returns (more: seq<State>)
    requires Run(run) && Last(run).next.Some? && |Last(run).shards| == 1 && LoadedExactly(Last(run))
    ensures Run(more)
    ensures var s, s' := Last(run), Last(more);
            && s'.shards == s.shards && s'.ended == s.ended && s'.next.None? && s'.finished == s.final
            && |s'.snaps| == |s.snaps| + 1 && s'.snaps[..|s.snaps|] == s.snaps && Exact(s.shards, s'.snaps[|s.snaps|])
    decreases if Last(run).next.Some? then 2 * NUM_BUCKETS + 3 - Stage(Last(run).next.value) else 0
  {
    var s := Last(run);
    RunKeepsInv(run, |run| - 1);
    var l := s.next.value;
    var snap := s.snap[l := Counter(s.shards, l)];
    if Following(l).shard < 1 {
      var s' := s.(next := Some(Following(l)), snap := snap);
      Extend(run, s');
      more := FinishSample(run + [s']);
    } else {
      var s' := s.(next := None, snap := snap, snaps := s.snaps + [snap], finished := s.final);
      Extend(run, s');
      more := run + [s'];
      forall x | ValidLoc(1, x) ensures x in snap {
        LoadsAreOrdered(l, x);
      }
    }
  }

  /** The failed call moves on. */
  lemma Move(run: seq<State>, calls: seq<R.Call>) returns (more: seq<State>)
    requires Run(run) && |Last(run).shards| == 1 && !Last(run).ended && R.CallsStep(Last(run).shards[0].failed, calls)
    ensures Run(more) && Last(more) == Last(run).(shards := [Last(run).shards[0].(failed := calls)])
  {
    var s := Last(run);
    var s' := s.(shards := s.shards[0 := WithCalls(s.shards[0], true, calls)]);
    assert Record(s, s', 0, true, calls);
    Extend(run, s');
    more := run + [s'];
    assert s'.shards == [s.shards[0].(failed := calls)];
  }

  lemma MoveTo(run: seq<State>, pc: R.Pc) returns (more: seq<State>)
    requires Run(run) && |Last(run).shards| == 1 && !Last(run).ended
    requires |Last(run).shards[0].failed| == 1 && R.Forward(Last(run).shards[0].failed[0].pc, pc)
    ensures Run(more) && Last(more) == Last(run).(shards := [Last(run).shards[0].(failed := [Last(run).shards[0].failed[0].(pc := pc)])])
  {
    var calls := Last(run).shards[0].failed;
    var calls' := calls[0 := calls[0].(pc := pc)];
    assert R.OneMoves(calls, calls', 0);
    more := Move(run, calls');
    assert calls' == [calls[0].(pc := pc)];
  }

  lemma SampleNow(run: seq<State>, final: bool) returns (more: seq<State>)
    requires Run(run) && |Last(run).shards| == 1 && Last(run).next.None? && !Last(run).finished && (final ==> Last(run).ended)
    ensures Run(more)
    ensures var s, s' := Last(run), Last(more);
            && s'.shards == s.shards && s'.ended == s.ended && s'.next.None? && s'.finished == final
            && |s'.snaps| == |s.snaps| + 1 && s'.snaps[..|s.snaps|] == s.snaps && Exact(s.shards, s'.snaps[|s.snaps|])
  {
    var s := Last(run);
    var s' := s.(next := Some(Count(0, false, 0)), snap := map[], final := final);
    assert BeginSample(s, s', final);
    Extend(run, s');
    more := FinishSample(run + [s']);
  }

  lemma ExactTotals(sh: Shard, snap: Snapshot)
    requires Exact([sh], snap) && sh.ok == []
    ensures Total(1, snap) == R.Numbered(sh.failed) + R.HalfRecorded(sh.failed) && Failures(1, snap) == R.Numbered(sh.failed)
  {
    RequestsByOutcome(1, snap, NUM_BUCKETS);
    NoShards(1, snap, false, NUM_BUCKETS);
    NoShards(1, snap, true, NUM_BUCKETS);
    OneMoreShard(1, snap, false, NUM_BUCKETS, 0);
    OneMoreShard(1, snap, true, NUM_BUCKETS, 0);
    ExactShard([sh], snap, false, 0, NUM_BUCKETS);
    ExactShard([sh], snap, true, 0, NUM_BUCKETS);
    R.BucketsAreNPlusHalfRecorded(sh.ok);
    R.BucketsAreNPlusHalfRecorded(sh.failed);
    assert snap[FailedN(0)] == Counter([sh], FailedN(0));
    assert FailedAt(1, snap, 1) == FailedAt(1, snap, 0) + snap[FailedN(0)];
  }

  ghost predicate OneFailedCall(s: State, pc: R.Pc) {
    s.shards == [Shard([], [R.Call(0, pc)])] && s.next.None? && !s.finished
  }

  /** A failed request has been counted in its bucket, but not yet in the number
      of failures, when Sample runs. */
  lemma SampledHalfRecorded() returns (run: seq<State>, first: Snapshot)
    ensures Run(run) && OneFailedCall(Last(run), R.AddN) && !Last(run).ended && Last(run).snaps == [first]
    ensures Complete(1, first) && Total(1, first) == 1 && Failures(1, first) == 0
  {
    var begun := [R.Call(0, R.AddCount)];
    run := [State([Shard([], [])], false, None, map[], false, [], false)];
    assert begun == [] + begun;
    run := Move(run, begun);
    run := MoveTo(run, R.AddN);
    run := SampleNow(run, false);
    var sh := Last(run).shards[0];
    first := Last(run).snaps[0];
    assert Last(run).snaps == [first];
    ExactTotals(sh, first);
    HalfOfOne(sh.failed);
  }

  lemma HalfOfOne(calls: seq<R.Call>)
    requires |calls| == 1
    ensures R.Numbered(calls) == R.NumberedBy(calls[0]) && R.HalfRecorded(calls) == if calls[0].pc == R.AddN then 1 else 0
  {
    assert calls[1..] == [];
  }

  /** Then the call returns, and the recorders are joined. */
  lemma CallReturns(run: seq<State>) returns (more: seq<State>)
    requires Run(run) && OneFailedCall(Last(run), R.AddN) && !Last(run).ended
    ensures Run(more) && OneFailedCall(Last(more), R.Done) && Last(more).ended && Last(more).snaps == Last(run).snaps
  {
    more := MoveTo(run, R.AddSum);
    more := MoveTo(more, R.MinLoad(MAX_INT64 + 1));
    more := MoveTo(more, R.MinCas(MAX_INT64));
    more := MoveTo(more, R.MaxLoad(-1));
    more := MoveTo(more, R.Done);
    var s := Last(more);
    assert Join(s, s.(ended := true));
    Extend(more, s.(ended := true));
    more := more + [s.(ended := true)];
  }

  /** Some runs lose a failure: the first call of Sample loads its bucket after
      record has counted it and the number of failures before record has, and the
      last call finds no new request to attribute it to. */
  lemma SplitFailureIsLost() returns (run: seq<State>)
    ensures Run(run) && Last(run).finished && |Last(run).shards| == 1
    ensures Calls(Last(run).shards, true, 1) == 1 && Calls(Last(run).shards, false, 1) == 0
    ensures Growing(1, Last(run).snaps) && ReportedFailures(1, Last(run).snaps, |Last(run).snaps|) == 0
  {
    var half, first := SampledHalfRecorded();
    run := CallReturns(half);
    run := SampleNow(run, true);
    RunKeepsInv(run, |run| - 1);
    var second := Last(run).snaps[1];
    assert Last(run).snaps == [Last(run).snaps[..1][0], second];
    var sh := Last(run).shards[0];
    ExactTotals(sh, second);
    HalfOfOne(sh.failed);
    assert Calls(Last(run).shards, true, 0) == 0 && Calls(Last(run).shards, false, 0) == 0;
    LostInSeries(first, second);
  }

  lemma LostInSeries(first: Snapshot, second: Snapshot)
    requires Growing(1, [first, second]) && Complete(1, first) && Complete(1, second)
    requires Total(1, first) == Total(1, second) && Failures(1, first) == 0
    ensures ReportedFailures(1, [first, second], 2) == 0
  {
    var snaps := [first, second];
    BeforeIsLess(1, snaps, 0);
    BeforeIsLess(1, snaps, 1);
    TotalGrows(1, Before(1, snaps, 0), first);
    assert ReportedFailures(1, snaps, 1) == 0;
  }
}
