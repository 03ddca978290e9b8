// What a summary says of a run, in terms of the arguments of the calls alone.
module SummaryMeaning {
  import opened GoInts
  import opened Buckets
  import opened Histogram
  import opened RecordingCalls
  import opened Summaries

  /** What is counted of the calls. Answered(0) stands for codes out of range. */
  datatype What =
    | Sent | Succeeded | Unanswered | NeverSent | FailedAtAll | IsRequest | Iterated | ScriptFailed
    | Spoke1 | Spoke2 | SpokeOther | Checked(name: string, passed: bool) | Answered(code: nat)

  predicate Is(c: Call, w: What) {
    match w
    case Sent => c.Record?
    case Succeeded => c.Record? && c.ok
    case Unanswered => c.Record? && !c.ok
    case NeverSent => c.RecordUnsent?
    case FailedAtAll => c.RecordUnsent? || (c.Record? && !c.ok)
    case IsRequest => c.Record? || c.RecordUnsent?
    case Iterated => c.RecordIteration?
    case ScriptFailed => c.RecordScriptError?
    case Spoke1 => c.RecordProtocol? && (c.proto == "HTTP/1.0" || c.proto == "HTTP/1.1")
    case Spoke2 => c.RecordProtocol? && c.proto == "HTTP/2.0"
    case SpokeOther => c.RecordProtocol? && c.proto != "HTTP/2.0" && c.proto != "HTTP/1.0" && c.proto != "HTTP/1.1"
    case Checked(name, passed) => c.RecordCheck? && c.name == name && c.passed == passed
    case Answered(code) => c.RecordStatus? && if 100 <= c.code <= MAX_STATUS then c.code == code else code == 0
  }

  /** How many of the calls are such. */
  ghost function Count(calls: seq<Call>, w: What): nat {
    if calls == [] then 0 else Count(calls[..|calls| - 1], w) + if Is(calls[|calls| - 1], w) then 1 else 0
  }

  /** The latencies of the requests sent with one of the outcomes; a negative one counts as 0. */
  ghost function Latencies(calls: seq<Call>, outcomes: set<bool>): seq<nat> {
    if calls == [] then []
    else
      var c := calls[|calls| - 1];
      Latencies(calls[..|calls| - 1], outcomes)
      + if c.Record? && c.ok in outcomes then [if c.latency < 0 then 0 else c.latency as int] else []
  }

  /** d is near percentile p of the values as they stand in sorted order. */
  ghost predicate Near(d: int, vals: seq<nat>, p: real)
    requires 0.0 < p <= 100.0 && vals != []
  {
    forall s: seq<nat> :: multiset(s) == multiset(vals) && Sorted(s) ==>
      |s| == |vals| && (s[Rank(p, |vals|) - 1] <= MAX_TRACKED ==> Within(d, s[Rank(p, |vals|) - 1]))
  }

  ghost predicate AllNear(q: Percentiles, vals: seq<nat>)
    requires vals != []
  {
    Near(q.p50, vals, 50.0) && Near(q.p90, vals, 90.0) && Near(q.p95, vals, 95.0) && Near(q.p99, vals, 99.0)
  }

  ghost predicate TellsLatencies(s: Summary, all: seq<nat>, ok: seq<nat>) {
    && (if all == [] then s.min == s.mean == s.max == 0 && s.overall == Percentiles(0, 0, 0, 0)
        else
          && s.min in all && s.max in all && (forall v :: v in all ==> s.min <= v <= s.max)
          && s.mean == Sum(all) / |all|
          && s.min <= s.overall.p50 <= s.overall.p90 <= s.overall.p95 <= s.overall.p99 <= s.max
          && AllNear(s.overall, all))
    && if ok == [] then s.success == Percentiles(0, 0, 0, 0)
       else s.min <= s.success.p50 <= s.success.p90 <= s.success.p95 <= s.success.p99 <= s.max && AllNear(s.success, ok)
  }

  ghost predicate TellsRequests(s: Summary, calls: seq<Call>) {
    && s.successes == Count(calls, Succeeded)
    && s.failures == Count(calls, FailedAtAll)
    && s.sent == Count(calls, Sent)
    && s.requests == Count(calls, IsRequest)
    && s.errorRate == (if s.requests == 0 then 0.0 else s.failures as real / s.requests as real)
  }

  ghost predicate TellsCounters(s: Summary, calls: seq<Call>) {
    && s.http1 == Count(calls, Spoke1) && s.http2 == Count(calls, Spoke2) && s.otherProtocols == Count(calls, SpokeOther)
    && s.iterations == Count(calls, Iterated) && s.scriptErrors == Count(calls, ScriptFailed)
  }

  ghost predicate TellsCodes(out: seq<StatusCount>, calls: seq<Call>) {
    forall i :: 0 <= i < |out| ==>
      && (out[i].code == 0 || 100 <= out[i].code <= MAX_STATUS)
      && out[i].count == Count(calls, Answered(out[i].code))
  }

  ghost predicate TellsChecks(checks: seq<CheckResult>, calls: seq<Call>) {
    && (forall i :: 0 <= i < |checks| ==>
         && checks[i].count.passes == Count(calls, Checked(checks[i].name, true))
         && checks[i].count.fails == Count(calls, Checked(checks[i].name, false)))
    && forall c :: c in calls && c.RecordCheck? ==> exists i :: 0 <= i < |checks| && checks[i].name == c.name
  }

  /** All of it. */
  ghost predicate Tells(s: Summary, calls: seq<Call>) {
    && TellsRequests(s, calls) && TellsCounters(s, calls) && TellsCodes(s.statusCodes, calls) && TellsChecks(s.checks, calls)
    && TellsLatencies(s, Latencies(calls, {true, false}), Latencies(calls, {true}))
  }

  /** What the calls of one kind are, except of those counted by their values. */
  ghost function WhatOf(k: Kind): What
    requires k != Status
  {
    match k
    case Ok => Succeeded
    case Failed => Unanswered
    case Unsent => NeverSent
    case Iteration => Iterated
    case ScriptError => ScriptFailed
    case Http1 => Spoke1
    case Http2 => Spoke2
    case OtherProtocol => SpokeOther
    case Pass(name) => Checked(name, true)
    case Fail(name) => Checked(name, false)
  }

  lemma KindIsWhat(c: Call, k: Kind)
    requires k != Status
    ensures KindOf(c) == k <==> Is(c, WhatOf(k))
  {
  }

  lemma {:induction false} CountOfKind(calls: seq<Call>, k: Kind)
    requires k != Status
    ensures |Values(calls, k)| == Count(calls, WhatOf(k))
  {
    if calls == [] {
    } else {
      CountOfKind(calls[..|calls| - 1], k);
      KindIsWhat(calls[|calls| - 1], k);
    }
  }

  lemma {:induction false} CountOfBoth(calls: seq<Call>)
    ensures Count(calls, Sent) == Count(calls, Succeeded) + Count(calls, Unanswered)
    ensures Count(calls, FailedAtAll) == Count(calls, NeverSent) + Count(calls, Unanswered)
    ensures Count(calls, IsRequest) == Count(calls, Sent) + Count(calls, NeverSent)
  {
    if calls == [] {
    } else {
      CountOfBoth(calls[..|calls| - 1]);
    }
  }

  lemma StatusIsWhat(c: Call, code: nat)
    ensures KindOf(c) == Status && Value(c) == code <==> Is(c, Answered(code))
  {
  }

  lemma {:induction false} CountOfCode(calls: seq<Call>, code: nat)
    ensures multiset(Values(calls, Status))[code] == Count(calls, Answered(code))
  {
    if calls == [] {
    } else {
      var (rest, c) := (calls[..|calls| - 1], calls[|calls| - 1]);
      CountOfCode(rest, code);
      StatusIsWhat(c, code);
    }
  }

  lemma RequestsTold(s: Summary, calls: seq<Call>)
    requires Reports(s, Values(calls, Ok), Values(calls, Failed), |Values(calls, Unsent)|)
    ensures TellsRequests(s, calls)
  {
    CountOfKind(calls, Ok);
    CountOfKind(calls, Failed);
    CountOfKind(calls, Unsent);
    CountOfBoth(calls);
  }

  lemma {:induction false} OnlyStatuses(calls: seq<Call>)
    ensures forall v :: v in Values(calls, Status) ==> v == 0 || 100 <= v <= MAX_STATUS
  {
    if calls == [] {
    } else {
      OnlyStatuses(calls[..|calls| - 1]);
    }
  }

  lemma CodesTold(out: seq<StatusCount>, calls: seq<Call>)
    requires IsStatusTable(out, multiset(Values(calls, Status)))
    ensures TellsCodes(out, calls)
  {
    OnlyStatuses(calls);
    forall i | 0 <= i < |out|
      ensures out[i].code == 0 || 100 <= out[i].code <= MAX_STATUS
      ensures out[i].count == Count(calls, Answered(out[i].code))
    {
      assert out[i].code in multiset(Values(calls, Status));
      assert out[i].code in Values(calls, Status);
      CountOfCode(calls, out[i].code);
    }
  }

  lemma ChecksTold(checks: seq<CheckResult>, calls: seq<Call>)
    requires ListsChecks(checks, calls)
    ensures TellsChecks(checks, calls)
  {
    forall i | 0 <= i < |checks|
      ensures checks[i].count.passes == Count(calls, Checked(checks[i].name, true))
      ensures checks[i].count.fails == Count(calls, Checked(checks[i].name, false))
    {
      CountOfKind(calls, Pass(checks[i].name));
      CountOfKind(calls, Fail(checks[i].name));
    }
    FirstRunsOrder(calls);
    forall c | c in calls && c.RecordCheck? ensures exists i :: 0 <= i < |checks| && checks[i].name == c.name {
      assert c.name in FirstRuns(calls);
    }
  }

  lemma CountersTold(s: Summary, calls: seq<Call>)
    requires s.http1 == |Values(calls, Http1)| && s.http2 == |Values(calls, Http2)|
    requires s.otherProtocols == |Values(calls, OtherProtocol)|
    requires s.iterations == |Values(calls, Iteration)| && s.scriptErrors == |Values(calls, ScriptError)|
    ensures TellsCounters(s, calls)
  {
    CountOfKind(calls, Http2);
    CountOfKind(calls, Http1);
    CountOfKind(calls, OtherProtocol);
    CountOfKind(calls, Iteration);
    CountOfKind(calls, ScriptError);
  }

  // ---------- Latencies ----------

  lemma RecordStep(calls: seq<Call>, c: Call)
    requires c.Record?
    ensures Latencies(calls + [c], {true}) == Latencies(calls, {true}) + if c.ok then [Value(c)] else []
    ensures Latencies(calls + [c], {true, false}) == Latencies(calls, {true, false}) + [Value(c)]
    ensures Values(calls + [c], Ok) == Values(calls, Ok) + if c.ok then [Value(c)] else []
    ensures Values(calls + [c], Failed) == Values(calls, Failed) + if c.ok then [] else [Value(c)]
    ensures Value(c) <= MAX_INT64
  {
    assert (calls + [c])[..|calls|] == calls;
  }

  lemma OtherStep(calls: seq<Call>, c: Call)
    requires !c.Record?
    ensures Latencies(calls + [c], {true}) == Latencies(calls, {true})
    ensures Latencies(calls + [c], {true, false}) == Latencies(calls, {true, false})
    ensures Values(calls + [c], Ok) == Values(calls, Ok) && Values(calls + [c], Failed) == Values(calls, Failed)
  {
    assert (calls + [c])[..|calls|] == calls;
  }

  lemma {:induction false} SuccessesAreValues(calls: seq<Call>)
    ensures Latencies(calls, {true}) == Values(calls, Ok)
  {
    if calls == [] {
    } else {
      var (rest, c) := (calls[..|calls| - 1], calls[|calls| - 1]);
      SuccessesAreValues(rest);
      assert calls == rest + [c];
      if c.Record? {
        RecordStep(rest, c);
      } else {
        OtherStep(rest, c);
      }
    }
  }

  /** The latencies of both outcomes, up to their order. */
  lemma {:induction false} LatenciesAreValues(calls: seq<Call>)
    ensures multiset(Latencies(calls, {true, false})) == multiset(Values(calls, Ok)) + multiset(Values(calls, Failed))
  {
    if calls == [] {
    } else {
      var (rest, c) := (calls[..|calls| - 1], calls[|calls| - 1]);
      LatenciesAreValues(rest);
      assert calls == rest + [c];
      if c.Record? {
        RecordStep(rest, c);
      } else {
        OtherStep(rest, c);
      }
    }
  }

  lemma {:induction false} LatenciesFit(calls: seq<Call>)
    ensures forall v :: v in Latencies(calls, {true, false}) ==> v <= MAX_INT64
  {
    if calls == [] {
    } else {
      var (rest, c) := (calls[..|calls| - 1], calls[|calls| - 1]);
      LatenciesFit(rest);
      assert calls == rest + [c];
      if c.Record? {
        RecordStep(rest, c);
      } else {
        OtherStep(rest, c);
      }
    }
  }

  lemma {:induction false} ExtremesAttained(vals: seq<nat>)
    requires vals != [] && forall v :: v in vals ==> v <= MAX_INT64
    ensures Smallest(vals) in vals && Largest(vals) in vals
  {
    assert vals[0] in vals && forall v :: v in vals[1..] ==> v in vals;
    if |vals| == 1 {
      assert Smallest(vals[1..]) == MAX_INT64 && Largest(vals[1..]) == 0;
    } else {
      ExtremesAttained(vals[1..]);
    }
  }

  lemma ExtremesBound(vals: seq<nat>)
    ensures forall v :: v in vals ==> Smallest(vals) <= v <= Largest(vals)
  {
    forall v | v in vals ensures Smallest(vals) <= v <= Largest(vals) {
      var j :| 0 <= j < |vals| && vals[j] == v;
      Extremes(vals, j);
    }
  }

  lemma PercentileIsNear(vals: seq<nat>, p: real, d: int)
    requires 0.0 < p <= 100.0 && IsPercentileOf(vals, p, d)
    ensures Near(d, vals, p)
  {
    forall s: seq<nat> | multiset(s) == multiset(vals) && Sorted(s)
      ensures |s| == |vals| && (s[Rank(p, |vals|) - 1] <= MAX_TRACKED ==> Within(d, s[Rank(p, |vals|) - 1]))
    {
      SameSize(s, vals);
      var r := Rank(p, |vals|);
      NearestRankInSortedOrder(vals, s, r);
      if s[r - 1] <= MAX_TRACKED {
        PercentileWithin(vals, p, d, s[r - 1]);
      }
    }
  }

  lemma AllAreNear(vals: seq<nat>, q: Percentiles)
    requires vals != [] && Describe(vals, q)
    ensures AllNear(q, vals)
  {
    PercentileIsNear(vals, 50.0, q.p50);
    PercentileIsNear(vals, 90.0, q.p90);
    PercentileIsNear(vals, 95.0, q.p95);
    PercentileIsNear(vals, 99.0, q.p99);
  }

  lemma LatenciesTold(s: Summary, calls: seq<Call>)
    requires Summarises(s, calls)
    ensures TellsLatencies(s, Latencies(calls, {true, false}), Latencies(calls, {true}))
  {
    var (ok, failed) := (Values(calls, Ok), Values(calls, Failed));
    var all := Latencies(calls, {true, false});
    SuccessesAreValues(calls);
    LatenciesAreValues(calls);
    LatenciesFit(calls);
    SameSize(all, ok + failed);
    TotalsOfPermutation(all, ok + failed);
    DescribePermutation(ok + failed, all, s.overall);
    ExtremesBound(all);
    if all != [] {
      ExtremesAttained(all);
      InOrder(all, s.overall);
      AllAreNear(all, s.overall);
    }
    if ok != [] {
      InOrder(ok, s.success);
      AllAreNear(ok, s.success);
      TotalsConcat(ok, failed);
    }
  }

  /** The fold over the calls says this of them: how many there are of every kind, by
      their own arguments; the least, the greatest and the mean latency; and percentiles
      that are in order, between the two, and near the sorted latencies' own. */
  lemma SummaryTells(s: Summary, calls: seq<Call>)
    requires Summarises(s, calls)
    ensures Tells(s, calls)
  {
    RequestsTold(s, calls);
    CountersTold(s, calls);
    CodesTold(s.statusCodes, calls);
    ChecksTold(s.checks, calls);
    LatenciesTold(s, calls);
  }

  // ---------- Messages ----------

  /** The message kept of script errors is that of the first. */
  lemma {:induction false} FirstScriptErrorIsFirst(calls: seq<Call>, i: nat)
    requires i < |calls| && calls[i].RecordScriptError?
    requires forall j :: 0 <= j < i ==> !calls[j].RecordScriptError?
    ensures FirstScriptError(calls) == calls[i].msg
  {
    var n := |calls| - 1;
    if i == n {
      NoneOfKind(calls[..n], ScriptError);
    } else {
      FirstScriptErrorIsFirst(calls[..n], i);
      SomeOfKind(calls[..n], i, ScriptError);
    }
  }

  lemma {:induction false} NoneOfKind(calls: seq<Call>, k: Kind)
    requires forall c :: c in calls ==> KindOf(c) != k
    ensures Values(calls, k) == []
  {
    if calls == [] {
    } else {
      NoneOfKind(calls[..|calls| - 1], k);
    }
  }

  lemma {:induction false} SomeOfKind(calls: seq<Call>, i: nat, k: Kind)
    requires i < |calls| && KindOf(calls[i]) == k
    ensures Values(calls, k) != []
  {
    if i == |calls| - 1 {
    } else {
      SomeOfKind(calls[..|calls| - 1], i, k);
    }
  }

  /** The call threw in a check called name that failed, with a message. */
  predicate Threw(c: Call, name: string) {
    c.RecordCheck? && c.name == name && !c.passed && c.errMsg != ""
  }

  /** The message kept of a check is that of the first call that has one. */
  lemma {:induction false} FirstErrorIsFirst(calls: seq<Call>, name: string)
    ensures FirstError(calls, name) == "" <==> forall i :: 0 <= i < |calls| ==> !Threw(calls[i], name)
    ensures forall i :: 0 <= i < |calls| && Threw(calls[i], name) && (forall j :: 0 <= j < i ==> !Threw(calls[j], name)) ==>
      FirstError(calls, name) == calls[i].errMsg
  {
    if calls == [] {
    } else {
      var rest := calls[..|calls| - 1];
      FirstErrorIsFirst(rest, name);
      assert forall i :: 0 <= i < |rest| ==> rest[i] == calls[i];
    }
  }
}
