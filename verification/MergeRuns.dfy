// What merging is for: the summary of a run is a direct fold over the calls
// made, whichever recorders, shards and tables they went through.
module MergeRuns {
  import opened Histogram
  import opened RecordingCalls
  import opened Sequences
  import opened Summaries
  import opened SummaryMeaning
  import opened Recorders
  import opened RecorderRuns
  import opened Merging

  // ---------- What merging sees of a run ----------

  /** The calls made on each of n recorders. */
  ghost function ByRecorder(n: nat, calls: seq<Call>, who: seq<nat>): (l: seq<seq<Call>>)
    requires |who| == |calls|
    ensures |l| == n && forall j: nat :: j < n ==> l[j] == Only<nat>(calls, who, j)
  {
    seq(n, j requires 0 <= j < n => Only<nat>(calls, who, j))
  }

  /** The logs seen are the calls that went through each recorder, shard and table. */
  ghost predicate Agrees(v: View, run: Run) {
    && run.Shaped() && |run.recs| == |v.names| == |v.tables| == |v.shards|
    && v.logs == ByRecorder(|run.recs|, run.calls, run.who)
    && (forall sh :: sh in v.logOf ==> v.logOf[sh] == Only<Shard?>(run.calls, run.via, sh))
    && (forall j :: 0 <= j < |v.names| ==>
         v.names[j] == if v.tables[j] == null then [] else FirstRuns(Only<CheckNames?>(run.calls, run.tables, v.tables[j])))
    && (forall n :: 0 <= n < |run.calls| ==> run.who[n] < |run.recs| && CameThrough(v, run, n))
  }

  ghost predicate CameThrough(v: View, run: Run, n: nat)
    requires run.Shaped() && n < |run.calls| && run.who[n] < |v.shards| == |v.tables|
  {
    && (if InShard(run.calls[n]) then run.via[n] == v.shards[run.who[n]] != null else run.via[n] == null)
    && (if run.calls[n].RecordCheck? then run.tables[n] == v.tables[run.who[n]] != null else run.tables[n] == null)
  }

  ghost function TablesOf(recs: seq<Recorder>): (l: seq<CheckNames?>)
    reads recs
    ensures |l| == |recs| && forall j :: 0 <= j < |recs| ==> l[j] == recs[j].checkNames
  {
    seq(|recs|, j requires 0 <= j < |recs| reads recs => recs[j].checkNames)
  }

  ghost function ShardsOf(recs: seq<Recorder>): (l: seq<Shard?>)
    reads recs
    ensures |l| == |recs| && forall j :: 0 <= j < |recs| ==> l[j] == recs[j].shard
  {
    seq(|recs|, j requires 0 <= j < |recs| reads recs => recs[j].shard)
  }

  ghost function LogsOf(recs: seq<Recorder>): (l: seq<seq<Call>>)
    reads recs
    ensures |l| == |recs| && forall j :: 0 <= j < |recs| ==> l[j] == recs[j].log
  {
    seq(|recs|, j requires 0 <= j < |recs| reads recs => recs[j].log)
  }

  ghost function NamesOf(tables: seq<CheckNames?>): (l: seq<seq<string>>)
    reads tables
    ensures |l| == |tables|
    ensures forall j :: 0 <= j < |l| ==> l[j] == if tables[j] == null then [] else tables[j].names
  {
    seq(|tables|, j requires 0 <= j < |tables| reads tables => if tables[j] == null then [] else tables[j].names)
  }

  ghost function TableNames(tables: seq<CheckNames?>): (m: map<CheckNames, seq<string>>)
    reads tables
    ensures forall t :: t in tables && t != null ==> t in m && m[t] == t.names
  {
    map t: CheckNames | t in tables :: t.names
  }

  ghost function ShardLogs(shards: seq<Shard?>): (m: map<Shard, seq<Call>>)
    reads shards
    ensures forall sh :: sh in shards && sh != null ==> sh in m
    ensures forall sh :: sh in m ==> sh in shards && m[sh] == sh.log
  {
    map sh: Shard | sh in shards :: sh.log
  }

  ghost function ViewOf(recs: seq<Recorder>): View
    reads recs, TablesOf(recs), ShardsOf(recs)
  {
    View(LogsOf(recs), NamesOf(TablesOf(recs)), TablesOf(recs), ShardsOf(recs), TableNames(TablesOf(recs)), ShardLogs(ShardsOf(recs)))
  }

  lemma ViewSees(recs: seq<Recorder>)
    requires AllValid(recs)
    ensures Sees(ViewOf(recs), recs)
  {
    ViewSeesShards(recs);
    ViewSeesChecks(recs);
  }

  lemma ViewSeesShards(recs: seq<Recorder>)
    requires AllValid(recs)
    ensures SeesHists(ViewOf(recs)) && SeesStatuses(ViewOf(recs))
  {
    var v := ViewOf(recs);
    forall sh | sh in v.logOf ensures Holds(sh.ok, sh.failed, sh.statuses, v.logOf[sh]) {
      var j :| 0 <= j < |recs| && recs[j].shard == sh;
      assert recs[j].Valid();
    }
  }

  lemma ViewSeesChecks(recs: seq<Recorder>)
    requires AllValid(recs)
    ensures SeesCounters(ViewOf(recs), recs) && SeesNames(ViewOf(recs), recs) && SeesChecks(ViewOf(recs), recs)
  {
    var v := ViewOf(recs);
    forall j | 0 <= j < |recs| ensures Distinct(v.names[j]) {
      assert recs[j].Valid();
      if recs[j].checkNames != null { FirstRunsOrder(recs[j].checkNames.log); }
    }
  }

  lemma ViewAgrees(run: Run)
    requires Kept(run)
    ensures Agrees(ViewOf(run.recs), run)
  {
    var v := ViewOf(run.recs);
    assert v.logs == ByRecorder(|run.recs|, run.calls, run.who);
    ShardsAgree(run);
    NamesAgree(run);
    forall n | 0 <= n < |run.calls| ensures run.who[n] < |run.recs| && CameThrough(v, run, n) {
      assert ThroughShard(run, n) && ThroughTable(run, n);
    }
  }

  lemma ShardsAgree(run: Run)
    requires run.Shaped() && ShardsKept(run)
    ensures forall sh :: sh in ShardLogs(ShardsOf(run.recs)) ==>
      ShardLogs(ShardsOf(run.recs))[sh] == Only<Shard?>(run.calls, run.via, sh)
  {
    forall sh | sh in ShardLogs(ShardsOf(run.recs))
      ensures ShardLogs(ShardsOf(run.recs))[sh] == Only<Shard?>(run.calls, run.via, sh)
    {
      var j :| 0 <= j < |run.recs| && ShardsOf(run.recs)[j] == sh;
    }
  }

  lemma NamesAgree(run: Run)
    requires Kept(run)
    ensures forall j :: 0 <= j < |run.recs| ==>
      var t := TablesOf(run.recs)[j];
      NamesOf(TablesOf(run.recs))[j] == if t == null then [] else FirstRuns(Only<CheckNames?>(run.calls, run.tables, t))
  {
    forall j | 0 <= j < |run.recs|
      ensures var t := TablesOf(run.recs)[j];
        NamesOf(TablesOf(run.recs))[j] == if t == null then [] else FirstRuns(Only<CheckNames?>(run.calls, run.tables, t))
    {
      assert run.recs[j].Valid();
    }
  }

  // ---------- From the logs of the parts to the log of the run ----------

  lemma ShardsPartition(v: View, run: Run, d: seq<Shard>, k: Kind)
    requires Agrees(v, run) && ListsShards(d, v.shards) && (k.Ok? || k.Failed? || k.Status?)
    requires forall sh :: sh in d ==> sh in v.logOf
    ensures multiset(Gathered(LogsIn(d, v.logOf), k)) == multiset(Values(run.calls, k))
  {
    assert LogsIn(d, v.logOf) == Split<Shard?>(run.calls, run.via, d);
    forall n | 0 <= n < |run.calls| && KindOf(run.calls[n]) == k ensures run.via[n] in d {
      KindsInShard(run.calls[n]);
      assert CameThrough(v, run, n);
    }
    Partition<Shard?>(run.calls, run.via, d, k);
  }

  lemma KindsInShard(c: Call)
    ensures KindOf(c).Ok? || KindOf(c).Failed? || KindOf(c).Status? <==> InShard(c)
  {
  }

  lemma RecordersPartition(v: View, run: Run, k: Kind)
    requires Agrees(v, run)
    ensures |Gathered(v.logs, k)| == |Values(run.calls, k)|
  {
    var all: seq<nat> := seq(|run.recs|, j requires 0 <= j => j);
    var split := Split<nat>(run.calls, run.who, all);
    forall j: nat | j < |run.recs| ensures v.logs[j] == split[j] {
      assert all[j] == j;
    }
    assert v.logs == split;
    forall n | 0 <= n < |run.calls| ensures run.who[n] in all {
      assert all[run.who[n]] == run.who[n];
    }
    Partition<nat>(run.calls, run.who, all, k);
  }

  /** Counters add up to the number of calls of their kind. */
  lemma {:induction false} TotalCountersAreCounts(logs: seq<seq<Call>>)
    ensures var n := TotalCounters(logs);
      && n.unsent == |Gathered(logs, Unsent)| && n.scriptErrors == |Gathered(logs, ScriptError)|
      && n.iterations == |Gathered(logs, Iteration)| && n.http1 == |Gathered(logs, Http1)|
      && n.http2 == |Gathered(logs, Http2)| && n.otherProtocols == |Gathered(logs, OtherProtocol)|
  {
    if logs == [] {
    } else {
      var (rest, log) := (logs[..|logs| - 1], logs[|logs| - 1]);
      TotalCountersAreCounts(rest);
      CountersAreCounts(log);
      assert logs == rest + [log];
      GatheredStep(rest, log, Unsent);
      GatheredStep(rest, log, ScriptError);
      GatheredStep(rest, log, Iteration);
      GatheredStep(rest, log, Http1);
      GatheredStep(rest, log, Http2);
      GatheredStep(rest, log, OtherProtocol);
    }
  }

  /** So do the tallies of a check. */
  lemma {:induction false} TotalsAreCounts(logs: seq<seq<Call>>, name: string)
    ensures TotalOf(logs, name).passes == |Gathered(logs, Pass(name))|
    ensures TotalOf(logs, name).fails == |Gathered(logs, Fail(name))|
  {
    if logs == [] {
    } else {
      var (rest, log) := (logs[..|logs| - 1], logs[|logs| - 1]);
      TotalsAreCounts(rest, name);
      TallyIsCount(log, name);
      assert logs == rest + [log];
      GatheredStep(rest, log, Pass(name));
      GatheredStep(rest, log, Fail(name));
    }
  }

  ghost function Concat(logs: seq<seq<Call>>): seq<Call> {
    if logs == [] then [] else Concat(logs[..|logs| - 1]) + logs[|logs| - 1]
  }

  /** The message kept for a check is the first that is not empty, recorder by recorder. */
  lemma {:induction false} TotalsKeepFirstError(logs: seq<seq<Call>>, name: string)
    ensures TotalOf(logs, name).firstError == FirstError(Concat(logs), name)
  {
    if logs == [] {
    } else {
      var (rest, log) := (logs[..|logs| - 1], logs[|logs| - 1]);
      TotalsKeepFirstError(rest, name);
      TallyIsCount(log, name);
      ErrorsConcat(Concat(rest), log, name);
    }
  }

  // ---------- Names ----------

  /** A name is listed when some call ran it. */
  lemma ListedAreRun(v: View, run: Run)
    requires Agrees(v, run)
    ensures forall n :: n in Listed(v.names) <==> n in FirstRuns(run.calls)
  {
    ListedHas(v.names);
    FirstRunsOrder(run.calls);
    forall n ensures n in Listed(v.names) <==> n in FirstRuns(run.calls) {
      if j :| 0 <= j < |v.names| && n in v.names[j] {
        NameWasRun(v, run, j, n);
      }
      if c :| c in run.calls && c.RecordCheck? && c.name == n {
        var m :| 0 <= m < |run.calls| && run.calls[m] == c;
        RunIsListed(v, run, m);
        assert n in v.names[run.who[m]];
      }
    }
  }

  lemma NameWasRun(v: View, run: Run, j: nat, n: string)
    requires Agrees(v, run) && j < |v.names| && n in v.names[j]
    ensures exists c :: c in run.calls && c.RecordCheck? && c.name == n
  {
    var log := Only<CheckNames?>(run.calls, run.tables, v.tables[j]);
    FirstRunsOrder(log);
    OnlyOf<CheckNames?>(run.calls, run.tables, v.tables[j]);
    var c :| c in log && c.RecordCheck? && c.name == n;
    assert c in run.calls;
  }

  lemma RunIsListed(v: View, run: Run, m: nat)
    requires Agrees(v, run) && m < |run.calls| && run.calls[m].RecordCheck?
    ensures run.who[m] < |v.names| && run.calls[m].name in v.names[run.who[m]]
  {
    assert CameThrough(v, run, m);
    OnlyOf<CheckNames?>(run.calls, run.tables, run.tables[m]);
    FirstRunsOrder(Only<CheckNames?>(run.calls, run.tables, run.tables[m]));
  }

  /** Calls that are not checks do not matter to the order of the names. */
  lemma {:induction false} FirstRunsOfOnly<T>(calls: seq<Call>, at: seq<T>, t: T)
    requires |at| == |calls| && forall n :: 0 <= n < |calls| && calls[n].RecordCheck? ==> at[n] == t
    ensures FirstRuns(Only(calls, at, t)) == FirstRuns(calls)
  {
    if calls != [] {
      var n := |calls| - 1;
      FirstRunsOfOnly(calls[..n], at[..n], t);
      var rest := Only(calls[..n], at[..n], t);
      if at[n] == t {
        FirstRunsStep(rest, calls[n]);
      } else {
        assert Only(calls, at, t) == rest;
      }
    }
  }

  lemma {:induction false} ListedOne(tables: seq<seq<string>>, names: seq<string>)
    requires tables != [] && (forall j :: 0 <= j < |tables| ==> tables[j] == names) && Distinct(names)
    ensures Listed(tables) == names
  {
    var rest := tables[..|tables| - 1];
    if rest == [] {
      AddNamesToNone(names);
    } else {
      ListedOne(rest, names);
      AddNamesAgain(names, names);
    }
  }

  lemma {:induction false} AddNamesToNone(names: seq<string>)
    requires Distinct(names)
    ensures AddNames([], names) == names
  {
    if names == [] {
    } else {
      AddNamesToNone(names[..|names| - 1]);
      assert names == names[..|names| - 1] + [names[|names| - 1]];
    }
  }

  /** Recorders that share one table list the names in the order first run,
      over the whole run. */
  lemma FirstRunOrder(v: View, run: Run, t: CheckNames)
    requires Agrees(v, run) && forall j :: 0 <= j < |v.tables| ==> v.tables[j] == t
    ensures Listed(v.names) == FirstRuns(run.calls)
  {
    forall n | 0 <= n < |run.calls| && run.calls[n].RecordCheck? ensures run.tables[n] == t {
      assert CameThrough(v, run, n);
    }
    if run.recs == [] {
      SomeoneCalled(run.who, |run.recs|);
    } else {
      FirstRunsOfOnly<CheckNames?>(run.calls, run.tables, t);
      FirstRunsOrder(Only<CheckNames?>(run.calls, run.tables, t));
      ListedOne(v.names, v.names[0]);
    }
  }

  lemma SomeoneCalled(who: seq<nat>, n: nat)
    requires forall i :: 0 <= i < |who| ==> who[i] < n
    ensures who != [] ==> 0 < n
  {
    if who != [] { assert who[0] < n; }
  }

  // ---------- Merging ----------

  /** The first message that is not empty among the recorders' first script errors. */
  ghost function Example(logs: seq<seq<Call>>): string {
    if logs == [] then ""
    else if Example(logs[..|logs| - 1]) != "" then Example(logs[..|logs| - 1])
    else FirstScriptError(logs[|logs| - 1])
  }

  /** There is no example message exactly if no recorder's first script error has one. */
  lemma {:induction false} NoExampleIff(logs: seq<seq<Call>>)
    ensures Example(logs) == "" <==> forall j :: 0 <= j < |logs| ==> FirstScriptError(logs[j]) == ""
  {
    if logs == [] {
    } else {
      var (rest, log) := (logs[..|logs| - 1], logs[|logs| - 1]);
      NoExampleIff(rest);
      assert forall j :: 0 <= j < |rest| ==> rest[j] == logs[j];
      assert logs[|rest|] == log;
    }
  }

  /** Otherwise it is that of the first recorder whose first script error has one. */
  lemma {:induction false} ExampleIsFirst(logs: seq<seq<Call>>, j: nat)
    requires j < |logs| && FirstScriptError(logs[j]) != ""
    requires forall i :: 0 <= i < j ==> FirstScriptError(logs[i]) == ""
    ensures Example(logs) == FirstScriptError(logs[j])
  {
    var rest := logs[..|logs| - 1];
    if j == |rest| {
      NoExampleIff(rest);
    } else {
      ExampleIsFirst(rest, j);
    }
  }

  lemma {:induction false} TotalCountersKeepExample(logs: seq<seq<Call>>)
    ensures TotalCounters(logs).firstScriptError == Example(logs)
  {
    if logs == [] {
    } else {
      TotalCountersKeepExample(logs[..|logs| - 1]);
      CountersAreCounts(logs[|logs| - 1]);
    }
  }

  /** The checks of a summary list what the run's calls say. */
  lemma ChecksAreListed(v: View, run: Run, checks: seq<CheckResult>)
    requires Agrees(v, run) && NamesIn(checks) == Listed(v.names)
    requires forall i :: 0 <= i < |checks| ==> checks[i].count == TotalOf(v.logs, checks[i].name)
    ensures ListsChecks(checks, run.calls)
  {
    ListedAreRun(v, run);
    ListedHas(v.names);
    forall i | 0 <= i < |checks|
      ensures checks[i].count.passes == |Values(run.calls, Pass(checks[i].name))|
      ensures checks[i].count.fails == |Values(run.calls, Fail(checks[i].name))|
    {
      TotalsAreCounts(v.logs, checks[i].name);
      RecordersPartition(v, run, Pass(checks[i].name));
      RecordersPartition(v, run, Fail(checks[i].name));
    }
    forall i, j | 0 <= i < j < |checks| ensures checks[i].name != checks[j].name {
      assert NamesIn(checks)[i] != NamesIn(checks)[j];
    }
    forall n ensures (exists i :: 0 <= i < |checks| && checks[i].name == n) <==> n in NamesIn(checks) {
      if i :| 0 <= i < |checks| && checks[i].name == n { assert NamesIn(checks)[i] == n; }
    }
  }

  lemma CountersAreTotals(v: View, run: Run)
    requires Agrees(v, run)
    ensures var n := TotalCounters(v.logs);
      && n.unsent == |Values(run.calls, Unsent)| && n.scriptErrors == |Values(run.calls, ScriptError)|
      && n.iterations == |Values(run.calls, Iteration)| && n.http1 == |Values(run.calls, Http1)|
      && n.http2 == |Values(run.calls, Http2)| && n.otherProtocols == |Values(run.calls, OtherProtocol)|
  {
    TotalCountersAreCounts(v.logs);
    RecordersPartition(v, run, Unsent);
    RecordersPartition(v, run, ScriptError);
    RecordersPartition(v, run, Iteration);
    RecordersPartition(v, run, Http1);
    RecordersPartition(v, run, Http2);
    RecordersPartition(v, run, OtherProtocol);
  }

  method MergeLatencies(okHists: seq<Hist>, failedHists: seq<Hist>, ghost d: seq<Shard>, ghost v: View)
    returns (ok: Hist, all: Hist)
    requires HistsOf(d, v.logOf, okHists, failedHists) && forall sh :: sh in d ==> sh in v.logOf
    ensures ok == HistOf(Gathered(LogsIn(d, v.logOf), Ok))
    ensures all == HistOf(Gathered(LogsIn(d, v.logOf), Ok) + Gathered(LogsIn(d, v.logOf), Failed))
  {
    ghost var oks, fails := Each(LogsIn(d, v.logOf), Ok), Each(LogsIn(d, v.logOf), Failed);
    ok := Combine(okHists, oks);
    all := Combine(okHists + failedHists, oks + fails);
    FlatConcat(oks, fails);
  }

  /** Merged parts that agree with a run give a summary of it. */
  lemma MergeSummarises(v: View, run: Run, s: Summary, n: Counters, d: seq<Shard>)
    requires Agrees(v, run) && n == TotalCounters(v.logs) && ListsShards(d, v.shards)
    requires forall sh :: sh in d ==> sh in v.logOf
    requires Reports(s, Gathered(LogsIn(d, v.logOf), Ok), Gathered(LogsIn(d, v.logOf), Failed), n.unsent)
    requires n == Counters(n.unsent, s.scriptErrors, s.firstScriptError, s.iterations, s.http1, s.http2, s.otherProtocols)
    requires IsStatusTable(s.statusCodes, multiset(Gathered(LogsIn(d, v.logOf), Status)))
    requires NamesIn(s.checks) == Listed(v.names)
    requires forall i :: 0 <= i < |s.checks| ==> s.checks[i].count == TotalOf(v.logs, s.checks[i].name)
    ensures Summarises(s, run.calls) && KeepsMessages(s, v.logs)
  {
    ChecksAreListed(v, run, s.checks);
    FirstErrorsKept(v.logs, s.checks);
    CountersAreTotals(v, run);
    TotalCountersKeepExample(v.logs);
    ShardsPartition(v, run, d, Ok);
    ShardsPartition(v, run, d, Failed);
    ReportsPermutation(s, Gathered(LogsIn(d, v.logOf), Ok), Gathered(LogsIn(d, v.logOf), Failed), n.unsent,
                       Values(run.calls, Ok), Values(run.calls, Failed));
    ShardsPartition(v, run, d, Status);
  }

  method MergeSeen(recs: seq<Recorder>, ghost run: Run, ghost v: View) returns (s: Summary)
    requires Sees(v, recs) && Agrees(v, run)
    ensures Summarises(s, run.calls) && KeepsMessages(s, v.logs)
    ensures NamesIn(s.checks) == Listed(v.names)
  {
    var n, seen, okHists, failedHists, d := Gather(recs, v);
    var checks := MergeChecks(recs, v);
    var statuses := MergeStatuses(seen, v.logOf, d);
    var ok, all := MergeLatencies(okHists, failedHists, d, v);
    s := Figures(n, ok, all, checks, statuses, Gathered(LogsIn(d, v.logOf), Ok), Gathered(LogsIn(d, v.logOf), Failed));
    MergeSummarises(v, run, s, n, d);
  }

  lemma FirstErrorsKept(logs: seq<seq<Call>>, checks: seq<CheckResult>)
    requires forall i :: 0 <= i < |checks| ==> checks[i].count == TotalOf(logs, checks[i].name)
    ensures forall i :: 0 <= i < |checks| ==> checks[i].count.firstError == FirstError(Concat(logs), checks[i].name)
  {
    forall i | 0 <= i < |checks| ensures checks[i].count.firstError == FirstError(Concat(logs), checks[i].name) {
      TotalsKeepFirstError(logs, checks[i].name);
    }
  }

  /** The messages a summary keeps, given each recorder's calls: recorder by recorder,
      the first that is not empty among their first script errors, and among the
      errors of each check. */
  ghost predicate KeepsMessages(s: Summary, logs: seq<seq<Call>>) {
    && s.firstScriptError == Example(logs)
    && forall i :: 0 <= i < |s.checks| ==> s.checks[i].count.firstError == FirstError(Concat(logs), s.checks[i].name)
  }

  /** Given the tables of the recorders: if they share one, the checks are listed
      in the order first run. */
  ghost predicate InFirstRunOrder(s: Summary, calls: seq<Call>, tables: seq<CheckNames?>) {
    forall t: CheckNames :: t in tables && (forall j :: 0 <= j < |tables| ==> tables[j] == t) ==>
      NamesIn(s.checks) == FirstRuns(calls)
  }

  lemma OrderedNames(v: View, run: Run, s: Summary)
    requires Agrees(v, run) && NamesIn(s.checks) == Listed(v.names)
    ensures InFirstRunOrder(s, run.calls, v.tables)
  {
    forall t: CheckNames | t in v.tables && forall j :: 0 <= j < |v.tables| ==> v.tables[j] == t
      ensures NamesIn(s.checks) == FirstRuns(run.calls)
    {
      FirstRunOrder(v, run, t);
    }
  }

  /** Merging the recorders of a run, whatever they share, folds over its calls. */
  method Merge(recs: seq<Recorder>, ghost run: Run) returns (s: Summary)
    requires Kept(run) && run.recs == recs
    ensures Summarises(s, run.calls) && InFirstRunOrder(s, run.calls, old(TablesOf(recs)))
    ensures KeepsMessages(s, ByRecorder(|run.recs|, run.calls, run.who))
  {
    ghost var v := ViewOf(recs);
    ViewSees(recs);
    ViewAgrees(run);
    s := MergeSeen(recs, run, v);
    OrderedNames(v, run, s);
  }

  // ---------- A whole run ----------

  lemma AllButLast<T>(s: seq<T>)
    requires s != []
    ensures s == s[..|s| - 1] + [s[|s| - 1]]
  {
  }

  /** Makes the calls in order, call n on recorder who[n]. */
  method MakeCalls(recs: seq<Recorder>, calls: seq<Call>, who: seq<nat>) returns (ghost run: Run)
    requires Unused(recs) && |who| == |calls| && forall n :: 0 <= n < |who| ==> who[n] < |recs|
    modifies recs, Shards(recs), Tables(recs)
    ensures Kept(run) && run.recs == recs && run.calls == calls && run.who == who
    ensures SameOrNew(recs)
    decreases |calls|
  {
    if calls == [] {
      run := Run(recs, [], [], [], []);
      KeptAtFirst(recs);
    } else {
      var n := |calls| - 1;
      run := MakeCalls(recs, calls[..n], who[..n]);
      AllButLast(calls);
      AllButLast(who);
      run := Apply(recs, run, who[n], calls[n]);
    }
  }

  /** The summary of a run: the calls of all VUs in the order they were made, and
      the merge at its end. */
  method RunAndMerge(recs: seq<Recorder>, calls: seq<Call>, who: seq<nat>) returns (s: Summary)
    requires Unused(recs) && |who| == |calls| && forall n :: 0 <= n < |who| ==> who[n] < |recs|
    modifies recs, Shards(recs), Tables(recs)
    ensures Summarises(s, calls) && InFirstRunOrder(s, calls, TablesOf(recs))
    ensures KeepsMessages(s, ByRecorder(|recs|, calls, who)) && Tells(s, calls)
    ensures SameOrNew(recs)
  {
    ghost var run := MakeCalls(recs, calls, who);
    s := Merge(recs, run);
    SummaryTells(s, calls);
  }
}
