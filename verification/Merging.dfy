// Merging the recorders of a run into its summary.
module Merging {
  import opened Histogram
  import opened Options
  import opened RecordingCalls
  import opened Sequences
  import opened Summaries
  import opened Recorders

  // ---------- What merging reads ----------

  /** The state of the recorders when they are merged, as values: each one's log,
      the names of its table, the table and the shard; each table's names and each
      shard's log. */
  datatype View = View(logs: seq<seq<Call>>, names: seq<seq<string>>, tables: seq<CheckNames?>, shards: seq<Shard?>,
                       namesOf: map<CheckNames, seq<string>>, logOf: map<Shard, seq<Call>>)

  ghost predicate SeesCounters(v: View, recs: seq<Recorder>)
    reads recs
  {
    && |v.logs| == |v.shards| == |recs|
    && forall j :: 0 <= j < |recs| ==> CountersOf(v.logs[j]) == recs[j].Own() && recs[j].shard == v.shards[j]
  }

  ghost predicate SeesHists(v: View)
    reads v.logOf.Keys
  {
    && (forall j :: 0 <= j < |v.shards| && v.shards[j] != null ==> v.shards[j] in v.logOf)
    && (forall sh :: sh in v.logOf ==> sh.ok == HistOf(Values(v.logOf[sh], Ok)) && sh.failed == HistOf(Values(v.logOf[sh], Failed)))
  }

  ghost predicate SeesStatuses(v: View)
    reads v.logOf.Keys
  {
    forall sh :: sh in v.logOf ==> CountsCodes(sh.statuses, Values(v.logOf[sh], Status))
  }

  /** names is what recorder r's table, t, holds. */
  ghost predicate Holding(r: Recorder, t: CheckNames?, names: seq<string>, namesOf: map<CheckNames, seq<string>>)
    reads r, t
  {
    r.checkNames == t && if t == null then names == [] else t in namesOf && namesOf[t] == names == t.names
  }

  ghost predicate SeesNames(v: View, recs: seq<Recorder>)
    reads recs, v.tables
  {
    && |v.names| == |v.tables| == |recs|
    && forall j :: 0 <= j < |recs| ==> Holding(recs[j], v.tables[j], v.names[j], v.namesOf)
  }

  ghost predicate SeesChecks(v: View, recs: seq<Recorder>)
    reads recs
  {
    && |v.logs| == |v.names| == |v.tables| == |recs|
    && forall j :: 0 <= j < |recs| ==>
         && recs[j].checkNames == v.tables[j] && (v.tables[j] == null ==> v.names[j] == [])
         && Distinct(v.names[j]) && Tallies(v.logs[j], v.names[j], recs[j].checkIndex, recs[j].checks)
  }

  ghost predicate Sees(v: View, recs: seq<Recorder>)
    reads recs, v.tables, v.logOf.Keys
  {
    SeesCounters(v, recs) && SeesHists(v) && SeesStatuses(v) && SeesNames(v, recs) && SeesChecks(v, recs)
  }

  /** d lists the recorders' shards, each once. */
  ghost predicate ListsShards(d: seq<Shard>, shards: seq<Shard?>) {
    && Distinct(d)
    && (forall sh :: sh in d ==> sh in shards)
    && (forall j :: 0 <= j < |shards| && shards[j] != null ==> shards[j] in d)
  }

  ghost function LogsIn(d: seq<Shard>, logOf: map<Shard, seq<Call>>): (l: seq<seq<Call>>)
    requires forall sh :: sh in d ==> sh in logOf
    ensures |l| == |d| && forall i :: 0 <= i < |d| ==> l[i] == logOf[d[i]]
  {
    seq(|d|, i requires 0 <= i < |d| => logOf[d[i]])
  }

  // ---------- Status codes ----------

  lemma GatheredStep(logs: seq<seq<Call>>, log: seq<Call>, k: Kind)
    ensures Gathered(logs + [log], k) == Gathered(logs, k) + Values(log, k)
  {
    assert Each(logs + [log], k) == Each(logs, k) + [Values(log, k)];
    FlatConcat(Each(logs, k), [Values(log, k)]);
    FlatOne(Values(log, k));
  }

  /** Two lists of the same shards, each once. */
  ghost predicate SameShards(d: seq<Shard>, e: seq<Shard>) {
    Distinct(d) && Distinct(e) && (forall sh :: sh in d ==> sh in e) && forall sh :: sh in e ==> sh in d
  }

  lemma WithoutLast(d: seq<Shard>, e: seq<Shard>, i: nat)
    requires SameShards(d, e) && d != [] && i < |e| && e[i] == d[|d| - 1]
    ensures SameShards(d[..|d| - 1], e[..i] + e[i + 1..])
  {
    var (d', e') := (d[..|d| - 1], e[..i] + e[i + 1..]);
    assert d == d' + [d[|d| - 1]] && e == e[..i] + [e[i]] + e[i + 1..];
    forall sh | sh in d' ensures sh in e' {
      assert sh in d && sh != e[i];
    }
    forall sh | sh in e' ensures sh in d' {
      assert sh in e;
    }
  }

  /** The order in which shards are listed does not matter to what they hold together. */
  lemma {:induction false} AnyOrder(d: seq<Shard>, e: seq<Shard>, logOf: map<Shard, seq<Call>>, k: Kind)
    requires SameShards(d, e) && forall sh :: sh in d ==> sh in logOf
    ensures multiset(Gathered(LogsIn(d, logOf), k)) == multiset(Gathered(LogsIn(e, logOf), k))
  {
    if d == [] {
      NoneListed(d, e);
    } else {
      var (n, last) := (|d| - 1, d[|d| - 1]);
      assert last in d && last in e;
      var i :| 0 <= i < |e| && e[i] == last;
      WithoutLast(d, e, i);
      AnyOrder(d[..n], e[..i] + e[i + 1..], logOf, k);
      OneShardLess(e, i, logOf, k);
      OneShardLess(d, n, logOf, k);
      assert d[..n] + d[n + 1..] == d[..n];
    }
  }

  lemma NoneListed(d: seq<Shard>, e: seq<Shard>)
    requires SameShards(d, e)
    ensures d == [] ==> e == []
  {
    if e != [] { assert e[0] in d; }
  }

  lemma OneShardLess(e: seq<Shard>, i: nat, logOf: map<Shard, seq<Call>>, k: Kind)
    requires i < |e| && forall sh :: sh in e ==> sh in logOf
    ensures multiset(Gathered(LogsIn(e, logOf), k))
         == multiset(Gathered(LogsIn(e[..i] + e[i + 1..], logOf), k)) + multiset(Values(logOf[e[i]], k))
  {
    var (x, y) := (LogsIn(e[..i], logOf), LogsIn(e[i + 1..], logOf));
    assert LogsIn(e, logOf) == (x + [logOf[e[i]]]) + y && LogsIn(e[..i] + e[i + 1..], logOf) == x + y;
    GatheredBetween(x, logOf[e[i]], y, k);
  }

  lemma GatheredBetween(x: seq<seq<Call>>, log: seq<Call>, y: seq<seq<Call>>, k: Kind)
    ensures multiset(Gathered((x + [log]) + y, k)) == multiset(Gathered(x + y, k)) + multiset(Values(log, k))
  {
    GatheredStep(x, log, k);
    GatheredConcat(x + [log], y, k);
    GatheredConcat(x, y, k);
  }

  lemma GatheredConcat(a: seq<seq<Call>>, b: seq<seq<Call>>, k: Kind)
    ensures Gathered(a + b, k) == Gathered(a, k) + Gathered(b, k)
  {
    var (all, parts) := (Each(a + b, k), Each(a, k) + Each(b, k));
    forall i | 0 <= i < |all| ensures all[i] == parts[i] { }
    assert all == parts;
    FlatConcat(Each(a, k), Each(b, k));
  }

  /** The shards' status counts summed, in code order. The map's shards may come
      in any order; d lists them in some order. */
  method MergeStatuses(shards: set<Shard>, ghost logOf: map<Shard, seq<Call>>, ghost d: seq<Shard>) returns (out: seq<StatusCount>)
    requires Distinct(d) && forall sh :: sh in d <==> sh in shards
    requires forall sh :: sh in shards ==> sh in logOf && CountsCodes(sh.statuses, Values(logOf[sh], Status))
    ensures IsStatusTable(out, multiset(Gathered(LogsIn(d, logOf), Status)))
  {
    var totals := new nat[MAX_STATUS + 1](_ => 0);
    var todo := shards;
    ghost var e: seq<Shard> := [];
    while todo != {}
      invariant forall sh :: sh in shards <==> sh in todo || sh in e
      invariant Distinct(e) && forall sh :: sh in e ==> sh !in todo
      invariant CountsCodes(totals[..], Gathered(LogsIn(e, logOf), Status))
      decreases todo
    {
      var sh :| sh in todo;
      ghost var logs := LogsIn(e, logOf);
      AddStatuses(totals, sh.statuses, Gathered(logs, Status), Values(logOf[sh], Status));
      GatheredStep(logs, logOf[sh], Status);
      assert LogsIn(e + [sh], logOf) == logs + [logOf[sh]];
      todo, e := todo - {sh}, e + [sh];
    }
    AnyOrder(d, e, logOf, Status);
    out := Tabulate(totals[..], Gathered(LogsIn(e, logOf), Status));
  }

  method AddStatuses(totals: array<nat>, statuses: seq<nat>, ghost before: seq<nat>, ghost codes: seq<nat>)
    requires CountsCodes(totals[..], before) && CountsCodes(statuses, codes)
    modifies totals
    ensures CountsCodes(totals[..], before + codes)
  {
    for c := 0 to |statuses|
      invariant forall k: nat :: k < c ==> totals[k] == multiset(before + codes)[k]
      invariant forall k: nat :: c <= k <= MAX_STATUS ==> totals[k] == multiset(before)[k]
    {
      totals[c] := totals[c] + statuses[c];
    }
  }

  /** The entries of the table for the codes below c, by their totals. */
  ghost predicate TabulatesBelow(out: seq<StatusCount>, totals: seq<nat>, c: nat) {
    && c <= |totals|
    && (forall i, j :: 0 <= i < j < |out| ==> out[i].code < out[j].code)
    && (forall i :: 0 <= i < |out| ==> out[i].code < c && 0 < out[i].count == totals[out[i].code])
    && (forall k :: 0 <= k < c && 0 < totals[k] ==> exists i :: 0 <= i < |out| && out[i].code == k)
  }

  lemma TabulateStep(out: seq<StatusCount>, totals: seq<nat>, c: nat)
    requires TabulatesBelow(out, totals, c) && c < |totals|
    ensures TabulatesBelow(if totals[c] > 0 then out + [StatusCount(c, totals[c])] else out, totals, c + 1)
  {
    var out' := if totals[c] > 0 then out + [StatusCount(c, totals[c])] else out;
    forall k | 0 <= k < c + 1 && 0 < totals[k] ensures exists i :: 0 <= i < |out'| && out'[i].code == k {
      if k < c {
        var i :| 0 <= i < |out| && out[i].code == k;
        assert out'[i].code == k;
      } else {
        assert out'[|out|].code == k;
      }
    }
  }

  method Tabulate(totals: seq<nat>, ghost codes: seq<nat>) returns (out: seq<StatusCount>)
    requires CountsCodes(totals, codes)
    ensures IsStatusTable(out, multiset(codes))
  {
    out := [];
    for c := 0 to |totals|
      invariant TabulatesBelow(out, totals, c)
    {
      TabulateStep(out, totals, c);
      if totals[c] > 0 {
        out := out + [StatusCount(c, totals[c])];
      }
    }
    WholeTable(out, totals, codes);
  }

  lemma WholeTable(out: seq<StatusCount>, totals: seq<nat>, codes: seq<nat>)
    requires CountsCodes(totals, codes) && TabulatesBelow(out, totals, |totals|)
    ensures IsStatusTable(out, multiset(codes))
  {
    forall c | c in multiset(codes) ensures exists i :: 0 <= i < |out| && out[i].code == c {
      assert c in codes && 0 < totals[c];
    }
  }

  // ---------- Checks ----------

  /** Adds the names not listed yet, in order. */
  function AddNames(listed: seq<string>, names: seq<string>): seq<string> {
    if names == [] then listed
    else
      var (rest, n) := (AddNames(listed, names[..|names| - 1]), names[|names| - 1]);
      if n in rest then rest else rest + [n]
  }

  /** The names of several tables, each where it first appears. */
  function Listed(tables: seq<seq<string>>): seq<string> {
    if tables == [] then [] else AddNames(Listed(tables[..|tables| - 1]), tables[|tables| - 1])
  }

  lemma {:induction false} AddNamesAgain(listed: seq<string>, names: seq<string>)
    requires forall n :: n in names ==> n in listed
    ensures AddNames(listed, names) == listed
  {
    if names == [] {
    } else {
      AddNamesAgain(listed, names[..|names| - 1]);
    }
  }

  lemma {:induction false} AddNamesHas(listed: seq<string>, names: seq<string>)
    requires Distinct(listed)
    ensures Distinct(AddNames(listed, names))
    ensures forall n :: n in AddNames(listed, names) <==> n in listed || n in names
  {
    if names == [] {
    } else {
      AddNamesHas(listed, names[..|names| - 1]);
      assert names == names[..|names| - 1] + [names[|names| - 1]];
    }
  }

  lemma {:induction false} ListedHas(tables: seq<seq<string>>)
    ensures Distinct(Listed(tables))
    ensures forall n :: n in Listed(tables) <==> exists j :: 0 <= j < |tables| && n in tables[j]
  {
    if tables == [] {
    } else {
      var rest := tables[..|tables| - 1];
      ListedHas(rest);
      AddNamesHas(Listed(rest), tables[|tables| - 1]);
      forall n ensures n in Listed(tables) <==> exists j :: 0 <= j < |tables| && n in tables[j] {
        if n in Listed(rest) {
          var j :| 0 <= j < |rest| && n in rest[j];
          assert n in tables[j];
        }
        if j :| 0 <= j < |tables| && n in tables[j] {
          assert j < |rest| ==> n in rest[j];
        }
      }
    }
  }

  function NamesIn(out: seq<CheckResult>): (names: seq<string>)
    ensures |names| == |out|
  {
    seq(|out|, i requires 0 <= i < |out| => out[i].name)
  }

  /** pos gives each listed name its place. */
  predicate Indexed(out: seq<CheckResult>, pos: map<string, nat>) {
    && (forall n :: n in pos ==> pos[n] < |out| && out[pos[n]].name == n)
    && (forall i :: 0 <= i < |out| ==> out[i].name in pos && pos[out[i].name] == i)
  }

  predicate Empty(out: seq<CheckResult>) {
    forall i :: 0 <= i < |out| ==> out[i].count == CheckCount(0, 0, "")
  }

  /** Lists the names of a table that are not listed yet. */
  method AddTable(out: seq<CheckResult>, pos: map<string, nat>, names: seq<string>)
    returns (out': seq<CheckResult>, pos': map<string, nat>)
    requires Indexed(out, pos) && Empty(out)
    ensures Indexed(out', pos') && Empty(out')
    ensures NamesIn(out') == AddNames(NamesIn(out), names)
    ensures (forall n :: n in pos ==> n in pos') && forall n :: n in names ==> n in pos'
  {
    out', pos' := out, pos;
    for m := 0 to |names|
      invariant Indexed(out', pos') && Empty(out')
      invariant NamesIn(out') == AddNames(NamesIn(out), names[..m])
      invariant (forall n :: n in pos ==> n in pos') && forall i :: 0 <= i < m ==> names[i] in pos'
    {
      assert names[..m + 1][..m] == names[..m];
      assert names[m] in NamesIn(out') <==> names[m] in pos' by {
        if names[m] in pos' { assert NamesIn(out')[pos'[names[m]]] == names[m]; }
      }
      if names[m] !in pos' {
        pos' := pos'[names[m] := |out'|];
        out' := out' + [CheckResult(names[m], CheckCount(0, 0, ""))];
      }
    }
    assert names[..|names|] == names;
  }

  function Merged(t: CheckCount, u: CheckCount): CheckCount {
    CheckCount(t.passes + u.passes, t.fails + u.fails, if t.firstError == "" then u.firstError else t.firstError)
  }

  /** The tallies of the check called name in several logs, merged. */
  ghost function TotalOf(logs: seq<seq<Call>>, name: string): CheckCount {
    if logs == [] then CheckCount(0, 0, "")
    else Merged(TotalOf(logs[..|logs| - 1], name), CountOf(logs[|logs| - 1], name))
  }

  /** Adds one recorder's tallies, found by the names of its table. */
  method AddTallies(out: seq<CheckResult>, pos: map<string, nat>, names: seq<string>, checks: seq<CheckCount>,
                    ghost log: seq<Call>, ghost checkIndex: map<string, nat>)
    returns (out': seq<CheckResult>)
    requires Indexed(out, pos) && Tallies(log, names, checkIndex, checks) && Distinct(names)
    requires forall n :: n in names ==> n in pos
    ensures |out'| == |out| && NamesIn(out') == NamesIn(out) && Indexed(out', pos)
    ensures forall j :: 0 <= j < |out| ==> out'[j].count == Merged(out[j].count, CountOf(log, out[j].name))
  {
    out' := out;
    for i := 0 to |checks|
      invariant |out'| == |out| && forall j :: 0 <= j < |out| ==> out'[j].name == out[j].name
      invariant forall j :: 0 <= j < |out| ==>
        out'[j].count == if out[j].name in names[..i] then Merged(out[j].count, CountOf(log, out[j].name)) else out[j].count
    {
      // Every cached index is within its table, so names[i] is in range.
      var j := pos[names[i]];
      assert names[i] !in names[..i];
      assert names[..i + 1] == names[..i] + [names[i]];
      out' := out'[j := CheckResult(out'[j].name, Merged(out'[j].count, checks[i]))];
    }
    forall j | 0 <= j < |out| && out[j].name !in names[..|checks|]
      ensures CountOf(log, out[j].name) == CheckCount(0, 0, "")
    {
      NotRunHere(log, names, checkIndex, checks, out[j].name);
    }
    assert NamesIn(out') == NamesIn(out);
  }

  lemma NotRunHere(log: seq<Call>, names: seq<string>, checkIndex: map<string, nat>, checks: seq<CheckCount>, name: string)
    requires Tallies(log, names, checkIndex, checks) && name !in names[..|checks|]
    ensures CountOf(log, name) == CheckCount(0, 0, "")
  {
    forall c | c in log && c.RecordCheck? ensures c.name != name {
      assert names[..|checks|][checkIndex[c.name]] == c.name;
    }
    NotRun(log, name);
  }

  /** The tables looked at, with their names, all of them listed. */
  ghost predicate Snapshots(tables: map<CheckNames, seq<string>>, pos: map<string, nat>, namesOf: map<CheckNames, seq<string>>) {
    forall t :: t in tables ==> t in namesOf && tables[t] == namesOf[t] && forall n :: n in namesOf[t] ==> n in pos
  }

  lemma ListedStep(tables: seq<seq<string>>, k: nat)
    requires k < |tables|
    ensures Listed(tables[..k + 1]) == AddNames(Listed(tables[..k]), tables[k])
  {
    assert tables[..k + 1][..k] == tables[..k];
  }

  lemma WholeSeq<T>(s: seq<T>)
    ensures s[..|s|] == s
  {
  }

  /** Lists a table's names, unless that has been done. */
  method ListTable(t: CheckNames?, out: seq<CheckResult>, pos: map<string, nat>, tables: map<CheckNames, seq<string>>,
                   ghost namesOf: map<CheckNames, seq<string>>, ghost names: seq<string>)
    returns (out': seq<CheckResult>, pos': map<string, nat>, tables': map<CheckNames, seq<string>>)
    requires Indexed(out, pos) && Empty(out) && Snapshots(tables, pos, namesOf)
    requires if t == null then names == [] else t in namesOf && namesOf[t] == names == t.names
    ensures Indexed(out', pos') && Empty(out') && Snapshots(tables', pos', namesOf)
    ensures NamesIn(out') == AddNames(NamesIn(out), names)
    ensures (forall u :: u in tables ==> u in tables') && (t != null ==> t in tables')
  {
    out', pos', tables' := out, pos, tables;
    if t == null {
      return;
    }
    if t in tables && tables[t] != [] {
      ListedAlready(out, pos, t.names);
    } else {
      out', pos' := AddTable(out, pos, t.names);
      tables' := tables[t := t.names];
    }
  }

  /** The tables of the first k recorders have been listed. */
  ghost predicate ListedUpTo(v: View, k: nat, out: seq<CheckResult>, pos: map<string, nat>, tables: map<CheckNames, seq<string>>) {
    && k <= |v.names| == |v.tables|
    && Indexed(out, pos) && Empty(out) && NamesIn(out) == Listed(v.names[..k])
    && Snapshots(tables, pos, v.namesOf)
    && forall j :: 0 <= j < k && v.tables[j] != null ==> v.tables[j] in tables
  }

  method ListNext(r: Recorder, ghost v: View, ghost k: nat, out: seq<CheckResult>, pos: map<string, nat>,
                  tables: map<CheckNames, seq<string>>)
    returns (out': seq<CheckResult>, pos': map<string, nat>, tables': map<CheckNames, seq<string>>)
    requires ListedUpTo(v, k, out, pos, tables) && k < |v.names| && Holding(r, v.tables[k], v.names[k], v.namesOf)
    ensures ListedUpTo(v, k + 1, out', pos', tables')
  {
    ListedStep(v.names, k);
    out', pos', tables' := ListTable(r.checkNames, out, pos, tables, v.namesOf, v.names[k]);
  }

  /** The names of all tables, in the order of the recorders. */
  method ListNames(recs: seq<Recorder>, ghost v: View)
    returns (out: seq<CheckResult>, pos: map<string, nat>, tables: map<CheckNames, seq<string>>)
    requires SeesNames(v, recs)
    ensures Indexed(out, pos) && NamesIn(out) == Listed(v.names) && Empty(out)
    ensures AllListed(v, pos, tables)
  {
    out, pos, tables := [], map[], map[];
    for k := 0 to |recs|
      invariant ListedUpTo(v, k, out, pos, tables)
    {
      out, pos, tables := ListNext(recs[k], v, k, out, pos, tables);
    }
    WholeSeq(v.names);
    TablesListed(v, recs, pos, tables);
  }

  /** Every table was looked at and every name in one has a place. */
  ghost predicate AllListed(v: View, pos: map<string, nat>, tables: map<CheckNames, seq<string>>) {
    && |v.tables| == |v.names|
    && (forall j :: 0 <= j < |v.tables| && v.tables[j] != null ==> v.tables[j] in tables && tables[v.tables[j]] == v.names[j])
    && forall j :: 0 <= j < |v.names| ==> forall n :: n in v.names[j] ==> n in pos
  }

  lemma TablesListed(v: View, recs: seq<Recorder>, pos: map<string, nat>, tables: map<CheckNames, seq<string>>)
    requires SeesNames(v, recs) && Snapshots(tables, pos, v.namesOf)
    requires forall j :: 0 <= j < |recs| && v.tables[j] != null ==> v.tables[j] in tables
    ensures AllListed(v, pos, tables)
  {
  }

  lemma ListedAlready(out: seq<CheckResult>, pos: map<string, nat>, names: seq<string>)
    requires Indexed(out, pos) && forall n :: n in names ==> n in pos
    ensures AddNames(NamesIn(out), names) == NamesIn(out)
  {
    forall n | n in names ensures n in NamesIn(out) {
      assert NamesIn(out)[pos[n]] == n;
    }
    AddNamesAgain(NamesIn(out), names);
  }

  lemma TotalStep(logs: seq<seq<Call>>, k: nat, before: seq<CheckResult>, out: seq<CheckResult>)
    requires k < |logs| && |out| == |before| && NamesIn(out) == NamesIn(before)
    requires forall i :: 0 <= i < |out| ==> before[i].count == TotalOf(logs[..k], before[i].name)
    requires forall i :: 0 <= i < |out| ==> out[i].count == Merged(before[i].count, CountOf(logs[k], before[i].name))
    ensures forall i :: 0 <= i < |out| ==> out[i].count == TotalOf(logs[..k + 1], out[i].name)
  {
    assert logs[..k + 1][..k] == logs[..k];
    forall i | 0 <= i < |out| ensures out[i].count == TotalOf(logs[..k + 1], out[i].name) {
      assert NamesIn(out)[i] == NamesIn(before)[i];
    }
  }

  /** Adds each recorder's tallies to the checks of their names. */
  method AddAll(recs: seq<Recorder>, ghost v: View, listed: seq<CheckResult>, pos: map<string, nat>,
                tables: map<CheckNames, seq<string>>)
    returns (out: seq<CheckResult>)
    requires SeesChecks(v, recs) && Indexed(listed, pos) && Empty(listed) && AllListed(v, pos, tables)
    ensures |out| == |listed| && NamesIn(out) == NamesIn(listed)
    ensures forall i :: 0 <= i < |out| ==> out[i].count == TotalOf(v.logs, out[i].name)
  {
    out := listed;
    for k := 0 to |recs|
      invariant Indexed(out, pos) && |out| == |listed| && NamesIn(out) == NamesIn(listed)
      invariant forall i :: 0 <= i < |out| ==> out[i].count == TotalOf(v.logs[..k], out[i].name)
    {
      var r := recs[k];
      var names := if r.checkNames == null then [] else tables[r.checkNames];
      ghost var before := out;
      out := AddTallies(out, pos, names, r.checks, v.logs[k], r.checkIndex);
      TotalStep(v.logs, k, before, out);
    }
    assert v.logs[..|recs|] == v.logs;
  }

  /** Every check name once, each recorder's tally added to the check of its name. */
  method MergeChecks(recs: seq<Recorder>, ghost v: View) returns (out: seq<CheckResult>)
    requires SeesNames(v, recs) && SeesChecks(v, recs)
    ensures NamesIn(out) == Listed(v.names)
    ensures forall i :: 0 <= i < |out| ==> out[i].count == TotalOf(v.logs, out[i].name)
  {
    var listed, pos, tables := ListNames(recs, v);
    out := AddAll(recs, v, listed, pos, tables);
  }

  // ---------- Counters and latencies ----------

  function Plus(n: Counters, m: Counters): Counters {
    Counters(n.unsent + m.unsent, n.scriptErrors + m.scriptErrors,
             if n.firstScriptError == "" then m.firstScriptError else n.firstScriptError,
             n.iterations + m.iterations, n.http1 + m.http1, n.http2 + m.http2, n.otherProtocols + m.otherProtocols)
  }

  ghost function TotalCounters(logs: seq<seq<Call>>): Counters {
    if logs == [] then Counters(0, 0, "", 0, 0, 0, 0)
    else Plus(TotalCounters(logs[..|logs| - 1]), CountersOf(logs[|logs| - 1]))
  }

  lemma TotalCountersStep(logs: seq<seq<Call>>, k: nat)
    requires k < |logs|
    ensures TotalCounters(logs[..k + 1]) == Plus(TotalCounters(logs[..k]), CountersOf(logs[k]))
  {
    assert logs[..k + 1][..k] == logs[..k];
  }

  ghost predicate HistsOf(d: seq<Shard>, logOf: map<Shard, seq<Call>>, okHists: seq<Hist>, failedHists: seq<Hist>) {
    && |okHists| == |failedHists| == |d|
    && forall i :: 0 <= i < |d| ==>
         && d[i] in logOf
         && okHists[i] == HistOf(Values(logOf[d[i]], Ok)) && failedHists[i] == HistOf(Values(logOf[d[i]], Failed))
  }

  lemma ListsStep(d: seq<Shard>, shards: seq<Shard?>, k: nat)
    requires k < |shards| && ListsShards(d, shards[..k])
    ensures ListsShards(if shards[k] != null && shards[k] !in d then d + [shards[k]] else d, shards[..k + 1])
  {
    assert shards[..k + 1] == shards[..k] + [shards[k]];
  }

  lemma HistsStep(v: View, d: seq<Shard>, okHists: seq<Hist>, failedHists: seq<Hist>, sh: Shard)
    requires SeesHists(v) && HistsOf(d, v.logOf, okHists, failedHists) && sh in v.logOf
    ensures HistsOf(d + [sh], v.logOf, okHists + [sh.ok], failedHists + [sh.failed])
  {
  }

  /** Collects recorder k's shard, unless it has been. */
  method Collect(shard: Shard?, seen: set<Shard>, okHists: seq<Hist>, failedHists: seq<Hist>, ghost d: seq<Shard>,
                 ghost v: View, ghost k: nat)
    returns (seen': set<Shard>, okHists': seq<Hist>, failedHists': seq<Hist>, ghost d': seq<Shard>)
    requires SeesHists(v) && k < |v.shards| && v.shards[k] == shard
    requires ListsShards(d, v.shards[..k]) && (forall sh :: sh in seen <==> sh in d) && HistsOf(d, v.logOf, okHists, failedHists)
    ensures ListsShards(d', v.shards[..k + 1]) && (forall sh :: sh in seen' <==> sh in d')
    ensures HistsOf(d', v.logOf, okHists', failedHists')
  {
    seen', okHists', failedHists', d' := seen, okHists, failedHists, d;
    ListsStep(d, v.shards, k);
    if shard != null && shard !in seen {
      var sh: Shard := shard;
      HistsStep(v, d, okHists, failedHists, sh);
      seen' := seen + {sh};
      okHists', failedHists' := okHists + [sh.ok], failedHists + [sh.failed];
      d' := d + [sh];
    }
  }

  /** Adds up the recorders' own counters and collects their shards, each once. */
  method Gather(recs: seq<Recorder>, ghost v: View)
    returns (n: Counters, seen: set<Shard>, okHists: seq<Hist>, failedHists: seq<Hist>, ghost d: seq<Shard>)
    requires SeesCounters(v, recs) && SeesHists(v)
    ensures n == TotalCounters(v.logs)
    ensures ListsShards(d, v.shards) && (forall sh :: sh in seen <==> sh in d) && HistsOf(d, v.logOf, okHists, failedHists)
  {
    n, seen, okHists, failedHists, d := Counters(0, 0, "", 0, 0, 0, 0), {}, [], [], [];
    for k := 0 to |recs|
      invariant n == TotalCounters(v.logs[..k])
      invariant ListsShards(d, v.shards[..k]) && (forall sh :: sh in seen <==> sh in d)
      invariant HistsOf(d, v.logOf, okHists, failedHists)
    {
      TotalCountersStep(v.logs, k);
      n := Plus(n, recs[k].Own());
      seen, okHists, failedHists, d := Collect(recs[k].shard, seen, okHists, failedHists, d, v, k);
    }
    WholeSeq(v.logs);
    WholeSeq(v.shards);
  }

  /** The summary's figures from the merged histograms. */
  method Figures(n: Counters, ok: Hist, all: Hist, checks: seq<CheckResult>, statuses: seq<StatusCount>,
                 ghost oks: seq<nat>, ghost fails: seq<nat>)
    returns (s: Summary)
    requires ok == HistOf(oks) && all == HistOf(oks + fails)
    ensures Reports(s, oks, fails, n.unsent)
    ensures s.checks == checks && s.statusCodes == statuses
    ensures n == Counters(n.unsent, s.scriptErrors, s.firstScriptError, s.iterations, s.http1, s.http2, s.otherProtocols)
  {
    var failures := n.unsent + (all.n - ok.n);
    var success := PercentilesOf(ok, oks);
    var requests := ok.n + failures;
    var errorRate := if requests > 0 then failures as real / requests as real else 0.0;
    s := Summary(requests, ok.n, failures, all.n, errorRate, 0, 0, 0, Percentiles(0, 0, 0, 0), success,
                 n.scriptErrors, n.firstScriptError, checks, n.iterations, n.http1, n.http2, n.otherProtocols, statuses, None);
    if all.n == 0 {
      return;
    }
    var overall := PercentilesOf(all, oks + fails);
    s := s.(latency := Some(all), min := all.min, max := all.max, mean := all.sum / all.n, overall := overall);
  }
}
