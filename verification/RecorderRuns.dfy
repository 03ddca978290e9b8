// A run of recording calls over a list of recorders, which may share shards and
// tables of check names in any way, or have none until their first use.
module RecorderRuns {
  import opened Histogram
  import opened RecordingCalls
  import opened Recorders

  /** A list of recorders and the calls made on them: in order, the recorder each
      was made on, and the shard and the table it went through (null for a call
      that needs none). */
  datatype Run = Run(recs: seq<Recorder>, calls: seq<Call>, who: seq<nat>, via: seq<Shard?>, tables: seq<CheckNames?>) {
    ghost predicate Shaped() {
      |who| == |via| == |tables| == |calls|
    }
  }

  predicate InShard(c: Call) {
    c.Record? || c.RecordStatus?
  }

  ghost function Shards(recs: seq<Recorder>): set<object>
    reads recs
  {
    set r | r in recs && r.shard != null :: r.shard
  }

  ghost function Tables(recs: seq<Recorder>): set<object>
    reads recs
  {
    set r | r in recs && r.checkNames != null :: r.checkNames
  }

  // ---------- What a run keeps ----------

  ghost predicate AllValid(recs: seq<Recorder>)
    reads recs, Shards(recs), Tables(recs)
  {
    && (forall i, j :: 0 <= i < j < |recs| ==> recs[i] != recs[j])
    && forall j :: 0 <= j < |recs| ==> recs[j].Valid()
  }

  ghost predicate OwnKept(run: Run)
    requires run.Shaped()
    reads run.recs
  {
    forall j: nat :: j < |run.recs| ==> run.recs[j].log == Only<nat>(run.calls, run.who, j)
  }

  /** Call n went through its recorder's shard, if it needs one. */
  ghost predicate ThroughShard(run: Run, n: nat)
    requires run.Shaped() && n < |run.calls| && run.who[n] < |run.recs|
    reads run.recs[run.who[n]]
  {
    if InShard(run.calls[n]) then run.via[n] == run.recs[run.who[n]].shard != null else run.via[n] == null
  }

  ghost predicate ThroughTable(run: Run, n: nat)
    requires run.Shaped() && n < |run.calls| && run.who[n] < |run.recs|
    reads run.recs[run.who[n]]
  {
    if run.calls[n].RecordCheck? then run.tables[n] == run.recs[run.who[n]].checkNames != null else run.tables[n] == null
  }

  ghost predicate ShardsKept(run: Run)
    requires run.Shaped()
    reads run.recs, Shards(run.recs)
  {
    && (forall j :: 0 <= j < |run.recs| && run.recs[j].shard != null ==>
         run.recs[j].shard.log == Only(run.calls, run.via, run.recs[j].shard))
    && (forall n :: 0 <= n < |run.calls| ==> run.who[n] < |run.recs| && ThroughShard(run, n))
  }

  ghost predicate TablesKept(run: Run)
    requires run.Shaped()
    reads run.recs, Tables(run.recs)
  {
    && (forall j :: 0 <= j < |run.recs| && run.recs[j].checkNames != null ==>
         run.recs[j].checkNames.log == Only(run.calls, run.tables, run.recs[j].checkNames))
    && (forall n :: 0 <= n < |run.calls| ==> run.who[n] < |run.recs| && ThroughTable(run, n))
  }

  /** Every recorder, shard and table holds exactly what the calls of the run that
      went through it say. */
  ghost predicate Kept(run: Run)
    reads run.recs, Shards(run.recs), Tables(run.recs)
  {
    run.Shaped() && AllValid(run.recs) && OwnKept(run) && ShardsKept(run) && TablesKept(run)
  }

  // ---------- One call ----------

  /** Recorder r has taken call c. */
  twostate predicate Took(r: Recorder, c: Call)
    reads r, r.shard, r.checkNames
  {
    && r.Valid() && r.log == old(r.log) + [c] && old(r.Names()) <= r.Names()
    && (old(r.shard) != null ==> r.shard == old(r.shard))
    && (r.shard != old(r.shard) ==> fresh(r.shard) && InShard(c))
    && (InShard(c) ==> r.shard != null)
    && (r.shard != null ==> r.shard.log == (if old(r.shard) == null then [] else old(r.shard.log)) + if InShard(c) then [c] else [])
    && (old(r.checkNames) != null ==> r.checkNames == old(r.checkNames))
    && (r.checkNames != old(r.checkNames) ==> fresh(r.checkNames) && c.RecordCheck?)
    && (c.RecordCheck? ==> r.checkNames != null)
    && (r.checkNames != null ==>
         r.checkNames.log == (if old(r.checkNames) == null then [] else old(r.checkNames.log)) + if c.RecordCheck? then [c] else [])
  }

  method TakeInShard(r: Recorder, c: Call)
    requires r.Valid() && InShard(c)
    modifies r`shard, r`log, r.shard
    ensures Took(r, c)
  {
    if c.Record? {
      r.Record(c.latency, c.ok);
    } else {
      r.RecordStatus(c.code);
    }
  }

  method TakeCheck(r: Recorder, c: Call)
    requires r.Valid() && c.RecordCheck?
    modifies r`checkNames, r`checkIndex, r`checks, r`log, r.checkNames
    ensures Took(r, c)
  {
    r.RecordCheck(c.name, c.passed, c.errMsg);
  }

  method TakeCounter(r: Recorder, c: Call)
    requires r.Valid() && !InShard(c) && !c.RecordCheck?
    modifies r`unsent, r`http1, r`http2, r`otherProtocols, r`iterations, r`scriptErrors, r`firstScriptError, r`log
    ensures Took(r, c)
  {
    BumpCounter(r, c);
  }

  method BumpCounter(r: Recorder, c: Call)
    requires r.Valid() && !InShard(c) && !c.RecordCheck?
    modifies r`unsent, r`http1, r`http2, r`otherProtocols, r`iterations, r`scriptErrors, r`firstScriptError, r`log
    ensures r.Valid() && r.log == old(r.log) + [c]
  {
    match c
    case RecordUnsent => r.RecordUnsent();
    case RecordProtocol(proto) => r.RecordProtocol(proto);
    case RecordIteration => r.RecordIteration();
    case RecordScriptError(msg) => r.RecordScriptError(msg);
  }

  /** Makes call c on recorder r. */
  method Take(r: Recorder, c: Call)
    requires r.Valid()
    modifies r, r.shard, r.checkNames
    ensures Took(r, c)
  {
    if c.RecordCheck? {
      TakeCheck(r, c);
    } else if InShard(c) {
      TakeInShard(r, c);
    } else {
      TakeCounter(r, c);
    }
  }

  /** The run after call c on recorder i. */
  ghost function After(run: Run, i: nat, c: Call): (after: Run)
    requires run.Shaped() && i < |run.recs|
    reads run.recs[i]
    ensures after.Shaped()
  {
    Run(run.recs, run.calls + [c], run.who + [i],
        run.via + [if InShard(c) then run.recs[i].shard else null],
        run.tables + [if c.RecordCheck? then run.recs[i].checkNames else null])
  }

  /** Recorder i has taken call c, and nothing else has changed. */
  twostate predicate Moved(recs: seq<Recorder>, i: nat, c: Call)
    requires i < |recs|
    reads recs, Shards(recs), Tables(recs)
  {
    && Took(recs[i], c)
    && (forall j :: 0 <= j < |recs| && j != i ==> unchanged(recs[j]))
    && (forall j :: 0 <= j < |recs| && j != i && recs[j].shard != null && recs[j].shard != recs[i].shard ==> unchanged(recs[j].shard))
    && (forall j :: 0 <= j < |recs| && j != i && recs[j].checkNames != null && recs[j].checkNames != recs[i].checkNames ==>
         unchanged(recs[j].checkNames))
  }

  twostate lemma OwnAfter(run: Run, new i: nat, new c: Call)
    requires run.Shaped() && i < |run.recs| && old(OwnKept(run)) && Moved(run.recs, i, c)
    ensures OwnKept(After(run, i, c))
  {
    forall j: nat | j < |run.recs| ensures run.recs[j].log == Only<nat>(run.calls + [c], run.who + [i], j) {
      OnlyStep<nat>(run.calls, run.who, c, i, j);
    }
  }

  twostate lemma ShardAfter(run: Run, new i: nat, new c: Call, new j: nat)
    requires run.Shaped() && i < |run.recs| && j < |run.recs| && old(ShardsKept(run)) && Moved(run.recs, i, c)
    requires run.recs[j].shard != null
    ensures run.recs[j].shard.log == Only(run.calls + [c], After(run, i, c).via, run.recs[j].shard)
  {
    OnlyStep<Shard?>(run.calls, run.via, c, if InShard(c) then run.recs[i].shard else null, run.recs[j].shard);
    if old(run.recs[j].shard) == null {
      OnlyNone<Shard?>(run.calls, run.via, run.recs[j].shard);
    }
  }

  twostate lemma ShardPaths(run: Run, new i: nat, new c: Call)
    requires run.Shaped() && i < |run.recs| && old(ShardsKept(run)) && Moved(run.recs, i, c)
    ensures var after := After(run, i, c);
      forall n :: 0 <= n < |after.calls| ==> after.who[n] < |run.recs| && ThroughShard(after, n)
  {
    var after := After(run, i, c);
    forall n: nat | n < |run.calls| ensures after.who[n] < |run.recs| && ThroughShard(after, n) {
      assert old(run.who[n] < |run.recs| && ThroughShard(run, n));
    }
  }

  twostate lemma ShardsAfter(run: Run, new i: nat, new c: Call)
    requires run.Shaped() && i < |run.recs| && old(ShardsKept(run)) && Moved(run.recs, i, c)
    ensures ShardsKept(After(run, i, c))
  {
    ShardPaths(run, i, c);
    forall j: nat | j < |run.recs| && run.recs[j].shard != null
      ensures run.recs[j].shard.log == Only(run.calls + [c], After(run, i, c).via, run.recs[j].shard)
    {
      ShardAfter(run, i, c, j);
    }
  }

  twostate lemma TableAfter(run: Run, new i: nat, new c: Call, new j: nat)
    requires run.Shaped() && i < |run.recs| && j < |run.recs| && old(TablesKept(run)) && Moved(run.recs, i, c)
    requires run.recs[j].checkNames != null
    ensures run.recs[j].checkNames.log == Only(run.calls + [c], After(run, i, c).tables, run.recs[j].checkNames)
  {
    OnlyStep<CheckNames?>(run.calls, run.tables, c, if c.RecordCheck? then run.recs[i].checkNames else null,
                          run.recs[j].checkNames);
    if old(run.recs[j].checkNames) == null {
      OnlyNone<CheckNames?>(run.calls, run.tables, run.recs[j].checkNames);
    }
  }

  twostate lemma TablePaths(run: Run, new i: nat, new c: Call)
    requires run.Shaped() && i < |run.recs| && old(TablesKept(run)) && Moved(run.recs, i, c)
    ensures var after := After(run, i, c);
      forall n :: 0 <= n < |after.calls| ==> after.who[n] < |run.recs| && ThroughTable(after, n)
  {
    var after := After(run, i, c);
    forall n: nat | n < |run.calls| ensures after.who[n] < |run.recs| && ThroughTable(after, n) {
      assert old(run.who[n] < |run.recs| && ThroughTable(run, n));
    }
  }

  twostate lemma TablesAfter(run: Run, new i: nat, new c: Call)
    requires run.Shaped() && i < |run.recs| && old(TablesKept(run)) && Moved(run.recs, i, c)
    ensures TablesKept(After(run, i, c))
  {
    TablePaths(run, i, c);
    forall j: nat | j < |run.recs| && run.recs[j].checkNames != null
      ensures run.recs[j].checkNames.log == Only(run.calls + [c], After(run, i, c).tables, run.recs[j].checkNames)
    {
      TableAfter(run, i, c, j);
    }
  }

  /** Another recorder stays valid: what they share only grew. */
  twostate lemma OtherValid(recs: seq<Recorder>, new i: nat, new c: Call, new j: nat)
    requires i < |recs| && j < |recs| && j != i && old(AllValid(recs)) && Moved(recs, i, c)
    ensures recs[j].Valid()
  {
    var q := recs[j];
    assert old(q.Valid());
    assert Tallies(q.log, old(q.Names()), q.checkIndex, q.checks);
    assert old(q.Names()) <= q.Names();
    assert Tallies(q.log, q.Names(), q.checkIndex, q.checks);
  }

  twostate lemma ValidAfter(recs: seq<Recorder>, new i: nat, new c: Call)
    requires i < |recs| && old(AllValid(recs)) && Moved(recs, i, c)
    ensures AllValid(recs)
  {
    forall j: nat | j < |recs| && j != i ensures recs[j].Valid() {
      OtherValid(recs, i, c, j);
    }
  }

  /** Every call, on recorders sharing in any way, keeps what Kept says. */
  twostate lemma KeptAfter(run: Run, new i: nat, new c: Call)
    requires i < |run.recs| && old(Kept(run)) && Moved(run.recs, i, c)
    ensures run.Shaped() && Kept(After(run, i, c))
  {
    OwnAfter(run, i, c);
    ShardsAfter(run, i, c);
    TablesAfter(run, i, c);
    ValidAfter(run.recs, i, c);
  }

  /** The shards and tables of the recorders are their first ones, or made since. */
  twostate predicate SameOrNew(recs: seq<Recorder>)
    reads recs
  {
    forall j :: 0 <= j < |recs| ==>
      && (recs[j].shard == old(recs[j].shard) || fresh(recs[j].shard))
      && (recs[j].checkNames == old(recs[j].checkNames) || (old(recs[j].checkNames) == null && fresh(recs[j].checkNames)))
  }

  method Make(recs: seq<Recorder>, i: nat, c: Call)
    requires i < |recs| && recs[i].Valid() && forall j, k :: 0 <= j < k < |recs| ==> recs[j] != recs[k]
    modifies recs[i], recs[i].shard, recs[i].checkNames
    ensures Moved(recs, i, c) && SameOrNew(recs)
  {
    Take(recs[i], c);
  }

  method Apply(recs: seq<Recorder>, ghost run: Run, i: nat, c: Call) returns (ghost after: Run)
    requires Kept(run) && run.recs == recs && i < |recs|
    modifies recs[i], recs[i].shard, recs[i].checkNames
    ensures Kept(after) && after.recs == recs && after.calls == run.calls + [c] && after.who == run.who + [i]
    ensures SameOrNew(recs)
  {
    Make(recs, i, c);
    KeptAfter(run, i, c);
    after := After(run, i, c);
  }

  // ---------- The recorders of a run ----------

  /** Recorders on which no call has been made yet. */
  ghost predicate Unused(recs: seq<Recorder>)
    reads recs, Shards(recs), Tables(recs)
  {
    && AllValid(recs)
    && forall j :: 0 <= j < |recs| ==>
         && recs[j].log == []
         && (recs[j].shard != null ==> recs[j].shard.log == [])
         && (recs[j].checkNames != null ==> recs[j].checkNames.log == [])
  }

  lemma KeptAtFirst(recs: seq<Recorder>)
    requires Unused(recs)
    ensures Kept(Run(recs, [], [], [], []))
  {
  }

  /** n recorders spread over at most NUM_SHARDS shards, with one table. */
  method NewRecorders(n: nat) returns (recs: seq<Recorder>)
    ensures |recs| == n && Unused(recs) && fresh(recs)
    ensures forall i :: 0 <= i < n ==> recs[i].shardIndex == i % NUM_SHARDS
    ensures forall i, j :: 0 <= i < n && 0 <= j < n ==>
      && recs[i].shard != null && fresh(recs[i].shard)
      && (recs[i].shard == recs[j].shard <==> i % NUM_SHARDS == j % NUM_SHARDS)
    ensures forall i, j :: 0 <= i < n && 0 <= j < n ==>
      recs[i].checkNames != null && fresh(recs[i].checkNames) && recs[i].checkNames == recs[j].checkNames
  {
    var shards := NewShards(Min(n, NUM_SHARDS));
    var names := new CheckNames();
    recs := Spread(n, shards, names);
    SpreadUnused(recs, shards, names);
    if 0 < n { SameShard(n, |shards|); }
  }

  /** A new recorder with this shard and table. */
  ghost predicate NewWith(r: Recorder, sh: Shard, names: CheckNames, i: nat)
    reads r, names
  {
    r.shard == sh && r.checkNames == names && r.shardIndex == i % NUM_SHARDS && r.log == [] && r.Kept()
  }

  /** New recorders spread over the shards, all with one table. */
  ghost predicate SpreadOver(recs: seq<Recorder>, shards: seq<Shard>, names: CheckNames)
    reads recs, names
  {
    && (forall j, k :: 0 <= j < k < |recs| ==> recs[j] != recs[k])
    && (recs != [] ==> shards != [])
    && forall j :: 0 <= j < |recs| ==> NewWith(recs[j], shards[j % |shards|], names, j)
  }

  lemma SpreadStep(recs: seq<Recorder>, r: Recorder, shards: seq<Shard>, names: CheckNames)
    requires SpreadOver(recs, shards, names) && r !in recs
    requires shards != [] && NewWith(r, shards[|recs| % |shards|], names, |recs|)
    ensures SpreadOver(recs + [r], shards, names)
  {
  }

  method NewSharing(sh: Shard, names: CheckNames, i: nat) returns (r: Recorder)
    ensures fresh(r) && NewWith(r, sh, names, i)
  {
    r := new Recorder.Sharing(sh, names, i % NUM_SHARDS);
  }

  method Spread(n: nat, shards: seq<Shard>, names: CheckNames) returns (recs: seq<Recorder>)
    requires 0 < n ==> shards != []
    ensures |recs| == n && fresh(recs) && SpreadOver(recs, shards, names)
  {
    recs := [];
    for i := 0 to n
      invariant |recs| == i && fresh(recs) && SpreadOver(recs, shards, names)
    {
      var r := NewSharing(shards[i % |shards|], names, i);
      SpreadStep(recs, r, shards, names);
      recs := recs + [r];
    }
  }

  lemma SpreadUnused(recs: seq<Recorder>, shards: seq<Shard>, names: CheckNames)
    requires SpreadOver(recs, shards, names)
    requires forall i :: 0 <= i < |shards| ==> shards[i].Valid() && shards[i].log == []
    requires names.Valid() && names.log == []
    ensures Unused(recs)
  {
  }

  method NewShards(m: nat) returns (shards: seq<Shard>)
    ensures |shards| == m && fresh(shards) && forall i :: 0 <= i < m ==> shards[i].Valid() && shards[i].log == []
    ensures forall i, j :: 0 <= i < j < m ==> shards[i] != shards[j]
  {
    shards := [];
    for i := 0 to m
      invariant |shards| == i && fresh(shards) && forall j :: 0 <= j < i ==> shards[j].Valid() && shards[j].log == []
      invariant forall j, k :: 0 <= j < k < i ==> shards[j] != shards[k]
    {
      var sh := new Shard();
      shards := shards + [sh];
    }
  }

  lemma SameShard(n: nat, m: nat)
    requires 0 < n && m == Min(n, NUM_SHARDS)
    ensures forall i: nat :: i < n ==> i % m == i % NUM_SHARDS
  {
  }
}
