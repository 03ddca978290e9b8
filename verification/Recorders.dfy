// Recorders: the counters VUs report into, the histogram shards and the table
// of check names that several recorders share. Every object keeps the log of
// the calls it took as ghost state; its fields are tied to that log.
module Recorders {
  import opened GoInts
  import opened Histogram
  import opened Buckets
  import opened RecordingCalls
  import opened Sequences
  import opened Summaries

  const NUM_SHARDS: nat := 16

  class Shard {
    var ok: Hist
    var failed: Hist
    var statuses: seq<nat>
    ghost var log: seq<Call>

    ghost predicate Valid()
      reads this
    {
      Holds(ok, failed, statuses, log)
    }

    constructor ()
      ensures Valid() && log == []
    {
      ok := Hist(seq(NUM_BUCKETS, _ => 0), 0, 0, MAX_INT64, 0);
      failed := Hist(seq(NUM_BUCKETS, _ => 0), 0, 0, MAX_INT64, 0);
      statuses := seq(MAX_STATUS + 1, _ => 0);
      log := [];
      new;
      assert ok == HistOf([]) && failed == HistOf([]) by {
        assert HistOf([]).counts == seq(NUM_BUCKETS, _ => 0);
      }
    }

    method RecordLatency(latency: int64, good: bool)
      requires Valid()
      modifies this
      ensures Valid() && log == old(log) + [Record(latency, good)] && statuses == old(statuses)
      ensures var v: nat := if latency < 0 then 0 else latency as int;
        if good then OneMore(old(ok), ok, v) && failed == old(failed) else OneMore(old(failed), failed, v) && ok == old(ok)
    {
      var v := Max(latency as int, 0);
      RecordedIsOneMore(if good then ok else failed, v);
      LatencyStep(ok, failed, statuses, log, latency, good);
      if good {
        ok := Recorded(ok, v);
      } else {
        failed := Recorded(failed, v);
      }
      log := log + [Record(latency, good)];
    }

    method CountStatus(code: int)
      requires Valid()
      modifies this
      ensures Valid() && log == old(log) + [RecordStatus(code)] && ok == old(ok) && failed == old(failed)
      ensures var c: nat := if 100 <= code <= MAX_STATUS then code else 0;
        |old(statuses)| == MAX_STATUS + 1 && statuses == old(statuses)[c := old(statuses)[c] + 1]
    {
      var key := if code < 100 || code > MAX_STATUS then 0 else code;
      StatusStep(ok, failed, statuses, log, code);
      statuses := statuses[key := statuses[key] + 1];
      log := log + [RecordStatus(code)];
    }
  }

  /** statuses holds how often each code was recorded. */
  ghost predicate CountsCodes(statuses: seq<nat>, codes: seq<nat>) {
    && |statuses| == MAX_STATUS + 1
    && (forall c: nat :: c <= MAX_STATUS ==> statuses[c] == multiset(codes)[c])
    && forall c :: c in codes ==> c <= MAX_STATUS
  }

  /** The fields of a shard agree with the calls it took. */
  ghost predicate Holds(ok: Hist, failed: Hist, statuses: seq<nat>, log: seq<Call>) {
    ok == HistOf(Values(log, Ok)) && failed == HistOf(Values(log, Failed)) && CountsCodes(statuses, Values(log, Status))
  }

  lemma LatencyStep(ok: Hist, failed: Hist, statuses: seq<nat>, log: seq<Call>, latency: int64, good: bool)
    requires Holds(ok, failed, statuses, log)
    ensures var after := log + [Record(latency, good)];
      if good then Holds(Recorded(ok, Latency(latency)), failed, statuses, after)
      else Holds(ok, Recorded(failed, Latency(latency)), statuses, after)
  {
    var c := Record(latency, good);
    ValuesStep(log, c, Ok);
    ValuesStep(log, c, Failed);
    ValuesStep(log, c, Status);
    RecordedIsHistOf(Values(log, KindOf(c)), Latency(latency));
  }

  lemma StatusStep(ok: Hist, failed: Hist, statuses: seq<nat>, log: seq<Call>, code: int)
    requires Holds(ok, failed, statuses, log)
    ensures var key := StatusKey(code);
      Holds(ok, failed, statuses[key := statuses[key] + 1], log + [RecordStatus(code)])
  {
    ValuesStep(log, RecordStatus(code), Ok);
    ValuesStep(log, RecordStatus(code), Failed);
    ValuesStep(log, RecordStatus(code), Status);
    CodesStep(statuses, Values(log, Status), StatusKey(code));
  }

  lemma CodesStep(statuses: seq<nat>, codes: seq<nat>, key: nat)
    requires CountsCodes(statuses, codes) && key <= MAX_STATUS
    ensures CountsCodes(statuses[key := statuses[key] + 1], codes + [key])
  {
  }

  /** The check names of a run; a name's number is its place in FirstRuns. */
  class CheckNames {
    var names: seq<string>
    var index: map<string, nat>
    ghost var log: seq<Call>

    ghost predicate Valid()
      reads this
    {
      && names == FirstRuns(log)
      && (forall n :: n in index <==> n in names)
      && forall i :: 0 <= i < |names| ==> index[names[i]] == i
    }

    constructor ()
      ensures Valid() && log == []
    {
      names, index, log := [], map[], [];
    }

    /** The index of a name; a new name gets the next one. c is the check that asks. */
    method Id(name: string, ghost c: Call) returns (i: nat)
      requires Valid() && c.RecordCheck? && c.name == name
      modifies this
      ensures Valid() && log == old(log) + [c]
      ensures old(names) <= names && i < |names| && names[i] == name
    {
      FirstRunsStep(log, c);
      log := log + [c];
      if name in index {
        return index[name];
      }
      index := index[name := |names|];
      names := names + [name];
      return |names| - 1;
    }

    /** A check of a name that its recorder has cached; the table is not asked. */
    ghost method Ran(c: Call)
      requires Valid() && c.RecordCheck? && c.name in names
      modifies this`log
      ensures Valid() && log == old(log) + [c]
    {
      FirstRunsStep(log, c);
      log := log + [c];
    }
  }

  /** The counters of a recorder that no other recorder writes. */
  datatype Counters = Counters(unsent: nat, scriptErrors: nat, firstScriptError: string, iterations: nat,
                               http1: nat, http2: nat, otherProtocols: nat)

  ghost function Bumped(n: Counters, c: Call): Counters {
    match KindOf(c)
    case Unsent => n.(unsent := n.unsent + 1)
    case ScriptError =>
      n.(scriptErrors := n.scriptErrors + 1, firstScriptError := if n.scriptErrors == 0 then c.msg else n.firstScriptError)
    case Iteration => n.(iterations := n.iterations + 1)
    case Http1 => n.(http1 := n.http1 + 1)
    case Http2 => n.(http2 := n.http2 + 1)
    case OtherProtocol => n.(otherProtocols := n.otherProtocols + 1)
    case _ => n
  }

  ghost function CountersOf(log: seq<Call>): Counters {
    if log == [] then Counters(0, 0, "", 0, 0, 0, 0) else Bumped(CountersOf(log[..|log| - 1]), log[|log| - 1])
  }

  lemma CountersStep(log: seq<Call>, c: Call)
    ensures CountersOf(log + [c]) == Bumped(CountersOf(log), c)
  {
    assert (log + [c])[..|log|] == log;
  }

  lemma CheckBumpsNone(log: seq<Call>, c: Call)
    requires c.RecordCheck?
    ensures CountersOf(log + [c]) == CountersOf(log)
  {
    CountersStep(log, c);
  }

  /** Each counter is the number of calls of its kind. */
  lemma {:induction false} CountersAreCounts(log: seq<Call>)
    ensures CountersOf(log)
         == Counters(|Values(log, Unsent)|, |Values(log, ScriptError)|, FirstScriptError(log), |Values(log, Iteration)|,
                     |Values(log, Http1)|, |Values(log, Http2)|, |Values(log, OtherProtocol)|)
  {
    if log == [] {
    } else {
      CountersAreCounts(log[..|log| - 1]);
    }
  }

  /** The tally after one more run. */
  function Counted(t: CheckCount, passed: bool, errMsg: string): CheckCount {
    if passed then t.(passes := t.passes + 1)
    else CheckCount(t.passes, t.fails + 1, if t.firstError == "" then errMsg else t.firstError)
  }

  /** What the log says of the check called name. */
  ghost function CountOf(log: seq<Call>, name: string): CheckCount {
    if log == [] then CheckCount(0, 0, "")
    else
      var (t, c) := (CountOf(log[..|log| - 1], name), log[|log| - 1]);
      if c.RecordCheck? && c.name == name then Counted(t, c.passed, c.errMsg) else t
  }

  lemma CountStep(log: seq<Call>, c: Call, name: string)
    ensures CountOf(log + [c], name)
      == if c.RecordCheck? && c.name == name then Counted(CountOf(log, name), c.passed, c.errMsg) else CountOf(log, name)
  {
    assert (log + [c])[..|log|] == log;
  }

  /** A tally is the number of runs that passed and that failed, and the first
      message that is not empty among the failed ones. */
  lemma {:induction false} TallyIsCount(log: seq<Call>, name: string)
    ensures CountOf(log, name) == CheckCount(|Values(log, Pass(name))|, |Values(log, Fail(name))|, FirstError(log, name))
  {
    if log == [] {
    } else {
      TallyIsCount(log[..|log| - 1], name);
    }
  }

  /** A check that was not run has an empty tally. */
  lemma {:induction false} NotRun(log: seq<Call>, name: string)
    requires forall c :: c in log && c.RecordCheck? ==> c.name != name
    ensures CountOf(log, name) == CheckCount(0, 0, "")
  {
    if log == [] {
    } else {
      NotRun(log[..|log| - 1], name);
    }
  }

  /** The tallies of a recorder agree with its log, by the names of its table. */
  ghost predicate Tallies(log: seq<Call>, names: seq<string>, checkIndex: map<string, nat>, checks: seq<CheckCount>) {
    && |checks| <= |names|
    && (forall n :: n in checkIndex ==> checkIndex[n] < |checks| && names[checkIndex[n]] == n)
    && (forall i :: 0 <= i < |checks| ==> checks[i] == CountOf(log, names[i]))
    && (forall c :: c in log && c.RecordCheck? ==> c.name in checkIndex)
  }

  /** A call that is not a check leaves the tallies alone. */
  lemma OtherCall(log: seq<Call>, c: Call, names: seq<string>, checkIndex: map<string, nat>, checks: seq<CheckCount>)
    requires Tallies(log, names, checkIndex, checks) && !c.RecordCheck?
    ensures Tallies(log + [c], names, checkIndex, checks)
  {
    forall i | 0 <= i < |checks| ensures checks[i] == CountOf(log + [c], names[i]) {
      CountStep(log, c, names[i]);
    }
  }

  /** The table may grow, and the slots added up to a name's index are those of
      names this recorder has not run. */
  lemma Grow(log: seq<Call>, before: seq<string>, names: seq<string>, checkIndex: map<string, nat>, checks: seq<CheckCount>, grown: seq<CheckCount>)
    requires Tallies(log, before, checkIndex, checks) && before <= names && Distinct(names)
    requires |checks| <= |grown| <= |names| && checks <= grown
    requires forall j :: |checks| <= j < |grown| ==> grown[j] == CheckCount(0, 0, "")
    ensures Tallies(log, names, checkIndex, grown)
  {
    forall j | |checks| <= j < |grown| ensures grown[j] == CountOf(log, names[j]) {
      NotRun(log, names[j]);
    }
  }

  /** Counting a check in the slot of its name. */
  lemma OneMoreCheck(log: seq<Call>, c: Call, names: seq<string>, checkIndex: map<string, nat>, checks: seq<CheckCount>, i: nat)
    requires Tallies(log, names, checkIndex, checks) && Distinct(names)
    requires c.RecordCheck? && i < |checks| && names[i] == c.name
    ensures Tallies(log + [c], names, checkIndex[c.name := i], checks[i := Counted(checks[i], c.passed, c.errMsg)])
  {
    forall j | 0 <= j < |checks| ensures j != i ==> checks[j] == CountOf(log + [c], names[j]) {
      CountStep(log, c, names[j]);
    }
    CountStep(log, c, c.name);
  }

  class Recorder {
    // Which shard of the metric families it records into.
    const shardIndex: nat
    var shard: Shard?
    var unsent: nat
    var scriptErrors: nat
    var firstScriptError: string
    var iterations: nat
    var http1: nat
    var http2: nat
    var otherProtocols: nat
    var checkNames: CheckNames?
    var checkIndex: map<string, nat>
    var checks: seq<CheckCount>
    ghost var log: seq<Call>

    /** The names of its table; none before its first check. */
    ghost function Names(): seq<string>
      reads this, checkNames
    {
      if checkNames == null then [] else checkNames.names
    }

    /** Its own counters and tallies agree with its log. */
    ghost predicate Kept()
      reads this, checkNames
    {
      && CountersOf(log) == Own()
      && Tallies(log, Names(), checkIndex, checks)
    }

    ghost predicate Valid()
      reads this, shard, checkNames
    {
      && Kept()
      && (shard != null ==> shard.Valid())
      && (checkNames != null ==> checkNames.Valid())
    }

    /** The zero value. */
    constructor ()
      ensures Valid() && log == [] && shard == null && checkNames == null && shardIndex == 0
    {
      shardIndex := 0;
      shard, checkNames, checkIndex, checks := null, null, map[], [];
      unsent, scriptErrors, firstScriptError, iterations, http1, http2, otherProtocols := 0, 0, "", 0, 0, 0, 0;
      log := [];
    }

    /** A recorder of NewRecorders. */
    constructor Sharing(shard: Shard, checkNames: CheckNames, shardIndex: nat)
      ensures Kept() && log == [] && this.shard == shard && this.checkNames == checkNames
      ensures this.shardIndex == shardIndex
    {
      this.shardIndex := shardIndex;
      this.shard, this.checkNames, checkIndex, checks := shard, checkNames, map[], [];
      unsent, scriptErrors, firstScriptError, iterations, http1, http2, otherProtocols := 0, 0, "", 0, 0, 0, 0;
      log := [];
    }

    /** Its counters, as they are now. */
    function Own(): Counters
      reads this
    {
      Counters(unsent, scriptErrors, firstScriptError, iterations, http1, http2, otherProtocols)
    }

    /** Adds a call that is not a check, and that its counters show already, to the log. */
    ghost method Log(c: Call)
      requires Tallies(log, Names(), checkIndex, checks) && !c.RecordCheck? && Own() == Bumped(CountersOf(log), c)
      modifies this`log
      ensures log == old(log) + [c] && Kept()
    {
      CountersStep(log, c);
      LogOther(c);
    }

    ghost method LogOther(c: Call)
      requires Tallies(log, Names(), checkIndex, checks) && !c.RecordCheck?
      modifies this`log
      ensures log == old(log) + [c] && Tallies(log, Names(), checkIndex, checks)
    {
      OtherCall(log, c, Names(), checkIndex, checks);
      log := log + [c];
    }

    /** A recorder without a shard gets its own on first use. */
    method NeedShard()
      requires Valid()
      modifies this`shard
      ensures Valid() && shard != null
      ensures if old(shard) != null then shard == old(shard) else fresh(shard) && shard.log == []
    {
      if shard == null {
        shard := new Shard();
      }
    }

    method Record(latency: int64, ok: bool)
      requires Valid()
      modifies this`shard, this`log, shard
      ensures Valid() && shard != null && log == old(log) + [Call.Record(latency, ok)]
      ensures shard.log == (if old(shard) == null then [] else old(shard.log)) + [Call.Record(latency, ok)]
      ensures if old(shard) != null then shard == old(shard) else fresh(shard)
    {
      NeedShard();
      shard.RecordLatency(latency, ok);
      Log(Call.Record(latency, ok));
    }

    method RecordStatus(code: int)
      requires Valid()
      modifies this`shard, this`log, shard
      ensures Valid() && shard != null && log == old(log) + [Call.RecordStatus(code)]
      ensures shard.log == (if old(shard) == null then [] else old(shard.log)) + [Call.RecordStatus(code)]
      ensures if old(shard) != null then shard == old(shard) else fresh(shard)
    {
      NeedShard();
      shard.CountStatus(code);
      Log(Call.RecordStatus(code));
    }

    method RecordUnsent()
      requires Valid()
      modifies this`unsent, this`log
      ensures Valid() && log == old(log) + [Call.RecordUnsent]
    {
      unsent := unsent + 1;
      Log(Call.RecordUnsent);
    }

    method RecordProtocol(proto: string)
      requires Valid()
      modifies this`http1, this`http2, this`otherProtocols, this`log
      ensures Valid() && log == old(log) + [Call.RecordProtocol(proto)]
      ensures http2 == old(http2) + (if proto == "HTTP/2.0" then 1 else 0)
      ensures http1 == old(http1) + (if proto in {"HTTP/1.0", "HTTP/1.1"} then 1 else 0)
      ensures http1 + http2 + otherProtocols == old(http1 + http2 + otherProtocols) + 1
    {
      if proto == "HTTP/2.0" {
        http2 := http2 + 1;
      } else if proto == "HTTP/1.1" || proto == "HTTP/1.0" {
        http1 := http1 + 1;
      } else {
        otherProtocols := otherProtocols + 1;
      }
      Log(Call.RecordProtocol(proto));
    }

    method RecordIteration()
      requires Valid()
      modifies this`iterations, this`log
      ensures Valid() && log == old(log) + [Call.RecordIteration]
    {
      iterations := iterations + 1;
      Log(Call.RecordIteration);
    }

    method RecordScriptError(msg: string)
      requires Valid()
      modifies this`scriptErrors, this`firstScriptError, this`log
      ensures Valid() && log == old(log) + [Call.RecordScriptError(msg)]
    {
      if scriptErrors == 0 {
        firstScriptError := msg;
      }
      scriptErrors := scriptErrors + 1;
      Log(Call.RecordScriptError(msg));
    }

    /** A recorder without a table gets its own on its first check. */
    method NeedNames()
      requires Valid()
      modifies this`checkNames
      ensures Valid() && checkNames != null
      ensures if old(checkNames) != null then checkNames == old(checkNames) else fresh(checkNames) && checkNames.log == []
    {
      if checkNames == null {
        checkNames := new CheckNames();
      }
    }

    /** The index of a check, cached by this recorder. */
    method CheckIndex(name: string, ghost c: Call) returns (i: nat)
      requires checkNames != null && checkNames.Valid() && Tallies(log, Names(), checkIndex, checks)
      requires c.RecordCheck? && c.name == name
      modifies this`checkIndex, checkNames
      ensures checkNames.Valid() && checkNames.log == old(checkNames.log) + [c]
      ensures old(Names()) <= Names() && i < |Names()| && Names()[i] == name
      ensures checkIndex == old(checkIndex)[name := i]
    {
      if name in checkIndex {
        i := checkIndex[name];
        checkNames.Ran(c);
      } else {
        i := checkNames.Id(name, c);
        checkIndex := checkIndex[name := i];
      }
    }

    method RecordCheck(name: string, passed: bool, errMsg: string)
      requires Valid()
      modifies this`checkNames, this`checkIndex, this`checks, this`log, checkNames
      ensures Valid() && checkNames != null && log == old(log) + [Call.RecordCheck(name, passed, errMsg)]
      ensures checkNames.log
           == (if old(checkNames) == null then [] else old(checkNames.log)) + [Call.RecordCheck(name, passed, errMsg)]
      ensures if old(checkNames) != null then checkNames == old(checkNames) else fresh(checkNames)
      ensures old(Names()) <= Names()
    {
      NeedNames();
      CountCheck(name, passed, errMsg);
    }

    method CountCheck(name: string, passed: bool, errMsg: string)
      requires Valid() && checkNames != null
      modifies this`checkIndex, this`checks, this`log, checkNames
      ensures Valid() && log == old(log) + [Call.RecordCheck(name, passed, errMsg)]
      ensures checkNames.log == old(checkNames.log) + [Call.RecordCheck(name, passed, errMsg)]
      ensures old(Names()) <= Names()
    {
      ghost var c := Call.RecordCheck(name, passed, errMsg);
      ghost var before, cached := Names(), checkIndex;
      var i := CheckIndex(name, c);
      CountRun(i, c, passed, errMsg, before, cached);
    }

    /** Counts one run in slot i, which is its name's, and logs it. */
    method CountRun(i: nat, ghost c: Call, passed: bool, errMsg: string, ghost before: seq<string>, ghost cached: map<string, nat>)
      requires CountersOf(log) == Own()
      requires Tallies(log, before, cached, checks) && before <= Names() && Distinct(Names())
      requires c.RecordCheck? && c.passed == passed && c.errMsg == errMsg && i < |Names()| && Names()[i] == c.name
      requires checkIndex == cached[c.name := i]
      modifies this`checks, this`log
      ensures Kept() && log == old(log) + [c]
    {
      Count(i, c, passed, errMsg, before, cached);
      LogCheck(c);
    }

    /** Adds a check that has been counted to the log. */
    ghost method LogCheck(c: Call)
      requires c.RecordCheck? && Tallies(log + [c], Names(), checkIndex, checks)
      requires CountersOf(log) == Own()
      modifies this`log
      ensures Kept() && log == old(log) + [c]
    {
      CheckBumpsNone(log, c);
      log := log + [c];
    }

    /** Counts one run in slot i. */
    method Count(i: nat, ghost c: Call, passed: bool, errMsg: string, ghost before: seq<string>, ghost cached: map<string, nat>)
      requires Tallies(log, before, cached, checks) && before <= Names() && Distinct(Names())
      requires c.RecordCheck? && c.passed == passed && c.errMsg == errMsg && i < |Names()| && Names()[i] == c.name
      requires checkIndex == cached[c.name := i]
      modifies this`checks
      ensures Tallies(log + [c], Names(), checkIndex, checks)
    {
      var grown := if i < |checks| then checks else checks + seq(i + 1 - |checks|, _ => CheckCount(0, 0, ""));
      Grow(log, before, Names(), cached, checks, grown);
      OneMoreCheck(log, c, Names(), cached, grown, i);
      checks := grown[i := Counted(grown[i], passed, errMsg)];
    }
  }
}
