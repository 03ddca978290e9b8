// The log of recording calls of a run, as values: what the calls of one kind
// report, and that splitting a log over the recorders (or shards, or name
// tables) it went through loses and repeats nothing.
module RecordingCalls {
  import opened GoInts
  import opened Histogram
  import opened Sequences

  const MAX_STATUS: nat := 599

  /** One call on a Recorder. */
  datatype Call =
    | Record(latency: int64, ok: bool)
    | RecordUnsent
    | RecordStatus(code: int)
    | RecordProtocol(proto: string)
    | RecordIteration
    | RecordScriptError(msg: string)
    | RecordCheck(name: string, passed: bool, errMsg: string)

  /** What the summary counts. */
  datatype Kind = Ok | Failed | Status | Unsent | Iteration | ScriptError | Http1 | Http2 | OtherProtocol
                | Pass(name: string) | Fail(name: string)

  /** Negative latencies count as 0. */
  ghost function Latency(d: int64): (v: nat)
    ensures v <= MAX_INT64
  {
    Max(d as int, 0)
  }

  /** The code a status is counted under: 0 outside 100 to 599. */
  ghost function StatusKey(code: int): (key: nat)
    ensures key <= MAX_STATUS
  {
    if code < 100 || code > MAX_STATUS then 0 else code
  }

  ghost function ProtocolKind(proto: string): (k: Kind)
    ensures k.Http1? || k.Http2? || k.OtherProtocol?
  {
    if proto == "HTTP/2.0" then Http2
    else if proto == "HTTP/1.1" || proto == "HTTP/1.0" then Http1
    else OtherProtocol
  }

  /** The kind of event a call reports; the latency or status code it carries is its value. */
  ghost function KindOf(c: Call): Kind {
    match c
    case Record(_, ok) => if ok then Ok else Failed
    case RecordUnsent => Unsent
    case RecordStatus(_) => Status
    case RecordProtocol(p) => ProtocolKind(p)
    case RecordIteration => Iteration
    case RecordScriptError(_) => ScriptError
    case RecordCheck(n, passed, _) => if passed then Pass(n) else Fail(n)
  }

  ghost function Value(c: Call): nat {
    match c
    case Record(d, _) => Latency(d)
    case RecordStatus(code) => StatusKey(code)
    case _ => 0
  }

  /** The values of the calls of one kind, in order. */
  ghost function Values(calls: seq<Call>, k: Kind): seq<nat> {
    if calls == [] then []
    else
      var (rest, c) := (calls[..|calls| - 1], calls[|calls| - 1]);
      Values(rest, k) + if KindOf(c) == k then [Value(c)] else []
  }

  lemma ValuesStep(calls: seq<Call>, c: Call, k: Kind)
    ensures Values(calls + [c], k) == if KindOf(c) == k then Values(calls, k) + [Value(c)] else Values(calls, k)
  {
    assert (calls + [c])[..|calls|] == calls;
  }

  // ---------- Names and messages ----------

  /** The names of the checks run: each where it first occurs. */
  ghost function FirstRuns(calls: seq<Call>): seq<string> {
    if calls == [] then []
    else
      var names := FirstRuns(calls[..|calls| - 1]);
      var c := calls[|calls| - 1];
      if c.RecordCheck? && c.name !in names then names + [c.name] else names
  }

  /** Every name run is listed, once, and comes before the names first run after it. */
  lemma {:induction false} FirstRunsOrder(calls: seq<Call>)
    ensures Distinct(FirstRuns(calls))
    ensures forall n :: n in FirstRuns(calls) <==> exists c :: c in calls && c.RecordCheck? && c.name == n
    ensures forall m: nat :: m <= |calls| ==> FirstRuns(calls[..m]) <= FirstRuns(calls)
  {
    if calls == [] {
    } else {
      var rest := calls[..|calls| - 1];
      FirstRunsOrder(rest);
      assert calls == rest + [calls[|calls| - 1]];
      forall m: nat | m <= |calls| ensures FirstRuns(calls[..m]) <= FirstRuns(calls) {
        if m < |calls| {
          assert calls[..m] == rest[..m];
        } else {
          assert calls[..m] == calls;
        }
      }
    }
  }

  lemma FirstRunsStep(calls: seq<Call>, c: Call)
    ensures FirstRuns(calls + [c])
         == FirstRuns(calls) + if c.RecordCheck? && c.name !in FirstRuns(calls) then [c.name] else []
  {
    assert (calls + [c])[..|calls|] == calls;
  }

  /** The message of the first script error, empty if there was none. */
  ghost function FirstScriptError(calls: seq<Call>): string {
    if calls == [] then ""
    else
      var rest := calls[..|calls| - 1];
      var c := calls[|calls| - 1];
      if c.RecordScriptError? && Values(rest, ScriptError) == [] then c.msg else FirstScriptError(rest)
  }

  /** The first message that is not empty thrown by a check that failed. */
  ghost function FirstError(calls: seq<Call>, name: string): string {
    if calls == [] then ""
    else
      var e := FirstError(calls[..|calls| - 1], name);
      var c := calls[|calls| - 1];
      if e == "" && KindOf(c) == Fail(name) then c.errMsg else e
  }

  lemma MessagesStep(calls: seq<Call>, c: Call)
    ensures FirstScriptError(calls + [c])
         == if c.RecordScriptError? && Values(calls, ScriptError) == [] then c.msg else FirstScriptError(calls)
    ensures forall n :: (FirstError(calls + [c], n)
         == if FirstError(calls, n) == "" && KindOf(c) == Fail(n) then c.errMsg else FirstError(calls, n))
  {
    assert (calls + [c])[..|calls|] == calls;
  }

  lemma {:induction false} ErrorsConcat(a: seq<Call>, b: seq<Call>, name: string)
    ensures FirstError(a + b, name) == if FirstError(a, name) == "" then FirstError(b, name) else FirstError(a, name)
  {
    if b == [] {
      assert a + b == a;
    } else {
      var rest := b[..|b| - 1];
      ErrorsConcat(a, rest, name);
      assert a + b == (a + rest) + [b[|b| - 1]];
      MessagesStep(a + rest, b[|b| - 1]);
    }
  }

  // ---------- Splitting a log ----------

  /** The calls that went through x, given what each call went through. */
  ghost function Only<T>(calls: seq<Call>, at: seq<T>, x: T): seq<Call>
    requires |at| == |calls|
  {
    if calls == [] then []
    else
      var n := |calls| - 1;
      Only(calls[..n], at[..n], x) + if at[n] == x then [calls[n]] else []
  }

  lemma OnlyStep<T>(calls: seq<Call>, at: seq<T>, c: Call, y: T, x: T)
    requires |at| == |calls|
    ensures Only(calls + [c], at + [y], x) == Only(calls, at, x) + if y == x then [c] else []
  {
    assert (calls + [c])[..|calls|] == calls && (at + [y])[..|at|] == at;
  }

  lemma {:induction false} OnlyNone<T>(calls: seq<Call>, at: seq<T>, x: T)
    requires |at| == |calls| && x !in at
    ensures Only(calls, at, x) == []
  {
    if calls != [] { OnlyNone(calls[..|calls| - 1], at[..|calls| - 1], x); }
  }

  lemma {:induction false} OnlyOf<T>(calls: seq<Call>, at: seq<T>, x: T)
    requires |at| == |calls|
    ensures forall c :: c in Only(calls, at, x) ==> exists n :: 0 <= n < |calls| && calls[n] == c && at[n] == x
    ensures forall n :: 0 <= n < |calls| && at[n] == x ==> calls[n] in Only(calls, at, x)
  {
    if calls != [] {
      var n := |calls| - 1;
      OnlyOf(calls[..n], at[..n], x);
      forall c | c in Only(calls, at, x) ensures exists m :: 0 <= m < |calls| && calls[m] == c && at[m] == x {
        if c in Only(calls[..n], at[..n], x) {
          var m :| 0 <= m < n && calls[..n][m] == c && at[..n][m] == x;
          assert calls[m] == c && at[m] == x;
        } else {
          assert calls[n] == c && at[n] == x;
        }
      }
      forall m | 0 <= m < |calls| && at[m] == x ensures calls[m] in Only(calls, at, x) {
        if m < n { assert calls[..n][m] in Only(calls[..n], at[..n], x); }
      }
    }
  }

  ghost function Split<T>(calls: seq<Call>, at: seq<T>, d: seq<T>): seq<seq<Call>>
    requires |at| == |calls|
  {
    seq(|d|, i requires 0 <= i < |d| => Only(calls, at, d[i]))
  }

  /** The values of one kind in each of several logs. */
  ghost function Each(logs: seq<seq<Call>>, k: Kind): (e: seq<seq<nat>>)
    ensures |e| == |logs|
  {
    seq(|logs|, i requires 0 <= i < |logs| => Values(logs[i], k))
  }

  ghost function Gathered(logs: seq<seq<Call>>, k: Kind): seq<nat> {
    Flat(Each(logs, k))
  }

  lemma {:induction false} FlatConcat(a: seq<seq<nat>>, b: seq<seq<nat>>)
    ensures Flat(a + b) == Flat(a) + Flat(b)
  {
    if b == [] {
      assert a + b == a;
    } else {
      var n := |b| - 1;
      FlatConcat(a, b[..n]);
      assert (a + b)[..|a + b| - 1] == a + b[..n];
    }
  }

  lemma FlatOne(x: seq<nat>)
    ensures Flat([x]) == x
  {
    assert [x][..0] == [];
  }

  /** Adding values to one of several logs adds them to what is gathered. */
  lemma FlatUpdate(ls: seq<seq<nat>>, i: nat, v: seq<nat>)
    requires i < |ls|
    ensures multiset(Flat(ls[i := ls[i] + v])) == multiset(Flat(ls)) + multiset(v)
  {
    var (a, b) := (ls[..i], ls[i + 1..]);
    assert ls == a + ([ls[i]] + b) && ls[i := ls[i] + v] == a + ([ls[i] + v] + b);
    FlatConcat(a, [ls[i]] + b);
    FlatConcat(a, [ls[i] + v] + b);
    FlatConcat([ls[i]], b);
    FlatConcat([ls[i] + v], b);
    FlatOne(ls[i]);
    FlatOne(ls[i] + v);
  }

  lemma {:induction false} FlatEmpty(ls: seq<seq<nat>>)
    requires forall i :: 0 <= i < |ls| ==> ls[i] == []
    ensures Flat(ls) == []
  {
    if ls == [] {
    } else {
      FlatEmpty(ls[..|ls| - 1]);
    }
  }

  /** The last call adds its value to the log of the place it went through. */
  lemma OneMoreCall<T>(calls: seq<Call>, at: seq<T>, x: T, k: Kind)
    requires |at| == |calls| && calls != []
    ensures var n := |calls| - 1;
      Values(Only(calls, at, x), k)
      == Values(Only(calls[..n], at[..n], x), k)
         + if at[n] == x && KindOf(calls[n]) == k then [Value(calls[n])] else []
  {
    var n := |calls| - 1;
    var rest := Only(calls[..n], at[..n], x);
    if at[n] == x {
      ValuesStep(rest, calls[n], k);
    } else {
      assert Only(calls, at, x) == rest && Values(rest, k) + [] == Values(rest, k);
    }
  }

  lemma SplitStep<T>(calls: seq<Call>, at: seq<T>, d: seq<T>, k: Kind, before: seq<seq<nat>>, after: seq<seq<nat>>)
    requires |at| == |calls| && calls != []
    requires Distinct(d)
    requires KindOf(calls[|calls| - 1]) == k ==> at[|calls| - 1] in d
    requires before == Each(Split(calls[..|calls| - 1], at[..|calls| - 1], d), k) && after == Each(Split(calls, at, d), k)
    ensures multiset(Flat(after))
         == multiset(Flat(before)) + multiset(if KindOf(calls[|calls| - 1]) == k then [Value(calls[|calls| - 1])] else [])
  {
    var n := |calls| - 1;
    var v := Value(calls[n]);
    forall i | 0 <= i < |d|
      ensures after[i] == before[i] + if at[n] == d[i] && KindOf(calls[n]) == k then [v] else []
    {
      OneMoreCall(calls, at, d[i], k);
    }
    if KindOf(calls[n]) == k {
      var i :| 0 <= i < |d| && d[i] == at[n];
      assert after == before[i := before[i] + [v]] by {
        forall j | 0 <= j < |d| && j != i ensures after[j] == before[j] { }
      }
      FlatUpdate(before, i, [v]);
    } else {
      forall i | 0 <= i < |d| ensures after[i] == before[i] { }
      assert after == before;
    }
  }

  /** Split over the distinct places it went through, a log is still the same
      calls: none is lost, and none is counted twice. */
  lemma {:induction false} Partition<T>(calls: seq<Call>, at: seq<T>, d: seq<T>, k: Kind)
    requires |at| == |calls|
    requires Distinct(d)
    requires forall n :: 0 <= n < |calls| && KindOf(calls[n]) == k ==> at[n] in d
    ensures multiset(Gathered(Split(calls, at, d), k)) == multiset(Values(calls, k))
    ensures |Gathered(Split(calls, at, d), k)| == |Values(calls, k)|
    decreases |calls|
  {
    var after := Each(Split(calls, at, d), k);
    if calls == [] {
      FlatEmpty(after);
    } else {
      var n := |calls| - 1;
      Partition(calls[..n], at[..n], d, k);
      SplitStep(calls, at, d, k, Each(Split(calls[..n], at[..n], d), k), after);
    }
    SameSize(Flat(after), Values(calls, k));
  }

  lemma SameSize(a: seq<nat>, b: seq<nat>)
    requires multiset(a) == multiset(b)
    ensures |a| == |b|
  {
    assert |multiset(a)| == |a| && |multiset(b)| == |b|;
  }
}
