// Concurrent recording into one histogram: every call of record is a thread
// that takes its atomic operations one at a time, interleaved in any order
// with those of all other calls.
module Recording {
  import opened GoInts
  import opened Histogram
  import opened Buckets

  /** The next atomic operation of a call. A load remembers the value the call
      saw before (bound), a compare-and-swap the value just loaded (cur). */
  datatype Pc = AddCount | AddN | AddSum | MinLoad(bound: int) | MinCas(cur: int) | MaxLoad(bound: int) | MaxCas(cur: int) | Done
  datatype Call = Call(v: nat, pc: Pc)

  /** begun holds the durations the calls were given. */
  datatype State = State(h: Hist, calls: seq<Call>, begun: seq<int>)

  ghost predicate Init(s: State) {
    s == State(HistOf([]), [], [])
  }

  /** A call of record(d) begins; negative durations count as 0. */
  ghost predicate Begin(s: State, s': State, d: int) {
    -MAX_INT64 - 1 <= d <= MAX_INT64 && s' == s.(calls := s.calls + [Call(Max(d, 0), AddCount)], begun := s.begun + [d])
  }

  /** The effect of a call's next operation on the histogram, and where it goes next. */
  function Operation(h: Hist, c: Call): (Hist, Pc)
    requires |h.counts| == NUM_BUCKETS && c.pc != Done
  {
    match c.pc
    case AddCount => (h.(counts := h.counts[Tracked(c.v) := h.counts[Tracked(c.v)] + 1]), AddN)
    case AddN => (h.(n := h.n + 1), AddSum)
    case AddSum => (h.(sum := h.sum + c.v), MinLoad(MAX_INT64 + 1))
    case MinLoad(_) => (h, if c.v < h.min then MinCas(h.min) else MaxLoad(-1))
    case MinCas(cur) => if h.min == cur then (h.(min := c.v), MaxLoad(-1)) else (h, MinLoad(cur))
    case MaxLoad(_) => (h, if c.v > h.max then MaxCas(h.max) else Done)
    case MaxCas(cur) => if h.max == cur then (h.(max := c.v), Done) else (h, MaxLoad(cur))
  }

  ghost predicate CallStep(s: State, s': State, i: nat) {
    && i < |s.calls| && s.calls[i].pc != Done && |s.h.counts| == NUM_BUCKETS
    && var (h, pc) := Operation(s.h, s.calls[i]);
       s' == State(h, s.calls[i := s.calls[i].(pc := pc)], s.begun)
  }

  ghost predicate Next(s: State, s': State) {
    (exists d :: Begin(s, s', d)) || (exists i: nat :: CallStep(s, s', i))
  }

  ghost predicate Run(run: seq<State>) {
    && 0 < |run| && Init(run[0])
    && forall i, j :: 0 <= i < j < |run| && j == i + 1 ==> Next(run[i], run[j])
  }

  // ---------- What the calls have contributed so far ----------

  predicate PastMin(pc: Pc) {
    pc.MaxLoad? || pc.MaxCas? || pc.Done?
  }

  ghost function Counted(calls: seq<Call>, b: nat): nat {
    if calls == [] then 0 else CountedBy(calls[0], b) + Counted(calls[1..], b)
  }

  ghost function CountedBy(c: Call, b: nat): nat {
    if c.pc != AddCount && Tracked(c.v) == b then 1 else 0
  }

  ghost function Numbered(calls: seq<Call>): nat {
    if calls == [] then 0 else NumberedBy(calls[0]) + Numbered(calls[1..])
  }

  ghost function NumberedBy(c: Call): nat {
    if c.pc != AddCount && c.pc != AddN then 1 else 0
  }

  ghost function Summed(calls: seq<Call>): nat {
    if calls == [] then 0 else SummedBy(calls[0]) + Summed(calls[1..])
  }

  ghost function SummedBy(c: Call): nat {
    if c.pc != AddCount && c.pc != AddN && c.pc != AddSum then c.v else 0
  }

  lemma {:induction false} CountedAfter(calls: seq<Call>, i: nat, c: Call, b: nat)
    requires i < |calls|
    ensures Counted(calls[i := c], b) + CountedBy(calls[i], b) == Counted(calls, b) + CountedBy(c, b)
  {
    if i == 0 {
      assert calls[i := c][1..] == calls[1..];
    } else {
      CountedAfter(calls[1..], i - 1, c, b);
      assert calls[i := c][1..] == calls[1..][i - 1 := c] && calls[i := c][0] == calls[0];
    }
  }

  lemma {:induction false} TotalsAfter(calls: seq<Call>, i: nat, c: Call)
    requires i < |calls|
    ensures Numbered(calls[i := c]) + NumberedBy(calls[i]) == Numbered(calls) + NumberedBy(c)
    ensures Summed(calls[i := c]) + SummedBy(calls[i]) == Summed(calls) + SummedBy(c)
  {
    if i == 0 {
      assert calls[i := c][1..] == calls[1..];
    } else {
      TotalsAfter(calls[1..], i - 1, c);
      assert calls[i := c][1..] == calls[1..][i - 1 := c] && calls[i := c][0] == calls[0];
    }
  }

  lemma {:induction false} FreshCallAddsNothing(calls: seq<Call>, v: nat, b: nat)
    ensures Counted(calls + [Call(v, AddCount)], b) == Counted(calls, b)
    ensures Numbered(calls + [Call(v, AddCount)]) == Numbered(calls)
    ensures Summed(calls + [Call(v, AddCount)]) == Summed(calls)
  {
    var c := Call(v, AddCount);
    if calls == [] {
      assert [c][1..] == [];
    } else {
      FreshCallAddsNothing(calls[1..], v, b);
      assert (calls + [c])[1..] == calls[1..] + [c] && (calls + [c])[0] == calls[0];
    }
  }

  // ---------- The invariant ----------

  ghost predicate SumsInv(s: State) {
    && |s.h.counts| == NUM_BUCKETS
    && (forall b: nat :: b < NUM_BUCKETS ==> s.h.counts[b] == Counted(s.calls, b))
    && s.h.n == Numbered(s.calls) && s.h.sum == Summed(s.calls)
  }

  /** What the bounds say about one call, wherever it is. */
  ghost predicate CallInv(h: Hist, c: Call) {
    && c.v <= MAX_INT64
    && (PastMin(c.pc) ==> h.min <= c.v)
    && (c.pc.Done? ==> c.v <= h.max)
    && (c.pc.MinLoad? ==> h.min < c.pc.bound)
    && (c.pc.MinCas? ==> h.min <= c.pc.cur && c.v < c.pc.cur)
    && (c.pc.MaxLoad? ==> c.pc.bound < h.max)
    && (c.pc.MaxCas? ==> c.pc.cur <= h.max && c.pc.cur < c.v)
  }

  ghost predicate BoundsInv(s: State) {
    && s.h.min <= MAX_INT64 && 0 <= s.h.max
    && (forall i :: 0 <= i < |s.calls| ==> CallInv(s.h, s.calls[i]))
    && (s.h.min < MAX_INT64 ==> exists i :: 0 <= i < |s.calls| && s.calls[i].v == s.h.min)
    && (0 < s.h.max ==> exists i :: 0 <= i < |s.calls| && s.calls[i].v == s.h.max)
  }

  ghost predicate Inv(s: State) {
    SumsInv(s) && BoundsInv(s)
  }

  /** One operation moves min only down and max only up. */
  lemma OperationMonotone(s: State, s': State, i: nat)
    requires Inv(s) && CallStep(s, s', i)
    ensures s'.h.min <= s.h.min && s.h.max <= s'.h.max
    ensures CallInv(s'.h, s'.calls[i])
  {
    assert CallInv(s.h, s.calls[i]);
  }

  lemma CallKeepsSums(s: State, s': State, i: nat)
    requires SumsInv(s) && CallStep(s, s', i)
    ensures SumsInv(s')
  {
    TotalsAfter(s.calls, i, s'.calls[i]);
    forall b: nat | b < NUM_BUCKETS ensures s'.h.counts[b] == Counted(s'.calls, b) {
      CountedAfter(s.calls, i, s'.calls[i], b);
      assert s.h.counts[b] == Counted(s.calls, b);
    }
  }

  lemma CallKeepsBounds(s: State, s': State, i: nat)
    requires Inv(s) && CallStep(s, s', i)
    ensures BoundsInv(s')
  {
    OperationMonotone(s, s', i);
    forall j | 0 <= j < |s'.calls| ensures CallInv(s'.h, s'.calls[j]) {
      if j != i { assert CallInv(s.h, s.calls[j]); }
    }
    assert s'.calls[i].v == s.calls[i].v;
    if s'.h.min < MAX_INT64 && s'.h.min == s.h.min {
      var j :| 0 <= j < |s.calls| && s.calls[j].v == s.h.min;
      assert s'.calls[j].v == s'.h.min;
    }
    if 0 < s'.h.max && s'.h.max == s.h.max {
      var j :| 0 <= j < |s.calls| && s.calls[j].v == s.h.max;
      assert s'.calls[j].v == s'.h.max;
    }
  }

  lemma BeginKeepsInv(s: State, s': State, d: int)
    requires Inv(s) && Begin(s, s', d)
    ensures Inv(s')
  {
    forall b: nat | b < NUM_BUCKETS ensures s'.h.counts[b] == Counted(s'.calls, b) {
      FreshCallAddsNothing(s.calls, Max(d, 0), b);
      assert s.h.counts[b] == Counted(s.calls, b);
    }
    FreshCallAddsNothing(s.calls, Max(d, 0), 0);
    if s.h.min < MAX_INT64 {
      var j :| 0 <= j < |s.calls| && s.calls[j].v == s.h.min;
      assert s'.calls[j].v == s'.h.min;
    }
    if 0 < s.h.max {
      var j :| 0 <= j < |s.calls| && s.calls[j].v == s.h.max;
      assert s'.calls[j].v == s'.h.max;
    }
  }

  lemma StepKeepsInv(s: State, s': State)
    requires Inv(s) && Next(s, s')
    ensures Inv(s') && s'.h.min <= s.h.min && s.h.max <= s'.h.max
  {
    if d :| Begin(s, s', d) {
      BeginKeepsInv(s, s', d);
    } else {
      var i: nat :| CallStep(s, s', i);
      CallKeepsSums(s, s', i);
      CallKeepsBounds(s, s', i);
      OperationMonotone(s, s', i);
    }
  }

  lemma InitInv(s: State)
    requires Init(s)
    ensures Inv(s)
  {
  }

  lemma {:induction false} RunKeepsInv(run: seq<State>, i: nat)
    requires Run(run) && i < |run|
    ensures Inv(run[i])
  {
    if i == 0 {
      InitInv(run[0]);
    } else {
      RunKeepsInv(run, i - 1);
      assert Next(run[i - 1], run[i]);
      StepKeepsInv(run[i - 1], run[i]);
    }
  }

  lemma StepWidens(run: seq<State>, j: nat)
    requires Run(run) && j + 1 < |run|
    ensures run[j + 1].h.min <= run[j].h.min && run[j].h.max <= run[j + 1].h.max
  {
    RunKeepsInv(run, j);
    assert Next(run[j], run[j + 1]);
    StepKeepsInv(run[j], run[j + 1]);
  }

  /** In every interleaving, from one moment to a later one, min only falls and
      max only rises. */
  lemma {:induction false} BoundsOnlyWiden(run: seq<State>, i: nat, j: nat)
    requires Run(run) && i <= j < |run|
    ensures run[j].h.min <= run[i].h.min && run[i].h.max <= run[j].h.max
  {
    if i == j {
    } else {
      BoundsOnlyWiden(run, i, j - 1);
      StepWidens(run, j - 1);
    }
  }

  /** A compare-and-swap fails only because another recorder moved the bound past
      the value loaded. */
  lemma FailedSwapWasOvertaken(run: seq<State>, i: nat, k: nat)
    requires Run(run) && i < |run| && k < |run[i].calls|
    ensures var c, h := run[i].calls[k], run[i].h;
            && (c.pc.MinCas? && h.min != c.pc.cur ==> h.min < c.pc.cur)
            && (c.pc.MaxCas? && h.max != c.pc.cur ==> c.pc.cur < h.max)
  {
    RunKeepsInv(run, i);
    assert CallInv(run[i].h, run[i].calls[k]);
  }

  // ---------- Every call finishes ----------

  /** A bound on the operations a call still has to make, whatever the others do. */
  function Remaining(c: Call): nat
  {
    var up, down := 2 * c.v + 3, 2 * Max(MAX_INT64 + 1 - c.v, 0) + 1;
    match c.pc
    case AddCount => up + down + 3
    case AddN => up + down + 2
    case AddSum => up + down + 1
    case MinLoad(bound) => up + 2 * Max(bound - c.v, 0) + 1
    case MinCas(cur) => up + 2 * Max(cur - c.v, 0) + 2
    case MaxLoad(bound) => 2 * Max(c.v - bound, 0) + 1
    case MaxCas(cur) => 2 * Max(c.v - cur, 0) + 2
    case Done => 0
  }

  /** Both retry loops end: each operation of a call brings it closer to its end,
      and operations of other calls do not set it back. */
  lemma CallsFinish(run: seq<State>, i: nat, k: nat)
    requires Run(run) && i + 1 < |run| && k < |run[i].calls|
    ensures k < |run[i + 1].calls|
    ensures run[i + 1].calls[k] == run[i].calls[k] || Remaining(run[i + 1].calls[k]) < Remaining(run[i].calls[k])
    ensures CallStep(run[i], run[i + 1], k) ==> Remaining(run[i + 1].calls[k]) < Remaining(run[i].calls[k])
  {
    RunKeepsInv(run, i);
    assert Next(run[i], run[i + 1]);
    StepLowersRemaining(run[i], run[i + 1], k);
  }

  lemma StepLowersRemaining(s: State, s': State, k: nat)
    requires Inv(s) && Next(s, s') && k < |s.calls|
    ensures k < |s'.calls|
    ensures s'.calls[k] == s.calls[k] || Remaining(s'.calls[k]) < Remaining(s.calls[k])
    ensures CallStep(s, s', k) ==> Remaining(s'.calls[k]) < Remaining(s.calls[k])
  {
    assert CallInv(s.h, s.calls[k]);
  }

  // ---------- When all calls have returned ----------

  ghost function Values(calls: seq<Call>): (vals: seq<nat>)
    ensures |vals| == |calls| && forall i :: 0 <= i < |calls| ==> vals[i] == calls[i].v
  {
    if calls == [] then [] else [calls[0].v] + Values(calls[1..])
  }

  lemma {:induction false} DoneTotals(calls: seq<Call>, b: nat)
    requires forall i :: 0 <= i < |calls| ==> calls[i].pc == Done
    ensures Counted(calls, b) == CountIn(Values(calls), b)
    ensures Numbered(calls) == |calls| && Summed(calls) == Sum(Values(calls))
  {
    if calls == [] {
    } else {
      assert calls[0].pc == Done;
      DoneTotals(calls[1..], b);
      assert Values(calls)[1..] == Values(calls[1..]);
    }
  }

  lemma {:induction false} ExtremesAre(vals: seq<nat>, lo: int, hi: nat)
    requires forall i :: 0 <= i < |vals| ==> lo <= vals[i] <= hi
    requires (lo == MAX_INT64 || lo in vals) && lo <= MAX_INT64
    requires hi == 0 || hi in vals
    ensures Smallest(vals) == lo && Largest(vals) == hi
  {
    LowerBound(vals, lo);
    UpperBound(vals, hi);
    if lo in vals { var j :| 0 <= j < |vals| && vals[j] == lo; Extremes(vals, j); }
    if hi in vals { var j :| 0 <= j < |vals| && vals[j] == hi; Extremes(vals, j); }
    SmallestBound(vals);
  }

  lemma {:induction false} LowerBound(vals: seq<nat>, lo: int)
    requires lo <= MAX_INT64 && forall i :: 0 <= i < |vals| ==> lo <= vals[i]
    ensures lo <= Smallest(vals)
  {
    if vals == [] {
    } else {
      LowerBound(vals[1..], lo);
    }
  }

  lemma {:induction false} UpperBound(vals: seq<nat>, hi: nat)
    requires forall i :: 0 <= i < |vals| ==> vals[i] <= hi
    ensures Largest(vals) <= hi
  {
    if vals == [] {
    } else {
      UpperBound(vals[1..], hi);
    }
  }

  /** What is recorded of durations: a negative one counts as 0. */
  ghost function FromZero(ds: seq<int>): seq<nat> {
    seq(|ds|, i requires 0 <= i < |ds| => if ds[i] < 0 then 0 else ds[i])
  }

  lemma StepKeepsValues(s: State, s': State)
    requires Next(s, s') && |s.begun| == |s.calls| && Values(s.calls) == FromZero(s.begun)
    ensures |s'.begun| == |s'.calls| && Values(s'.calls) == FromZero(s'.begun)
  {
    forall i | 0 <= i < |s'.calls| ensures s'.calls[i].v == FromZero(s'.begun)[i] {
      if i < |s.calls| {
        assert Values(s.calls)[i] == FromZero(s.begun)[i];
      }
    }
  }

  /** Every call records the duration it was given. */
  lemma {:induction false} ValuesAreBegun(run: seq<State>, i: nat)
    requires Run(run) && i < |run|
    ensures |run[i].begun| == |run[i].calls| && Values(run[i].calls) == FromZero(run[i].begun)
  {
    if i == 0 {
    } else {
      ValuesAreBegun(run, i - 1);
      assert Next(run[i - 1], run[i]);
      StepKeepsValues(run[i - 1], run[i]);
    }
  }

  /** Once every call has returned, the histogram is exactly that of the durations
      given to the calls, whatever the interleaving was. */
  lemma QuiescentIsHistOf(run: seq<State>, i: nat)
    requires Run(run) && i < |run| && AllDone(run[i].calls)
    ensures run[i].h == HistOf(FromZero(run[i].begun)) && |run[i].begun| == |run[i].calls|
  {
    ValuesAreBegun(run, i);
    QuiescentIsHistOfValues(run, i);
  }

  lemma QuiescentIsHistOfValues(run: seq<State>, i: nat)
    requires Run(run) && i < |run| && AllDone(run[i].calls)
    ensures run[i].h == HistOf(Values(run[i].calls))
  {
    RunKeepsInv(run, i);
    var s := run[i];
    var vals := Values(s.calls);
    forall b: nat | b < NUM_BUCKETS ensures s.h.counts[b] == CountIn(vals, b) {
      DoneTotals(s.calls, b);
    }
    DoneTotals(s.calls, 0);
    forall k | 0 <= k < |vals| ensures s.h.min <= vals[k] <= s.h.max {
      assert CallInv(s.h, s.calls[k]);
    }
    if s.h.min < MAX_INT64 {
      var k :| 0 <= k < |s.calls| && s.calls[k].v == s.h.min;
      assert vals[k] == s.h.min;
    }
    if 0 < s.h.max {
      var k :| 0 <= k < |s.calls| && s.calls[k].v == s.h.max;
      assert vals[k] == s.h.max;
    }
    ExtremesAre(vals, s.h.min, s.h.max);
    assert s.h.counts == HistOf(vals).counts;
  }

  // ---------- What a reader of the counters may rely on ----------

  /** How far an operation takes a call. */
  predicate Forward(a: Pc, b: Pc) {
    match a
    case AddCount => b == AddN
    case AddN => b == AddSum
    case AddSum => b.MinLoad?
    case _ => b != AddCount && b != AddN && b != AddSum
  }

  ghost predicate OneMoves(calls: seq<Call>, calls': seq<Call>, i: nat) {
    i < |calls| && exists pc :: Forward(calls[i].pc, pc) && calls' == calls[i := calls[i].(pc := pc)]
  }

  /** A step as seen in the calls alone: one begins, or one moves forward. */
  ghost predicate CallsStep(calls: seq<Call>, calls': seq<Call>) {
    || (exists v: nat :: calls' == calls + [Call(v, AddCount)])
    || exists i: nat :: OneMoves(calls, calls', i)
  }

  /** Every step is one of these, and the counters are sums over the calls at
      every moment of every run: a reader of the counters reads these sums. */
  lemma CountersAreSums(run: seq<State>, i: nat)
    requires Run(run) && i < |run|
    ensures |run[i].h.counts| == NUM_BUCKETS && forall b: nat :: b < NUM_BUCKETS ==> run[i].h.counts[b] == Counted(run[i].calls, b)
    ensures run[i].h.n == Numbered(run[i].calls) && run[i].h.sum == Summed(run[i].calls)
    ensures i + 1 < |run| ==> CallsStep(run[i].calls, run[i + 1].calls)
  {
    RunKeepsInv(run, i);
    if i + 1 < |run| {
      assert Next(run[i], run[i + 1]);
      StepIsCallsStep(run[i], run[i + 1]);
    }
  }

  lemma StepIsCallsStep(s: State, s': State)
    requires Next(s, s')
    ensures CallsStep(s.calls, s'.calls)
  {
    if d :| Begin(s, s', d) {
      assert s'.calls == s.calls + [Call(Max(d, 0), AddCount)];
    } else {
      var i: nat :| CallStep(s, s', i);
      assert Forward(s.calls[i].pc, s'.calls[i].pc);
      assert OneMoves(s.calls, s'.calls, i);
    }
  }

  /** No counter ever falls. */
  lemma CountersGrow(calls: seq<Call>, calls': seq<Call>, b: nat)
    requires CallsStep(calls, calls')
    ensures Counted(calls, b) <= Counted(calls', b)
    ensures Numbered(calls) <= Numbered(calls') && Summed(calls) <= Summed(calls')
  {
    if v: nat :| calls' == calls + [Call(v, AddCount)] {
      FreshCallAddsNothing(calls, v, b);
    } else {
      var i: nat :| OneMoves(calls, calls', i);
      CountedAfter(calls, i, calls'[i], b);
      TotalsAfter(calls, i, calls'[i]);
    }
  }

  /** The calls whose bucket has been counted but that are not yet in n. */
  ghost function HalfRecorded(calls: seq<Call>): nat {
    if calls == [] then 0 else (if calls[0].pc == AddN then 1 else 0) + HalfRecorded(calls[1..])
  }

  /** The counted calls in the first m buckets. */
  ghost function CountedBelow(calls: seq<Call>, m: nat): nat {
    if m == 0 then 0 else CountedBelow(calls, m - 1) + Counted(calls, m - 1)
  }

  ghost function TrackedBelow(calls: seq<Call>, m: nat): nat {
    if calls == [] then 0 else (if calls[0].pc != AddCount && Tracked(calls[0].v) < m then 1 else 0) + TrackedBelow(calls[1..], m)
  }

  lemma {:induction false} TrackedBelowNext(calls: seq<Call>, m: nat)
    ensures TrackedBelow(calls, m + 1) == TrackedBelow(calls, m) + Counted(calls, m)
    ensures TrackedBelow(calls, 0) == 0
    ensures TrackedBelow(calls, NUM_BUCKETS) == Numbered(calls) + HalfRecorded(calls)
  {
    if calls == [] {
    } else {
      TrackedBelowNext(calls[1..], m);
    }
  }

  lemma {:induction false} CountedIsTracked(calls: seq<Call>, m: nat)
    ensures CountedBelow(calls, m) == TrackedBelow(calls, m)
  {
    if m > 0 {
      CountedIsTracked(calls, m - 1);
      TrackedBelowNext(calls, m - 1);
    } else {
      TrackedBelowNext(calls, 0);
    }
  }

  /** The bucket counts add up to n and the calls caught between the two adds. */
  lemma BucketsAreNPlusHalfRecorded(calls: seq<Call>)
    ensures CountedBelow(calls, NUM_BUCKETS) == Numbered(calls) + HalfRecorded(calls)
  {
    CountedIsTracked(calls, NUM_BUCKETS);
    TrackedBelowNext(calls, 0);
  }

  ghost predicate AllDone(calls: seq<Call>) {
    forall i :: 0 <= i < |calls| ==> calls[i].pc == Done
  }

  lemma {:induction false} DoneIsWhole(calls: seq<Call>)
    requires AllDone(calls)
    ensures HalfRecorded(calls) == 0 && Numbered(calls) == |calls|
  {
    if calls == [] {
    } else {
      assert calls[0].pc == Done;
      DoneIsWhole(calls[1..]);
    }
  }
}
