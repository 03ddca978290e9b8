// The ramping-vus executor: every VU inverts the stage line on its own.
// Times are offsets in nanoseconds from the scenario's start; the stage line is
// evaluated in whole microseconds, as the source does.
module Ramping {
  import opened Arithmetic
  import opened GoInts

  const NS_PER_MICRO: int64 := 1000
  const MAX_RAMPING_VUS := 1_000_000
  const MAX_LENGTH := 1000 * 3600 * 1_000_000_000 // 1000 h

  datatype Stage = Stage(duration: int64, target: int64)
  datatype RampingVUs = RampingVUs(startVUs: int64, stages: seq<Stage>, gracefulRampDown: int64)

  // ---------- The definition the schedule is held to ----------

  /** When stage k starts: the durations of the stages before it. */
  ghost function Start(stages: seq<Stage>, k: nat): int
    requires k <= |stages|
  {
    if k == 0 then 0 else Start(stages, k - 1) + stages[k - 1].duration as int
  }

  /** The line's value when stage k starts. */
  ghost function From(e: RampingVUs, k: nat): int
    requires k <= |e.stages|
  {
    if k == 0 then e.startVUs as int else e.stages[k - 1].target as int
  }

  ghost function Length(e: RampingVUs): int {
    Start(e.stages, |e.stages|)
  }

  /** The limits validate enforces, with stage durations in whole microseconds. */
  ghost predicate Valid(e: RampingVUs) {
    && 0 <= e.startVUs as int <= MAX_RAMPING_VUS
    && 0 <= e.gracefulRampDown
    && (forall st :: st in e.stages ==> ValidStage(st))
    && 0 < Length(e) <= MAX_LENGTH
  }

  ghost predicate ValidStage(st: Stage) {
    && 0 <= st.duration as int && st.duration as int % 1000 == 0
    && 0 <= st.target as int <= MAX_RAMPING_VUS
  }

  /** Stage k is the one in force at t. A zero-length stage never is, so of
      several jumps at one instant only the last is seen. */
  ghost predicate InForce(e: RampingVUs, k: nat, t: int) {
    k < |e.stages| && Start(e.stages, k) <= t < Start(e.stages, k + 1)
  }

  /** The stage line at t: linear from the value at the stage's start to its
      target, stepping once a microsecond. */
  ghost function Line(e: RampingVUs, k: nat, t: int): real
    requires Valid(e) && InForce(e, k, t)
  {
    assert ValidStage(e.stages[k]);
    LineAt(From(e, k), e.stages[k].target as int, e.stages[k].duration as int / 1000, (t - Start(e.stages, k)) / 1000)
  }

  /** The line from one value to another, x of d microseconds into its segment. */
  ghost function LineAt(from: int, to: int, d: int, x: int): real
    requires 0 < d
  {
    from as real + (to - from) as real * x as real / d as real
  }

  /** VU i is in the wanted state (active or inactive) at t, before the stages end. */
  ghost predicate InState(e: RampingVUs, i: int, t: int, want: bool)
    requires Valid(e)
  {
    exists k: nat :: InForce(e, k, t) && (Line(e, k, t) >= (i + 1) as real) == want
  }

  /** at is the first offset from t on at which VU i is in the wanted state. */
  ghost predicate IsNext(e: RampingVUs, i: int, t: int, want: bool, at: int)
    requires Valid(e)
  {
    && t <= at && InState(e, i, at, want)
    && forall s :: t <= s < at ==> !InState(e, i, s, want)
  }

  ghost predicate NeverAgain(e: RampingVUs, i: int, t: int, want: bool)
    requires Valid(e)
  {
    forall s :: t <= s ==> !InState(e, i, s, want)
  }

  // ---------- Stages tile the time line ----------

  lemma StartMonotone(e: RampingVUs, j: nat, k: nat)
    requires Valid(e) && j <= k <= |e.stages|
    ensures 0 <= Start(e.stages, j) <= Start(e.stages, k) <= Length(e)
  {
    StartUpTo(e, 0, j);
    StartUpTo(e, j, k);
    StartUpTo(e, k, |e.stages|);
  }

  lemma {:induction false} StartUpTo(e: RampingVUs, j: nat, k: nat)
    requires Valid(e) && j <= k <= |e.stages|
    ensures Start(e.stages, j) <= Start(e.stages, k)
  {
    if j == k {
    } else {
      assert ValidStage(e.stages[k - 1]);
      StartUpTo(e, j, k - 1);
    }
  }

  lemma {:induction false} StartWholeMicros(e: RampingVUs, k: nat)
    requires Valid(e) && k <= |e.stages|
    ensures Start(e.stages, k) % 1000 == 0
  {
    if k == 0 {
    } else {
      assert ValidStage(e.stages[k - 1]);
      StartWholeMicros(e, k - 1);
    }
  }

  lemma FromInRange(e: RampingVUs, k: nat)
    requires Valid(e) && k <= |e.stages|
    ensures 0 <= From(e, k) <= MAX_RAMPING_VUS
  {
    if k > 0 { assert ValidStage(e.stages[k - 1]); }
  }

  lemma InForceUnique(e: RampingVUs, j: nat, k: nat, t: int)
    requires Valid(e) && InForce(e, j, t) && InForce(e, k, t)
    ensures j == k
  {
    if j < k { StartMonotone(e, j + 1, k); }
    if k < j { StartMonotone(e, k + 1, j); }
  }

  /** At every offset before the end exactly one stage is in force, so a VU is
      either active or inactive there and never both; after the end it is neither. */
  lemma StatesPartitionTime(e: RampingVUs, i: int, t: int)
    requires Valid(e)
    ensures 0 <= t < Length(e) <==> InState(e, i, t, true) || InState(e, i, t, false)
    ensures !(InState(e, i, t, true) && InState(e, i, t, false))
  {
    if 0 <= t < Length(e) {
      var k := FindStage(e, t, |e.stages|);
      assert (Line(e, k, t) >= (i + 1) as real) || !(Line(e, k, t) >= (i + 1) as real);
    }
    forall k: nat | InForce(e, k, t) ensures 0 <= t < Length(e) {
      StartMonotone(e, k, k + 1);
    }
    forall j: nat, k: nat | InForce(e, j, t) && InForce(e, k, t) ensures j == k {
      InForceUnique(e, j, k, t);
    }
  }

  lemma FindStage(e: RampingVUs, t: int, n: nat) returns (k: nat)
    requires Valid(e) && n <= |e.stages| && 0 <= t < Start(e.stages, n)
    ensures InForce(e, k, t)
  {
    if Start(e.stages, n - 1) <= t {
      k := n - 1;
    } else {
      k := FindStage(e, t, n - 1);
    }
  }

  // ---------- One segment in integers ----------

  /** d times the line's value x microseconds into a segment of d microseconds. */
  function Scaled(from: int, to: int, d: int, x: int): int {
    from * d + (to - from) * x
  }

  lemma MulAsReal(a: int, b: int)
    ensures (a * b) as real == a as real * b as real
  {
  }

  /** Comparing the line with a level needs no division. */
  lemma LineIsScaled(from: int, to: int, d: int, x: int, level: int)
    requires 0 < d
    ensures LineAt(from, to, d, x) >= level as real <==> Scaled(from, to, d, x) >= level * d
  {
    ScaleLine(from, to, d, x);
    MulAsReal(level, d);
    RealScaling(LineAt(from, to, d, x), level as real, d as real);
  }

  lemma RealScaling(a: real, b: real, d: real)
    requires 0.0 < d
    ensures a >= b <==> a * d >= b * d
  {
    if a >= b {
      assert (a - b) * d >= 0.0;
    } else {
      assert (b - a) * d > 0.0;
    }
  }

  lemma ScaleLine(from: int, to: int, d: int, x: int)
    requires 0 < d
    ensures LineAt(from, to, d, x) * d as real == Scaled(from, to, d, x) as real
  {
    MulAsReal(to - from, x);
    MulAsReal(from, d);
    var slope := (to - from) as real * x as real;
    var q := slope / d as real;
    assert q * d as real == slope;
    assert (from as real + q) * d as real == from as real * d as real + q * d as real;
  }

  /** On [0, d] the scaled line stays between its end values. */
  lemma ScaledBetween(from: int, to: int, d: int, x: int, lo: int, hi: int)
    requires lo <= from <= hi && lo <= to <= hi && 0 <= x <= d
    ensures lo * d <= Scaled(from, to, d, x) <= hi * d
  {
    assert Scaled(from, to, d, x) == from * (d - x) + to * x;
    assert lo * (d - x) <= from * (d - x) <= hi * (d - x);
    assert lo * x <= to * x <= hi * x;
  }

  /** A segment that ends on the side of the level it is on at x never leaves that side. */
  lemma NoCrossing(from: int, to: int, d: int, x: int, y: int, level: int)
    requires 0 <= x <= y < d
    requires (Scaled(from, to, d, x) >= level * d) == (to >= level)
    ensures (Scaled(from, to, d, y) >= level * d) == (to >= level)
  {
    var a, b := Scaled(from, to, d, x) - level * d, Scaled(from, to, d, y) - level * d;
    // The value at y is the weighted mean of the values at x and at d.
    WeightedMean(from, to, d, x, y, level);
    if to >= level {
      MulNonneg(d - y, a);
      MulNonneg(y - x, to - level);
      MulNonneg((y - x) * (to - level), d);
    } else {
      MulNegative(d - y, a);
      MulNegative(y - x, to - level);
      MulAtMost((y - x) * (to - level), -(y - x), d);
      MulNonneg(y - x, d - 1);
      assert -(y - x) * d == -((y - x) * (d - 1)) - (y - x);
    }
    SignOfProduct(d - x, b);
  }

  lemma MulNegative(a: int, b: int)
    requires 0 <= a && b < 0
    ensures a * b <= -a
  {
  }

  lemma MulAtMost(a: int, b: int, d: int)
    requires a <= b && 0 <= d
    ensures a * d <= b * d
  {
  }

  lemma WeightedMean(from: int, to: int, d: int, x: int, y: int, level: int)
    ensures (d - x) * (Scaled(from, to, d, y) - level * d)
         == (d - y) * (Scaled(from, to, d, x) - level * d) + (y - x) * (to - level) * d
  {
  }

  /** A segment that has yet to cross the level at x, on its way to the other side,
      started on the side it is on. */
  lemma StartSide(from: int, to: int, d: int, x: int, level: int)
    requires 0 <= x < d
    ensures Scaled(from, to, d, x) < level * d && level <= to ==> from < level
    ensures level * d <= Scaled(from, to, d, x) && to < level ==> level <= from
  {
    if level <= from && level <= to {
      ScaledBetween(from, to, d, x, level, if from < to then to else from);
    }
    if from < level && to < level {
      ScaledBetween(from, to, d, x, if from < to then from else to, level - 1);
      assert (level - 1) * d < level * d;
    }
  }

  /** A rising segment is at the level exactly from the rounded-up crossing q on. */
  lemma RisingCrossing(from: int, to: int, d: int, q: int, y: int, level: int)
    requires from < level <= to
    requires (q - 1) * (to - from) < (level - from) * d <= q * (to - from)
    ensures Scaled(from, to, d, y) >= level * d <==> y >= q
  {
    var b := to - from;
    assert (level - from) * d == level * d - from * d;
    if y >= q { assert b * y >= b * q; } else { assert b * y <= b * (q - 1); }
  }

  /** A falling segment is below the level exactly from one microsecond past
      the rounded-down crossing on. */
  lemma FallingCrossing(from: int, to: int, d: int, y: int, level: int)
    requires to < level <= from
    ensures Scaled(from, to, d, y) < level * d <==> y >= (from - level) * d / (from - to) + 1
  {
    var a, b := (from - level) * d, from - to;
    var q := a / b;
    assert b * q <= a < b * q + b;
    assert a == from * d - level * d;
    assert (to - from) * y == -(b * y);
    if y >= q + 1 { assert b * y >= b * (q + 1); } else { assert b * y <= b * q; }
  }

  /** Under the limits of Valid every product of the schedule fits in int64. */
  lemma ProductsFit(n: int, d: int)
    requires -MAX_RAMPING_VUS <= n <= MAX_RAMPING_VUS && 0 <= d <= MAX_LENGTH / 1000
    ensures -3_600_000_000_000_000_000 <= n * d <= 3_600_000_000_000_000_000
  {
    assert n * d <= MAX_RAMPING_VUS * d <= MAX_RAMPING_VUS * (MAX_LENGTH / 1000);
    assert n * d >= -(MAX_RAMPING_VUS * d);
  }

  // ---------- The schedule ----------

  /** Division rounded up. */
  function CeilDiv(a: int64, b: int64): (q: int64)
    requires 0 <= a && 0 < b && a as int + b as int <= MAX_INT64
    ensures (q as int - 1) * b as int < a as int <= q as int * b as int
  {
    (a + b - 1) / b
  }

  lemma OnlyState(e: RampingVUs, k: nat, s: int, i: int, want: bool)
    requires Valid(e) && InForce(e, k, s)
    ensures InState(e, i, s, want) <==> (Line(e, k, s) >= (i + 1) as real) == want
  {
    if j: nat :| InForce(e, j, s) && (Line(e, j, s) >= (i + 1) as real) == want {
      InForceUnique(e, j, k, s);
    }
  }

  /** The state of VU i at s, once stage k is known to be in force. */
  lemma StateInForce(e: RampingVUs, k: nat, s: int, i: int, want: bool)
    requires Valid(e) && InForce(e, k, s)
    ensures var d := e.stages[k].duration as int / 1000;
            InState(e, i, s, want)
            <==> (Scaled(From(e, k), e.stages[k].target as int, d, (s - Start(e.stages, k)) / 1000) >= (i + 1) * d) == want
  {
    assert ValidStage(e.stages[k]);
    OnlyState(e, k, s, i, want);
    LineIsScaled(From(e, k), e.stages[k].target as int, e.stages[k].duration as int / 1000, (s - Start(e.stages, k)) / 1000, i + 1);
  }

  /** From offset x on, where the segment is not in the wanted state, it is in
      it exactly from dx on (never, if dx is negative). */
  ghost predicate TurnsAt(from: int, to: int, d: int, x: int, level: int, want: bool, dx: int) {
    && (dx < 0 || x < dx)
    && forall y :: x <= y < d ==> ((Scaled(from, to, d, y) >= level * d) == want <==> 0 <= dx <= y)
  }

  /** No intermediate value of Crossing leaves int64. */
  lemma CrossingFits(from: int, to: int, d: int, x: int, level: int)
    requires 0 <= from <= MAX_RAMPING_VUS && 0 <= to <= MAX_RAMPING_VUS && 1 <= level <= MAX_RAMPING_VUS
    requires 0 <= x < d <= MAX_LENGTH / 1000
    ensures 0 <= from * d < MAX_INT64 && 0 <= level * d < MAX_INT64
    ensures -MAX_INT64 <= (to - from) * x <= MAX_INT64
    ensures 0 <= Scaled(from, to, d, x) < MAX_INT64
    ensures from < level ==> 0 <= (level - from) * d && (level - from) * d + MAX_RAMPING_VUS < MAX_INT64
    ensures level <= from && to < from ==> 0 <= (from - level) * d < MAX_INT64 && 0 <= (from - level) * d / (from - to) < MAX_INT64 - 1
  {
    ProductsFit(from, d);
    ProductsFit(level, d);
    ProductsFit(to - from, x);
    ProductsFit(level - from, d);
    ProductsFit(from - level, d);
    ScaledFits(from, to, d, x);
    MulNonneg(from, d);
    MulNonneg(level, d);
    if from < level {
      MulNonneg(level - from, d);
    }
    if level <= from && to < from {
      MulNonneg(from - level, d);
      QuotientFits((from - level) * d, from - to, (from - level) * d / (from - to));
    }
  }

  lemma ScaledFits(from: int, to: int, d: int, x: int)
    requires 0 <= from <= MAX_RAMPING_VUS && 0 <= to <= MAX_RAMPING_VUS && 0 <= x < d <= MAX_LENGTH / 1000
    ensures 0 <= Scaled(from, to, d, x) < MAX_INT64
  {
    ScaledBetween(from, to, d, x, 0, MAX_RAMPING_VUS);
    ProductsFit(MAX_RAMPING_VUS, d);
  }

  lemma QuotientFits(a: int, b: int, q: int)
    requires 0 <= a && 0 < b && q == a / b
    ensures 0 <= q <= a
  {
    QuotientBounds(a, b, q);
  }

  lemma QuotientBounds(a: int, b: int, q: int)
    requires 0 <= a && 0 < b && b * q <= a < b * q + b
    ensures 0 <= q <= a
  {
    assert b * -(q + 1) == -(b * q) - b;
    SignOfProduct(b, -(q + 1));
    MulNonneg(b - 1, q);
    assert (b - 1) * q == b * q - q;
  }

  /** The turning point dx that Crossing computes is right. */
  lemma SegmentTurns(from: int, to: int, d: int, x: int, level: int, want: bool, dx: int)
    requires 0 <= x < d && (Scaled(from, to, d, x) >= level * d) != want
    requires want && to >= level ==> from < level && (dx - 1) * (to - from) < (level - from) * d <= dx * (to - from)
    requires !want && to < level ==> level <= from && dx == (from - level) * d / (from - to) + 1
    requires want != (to >= level) ==> dx == -1
    ensures TurnsAt(from, to, d, x, level, want, dx)
  {
    forall y | x <= y < d
      ensures (Scaled(from, to, d, y) >= level * d) == want <==> 0 <= dx <= y
    {
      SegmentTurnsAt(from, to, d, x, level, want, dx, y);
    }
    SegmentTurnsAt(from, to, d, x, level, want, dx, x);
  }

  lemma SegmentTurnsAt(from: int, to: int, d: int, x: int, level: int, want: bool, dx: int, y: int)
    requires 0 <= x <= y < d && (Scaled(from, to, d, x) >= level * d) != want
    requires want && to >= level ==> from < level && (dx - 1) * (to - from) < (level - from) * d <= dx * (to - from)
    requires !want && to < level ==> level <= from && dx == (from - level) * d / (from - to) + 1
    requires want != (to >= level) ==> dx == -1
    ensures (Scaled(from, to, d, y) >= level * d) == want <==> 0 <= dx <= y
    ensures dx < 0 || x < dx
  {
    if want != (to >= level) {
      NoCrossing(from, to, d, x, y, level);
    } else if want {
      RisingCrossing(from, to, d, dx, x, level);
      RisingCrossing(from, to, d, dx, y, level);
    } else {
      FallingCrossing(from, to, d, x, level);
      FallingCrossing(from, to, d, y, level);
    }
  }

  /** VU i is in the wanted state nowhere from t on within the first k stages. */
  ghost predicate Searched(e: RampingVUs, i: int, t: int, want: bool, k: nat)
    requires Valid(e)
  {
    forall s: int, j: nat :: t <= s && j < k && InForce(e, j, s) ==> !InState(e, i, s, want)
  }

  /** A turning point inside stage k is the answer; without one, stage k has been searched. */
  lemma StageSearched(e: RampingVUs, i: int, t: int, want: bool, k: nat, dx: int)
    requires Valid(e) && k < |e.stages| && t < Start(e.stages, k + 1) && Searched(e, i, t, want, k)
    requires e.stages[k].duration > 0
    requires var start := Start(e.stages, k);
             var lo := if t > start then t else start;
             TurnsAt(From(e, k), e.stages[k].target as int, e.stages[k].duration as int / 1000, (lo - start) / 1000, i + 1, want, dx)
    ensures 0 <= dx < e.stages[k].duration as int / 1000 ==> IsNext(e, i, t, want, Start(e.stages, k) + dx * 1000)
    ensures !(0 <= dx < e.stages[k].duration as int / 1000) ==> Searched(e, i, t, want, k + 1)
  {
    var start, d := Start(e.stages, k), e.stages[k].duration as int / 1000;
    assert ValidStage(e.stages[k]);
    forall s: int | t <= s && InForce(e, k, s)
      ensures InState(e, i, s, want) <==> 0 <= dx <= (s - start) / 1000
    {
      StateInForce(e, k, s, i, want);
    }
    if 0 <= dx < d {
      var at := start + dx * 1000;
      assert InForce(e, k, at);
      forall s: int {:trigger InState(e, i, s, want)} | t <= s < at
        ensures !InState(e, i, s, want)
      {
        if j: nat :| InForce(e, j, s) {
          if k < j { StartMonotone(e, k + 1, j); }
        }
      }
    }
  }

  /** The first offset from t on at which VU i is in the wanted state, or none. */
  method Crossing(e: RampingVUs, i: int64, t: int64, want: bool) returns (at: int64, ok: bool)
    requires Valid(e) && 0 <= i as int < MAX_RAMPING_VUS && 0 <= t
    ensures ok ==> IsNext(e, i as int, t as int, want, at as int)
    ensures !ok ==> NeverAgain(e, i as int, t as int, want)
  {
    var level := i + 1;
    var segStart, from := 0, e.startVUs;
    for k := 0 to |e.stages|
      invariant segStart as int == Start(e.stages, k) && from as int == From(e, k)
      invariant Searched(e, i as int, t as int, want, k)
    {
      var st := e.stages[k];
      assert ValidStage(st);
      StartMonotone(e, k, k + 1);
      FromInRange(e, k);
      var to := st.target;
      var segEnd := segStart + st.duration;
      // No offset is in a stage of no length; From takes its target over.
      if st.duration > 0 && segEnd > t {
        var lo := if t > segStart then t else segStart;
        var d := st.duration / 1000;
        var x := (lo - segStart) / 1000;
        CrossingFits(from as int, to as int, d as int, x as int, level as int);
        StateInForce(e, k, lo as int, i as int, want);
        if (from * d + (to - from) * x >= level * d) == want {
          forall s: int {:trigger InState(e, i as int, s, want)} | t as int <= s < lo as int
            ensures !InState(e, i as int, s, want)
          {
            BeforeStage(e, k, i as int, t as int, s, want);
          }
          return lo, true;
        }
        StartSide(from as int, to as int, d as int, x as int, level as int);
        // SegmentTurns covers the rest of the segment.
        var dx: int64 := -1;
        if want && to >= level {
          dx := CeilDiv((level - from) * d, to - from);
        } else if !want && to < level {
          dx := (from - level) * d / (from - to) + 1;
        }
        SegmentTurns(from as int, to as int, d as int, x as int, level as int, want, dx as int);
        StageSearched(e, i as int, t as int, want, k, dx as int);
        if dx >= 0 && dx < d {
          return segStart + dx * NS_PER_MICRO, true;
        }
      }
      segStart, from := segEnd, to;
    }
    return 0, false;
  }

  lemma BeforeStage(e: RampingVUs, k: nat, i: int, t: int, s: int, want: bool)
    requires Valid(e) && k < |e.stages| && Searched(e, i, t, want, k) && t <= s < Start(e.stages, k)
    ensures !InState(e, i, s, want)
  {
    if j: nat :| InForce(e, j, s) {
      if k <= j { StartMonotone(e, k, j); }
    }
  }

  method ComputeLength(e: RampingVUs) returns (d: int64)
    requires Valid(e)
    ensures d as int == Length(e)
  {
    d := 0;
    for k := 0 to |e.stages|
      invariant d as int == Start(e.stages, k)
    {
      StartMonotone(e, k, k + 1);
      d := d + e.stages[k].duration;
    }
  }

  /** Crossing, bounded by the end of the stages (which it never passes). */
  method Next(e: RampingVUs, i: int64, t: int64, want: bool) returns (at: int64, ok: bool)
    requires Valid(e) && 0 <= i as int < MAX_RAMPING_VUS && 0 <= t
    ensures ok ==> IsNext(e, i as int, t as int, want, at as int) && at as int < Length(e)
    ensures !ok ==> NeverAgain(e, i as int, t as int, want)
  {
    at, ok := Crossing(e, i, t, want);
    var length := ComputeLength(e);
    StatesPartitionTime(e, i as int, at as int);
    if !ok || at >= length {
      return 0, false;
    }
  }

  // ---------- How many VUs are active ----------

  /** The most the line ever reaches. */
  ghost function Peak(e: RampingVUs, k: nat): int
    requires k <= |e.stages|
  {
    if k == 0 then e.startVUs as int
    else if Peak(e, k - 1) < e.stages[k - 1].target as int then e.stages[k - 1].target as int
    else Peak(e, k - 1)
  }

  method MaxVUs(e: RampingVUs) returns (n: int64)
    ensures n as int == Peak(e, |e.stages|)
    ensures e.startVUs <= n && forall k :: 0 <= k < |e.stages| ==> e.stages[k].target <= n
    ensures n == e.startVUs || exists k :: 0 <= k < |e.stages| && e.stages[k].target == n
  {
    n := e.startVUs;
    for k := 0 to |e.stages|
      invariant n as int == Peak(e, k)
      invariant e.startVUs <= n && forall j :: 0 <= j < k ==> e.stages[j].target <= n
      invariant n == e.startVUs || exists j :: 0 <= j < k && e.stages[j].target == n
    {
      n := if n < e.stages[k].target then e.stages[k].target else n;
    }
  }

  lemma {:induction false} PeakBounds(e: RampingVUs, j: nat, k: nat)
    requires j <= k <= |e.stages|
    ensures From(e, j) <= Peak(e, k)
  {
    if j < k { PeakBounds(e, j, k - 1); } else if 0 < k { PeakBounds(e, k - 1, k - 1); }
  }

  ghost function ActiveVUs(e: RampingVUs, t: int): set<int>
    requires Valid(e)
  {
    set i | 0 <= i < Peak(e, |e.stages|) && InState(e, i, t, true)
  }

  ghost predicate CountsActive(e: RampingVUs, t: int, n: int)
    requires Valid(e)
  {
    && 0 <= n <= Peak(e, |e.stages|)
    && forall i :: 0 <= i ==> (InState(e, i, t, true) <==> i < n)
  }

  /** The active VUs are the first ones: the set's size is the threshold. */
  lemma CountIsSize(e: RampingVUs, t: int, n: int)
    requires Valid(e) && CountsActive(e, t, n)
    ensures |ActiveVUs(e, t)| == n
  {
    assert ActiveVUs(e, t) == Below(n);
  }

  ghost function Below(n: int): (s: set<int>)
    requires 0 <= n
    ensures |s| == n && forall i :: i in s <==> 0 <= i < n
  {
    if n == 0 then {} else Below(n - 1) + {n - 1}
  }

  /** The floor of the line's value counts the levels it has reached. */
  lemma FloorCounts(e: RampingVUs, k: nat, t: int, n: int)
    requires Valid(e) && InForce(e, k, t) && 0 < e.stages[k].duration as int / 1000
    requires var d := e.stages[k].duration as int / 1000;
             n == Scaled(From(e, k), e.stages[k].target as int, d, (t - Start(e.stages, k)) / 1000) / d
    ensures CountsActive(e, t, n)
  {
    var d, x := e.stages[k].duration as int / 1000, (t - Start(e.stages, k)) / 1000;
    assert ValidStage(e.stages[k]);
    FromInRange(e, k);
    PeakBounds(e, k, |e.stages|);
    PeakBounds(e, k + 1, |e.stages|);
    FloorInRange(From(e, k), e.stages[k].target as int, d, x, n, Peak(e, |e.stages|));
    forall i: int | 0 <= i ensures InState(e, i, t, true) <==> i < n {
      FloorCountsAt(e, k, t, n, i);
    }
  }

  lemma FloorCountsAt(e: RampingVUs, k: nat, t: int, n: int, i: int)
    requires Valid(e) && InForce(e, k, t) && 0 < e.stages[k].duration as int / 1000
    requires var d := e.stages[k].duration as int / 1000;
             n == Scaled(From(e, k), e.stages[k].target as int, d, (t - Start(e.stages, k)) / 1000) / d
    ensures InState(e, i, t, true) <==> i < n
  {
    var d, x := e.stages[k].duration as int / 1000, (t - Start(e.stages, k)) / 1000;
    StateInForce(e, k, t, i, true);
    FloorThreshold(Scaled(From(e, k), e.stages[k].target as int, d, x), d, n, i + 1);
  }

  lemma FloorInRange(from: int, to: int, d: int, x: int, n: int, peak: int)
    requires 0 <= from <= peak && 0 <= to <= peak && 0 <= x < d && n == Scaled(from, to, d, x) / d
    ensures 0 <= n <= peak
  {
    var v := Scaled(from, to, d, x);
    ScaledBetween(from, to, d, x, 0, peak);
    FloorThreshold(v, d, n, 0);
    FloorThreshold(v, d, n, peak + 1);
    assert (peak + 1) * d == peak * d + d;
  }

  lemma FloorThreshold(v: int, d: int, n: int, m: int)
    requires 0 < d && n == v / d
    ensures v >= m * d <==> m <= n
  {
    assert d * n <= v < d * n + d;
    if m <= n {
      MulNonneg(n - m, d);
      assert (n - m) * d == n * d - m * d;
    } else {
      MulNonneg(m - n - 1, d);
      assert (m - n - 1) * d == m * d - n * d - d;
    }
  }

  /** VU i is active at t exactly if i is below the result, which is therefore
      how many are: VUs join in order and the last to join leaves first. */
  method ActiveAt(e: RampingVUs, t: int64) returns (n: int64)
    requires Valid(e) && 0 <= t
    ensures CountsActive(e, t as int, n as int)
    ensures n as int == |ActiveVUs(e, t as int)|
    ensures t as int >= Length(e) ==> n == 0
  {
    var segStart, from := 0, e.startVUs;
    for k := 0 to |e.stages|
      invariant segStart as int == Start(e.stages, k) && from as int == From(e, k)
      invariant segStart <= t
    {
      var st := e.stages[k];
      assert ValidStage(st);
      StartMonotone(e, k, k + 1);
      FromInRange(e, k);
      var to := st.target;
      if st.duration > 0 && t < segStart + st.duration {
        var d := st.duration / 1000;
        var x := (t - segStart) / 1000;
        CrossingFits(from as int, to as int, d as int, x as int, 1);
        var v := from * d + (to - from) * x;
        QuotientFits(v as int, d as int, v as int / d as int);
        FloorCounts(e, k, t as int, v as int / d as int);
        n := v / d;
        CountIsSize(e, t as int, n as int);
        return;
      }
      segStart, from := segStart + st.duration, to;
    }
    n := 0;
    PeakBounds(e, 0, |e.stages|);
    NoneAfterEnd(e, t as int);
    CountIsSize(e, t as int, 0);
  }

  lemma NoneAfterEnd(e: RampingVUs, t: int)
    requires Valid(e) && Length(e) <= t
    ensures forall i :: !InState(e, i, t, true)
  {
    forall i: int {:trigger InState(e, i, t, true)}
      ensures !InState(e, i, t, true)
    {
      StatesPartitionTime(e, i, t);
    }
  }

  // ---------- One VU's loop ----------

  /** What one pass of the loop finds: the time since the scenario's start,
      whether the context is live, and what waitUntil answers if it is called. */
  datatype Pass = Pass(now: int64, live: bool, reached: bool)

  /** What one pass does: sleep until an offset, or run one iteration with a deadline. */
  datatype Action = Sleep(now: int64, until: int64) | Iterate(now: int64, deadline: int)

  function NonNegative(t: int64): (r: int64)
    ensures 0 <= r && t <= r && (r == t || r == 0)
  {
    if t > 0 then t else 0
  }

  /** If waitUntil returned true in pass p, its time had come by the next pass. */
  ghost predicate Waited(e: RampingVUs, i: int, p: Pass, next: Pass)
    requires Valid(e)
  {
    p.reached ==> TimeHasCome(e, i, NonNegative(p.now) as int, next.now as int)
  }

  ghost predicate TimeHasCome(e: RampingVUs, i: int, t: int, now: int)
    requires Valid(e)
  {
    forall on :: IsNext(e, i, t, true, on) ==> on <= now
  }

  /** The clock never goes back, and waitUntil does not return true early. */
  ghost predicate Clock(e: RampingVUs, i: int, passes: seq<Pass>)
    requires Valid(e)
  {
    forall a, b :: 0 <= a < b < |passes| && b == a + 1 ==> passes[a].now <= passes[b].now && Waited(e, i, passes[a], passes[b])
  }

  /** The moment an iteration started at now is cancelled: GracefulRampDown after
      the VU is next inactive, if it ever is again, and at the hard stop at the latest. */
  ghost predicate IsDeadline(e: RampingVUs, i: int, now: int, hardStop: int, deadline: int)
    requires Valid(e)
  {
    || (NeverAgain(e, i, now, false) && deadline == hardStop)
    || exists off: int :: IsNext(e, i, now, false, off)
                       && deadline == if off + e.gracefulRampDown as int < hardStop then off + e.gracefulRampDown as int else hardStop
  }

  ghost predicate GoodAction(e: RampingVUs, i: int, hardStop: int, a: Action)
    requires Valid(e)
  {
    match a
    case Sleep(now, until) =>
      // Asleep only through offsets at which it is inactive, and time advances.
      now < until && IsNext(e, i, NonNegative(now) as int, true, until as int)
    case Iterate(now, deadline) =>
      0 <= now as int < Length(e) && InState(e, i, now as int, true) && IsDeadline(e, i, now as int, hardStop, deadline)
  }

  /** Why the loop stops at a pass. */
  ghost predicate Stops(e: RampingVUs, i: int, p: Pass)
    requires Valid(e)
  {
    !p.live || p.now as int >= Length(e) || NeverAgain(e, i, NonNegative(p.now) as int, true)
  }

  method IterationDeadline(e: RampingVUs, i: int64, now: int64, length: int64, hardStop: int) returns (deadline: int)
    requires Valid(e) && 0 <= i as int < MAX_RAMPING_VUS && 0 <= now && length as int == Length(e)
    ensures IsDeadline(e, i as int, now as int, hardStop, deadline)
  {
    deadline := hardStop;
    var off, ok := Next(e, i, now, false);
    if ok && off < length {
      var d := off as int + e.gracefulRampDown as int;
      if d < hardStop {
        deadline := d;
      }
    }
  }

  /** Every action taken is good for its pass, and a sleep has ended by the next pass. */
  ghost predicate GoodTrace(e: RampingVUs, i: int, hardStop: int, passes: seq<Pass>, trace: seq<Action>)
    requires Valid(e)
  {
    && |trace| <= |passes|
    && (forall k :: 0 <= k < |trace| ==> trace[k].now == passes[k].now && GoodAction(e, i, hardStop, trace[k]))
    && forall k, m :: 0 <= k < m < |trace| && m == k + 1 && trace[k].Sleep? ==> trace[k].until <= passes[m].now
  }

  lemma ExtendTrace(e: RampingVUs, i: int, hardStop: int, passes: seq<Pass>, trace: seq<Action>, a: Action)
    requires Valid(e) && Clock(e, i, passes) && GoodTrace(e, i, hardStop, passes, trace)
    requires |trace| < |passes| && a.now == passes[|trace|].now && GoodAction(e, i, hardStop, a)
    requires 0 < |trace| && trace[|trace| - 1].Sleep? ==> trace[|trace| - 1].until <= a.now
    ensures GoodTrace(e, i, hardStop, passes, trace + [a])
    ensures a.Sleep? && passes[|trace|].reached && |trace| + 1 < |passes| ==> a.until <= passes[|trace| + 1].now
  {
    if a.Sleep? && passes[|trace|].reached && |trace| + 1 < |passes| {
      assert Waited(e, i, passes[|trace|], passes[|trace| + 1]);
    }
  }

  /** One pass of the loop with a live context: stop, or take one action. */
  method DriveOnce(e: RampingVUs, i: int64, length: int64, hardStop: int, p: Pass) returns (stop: bool, a: Action)
    requires Valid(e) && 0 <= i as int < MAX_RAMPING_VUS && length as int == Length(e)
    ensures stop ==> Stops(e, i as int, p)
    ensures !stop ==> a.now == p.now && GoodAction(e, i as int, hardStop, a)
  {
    a := Sleep(p.now, p.now);
    if p.now >= length {
      return true, a;
    }
    var on, ok := Next(e, i, NonNegative(p.now), true);
    if !ok || on >= length {
      return true, a;
    }
    if on > p.now {
      return false, Sleep(p.now, on);
    }
    var deadline := IterationDeadline(e, i, p.now, length, hardStop);
    return false, Iterate(p.now, deadline);
  }

  /** The loop of VU i over the passes the clock and the context allow it. Every
      pass is one good action, and it stops only when it should. */
  method DriveVU(e: RampingVUs, i: int64, hardStop: int, passes: seq<Pass>) returns (trace: seq<Action>)
    requires Valid(e) && 0 <= i as int < MAX_RAMPING_VUS && Clock(e, i as int, passes)
    ensures GoodTrace(e, i as int, hardStop, passes, trace)
    ensures |trace| < |passes| ==>
              || Stops(e, i as int, passes[|trace|])
              || (0 < |trace| && trace[|trace| - 1].Sleep? && !passes[|trace| - 1].reached)
  {
    var length := ComputeLength(e);
    trace := [];
    while |trace| < |passes| && passes[|trace|].live
      invariant GoodTrace(e, i as int, hardStop, passes, trace)
      invariant 0 < |trace| < |passes| && trace[|trace| - 1].Sleep? ==> trace[|trace| - 1].until <= passes[|trace|].now
      decreases |passes| - |trace|
    {
      var p := passes[|trace|];
      var stop, a := DriveOnce(e, i, length, hardStop, p);
      if stop {
        break;
      }
      ExtendTrace(e, i as int, hardStop, passes, trace, a);
      trace := trace + [a];
      if a.Sleep? && !p.reached {
        break;
      }
    }
  }
}
