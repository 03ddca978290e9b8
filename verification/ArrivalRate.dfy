// The constant-arrival-rate executor: one scheduler hands starts to VUs over an
// unbuffered channel, and idle VUs are counted by tokens in a buffered one.
module ArrivalRate {
  import opened Arithmetic
  import opened GoInts

  datatype ConstantArrivalRate = ConstantArrivalRate(rate: int64, timeUnit: int64, duration: int64, preAllocatedVUs: int64)

  ghost predicate Valid(e: ConstantArrivalRate) {
    1 <= e.rate && 0 < e.timeUnit && 0 < e.duration && 1 <= e.preAllocatedVUs
  }

  // ---------- When starts are due ----------

  /** Go's int64 product: wraps around. */
  function Wrap(x: int): (r: int)
    ensures -MAX_INT64 - 1 <= r <= MAX_INT64 && (x - r) % TWO_TO_THE_64 == 0
    ensures -MAX_INT64 - 1 <= x <= MAX_INT64 ==> r == x
  {
    (x + MAX_INT64 + 1) % TWO_TO_THE_64 - MAX_INT64 - 1
  }

  /** Go's division by a positive number: truncates toward zero. */
  function TruncDiv(a: int, b: int): int
    requires 0 < b
  {
    if 0 <= a then a / b else -(-a / b)
  }

  /** When start k is due, as the code computes it. */
  function Offset(e: ConstantArrivalRate, k: nat): int
    requires Valid(e)
  {
    TruncDiv(Wrap(k * e.timeUnit as int), e.rate as int)
  }

  /** The starts due before the end: Duration * Rate / TimeUnit, rounded up. */
  function Starts(e: ConstantArrivalRate): int
    requires Valid(e)
  {
    (e.duration as int * e.rate as int + e.timeUnit as int - 1) / e.timeUnit as int
  }

  /** The condition under which no product the loop computes wraps around. */
  predicate Fits(e: ConstantArrivalRate)
    requires Valid(e)
  {
    Starts(e) * e.timeUnit as int <= MAX_INT64
  }

  lemma DivBounds(a: int, b: int, q: int)
    requires 0 < b
    ensures q <= a / b <==> b * q <= a
  {
    var r := a / b;
    assert b * r <= a < b * r + b;
    if q <= r { assert b * (r - q) >= 0; } else { assert b * (q - r - 1) >= 0; }
  }

  lemma ProductGrows(a: nat, b: nat, u: int)
    requires a <= b && 0 < u
    ensures 0 <= a * u <= b * u && (a < b ==> a * u + u <= b * u)
  {
    MulNonneg(a, u);
    MulNonneg(b - a, u);
    assert (b - a) * u == b * u - a * u;
    if a < b {
      MulNonneg(b - a - 1, u);
      assert (b - a - 1) * u == b * u - a * u - u;
    }
  }

  /** k is below Starts exactly when start k's exact due time is before the end. */
  lemma StartsCounts(e: ConstantArrivalRate, k: nat)
    requires Valid(e)
    ensures k < Starts(e) <==> k * e.timeUnit as int < e.duration as int * e.rate as int
    ensures 0 < Starts(e)
  {
    SignOfProduct(e.duration as int, e.rate as int);
    RoundedUp(e.duration as int * e.rate as int, e.timeUnit as int, k);
  }

  lemma RoundedUp(n: int, u: int, k: nat)
    requires 0 < n && 0 < u
    ensures k < (n + u - 1) / u <==> k * u < n
    ensures 0 < (n + u - 1) / u
  {
    DivBounds(n + u - 1, u, k + 1);
    DivBounds(n + u - 1, u, 1);
    assert u * (k + 1) == k * u + u;
  }

  /** Without wrap-around, start k is due before the end exactly when k < Starts. */
  lemma DueBeforeEnd(e: ConstantArrivalRate, k: nat)
    requires Valid(e) && k * e.timeUnit as int <= MAX_INT64
    ensures Offset(e, k) == k * e.timeUnit as int / e.rate as int
    ensures Offset(e, k) < e.duration as int <==> k < Starts(e)
  {
    StartsCounts(e, k);
    ProductGrows(0, k, e.timeUnit as int);
    DivBounds(k * e.timeUnit as int, e.rate as int, e.duration as int);
  }

  /** The schedule does not drift: Rate starts later is exactly TimeUnit later. */
  lemma NoDrift(e: ConstantArrivalRate, k: nat)
    requires Valid(e) && (k + e.rate as int) * e.timeUnit as int <= MAX_INT64
    ensures Offset(e, k + e.rate as int) == Offset(e, k) + e.timeUnit as int
  {
    var u, r := e.timeUnit as int, e.rate as int;
    ProductGrows(k, k + r, u);
    assert (k + r) * u == k * u + r * u;
    QuotientShift(k * u, r, u);
  }

  /** Due times never go back while the products fit. */
  lemma DueTimesGrow(e: ConstantArrivalRate, k: nat)
    requires Valid(e) && (k + 1) * e.timeUnit as int <= MAX_INT64
    ensures Offset(e, k) <= Offset(e, k + 1)
  {
    var u, r := e.timeUnit as int, e.rate as int;
    ProductGrows(k, k + 1, u);
    DivBounds((k + 1) * u, r, k * u / r);
    DivBounds(k * u, r, k * u / r);
  }

  lemma QuotientShift(a: int, r: int, u: int)
    requires 0 < r
    ensures (a + r * u) / r == a / r + u
  {
    var q := a / r;
    DivBounds(a, r, q);
    DivBounds(a, r, q + 1);
    DivBounds(a + r * u, r, q + u);
    DivBounds(a + r * u, r, q + u + 1);
    assert r * (q + u) == r * q + r * u;
    assert r * (q + u + 1) == r * (q + 1) + r * u;
  }

  /** Start k is not due before the end, so the scheduler stops there. */
  ghost predicate Ended(e: ConstantArrivalRate, k: nat)
    requires Valid(e)
  {
    Offset(e, k) >= e.duration as int
  }

  /** The loop would stop after exactly n starts. */
  ghost predicate StopsAfter(e: ConstantArrivalRate, n: nat)
    requires Valid(e)
  {
    Ended(e, n) && forall j: nat :: j < n ==> !Ended(e, j)
  }

  /** The schedule has the length it should exactly when its last product fits in int64. */
  lemma StopsWhenDone(e: ConstantArrivalRate)
    requires Valid(e)
    ensures 0 < Starts(e)
    ensures StopsAfter(e, Starts(e)) <==> Fits(e)
  {
    StartsCounts(e, 0);
    var n, u := Starts(e), e.timeUnit as int;
    if Fits(e) {
      forall j: nat | j <= n ensures Offset(e, j) < e.duration as int <==> j < n {
        ProductGrows(j, n, u);
        DueBeforeEnd(e, j);
      }
    } else {
      // The product has wrapped below the end, so the loop does not stop there.
      StartsCounts(e, n - 1);
      assert (n - 1) * u == n * u - u;
      WrapFalls(n * u, u);
      if 0 <= Wrap(n * u) {
        DivBounds(Wrap(n * u), e.rate as int, e.duration as int);
      } else {
        DivBounds(-Wrap(n * u), e.rate as int, 0);
      }
    }
  }

  lemma WrapFalls(x: int, u: int)
    requires MAX_INT64 < x && u <= MAX_INT64
    ensures Wrap(x) < x - u
  {
  }

  lemma SmallScheduleFits(e: ConstantArrivalRate)
    requires Valid(e) && e.duration as int * e.rate as int + e.timeUnit as int <= MAX_INT64
    ensures Fits(e)
  {
    StartsCounts(e, 0);
    StartsCounts(e, Starts(e) - 1);
    assert (Starts(e) - 1) * e.timeUnit as int == Starts(e) * e.timeUnit as int - e.timeUnit as int;
  }

  /** Ten million starts a second for an hour: start 9,223,372,037 is due before
      the scenario began, and the loop does not stop when it should. */
  lemma LongFastScheduleOverruns()
    ensures var e := ConstantArrivalRate(10_000_000, 1_000_000_000, 3_600_000_000_000, 1);
            Valid(e) && !Fits(e) && !StopsAfter(e, Starts(e)) && Offset(e, 9_223_372_037) < 0
  {
    var e := ConstantArrivalRate(10_000_000, 1_000_000_000, 3_600_000_000_000, 1);
    StopsWhenDone(e);
    assert Wrap(9_223_372_037 * 1_000_000_000) == 9_223_372_037 * 1_000_000_000 - TWO_TO_THE_64;
  }

  // ---------- The protocol ----------

  datatype Scheduler = Waiting | Deciding | Sleeping | Taking | Handing | Stopped
  datatype Vu = OnItsWay | Receiving | Iterating | Returning | Gone
  datatype Outcome = HandedTo(vu: nat) | Dropped

  /** All shared and local state. idle is the number of tokens in the buffered
      channel (capacity: one per VU); the starts channel is closed once the
      scheduler has Stopped; log is what became of start 0, 1, ... so far, and at
      when. The clock counts from the scenario's start, and may begin before it. */
  datatype State = State(
    sched: Scheduler, k: nat, dropped: nat, idle: nat, vus: seq<Vu>, cancelled: bool, log: seq<Outcome>,
    now: int, at: seq<int>)

  ghost predicate Init(e: ConstantArrivalRate, s: State)
    requires Valid(e)
  {
    s == State(Waiting, 0, 0, e.preAllocatedVUs as int, seq(e.preAllocatedVUs as int, _ => OnItsWay), false, [], s.now, [])
  }

  /** One step of the scheduler. */
  ghost predicate SchedulerStep(e: ConstantArrivalRate, s: State, s': State)
    requires Valid(e)
  {
    match s.sched
    case Waiting => (s.cancelled && s' == s.(sched := Stopped)) || (!s.cancelled && 0 <= s.now && s' == s.(sched := Deciding))
    case Deciding =>
      if Ended(e, s.k) then s' == s.(sched := Stopped)
      else s' == s.(sched := if s.now < Offset(e, s.k) then Sleeping else Taking)
    case Sleeping => (Offset(e, s.k) <= s.now && s' == s.(sched := Taking)) || (s.cancelled && s' == s.(sched := Stopped))
    case Taking =>
      if 0 < s.idle then s' == s.(idle := s.idle - 1, sched := Handing)
      else
        s' == s.(dropped := s.dropped + 1, k := s.k + 1, sched := Deciding, log := s.log + [Dropped], at := s.at + [s.now])
    case Handing => s.cancelled && s' == s.(sched := Stopped)
    case Stopped => false
  }

  /** The scheduler's send meets VU v's receive. */
  ghost predicate HandOver(s: State, s': State, v: nat) {
    && s.sched == Handing && v < |s.vus| && s.vus[v] == Receiving
    && s' == s.(k := s.k + 1, sched := Deciding, vus := s.vus[v := Iterating], log := s.log + [HandedTo(v)], at := s.at + [s.now])
  }

  /** One step of VU v on its own. */
  ghost predicate VuStep(s: State, s': State, v: nat) {
    && v < |s.vus|
    && match s.vus[v]
       case OnItsWay => s' == s.(vus := s.vus[v := Receiving])
       case Receiving => (s.cancelled || s.sched == Stopped) && s' == s.(vus := s.vus[v := Gone])
       case Iterating => s' == s.(vus := s.vus[v := Returning])
       case Returning => s.idle < |s.vus| && s' == s.(idle := s.idle + 1, vus := s.vus[v := OnItsWay])
       case Gone => false
  }

  ghost predicate ProgramStep(e: ConstantArrivalRate, s: State, s': State)
    requires Valid(e)
  {
    || SchedulerStep(e, s, s')
    || (exists v: nat :: HandOver(s, s', v))
    || (exists v: nat :: VuStep(s, s', v))
  }

  ghost predicate Next(e: ConstantArrivalRate, s: State, s': State)
    requires Valid(e)
  {
    ProgramStep(e, s, s') || s' == s.(cancelled := true) || Ticks(s, s')
  }

  /** Time passes. */
  ghost predicate Ticks(s: State, s': State) {
    s.now < s'.now && s' == s.(now := s'.now)
  }

  /** Any interleaving of the scheduler, the VUs, a cancellation and the clock. */
  ghost predicate Run(e: ConstantArrivalRate, run: seq<State>)
    requires Valid(e)
  {
    && 0 < |run| && Init(e, run[0])
    && forall i, j :: 0 <= i < j < |run| && j == i + 1 ==> Next(e, run[i], run[j])
  }

  // ---------- Tokens ----------

  /** A VU owes its token from receiving a start until it has returned it. */
  predicate Owes(vu: Vu) {
    vu == Iterating || vu == Returning
  }

  function Owing(vus: seq<Vu>): nat {
    if vus == [] then 0 else (if Owes(vus[0]) then 1 else 0) + Owing(vus[1..])
  }

  function Held(s: State): nat {
    if s.sched == Handing then 1 else 0
  }

  function Drops(log: seq<Outcome>): nat {
    if log == [] then 0 else Drops(log[..|log| - 1]) + if log[|log| - 1].Dropped? then 1 else 0
  }

  lemma {:induction false} OwingAfter(vus: seq<Vu>, v: nat, vu: Vu)
    requires v < |vus|
    ensures Owing(vus[v := vu]) - (if Owes(vu) then 1 else 0) == Owing(vus) - (if Owes(vus[v]) then 1 else 0)
  {
    if v == 0 {
      assert vus[v := vu][1..] == vus[1..];
    } else {
      OwingAfter(vus[1..], v - 1, vu);
      assert vus[v := vu][1..] == vus[1..][v - 1 := vu];
    }
  }

  lemma {:induction false} OwingBounds(vus: seq<Vu>)
    ensures Owing(vus) <= |vus|
    ensures Owing(vus) == |vus| <==> forall v :: 0 <= v < |vus| ==> Owes(vus[v])
    ensures 0 < Owing(vus) <==> exists v :: 0 <= v < |vus| && Owes(vus[v])
  {
    if vus == [] {
    } else {
      OwingBounds(vus[1..]);
      forall v | 0 < v < |vus| ensures vus[v] == vus[1..][v - 1] {}
      forall v | 0 <= v < |vus| - 1 ensures vus[1..][v] == vus[v + 1] {}
    }
  }

  ghost predicate TokenInv(s: State) {
    && (s.sched != Stopped ==> s.idle + Owing(s.vus) + Held(s) == |s.vus|)
    && (s.sched == Stopped ==> |s.vus| - 1 <= s.idle + Owing(s.vus) <= |s.vus|)
    && ((exists v :: 0 <= v < |s.vus| && s.vus[v] == Gone) ==> s.cancelled || s.sched == Stopped)
  }

  ghost predicate LogInv(s: State) {
    && s.k == |s.log| && s.dropped == Drops(s.log)
    && forall m :: 0 <= m < |s.log| ==> s.log[m].Dropped? || s.log[m].vu < |s.vus|
  }

  ghost predicate DueInv(e: ConstantArrivalRate, s: State)
    requires Valid(e)
  {
    && (forall j: nat :: j < s.k ==> !Ended(e, j))
    && (s.sched in {Sleeping, Taking, Handing} ==> !Ended(e, s.k))
    && (s.sched == Stopped && !s.cancelled ==> Ended(e, s.k))
  }

  /** No start was processed before it was due, nor is the one in hand, and they were
      processed in order. */
  ghost predicate TimeInv(e: ConstantArrivalRate, s: State)
    requires Valid(e)
  {
    && |s.at| == s.k
    && (forall m :: 0 <= m < s.k ==> Offset(e, m) <= s.at[m] <= s.now)
    && (forall m, n :: 0 <= m < n < s.k ==> s.at[m] <= s.at[n])
    && (s.sched in {Taking, Handing} ==> Offset(e, s.k) <= s.now)
  }

  ghost predicate Inv(e: ConstantArrivalRate, s: State)
    requires Valid(e)
  {
    |s.vus| == e.preAllocatedVUs as int && TokenInv(s) && LogInv(s) && DueInv(e, s) && TimeInv(e, s)
  }

  lemma {:induction false} NoneOwe(n: nat)
    ensures Owing(seq(n, _ => OnItsWay)) == 0
  {
    if n == 0 {
    } else {
      NoneOwe(n - 1);
      assert seq(n, _ => OnItsWay)[1..] == seq(n - 1, _ => OnItsWay);
    }
  }

  lemma SchedulerKeepsInv(e: ConstantArrivalRate, s: State, s': State)
    requires Valid(e) && Inv(e, s) && SchedulerStep(e, s, s')
    ensures Inv(e, s')
  {
  }

  lemma HandOverKeepsInv(e: ConstantArrivalRate, s: State, s': State, v: nat)
    requires Valid(e) && Inv(e, s) && HandOver(s, s', v)
    ensures Inv(e, s')
  {
    OwingAfter(s.vus, v, Iterating);
  }

  lemma VuKeepsInv(e: ConstantArrivalRate, s: State, s': State, v: nat)
    requires Valid(e) && Inv(e, s) && VuStep(s, s', v)
    ensures Inv(e, s')
  {
    OwingAfter(s.vus, v, s'.vus[v]);
  }

  lemma StepKeepsInv(e: ConstantArrivalRate, s: State, s': State)
    requires Valid(e) && Inv(e, s) && Next(e, s, s')
    ensures Inv(e, s')
  {
    if SchedulerStep(e, s, s') {
      SchedulerKeepsInv(e, s, s');
    } else if v: nat :| HandOver(s, s', v) {
      HandOverKeepsInv(e, s, s', v);
    } else if v: nat :| VuStep(s, s', v) {
      VuKeepsInv(e, s, s', v);
    }
  }

  lemma {:induction false} RunKeepsInv(e: ConstantArrivalRate, run: seq<State>, i: nat)
    requires Valid(e) && Run(e, run) && i < |run|
    ensures Inv(e, run[i])
  {
    if i == 0 {
      NoneOwe(e.preAllocatedVUs as int);
    } else {
      RunKeepsInv(e, run, i - 1);
      assert Next(e, run[i - 1], run[i]);
      StepKeepsInv(e, run[i - 1], run[i]);
    }
  }

  /** Tokens are conserved: in the channel, owed by a VU or held by the scheduler,
      there is one per VU until the scheduler returns, and never more. */
  lemma TokensConserved(e: ConstantArrivalRate, run: seq<State>, i: nat)
    requires Valid(e) && Run(e, run) && i < |run|
    ensures run[i].idle + Owing(run[i].vus) + Held(run[i]) <= e.preAllocatedVUs as int
    ensures run[i].sched != Stopped ==> run[i].idle + Owing(run[i].vus) + Held(run[i]) == e.preAllocatedVUs as int
  {
    RunKeepsInv(e, run, i);
  }

  /** Returning a token never blocks. */
  lemma ReturnNeverBlocks(e: ConstantArrivalRate, run: seq<State>, i: nat, v: nat)
    requires Valid(e) && Run(e, run) && i < |run| && v < |run[i].vus| && run[i].vus[v] == Returning
    ensures run[i].idle < |run[i].vus|
  {
    RunKeepsInv(e, run, i);
    OwingBounds(run[i].vus);
    assert Owes(run[i].vus[v]);
  }

  /** A start is dropped only when every VU still owes its token. */
  lemma DropsOnlyWhenAllBusy(e: ConstantArrivalRate, run: seq<State>, i: nat)
    requires Valid(e) && Run(e, run) && i + 1 < |run| && run[i + 1].dropped != run[i].dropped
    ensures forall v :: 0 <= v < |run[i].vus| ==> Owes(run[i].vus[v])
  {
    RunKeepsInv(e, run, i);
    assert Next(e, run[i], run[i + 1]);
    OwingBounds(run[i].vus);
  }

  /** While the context is live, a start in hand has a VU at the receive or on its way to it. */
  lemma HeldStartFindsVu(e: ConstantArrivalRate, run: seq<State>, i: nat)
    requires Valid(e) && Run(e, run) && i < |run| && run[i].sched == Handing && !run[i].cancelled
    ensures exists v :: 0 <= v < |run[i].vus| && run[i].vus[v] in {OnItsWay, Receiving}
  {
    RunKeepsInv(e, run, i);
    OwingBounds(run[i].vus);
    var v :| 0 <= v < |run[i].vus| && !Owes(run[i].vus[v]);
  }

  /** Every start processed is exactly one of dropped and handed to a VU, the
      counts add up, and what became of a start is never rewritten. */
  lemma {:induction false} StartsAccounted(e: ConstantArrivalRate, run: seq<State>, i: nat, j: nat)
    requires Valid(e) && Run(e, run) && i <= j < |run|
    ensures run[i].log <= run[j].log && LogInv(run[j])
  {
    RunKeepsInv(e, run, j);
    if i == j {
    } else {
      StartsAccounted(e, run, i, j - 1);
      LogGrows(e, run[j - 1], run[j]);
    }
  }

  lemma LogGrows(e: ConstantArrivalRate, s: State, s': State)
    requires Valid(e) && Next(e, s, s')
    ensures s.log <= s'.log
  {
  }

  /** A schedule that was not cut short has processed exactly the starts it
      should, provided its last product fits in int64. */
  lemma CompleteSchedule(e: ConstantArrivalRate, run: seq<State>, i: nat)
    requires Valid(e) && Run(e, run) && i < |run| && run[i].sched == Stopped && !run[i].cancelled && Fits(e)
    ensures run[i].k == Starts(e) && |run[i].log| == Starts(e) && run[i].dropped == Drops(run[i].log)
  {
    RunKeepsInv(e, run, i);
    StopsWhenDone(e);
    EndIsUnique(e, run[i].k, Starts(e));
  }

  lemma EndIsUnique(e: ConstantArrivalRate, m: nat, n: nat)
    requires Valid(e) && StopsAfter(e, m) && StopsAfter(e, n)
    ensures m == n
  {
  }

  /** A start is never processed before it is due, and one that is due is not slept on. */
  lemma NeverEarly(e: ConstantArrivalRate, run: seq<State>, i: nat)
    requires Valid(e) && Run(e, run) && i < |run|
    ensures |run[i].at| == |run[i].log| && forall m :: 0 <= m < |run[i].log| ==> Offset(e, m) <= run[i].at[m] <= run[i].now
    ensures forall m, n :: 0 <= m < n < |run[i].log| ==> run[i].at[m] <= run[i].at[n]
    ensures i + 1 < |run| && run[i].sched == Deciding && run[i + 1].sched == Sleeping ==> run[i].now < Offset(e, run[i].k)
  {
    RunKeepsInv(e, run, i);
    if i + 1 < |run| {
      assert Next(e, run[i], run[i + 1]);
    }
  }

  /** Once the context is done, a scheduler that waits for the scenario's start, for a due
      time or for a VU can stop by itself, and so can a VU that waits for a start. */
  lemma CancelStops(e: ConstantArrivalRate, s: State)
    requires Valid(e) && s.cancelled
    ensures s.sched in {Waiting, Sleeping, Handing} ==> SchedulerStep(e, s, s.(sched := Stopped))
    ensures forall v: nat :: v < |s.vus| && s.vus[v] == Receiving ==> VuStep(s, s.(vus := s.vus[v := Gone]), v)
  {
  }

  /** The scheduler waits for nothing but the clock. */
  predicate AwaitsClock(e: ConstantArrivalRate, s: State)
    requires Valid(e)
  {
    !s.cancelled && ((s.sched == Waiting && s.now < 0) || (s.sched == Sleeping && s.now < Offset(e, s.k)))
  }

  /** No interleaving gets stuck: until every goroutine has returned, one can move, or
      the scheduler waits for a time, and can move from then on. */
  lemma NeverStuck(e: ConstantArrivalRate, run: seq<State>, i: nat)
    requires Valid(e) && Run(e, run) && i < |run|
    requires run[i].sched != Stopped || exists v :: 0 <= v < |run[i].vus| && run[i].vus[v] != Gone
    ensures !AwaitsClock(e, run[i]) ==> exists s' :: ProgramStep(e, run[i], s')
    ensures AwaitsClock(e, run[i]) ==> exists t, s' :: Ticks(run[i], t) && ProgramStep(e, t, s')
  {
    var s := run[i];
    if AwaitsClock(e, s) {
      var t := s.(now := if s.sched == Waiting then 0 else Offset(e, s.k));
      assert Ticks(s, t);
      SchedulerCanMove(e, t);
    } else if s.sched == Stopped {
      var v :| 0 <= v < |s.vus| && s.vus[v] != Gone;
      if s.vus[v] == Returning { ReturnNeverBlocks(e, run, i, v); }
      VuCanMove(e, s, v);
    } else if s.sched == Handing && !s.cancelled {
      HeldStartFindsVu(e, run, i);
      var v :| 0 <= v < |s.vus| && s.vus[v] in {OnItsWay, Receiving};
      if s.vus[v] == Receiving {
        var s' := s.(k := s.k + 1, sched := Deciding, vus := s.vus[v := Iterating], log := s.log + [HandedTo(v)], at := s.at + [s.now]);
        assert HandOver(s, s', v);
        assert ProgramStep(e, s, s');
      } else {
        VuCanMove(e, s, v);
      }
    } else {
      SchedulerCanMove(e, s);
    }
  }

  lemma VuCanMove(e: ConstantArrivalRate, s: State, v: nat)
    requires Valid(e) && v < |s.vus| && s.vus[v] != Gone
    requires s.vus[v] == Returning ==> s.idle < |s.vus|
    requires s.vus[v] == Receiving ==> s.cancelled || s.sched == Stopped
    ensures exists s' :: ProgramStep(e, s, s')
  {
    var s' := match s.vus[v]
      case OnItsWay => s.(vus := s.vus[v := Receiving])
      case Receiving => s.(vus := s.vus[v := Gone])
      case Iterating => s.(vus := s.vus[v := Returning])
      case Returning => s.(idle := s.idle + 1, vus := s.vus[v := OnItsWay])
      case Gone => s;
    assert VuStep(s, s', v);
    assert ProgramStep(e, s, s');
  }

  lemma SchedulerCanMove(e: ConstantArrivalRate, s: State)
    requires Valid(e) && s.sched != Stopped && (s.sched == Handing ==> s.cancelled) && !AwaitsClock(e, s)
    ensures exists s' :: ProgramStep(e, s, s')
  {
    var s' := match s.sched
      case Waiting => s.(sched := if s.cancelled then Stopped else Deciding)
      case Deciding => s.(sched := if Ended(e, s.k) then Stopped else if s.now < Offset(e, s.k) then Sleeping else Taking)
      case Sleeping => s.(sched := if s.cancelled then Stopped else Taking)
      case Taking =>
        if 0 < s.idle then s.(idle := s.idle - 1, sched := Handing)
        else s.(dropped := s.dropped + 1, k := s.k + 1, sched := Deciding, log := s.log + [Dropped], at := s.at + [s.now])
      case _ => s.(sched := Stopped);
    assert SchedulerStep(e, s, s');
    assert ProgramStep(e, s, s');
  }
}
