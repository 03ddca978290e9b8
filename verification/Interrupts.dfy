// Interrupting a runtime's JavaScript when a context ends: the hand-off between
// the context's callback goroutine and the goroutine that runs the script.
module Interrupts {

  /** The callback context.AfterFunc registers for one call: not started yet,
      stopped before it could start, started, past rt.Interrupt, past close(fired). */
  datatype Callback = Registered | Prevented | Started | Raised | Fired

  /** The script's goroutine: between calls, in JavaScript, or in release
      (before stop(), waiting for fired, before ClearInterrupt). */
  datatype Pc = Idle | Running | Stopping | Waiting | Clearing

  /** flag is the runtime's interrupt flag; callbacks has one entry per call so
      far, the current or latest call's last. */
  datatype State = State(flag: bool, callbacks: seq<Callback>, pc: Pc)

  ghost predicate Init(s: State) {
    s == State(false, [], Idle)
  }

  /** One step of the i-th call's context or callback goroutine. */
  ghost predicate CallbackStep(s: State, s': State, i: nat) {
    && i < |s.callbacks|
    && match s.callbacks[i]
       case Registered => s' == s.(callbacks := s.callbacks[i := Started]) // the context ends
       case Started => s' == s.(flag := true, callbacks := s.callbacks[i := Raised])
       case Raised => s' == s.(callbacks := s.callbacks[i := Fired])
       case _ => false
  }

  /** One step of the script's goroutine. waits: release waits for a callback it
      could not stop and clears the flag, as interruptOn's does. */
  ghost predicate ScriptStep(waits: bool, s: State, s': State) {
    var last := |s.callbacks| - 1;
    match s.pc
    case Idle => s' == s.(callbacks := s.callbacks + [Registered], pc := Running)
    case Running => // the JavaScript returns, or is aborted, which may use the flag up
      s' == s.(pc := Stopping) || (s.flag && s' == s.(flag := false, pc := Stopping))
    case Stopping =>
      && 0 <= last
      && if s.callbacks[last] == Registered then s' == s.(callbacks := s.callbacks[last := Prevented], pc := Idle)
         else s' == s.(pc := if waits then Waiting else Idle)
    case Waiting => 0 <= last && s.callbacks[last] == Fired && s' == s.(pc := Clearing)
    case Clearing => s' == s.(flag := false, pc := Idle)
  }

  ghost predicate Next(waits: bool, s: State, s': State) {
    ScriptStep(waits, s, s') || exists i :: CallbackStep(s, s', i)
  }

  ghost predicate Run(waits: bool, run: seq<State>) {
    && 0 < |run| && Init(run[0])
    && forall i, j :: 0 <= i < j < |run| && j == i + 1 ==> Next(waits, run[i], run[j])
  }

  /** A callback that can no longer touch the runtime. */
  predicate Over(c: Callback) {
    c == Prevented || c == Fired
  }

  ghost predicate Inv(s: State) {
    && (forall i :: 0 <= i < |s.callbacks| - 1 ==> Over(s.callbacks[i]))
    && (s.pc == Idle ==> !s.flag && forall i :: 0 <= i < |s.callbacks| ==> Over(s.callbacks[i]))
    && (s.pc != Idle ==>
          && s.callbacks != []
          && var c := s.callbacks[|s.callbacks| - 1];
             && (s.flag ==> c == Raised || c == Fired)
             && (s.pc == Waiting ==> c != Registered)
             && (s.pc == Clearing ==> c == Fired)
             && c != Prevented)
  }

  lemma {:induction false} RunKeepsInv(run: seq<State>, i: nat)
    requires Run(true, run) && i < |run|
    ensures Inv(run[i])
  {
    if i == 0 {
    } else {
      RunKeepsInv(run, i - 1);
      assert Next(true, run[i - 1], run[i]);
      StepKeepsInv(run[i - 1], run[i]);
    }
  }

  lemma StepKeepsInv(s: State, s': State)
    requires Inv(s) && Next(true, s, s')
    ensures Inv(s')
  {
  }

  /** In every interleaving, over any number of calls: once release has returned,
      the flag is clear and stays clear until the next call begins, because no
      context of a past call can raise it again. */
  lemma ReleasedIsClear(run: seq<State>, i: nat)
    requires Run(true, run) && i < |run| && run[i].pc == Idle
    ensures !run[i].flag && forall k :: 0 <= k < |run[i].callbacks| ==> Over(run[i].callbacks[k])
    ensures i + 1 < |run| ==> !run[i + 1].flag
  {
    RunKeepsInv(run, i);
    if i + 1 < |run| {
      RunKeepsInv(run, i + 1);
      assert Next(true, run[i], run[i + 1]);
    }
  }

  /** So a call is only ever interrupted because its own context has ended. */
  lemma InterruptedByOwnContext(run: seq<State>, i: nat)
    requires Run(true, run) && i < |run| && run[i].pc == Running && run[i].flag
    ensures run[i].callbacks != [] && run[i].callbacks[|run[i].callbacks| - 1] in {Raised, Fired}
  {
    RunKeepsInv(run, i);
  }

  /** What is left to do before release returns, by the callback and by release. */
  function Left(s: State): nat
    requires s.callbacks != []
  {
    var c := s.callbacks[|s.callbacks| - 1];
    (match c
     case Registered => 3
     case Started => 2
     case Raised => 1
     case _ => 0)
    + match s.pc
      case Running => 4
      case Stopping => 3
      case Waiting => 2
      case Clearing => 1
      case Idle => 0
  }

  /** While release waits, the callback it waits for, or release itself, can move;
      and every step there is brings its return nearer. */
  lemma ReleaseDoesNotHang(run: seq<State>, i: nat)
    requires Run(true, run) && i < |run| && run[i].pc == Waiting
    ensures run[i].callbacks != []
    ensures exists s' :: ScriptStep(true, run[i], s') || CallbackStep(run[i], s', |run[i].callbacks| - 1)
    ensures forall s' :: Next(true, run[i], s') ==>
      s'.pc in {Waiting, Clearing} && s'.callbacks != [] && Left(s') < Left(run[i])
  {
    RunKeepsInv(run, i);
    var s := run[i];
    var last := |s.callbacks| - 1;
    var s' := match s.callbacks[last]
      case Started => s.(flag := true, callbacks := s.callbacks[last := Raised])
      case Raised => s.(callbacks := s.callbacks[last := Fired])
      case _ => s.(pc := Clearing);
    assert ScriptStep(true, s, s') || CallbackStep(s, s', last);
    forall t, k: nat | CallbackStep(s, t, k) ensures k == last {
      assert k < last ==> Over(s.callbacks[k]);
    }
  }

  // ---------- Without the wait ----------

  /** Iterate's own hand-off has no wait and clears nothing, though an aborted call may
      have: if the flag is set, some callback has got past its stop() and raised it. */
  ghost predicate UnwaitedInv(s: State) {
    && (s.flag ==> exists k :: 0 <= k < |s.callbacks| && s.callbacks[k] in {Raised, Fired})
    && s.pc in {Idle, Running, Stopping}
    && (s.pc != Idle ==> s.callbacks != [])
    && (forall k :: 0 <= k < |s.callbacks| && s.callbacks[k] == Registered ==> k == |s.callbacks| - 1 && s.pc != Idle)
  }

  lemma UnwaitedStep(s: State, s': State)
    requires UnwaitedInv(s) && Next(false, s, s')
    ensures UnwaitedInv(s')
  {
    if k: nat :| CallbackStep(s, s', k) {
      assert s'.callbacks[k] != Registered;
      if s'.flag {
        var m := if s.callbacks[k] == Registered then (var m :| 0 <= m < |s.callbacks| && s.callbacks[m] in {Raised, Fired}; m) else k;
        assert s'.callbacks[m] in {Raised, Fired};
      }
    } else if s'.flag {
      var m :| 0 <= m < |s.callbacks| && s.callbacks[m] in {Raised, Fired};
      assert s'.callbacks[m] in {Raised, Fired};
    }
  }

  lemma {:induction false} UnwaitedRunKeepsInv(run: seq<State>, i: nat)
    requires Run(false, run) && i < |run|
    ensures UnwaitedInv(run[i])
  {
    if i == 0 {
    } else {
      UnwaitedRunKeepsInv(run, i - 1);
      assert Next(false, run[i - 1], run[i]);
      UnwaitedStep(run[i - 1], run[i]);
    }
  }

  /** Every callback so far was stopped in time. */
  ghost predicate AllPrevented(s: State) {
    forall k :: 0 <= k < |s.callbacks| ==> s.callbacks[k] == Prevented
  }

  /** No interrupt is pending, and none is about to be raised by an earlier callback. */
  ghost predicate NonePending(s: State) {
    !s.flag && forall k :: 0 <= k < |s.callbacks| ==> s.callbacks[k] != Started
  }

  /** In the call after the first n, the JavaScript runs interrupted although its
      own context is live. */
  predicate Aborted(s: State, n: nat) {
    |s.callbacks| == n + 1 && s.callbacks[n] == Registered && s.pc == Running && s.flag
  }

  /** Some continuation of the run aborts its next call for an earlier context. */
  ghost predicate CanAbortNext(run: seq<State>)
    requires run != []
  {
    exists more: seq<State>, i: nat ::
      Run(false, more) && run <= more && i < |more| && Aborted(more[i], |run[|run| - 1].callbacks|)
  }

  /** Of the first n callbacks none will move, and none of them has raised the flag. */
  ghost predicate Harmless(s: State, n: nat) {
    && n <= |s.callbacks| && (forall k :: 0 <= k < n ==> s.callbacks[k] in {Prevented, Raised, Fired})
    && (|s.callbacks| == n || (|s.callbacks| == n + 1 && s.callbacks[n] == Registered) ==> !s.flag)
  }

  lemma HarmlessStep(s: State, s': State, n: nat)
    requires UnwaitedInv(s) && Harmless(s, n) && Next(false, s, s')
    requires |s.callbacks| == n ==> s.pc == Idle
    ensures Harmless(s', n) && (|s'.callbacks| == n ==> s'.pc == Idle)
  {
  }

  lemma {:induction false} HarmlessStaysSo(run: seq<State>, m: nat, i: nat)
    requires Run(false, run) && m <= i < |run| && run[m].pc == Idle && NonePending(run[m])
    ensures Harmless(run[i], |run[m].callbacks|)
    ensures |run[i].callbacks| == |run[m].callbacks| ==> run[i].pc == Idle
  {
    if m == i {
      UnwaitedRunKeepsInv(run, i);
    } else {
      HarmlessStaysSo(run, m, i - 1);
      UnwaitedRunKeepsInv(run, i - 1);
      assert Next(false, run[i - 1], run[i]);
      HarmlessStep(run[i - 1], run[i], |run[m].callbacks|);
    }
  }

  /** If no interrupt is pending or about to be raised, the next call is interrupted only
      by its own context. */
  lemma NextCallIsSafe(run: seq<State>, m: nat, i: nat)
    requires Run(false, run) && m <= i < |run| && run[m].pc == Idle && NonePending(run[m])
    ensures !Aborted(run[i], |run[m].callbacks|)
  {
    HarmlessStaysSo(run, m, i);
  }

  /** As when every callback was stopped in time. */
  lemma PreventedIsNotPending(run: seq<State>, m: nat)
    requires Run(false, run) && m < |run| && AllPrevented(run[m])
    ensures NonePending(run[m])
  {
    UnwaitedRunKeepsInv(run, m);
  }

  /** Without the wait, and whether or not an aborted call uses the flag up, reusing the
      VU is safe if and only if no interrupt is pending or about to be raised. */
  lemma ReuseIsSafeIff(run: seq<State>)
    requires Run(false, run) && run[|run| - 1].pc == Idle
    ensures CanAbortNext(run) <==> !NonePending(run[|run| - 1])
  {
    var m := |run| - 1;
    if NonePending(run[m]) {
      forall more: seq<State>, i: nat | Run(false, more) && run <= more && i < |more|
        ensures !Aborted(more[i], |run[m].callbacks|)
      {
        if i < m {
          CallbacksGrow(more, i, m);
        } else {
          NextCallIsSafe(more, m, i);
        }
      }
    } else {
      var more := AbortNext(run);
      assert Aborted(more[|more| - 1], |run[m].callbacks|);
    }
  }

  lemma {:induction false} CallbacksGrow(run: seq<State>, i: nat, m: nat)
    requires Run(false, run) && i <= m < |run|
    ensures |run[i].callbacks| <= |run[m].callbacks|
  {
    if i == m {
    } else {
      CallbacksGrow(run, i, m - 1);
      assert Next(false, run[m - 1], run[m]);
    }
  }

  lemma AbortNext(run: seq<State>) returns (more: seq<State>)
    requires Run(false, run) && run[|run| - 1].pc == Idle && !NonePending(run[|run| - 1])
    ensures Run(false, more) && run <= more && Aborted(more[|more| - 1], |run[|run| - 1].callbacks|)
  {
    var s := run[|run| - 1];
    var s1 := s.(callbacks := s.callbacks + [Registered], pc := Running);
    assert ScriptStep(false, s, s1) && Next(false, s, s1);
    more := run + [s1];
    if !s.flag {
      var k: nat :| k < |s.callbacks| && s.callbacks[k] == Started;
      var s2 := s1.(flag := true, callbacks := s1.callbacks[k := Raised]);
      assert CallbackStep(s1, s2, k) && Next(false, s1, s2);
      more := more + [s2];
    }
  }

  /** And that happens: a context that ends just as its call returns leaves such a
      callback, and the next call, whose own context is live, is aborted. */
  lemma WithoutWaitNextCallAborts() returns (run: seq<State>)
    ensures Run(false, run) && Aborted(run[|run| - 1], 1)
  {
    var s0 := State(false, [], Idle);
    var s1 := State(false, [Registered], Running);
    var s2 := State(false, [Started], Running);
    var s3 := State(false, [Started], Stopping);
    var s4 := State(false, [Started], Idle);
    assert ScriptStep(false, s0, s1) && CallbackStep(s1, s2, 0) && ScriptStep(false, s2, s3) && ScriptStep(false, s3, s4);
    assert s4.callbacks[0] == Started;
    run := AbortNext([s0, s1, s2, s3, s4]);
  }
}
