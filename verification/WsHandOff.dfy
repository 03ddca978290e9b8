// The goroutines of one WebSocket connection and how the VU releases them: a
// reader that passes what it reads over a bounded channel, a goroutine for the
// close handshake, and the VU, which receives, closes and in the end stops the
// reader, cuts the connection, drains the channel and waits.
//
// The library is trusted for this much: after its context is cancelled or the
// connection is cut Read returns, with nothing but an error once it is cut; and a
// close handshake ends, by itself if need be, and leaves the connection cut.
module WsHandOff {

  const CAPACITY := 16

  /** What Read returned: a message, or the error it stopped with. */
  datatype Event = Message | Failure

  /** In Read, in the select that offers an event, about to close the channel, gone. */
  datatype Reader = Reading | Offering(event: Event) | Closing | Returned

  datatype Closer = NotStarted | Handshaking | Finished

  /** The VU's goroutine: in a session that is open; draining the channel in close;
      and, in the release, before stopReading, before CloseNow, draining, waiting
      for the closer, through. */
  datatype Vu = Open | ClosingDrain | Stopping | Cutting | Draining | Joining | Released

  /** events is the channel's buffer. read holds what Read has returned, taken
      what the VU has received. */
  datatype State = State(
    reader: Reader, closer: Closer, vu: Vu, events: seq<Event>, closed: bool, cancelled: bool, cut: bool,
    read: seq<Event>, taken: seq<Event>)

  /** The handshake has succeeded and the reader has been started. */
  function Start(): State {
    State(Reading, NotStarted, Open, [], false, false, false, [], [])
  }

  /** There is no connection and no goroutine. */
  function Nothing(): State {
    State(Returned, NotStarted, Released, [], true, true, true, [], [])
  }

  // ---------- Steps ----------

  /** Read returns; after the connection is cut, nothing but an error. */
  ghost predicate Reads(s: State, s': State) {
    s.reader == Reading && exists ev :: (s.cut ==> ev == Failure) && s' == s.(reader := Offering(ev), read := s.read + [ev])
  }

  /** The select's send. Nothing here says that the channel is still open. */
  ghost predicate Sends(s: State, s': State) {
    && s.reader.Offering? && |s.events| < CAPACITY
    && s' == s.(events := s.events + [s.reader.event], reader := if s.reader.event == Failure then Closing else Reading)
  }

  ghost predicate ReaderStep(s: State, s': State) {
    || Reads(s, s')
    || Sends(s, s')
    || (s.reader.Offering? && s.cancelled && s' == s.(reader := Closing))
    || (s.reader == Closing && s' == s.(closed := true, reader := Returned))
  }

  ghost predicate CloserStep(s: State, s': State) {
    s.closer == Handshaking && s' == s.(closer := Finished, cut := true)
  }

  /** The VU takes the oldest event, and goes on to next. */
  ghost predicate Takes(s: State, s': State, next: Vu) {
    s.events != [] && s' == s.(events := s.events[1..], taken := s.taken + [s.events[0]], vu := next)
  }

  ghost predicate VuStep(s: State, s': State) {
    match s.vu
    case Open =>
      // An error, or any reason of the session's own, ends it; the callback style
      // starts a close handshake and goes on, the blocking style waits for its end.
      || (s.events != [] && Takes(s, s', if s.events[0] == Failure then Stopping else Open))
      || (s.closer == NotStarted && s' == s.(closer := Handshaking))
      || (s.closer != NotStarted && s' == s.(vu := ClosingDrain))
      || s' == s.(vu := Stopping)
    case ClosingDrain =>
      || (s.events != [] && Takes(s, s', if s.events[0] == Failure then Stopping else ClosingDrain))
      || (s.events == [] && s.closed && s' == s.(vu := Stopping))
    case Stopping =>
      // A handler of the error may still start a close handshake.
      || (s.closer == NotStarted && s' == s.(closer := Handshaking))
      || s' == s.(cancelled := true, vu := Cutting)
    case Cutting => s' == s.(cut := true, vu := Draining)
    case Draining =>
      || Takes(s, s', Draining)
      || (s.events == [] && s.closed && s' == s.(vu := Joining))
    case Joining => s.closer != Handshaking && s' == s.(vu := Released)
    case Released => false
  }

  ghost predicate Next(s: State, s': State) {
    ReaderStep(s, s') || CloserStep(s, s') || VuStep(s, s')
  }

  ghost predicate Run(run: seq<State>) {
    && 0 < |run| && run[0] == Start()
    && forall i, j :: 0 <= i < j < |run| && j == i + 1 ==> Next(run[i], run[j])
  }

  // ---------- What every interleaving keeps ----------

  function InHand(s: State): seq<Event> {
    if s.reader.Offering? then [s.reader.event] else []
  }

  /** No event is lost, repeated or overtaken, except that a reader told to stop
      may leave the last one unsent. */
  ghost predicate InOrder(s: State) {
    || s.read == s.taken + s.events + InHand(s)
    || (s.cancelled && s.reader in {Closing, Returned} && exists ev :: s.read == s.taken + s.events + [ev])
  }

  /** Read is not called again after an error, and the reader goes only after one
      or when it is told to. */
  ghost predicate StopsAtFailure(s: State) {
    && (forall k :: 0 <= k < |s.read| - 1 ==> s.read[k] == Message)
    && (s.read != [] && s.read[|s.read| - 1] == Failure ==> s.reader != Reading)
    && (s.reader in {Closing, Returned} && !s.cancelled ==> s.read != [] && s.read[|s.read| - 1] == Failure)
  }

  ghost predicate Phases(s: State) {
    && |s.events| <= CAPACITY
    && (s.closed <==> s.reader == Returned)
    && (s.cancelled <==> s.vu in {Cutting, Draining, Joining, Released})
    && (s.vu in {Draining, Joining, Released} || s.closer == Finished ==> s.cut)
    && (s.vu in {Joining, Released} ==> s.closed && s.events == [])
    && (s.vu == Released ==> s.closer != Handshaking)
    && (s.vu == ClosingDrain ==> s.closer != NotStarted)
    && (s.vu in {Open, ClosingDrain} ==> Failure !in s.taken)
  }

  ghost predicate Inv(s: State) {
    Phases(s) && InOrder(s) && StopsAtFailure(s)
  }

  lemma ReaderKeepsInv(s: State, s': State)
    requires Inv(s) && ReaderStep(s, s')
    ensures Inv(s')
  {
    if Sends(s, s') {
      assert s.taken + s.events + [s.reader.event] == s'.taken + s'.events + InHand(s');
    } else if !Reads(s, s') && s.reader.Offering? {
      assert s'.read == s'.taken + s'.events + [s.reader.event];
    }
  }

  lemma TakeKeepsInv(s: State, s': State, next: Vu)
    requires Inv(s) && Takes(s, s', next)
    requires next == s.vu || (next == Stopping && s.vu in {Open, ClosingDrain})
    requires s.vu in {Open, ClosingDrain} && s.events[0] == Failure ==> next == Stopping
    ensures Inv(s')
  {
    assert s.taken + s.events == s'.taken + s'.events;
  }

  lemma VuKeepsInv(s: State, s': State)
    requires Inv(s) && VuStep(s, s')
    ensures Inv(s')
  {
    if s.events != [] && Takes(s, s', s'.vu) {
      TakeKeepsInv(s, s', s'.vu);
    } else {
      assert s'.read == s.read && s'.taken == s.taken && s'.events == s.events && s'.reader == s.reader;
    }
  }

  lemma StepKeepsInv(s: State, s': State)
    requires Inv(s) && Next(s, s')
    ensures Inv(s')
  {
    if ReaderStep(s, s') {
      ReaderKeepsInv(s, s');
    } else if VuStep(s, s') {
      VuKeepsInv(s, s');
    }
  }

  lemma {:induction false} RunKeepsInv(run: seq<State>, i: nat)
    requires Run(run) && i < |run|
    ensures Inv(run[i])
  {
    if i == 0 {
    } else {
      RunKeepsInv(run, i - 1);
      assert Next(run[i - 1], run[i]);
      StepKeepsInv(run[i - 1], run[i]);
    }
  }

  /** Nothing is sent on a closed channel, and it is closed once. */
  lemma NoSendAfterClose(run: seq<State>, i: nat)
    requires Run(run) && i + 1 < |run| && run[i].closed
    ensures !Sends(run[i], run[i + 1]) && run[i].reader != Closing
    ensures run[i + 1].closed && (run[i + 1].events == run[i].events || (run[i].events != [] && run[i + 1].events == run[i].events[1..]))
  {
    RunKeepsInv(run, i);
    assert Next(run[i], run[i + 1]);
  }

  /** The VU receives what was read, in order: never anything else, and from a
      reader that was not told to stop all of it. */
  lemma ReceivedInOrder(run: seq<State>, i: nat)
    requires Run(run) && i < |run|
    ensures run[i].taken <= run[i].read && |run[i].events| <= CAPACITY
    ensures |run[i].read| - |run[i].taken| <= CAPACITY + 1
    ensures !run[i].cancelled && run[i].closed && run[i].events == [] ==> run[i].taken == run[i].read
  {
    RunKeepsInv(run, i);
    var s := run[i];
    if s.read == s.taken + s.events + InHand(s) {
      assert s.read == s.taken + (s.events + InHand(s));
    } else {
      var ev :| s.read == s.taken + s.events + [ev];
      assert s.read == s.taken + (s.events + [ev]);
    }
  }

  /** The channel is never found closed and empty before the release: the error
      that ended the reader is always received first, also by close's drain. */
  lemma ErrorComesFirst(run: seq<State>, i: nat)
    requires Run(run) && i < |run| && run[i].vu in {Open, ClosingDrain}
    ensures !(run[i].closed && run[i].events == [])
  {
    RunKeepsInv(run, i);
    if run[i].closed && run[i].events == [] {
      FailureWasTaken(run[i]);
    }
  }

  lemma FailureWasTaken(s: State)
    requires Inv(s) && s.closed && s.events == [] && !s.cancelled
    ensures Failure in s.taken
  {
    assert s.read == s.taken && s.read[|s.read| - 1] == Failure;
  }

  // ---------- The release ends ----------

  /** From here on every step of any goroutine brings the end nearer: in the
      release, and in close's drain once the connection is cut. */
  predicate Ending(s: State) {
    s.vu in {Stopping, Cutting, Draining, Joining} || (s.vu == ClosingDrain && s.cut)
  }

  function Rank(vu: Vu): nat {
    match vu
    case Open => 6
    case ClosingDrain => 5
    case Stopping => 4
    case Cutting => 3
    case Draining => 2
    case Joining => 1
    case Released => 0
  }

  /** What the reader may still do. Before the cut it may read on, but only until
      the channel, which nobody drains then, is full. */
  function ReaderLeft(s: State): nat {
    var room := if s.cut || |s.events| >= CAPACITY then 0 else CAPACITY - |s.events|;
    match s.reader
    case Reading => 4 + 3 * room
    case Offering(Message) => if s.cut then 6 else 3 + 3 * room
    case Offering(Failure) => 3
    case Closing => 1
    case Returned => 0
  }

  /** A bound on the steps of all goroutines together until the VU is through. */
  function Left(s: State): nat {
    100 * Rank(s.vu) + ReaderLeft(s) + |s.events| + CloserLeft(s.closer)
  }

  function CloserLeft(c: Closer): nat {
    match c
    case NotStarted => 20
    case Handshaking => 10
    case Finished => 0
  }

  lemma ReaderLowersLeft(s: State, s': State)
    requires Inv(s) && ReaderStep(s, s') && Ending(s)
    ensures Left(s') < Left(s) && s'.vu == s.vu && s'.cut == s.cut
  {
  }

  lemma VuLowersLeft(s: State, s': State)
    requires Inv(s) && VuStep(s, s') && Ending(s)
    ensures Left(s') < Left(s)
    ensures Ending(s') || s'.vu == Released
  {
  }

  lemma StepLowersLeft(s: State, s': State)
    requires Inv(s) && Next(s, s') && Ending(s)
    ensures Left(s') < Left(s)
    ensures Ending(s') || s'.vu == Released
  {
    if ReaderStep(s, s') {
      ReaderLowersLeft(s, s');
    } else if VuStep(s, s') {
      VuLowersLeft(s, s');
    }
  }

  lemma AtMost600(s: State)
    requires Inv(s) && Ending(s)
    ensures Left(s) <= 600
  {
  }

  /** Nobody has a step left once the VU is through. */
  lemma ReleasedIsFinal(s: State, s': State)
    requires Inv(s) && s.vu == Released
    ensures !Next(s, s')
  {
  }

  ghost predicate EndingOrOver(s: State) {
    Inv(s) && (Ending(s) || s.vu == Released)
  }

  lemma OneStepNearer(s: State, s': State)
    requires EndingOrOver(s) && Next(s, s')
    ensures EndingOrOver(s') && Left(s') + 1 <= Left(s)
  {
    StepKeepsInv(s, s');
    if s.vu == Released {
      ReleasedIsFinal(s, s');
    } else {
      StepLowersLeft(s, s');
    }
  }

  /** Step k brings the end nearer. */
  ghost predicate Nears(run: seq<State>, k: nat)
    requires k + 1 < |run|
  {
    EndingOrOver(run[k]) ==> EndingOrOver(run[k + 1]) && Left(run[k + 1]) + 1 <= Left(run[k])
  }

  lemma StepNears(run: seq<State>, k: nat)
    requires Run(run) && k + 1 < |run|
    ensures Nears(run, k)
  {
    assert Next(run[k], run[k + 1]);
    if EndingOrOver(run[k]) {
      OneStepNearer(run[k], run[k + 1]);
    }
  }

  lemma {:induction false} StepsAreBounded(run: seq<State>, i: nat, j: nat)
    requires i <= j < |run| && EndingOrOver(run[i]) && forall k :: i <= k < j ==> Nears(run, k)
    ensures EndingOrOver(run[j]) && Left(run[j]) + (j - i) <= Left(run[i])
  {
    if i == j {
    } else {
      StepsAreBounded(run, i, j - 1);
      assert Nears(run, j - 1);
    }
  }

  /** In every interleaving the release is over after a bounded number of steps,
      whatever goroutines take them. */
  lemma ReleaseIsBounded(run: seq<State>, i: nat, j: nat)
    requires Run(run) && i <= j < |run| && Ending(run[i])
    ensures j - i <= 600 && (Ending(run[j]) || run[j].vu == Released)
  {
    RunKeepsInv(run, i);
    AtMost600(run[i]);
    forall k | i <= k < j ensures Nears(run, k) {
      StepNears(run, k);
    }
    StepsAreBounded(run, i, j);
  }

  /** The step needs nothing from the peer: Read returns only if it must. */
  ghost predicate Unaided(s: State, s': State) {
    Next(s, s') && (Reads(s, s') ==> s.cancelled || s.cut)
  }

  /** The release never gets stuck, nor does close's drain: until the VU is
      through, someone can move without the peer. */
  lemma NeverStuck(s: State)
    requires Inv(s) && s.vu !in {Open, Released}
    ensures exists s' :: Unaided(s, s')
  {
    if s.closer == Handshaking {
      var s' := s.(closer := Finished, cut := true);
      assert CloserStep(s, s') && Unaided(s, s');
    } else if s.vu in {ClosingDrain, Draining} && !(s.events == [] && s.closed) {
      if s.events == [] {
        ReaderCanMove(s);
      } else {
        var next := if s.vu == ClosingDrain && s.events[0] == Failure then Stopping else s.vu;
        var s' := s.(events := s.events[1..], taken := s.taken + [s.events[0]], vu := next);
        assert VuStep(s, s') && Unaided(s, s');
      }
    } else {
      var s' := match s.vu
        case ClosingDrain => s.(vu := Stopping)
        case Stopping => s.(cancelled := true, vu := Cutting)
        case Cutting => s.(cut := true, vu := Draining)
        case Draining => s.(vu := Joining)
        case _ => s.(vu := Released);
      assert VuStep(s, s') && Unaided(s, s');
    }
  }

  /** A reader that has not returned can move once the connection is cut, if the
      channel has room. */
  lemma ReaderCanMove(s: State)
    requires Inv(s) && s.cut && s.events == [] && !s.closed
    ensures exists s' :: Unaided(s, s')
  {
    var s' := match s.reader
      case Reading => s.(reader := Offering(Failure), read := s.read + [Failure])
      case Offering(ev) => s.(events := s.events + [ev], reader := if ev == Failure then Closing else Reading)
      case _ => s.(closed := true, reader := Returned);
    assert ReaderStep(s, s') && Unaided(s, s');
  }

  /** A reader that was told to stop never waits for the VU: outside Read it can go on by
      itself, until it has returned. */
  lemma CancelledReaderIsFree(run: seq<State>, i: nat)
    requires Run(run) && i < |run| && run[i].cancelled && run[i].reader.Offering?
    ensures ReaderStep(run[i], run[i].(reader := Closing))
    ensures ReaderStep(run[i].(reader := Closing), run[i].(reader := Returned, closed := true))
  {
  }

  /** No goroutine is left and nothing is in flight. */
  predicate Quiet(s: State) {
    s.reader == Returned && s.closer != Handshaking && s.closed && s.events == []
  }

  /** When the release returns, the reader and the close handshake have returned. */
  lemma ReleasedIsQuiet(run: seq<State>, i: nat)
    requires Run(run) && i < |run| && run[i].vu == Released
    ensures Quiet(run[i])
  {
    RunKeepsInv(run, i);
  }

  // ---------- Schedules ----------

  /** n steps lead from s to t. */
  ghost predicate ReachedIn(s: State, t: State, n: nat)
    decreases n
  {
    if n == 0 then s == t else exists m :: ReachedIn(s, m, n - 1) && Next(m, t)
  }

  ghost predicate Reached(s: State, t: State) {
    exists n: nat :: ReachedIn(s, t, n)
  }

  lemma OneMore(s: State, m: State, t: State)
    requires Reached(s, m) && Next(m, t)
    ensures Reached(s, t)
  {
    var n: nat :| ReachedIn(s, m, n);
    assert ReachedIn(s, t, n + 1);
  }

  /** The VU uses the connection and has not begun to release it. */
  predicate InUse(s: State) {
    s.vu == Open || s.vu == Stopping
  }

  /** Time passes: the goroutines take any steps, and the VU may receive. */
  ghost method Elapse(s: State) returns (t: State)
    requires Inv(s) && InUse(s)
    ensures Reached(s, t) && Inv(t) && InUse(t) && (t.closer == NotStarted <==> s.closer == NotStarted)
  {
    t := s;
    assert ReachedIn(s, t, 0);
    var steps: nat := *;
    while 0 < steps
      invariant Reached(s, t) && Inv(t) && InUse(t) && (t.closer == NotStarted <==> s.closer == NotStarted)
    {
      var next: State := *;
      if Next(t, next) && InUse(next) && (next.closer == NotStarted <==> t.closer == NotStarted) {
        StepKeepsInv(t, next);
        OneMore(s, t, next);
        t := next;
      }
      steps := steps - 1;
    }
  }

  /** The drain of close, under any schedule in which the peer, or else the close
      handshake, lets it end: it ends. */
  ghost method Drain(s: State) returns (t: State)
    requires Inv(s) && s.vu == Open && s.closer != NotStarted
    ensures Reached(s, t) && Inv(t) && t.vu == Stopping && t.closer != NotStarted
  {
    assert ReachedIn(s, s, 0);
    t := s.(vu := ClosingDrain);
    StepKeepsInv(s, t);
    OneMore(s, s, t);
    var steps: nat := *;
    while 0 < steps && t.vu == ClosingDrain
      invariant Reached(s, t) && Inv(t) && t.closer != NotStarted && t.vu in {ClosingDrain, Stopping}
    {
      var next: State := *;
      if Next(t, next) {
        StepKeepsInv(t, next);
        OneMore(s, t, next);
        t := next;
      }
      steps := steps - 1;
    }
    if t.vu == ClosingDrain {
      t := DrainAfterCut(s, t);
    }
  }

  lemma DrainStep(s: State, s': State)
    requires Inv(s) && s.vu == ClosingDrain && s.cut && s.closer != NotStarted && Next(s, s')
    ensures Inv(s') && Left(s') < Left(s) && s'.closer != NotStarted
    ensures s'.vu == Stopping || (s'.vu == ClosingDrain && s'.cut)
  {
    StepKeepsInv(s, s');
    StepLowersLeft(s, s');
  }

  ghost method DrainAfterCut(s: State, m: State) returns (t: State)
    requires Reached(s, m) && Inv(m) && m.vu == ClosingDrain && m.closer != NotStarted
    ensures Reached(s, t) && Inv(t) && t.vu == Stopping && t.closer != NotStarted
  {
    t := m;
    if !t.cut {
      var next := t.(closer := Finished, cut := true);
      StepKeepsInv(t, next);
      OneMore(s, t, next);
      t := next;
    }
    while t.vu == ClosingDrain
      invariant Reached(s, t) && Inv(t) && t.closer != NotStarted
      invariant t.vu == Stopping || (t.vu == ClosingDrain && t.cut)
      decreases Left(t)
    {
      NeverStuck(t);
      var next :| Next(t, next);
      DrainStep(t, next);
      OneMore(s, t, next);
      t := next;
    }
  }

  /** The release, under any schedule: it ends, and then no goroutine is left. */
  ghost method Release(s: State) returns (t: State)
    requires Inv(s) && InUse(s)
    ensures Reached(s, t) && Inv(t) && t.vu == Released && Quiet(t)
  {
    t := s;
    assert ReachedIn(s, t, 0);
    if s.vu == Open {
      t := s.(vu := Stopping);
      StepKeepsInv(s, t);
      OneMore(s, s, t);
    }
    while t.vu != Released
      invariant Reached(s, t) && EndingOrOver(t)
      decreases Left(t)
    {
      NeverStuck(t);
      var next :| Next(t, next);
      OneStepNearer(t, next);
      OneMore(s, t, next);
      t := next;
    }
  }
}
