// A WebSocket session as a value: what scripts may do with it, and what becomes of it.
module WsScript {
  const MAX_PENDING_REPLIES := 1024
  const STATUS_NORMAL := 1000
  const STATUS_GOING_AWAY := 1001
  const STATUS_ABNORMAL := 1006

  /** Error codes, as far as this model tells them apart. */
  datatype Code = NoCode | Closed | Timeout | Server | Other(n: nat)

  // ---------- What the script's handlers do ----------

  /** How conn.Write comes out. */
  datatype Write = Written | Failed(code: Code)

  /** What one run of a handler does, action by action. A send carries what the
      error and close handlers do if it fails, so every run is a finite tree. */
  datatype Action =
    | Send(reply: bool, start: int, write: Write, onError: Handlers, onClose: Handlers)
    | Close
    | Throw

  datatype Script = Script(actions: seq<Action>)
  type Handlers = seq<Script>

  predicate Throws(s: Script) {
    Throw in s.actions
  }

  function Weight(a: Action): nat {
    match a
    case Send(_, _, _, onError, onClose) => 1 + HandlersWeight(onError) + HandlersWeight(onClose)
    case _ => 1
  }

  function ActionsWeight(s: seq<Action>): nat {
    if s == [] then 0 else Weight(s[0]) + ActionsWeight(s[1..])
  }

  function ScriptWeight(s: Script): nat {
    ActionsWeight(s.actions)
  }

  function HandlersWeight(hs: Handlers): nat {
    if hs == [] then 0 else ScriptWeight(hs[0]) + HandlersWeight(hs[1..])
  }

  lemma {:induction false} ActionIsLighter(s: seq<Action>, i: nat)
    requires i < |s|
    ensures Weight(s[i]) <= ActionsWeight(s)
  {
    if i == 0 {
    } else {
      ActionIsLighter(s[1..], i - 1);
    }
  }

  lemma {:induction false} ScriptIsLighter(hs: Handlers, i: nat)
    requires i < |hs|
    ensures ScriptWeight(hs[i]) <= HandlersWeight(hs)
  {
    if i == 0 {
    } else {
      ScriptIsLighter(hs[1..], i - 1);
    }
  }

  // ---------- Events from the reader ----------

  /** A message, or the error the reader stopped with: a close frame's status (or
      -1) and how the error is classified. */
  datatype Event = Message(at: int) | ReadError(status: int, code: Code)

  /** What became of a timed send that no longer awaits a reply. */
  datatype Fate = Paired(message: nat) | Evicted

  /** How a handshake comes out. */
  datatype Handshake = Established | Refused(code: Code)

  /** One turn of the callback style's event loop. */
  datatype Turn =
    | Incoming(event: Event, onMessage: Handlers, onError: Handlers, onClose: Handlers)
    | EventsClosed(onClose: Handlers)
    | Timers(fired: Handlers)
    | TestEnding

  /** When the messages of some turns arrived. */
  function Arrivals(turns: seq<Turn>): seq<int> {
    if turns == [] then [] else Arrivals(turns[..|turns| - 1]) + ArrivalOf(turns[|turns| - 1])
  }

  function ArrivalOf(t: Turn): seq<int> {
    if t.Incoming? && t.event.Message? then [t.event.at] else []
  }

  /** A turn after which the session is over, whatever handlers do: the reader's error,
      or the end of its channel. */
  predicate Stops(t: Turn) {
    t.EventsClosed? || (t.Incoming? && t.event.ReadError?)
  }

  /** What is recorded of a session: ws_session_failed, how many ws_session_duration,
      ws_errors, ws_msgs_sent, ws_msgs_received and ws_msg_latency. */
  datatype Metrics = Metrics(samples: seq<bool>, durations: nat, errors: nat, sent: nat, received: nat, latencies: seq<int>)

  /** A session's history: the handlers begun, in order; the times of all successful
      reply-marked sends; what became of those that no longer await a reply; when the
      messages taken arrived; how often end took effect, and whether with an error. */
  datatype History = History(
    ran: seq<Script>, timed: seq<int>, fates: seq<Fate>, arrivals: seq<int>, ends: nat, abnormal: bool)

  /** A session's state: its fields, and whether the test context has ended. */
  datatype View = View(
    ctxDone: bool, done: bool, closing: bool, thrown: bool, failed: bool, code: Code, closeCode: int,
    pending: seq<int>, metrics: Metrics, past: History)

  /** What anything the session does on the script's behalf keeps: what is over
      stays over and is not ended again, only an end with an error marks it failed,
      nothing is recorded as the session's outcome, no message is taken, and the history
      of the queue and of the handlers is only added to. */
  ghost predicate Later(a: View, b: View) {
    && (a.ctxDone ==> b.ctxDone) && (a.closing ==> b.closing) && (a.failed ==> b.failed)
    && (a.done ==> b.done && b.past.ends == a.past.ends && b.closeCode == a.closeCode && b.past.abnormal == a.past.abnormal && b.closing == a.closing)
    && (a.thrown ==> b.thrown) && (b.failed ==> a.failed || b.past.abnormal) && (a.past.abnormal ==> b.past.abnormal)
    && a.metrics.samples == b.metrics.samples && a.past.ran <= b.past.ran && a.past.timed <= b.past.timed && a.past.fates <= b.past.fates && a.past.arrivals == b.past.arrivals
  }

  /** If the session's end was among it, it was an end with an error. */
  ghost predicate EndsBadly(a: View, b: View) {
    Later(a, b) && (b.past.ends != a.past.ends ==> b.past.abnormal)
  }

  /** The history shows no more than an end. */
  ghost predicate Silently(a: View, b: View) {
    b.closing == a.closing && b.metrics.latencies == a.metrics.latencies && b.past == a.past.(ends := b.past.ends, abnormal := b.past.abnormal)
  }

  /** Nothing but the context and the errors counted may have changed. */
  ghost predicate Same(a: View, b: View) {
    b == a.(ctxDone := b.ctxDone, metrics := a.metrics.(errors := b.metrics.errors)) && (a.ctxDone ==> b.ctxDone)
  }

  /** The state of a new session. */
  ghost function Fresh(ctxDone: bool): View {
    View(ctxDone, false, false, false, false, NoCode, 0, [], Metrics([], 0, 0, 0, 0, []), History([], [], [], [], 0, false))
  }

  /** The queue of sends awaiting a reply is bounded and in send order: the i-th
      timed send met fates[i], and those after are pending. */
  ghost predicate IsQueue(pending: seq<int>, timed: seq<int>, fates: seq<Fate>) {
    && |pending| <= MAX_PENDING_REPLIES
    && |fates| <= |timed| && pending == timed[|fates|..]
  }

  /** Each message is paired with one send at most, and an earlier message with an
      earlier send. */
  ghost predicate PairedInOrder(fates: seq<Fate>, taken: nat) {
    && AllTaken(fates, taken)
    && forall i, j :: 0 <= i < j < |fates| && fates[i].Paired? && fates[j].Paired? ==> fates[i].message < fates[j].message
  }

  /** What is paired is a message that has been taken. */
  ghost predicate AllTaken(fates: seq<Fate>, taken: nat) {
    forall i :: 0 <= i < |fates| && fates[i].Paired? ==> fates[i].message < taken
  }

  /** How long the paired sends waited, oldest first. */
  ghost function Waits(timed: seq<int>, fates: seq<Fate>, arrivals: seq<int>): seq<int>
    requires |fates| <= |timed|
  {
    if fates == [] then []
    else
      var n := |fates| - 1;
      Waits(timed, fates[..n], arrivals) + Wait(timed[n], fates[n], arrivals)
  }

  ghost function Wait(start: int, f: Fate, arrivals: seq<int>): seq<int> {
    if f.Paired? && f.message < |arrivals| then [arrivals[f.message] - start] else []
  }

  lemma {:induction false} WaitsStay(timed: seq<int>, timed': seq<int>, fates: seq<Fate>, arrivals: seq<int>, arrivals': seq<int>)
    requires |fates| <= |timed| && AllTaken(fates, |arrivals|) && timed <= timed' && arrivals <= arrivals'
    ensures Waits(timed', fates, arrivals') == Waits(timed, fates, arrivals)
  {
    if fates == [] {
    } else {
      WaitsStay(timed, timed', fates[..|fates| - 1], arrivals, arrivals');
    }
  }

  /** What a session keeps of messages: the queue and its history, and what is recorded
      while the test lives, each message taken and how long the send it is paired with
      waited. */
  ghost predicate Tracked(
    pending: seq<int>, timed: seq<int>, fates: seq<Fate>, arrivals: seq<int>, received: nat, latencies: seq<int>, live: bool)
  {
    && IsQueue(pending, timed, fates) && PairedInOrder(fates, |arrivals|)
    && (live ==> received == |arrivals| && latencies == Waits(timed, fates, arrivals))
  }

  /** One more send awaits a reply. */
  lemma PushKeepsQueue(
    pending: seq<int>, timed: seq<int>, fates: seq<Fate>, arrivals: seq<int>, received: nat, latencies: seq<int>, live: bool, start: int)
    requires Tracked(pending, timed, fates, arrivals, received, latencies, live)
    ensures if |pending| < MAX_PENDING_REPLIES
            then Tracked(pending + [start], timed + [start], fates, arrivals, received, latencies, live)
            else Tracked(pending[1..] + [start], timed + [start], fates + [Evicted], arrivals, received, latencies, live)
  {
    WaitsStay(timed, timed + [start], fates, arrivals, arrivals);
    assert (timed + [start])[|fates|..] == timed[|fates|..] + [start];
    if |pending| == MAX_PENDING_REPLIES {
      assert (timed + [start])[|fates| + 1..] == timed[|fates|..][1..] + [start];
      PairedStays(fates, |arrivals|);
      OneMoreFate(timed + [start], fates, Evicted, arrivals);
    }
  }

  lemma OneMoreFate(timed: seq<int>, fates: seq<Fate>, f: Fate, arrivals: seq<int>)
    requires |fates| < |timed|
    ensures Waits(timed, fates + [f], arrivals) == Waits(timed, fates, arrivals) + Wait(timed[|fates|], f, arrivals)
  {
    assert (fates + [f])[..|fates|] == fates;
  }

  lemma PairedStays(fates: seq<Fate>, n: nat)
    requires PairedInOrder(fates, n)
    ensures PairedInOrder(fates, n + 1) && PairedInOrder(fates + [Paired(n)], n + 1) && PairedInOrder(fates + [Evicted], n)
  {
  }

  /** One more message is taken, by the oldest send awaiting one. */
  lemma PopKeepsQueue(
    pending: seq<int>, timed: seq<int>, fates: seq<Fate>, arrivals: seq<int>, received: nat, latencies: seq<int>, live: bool, at: int)
    requires Tracked(pending, timed, fates, arrivals, received, latencies, live)
    ensures if pending == [] then Tracked([], timed, fates, arrivals + [at], received + 1, latencies, live)
            else
              && pending[0] == timed[|fates|]
              && Tracked(pending[1..], timed, fates + [Paired(|arrivals|)], arrivals + [at], received + 1,
                         latencies + [at - pending[0]], live)
  {
    PairedStays(fates, |arrivals|);
    WaitsStay(timed, timed, fates, arrivals, arrivals + [at]);
    if pending != [] {
      assert timed[|fates| + 1..] == timed[|fates|..][1..];
      OneMoreFate(timed, fates, Paired(|arrivals|), arrivals + [at]);
    }
  }

  /** The handlers began one after another, the k-th as at[k] of the log, none before
      position from. */
  ghost predicate RanInOrder(handlers: Handlers, from: nat, ran: seq<Script>, at: seq<nat>) {
    && |at| == |handlers|
    && (forall k :: 0 <= k < |at| ==> from <= at[k] < |ran| && ran[at[k]] == handlers[k])
    && forall j, k :: 0 <= j < k < |at| ==> at[j] < at[k]
  }

  lemma OneMoreRan(handlers: Handlers, i: nat, from: nat, before: seq<Script>, ran: seq<Script>, at: seq<nat>)
    requires i < |handlers| && from <= |before| && before + [handlers[i]] <= ran
    requires RanInOrder(handlers[..i], from, before, at)
    ensures RanInOrder(handlers[..i + 1], from, ran, at + [|before|])
  {
    assert ran[|before|] == (before + [handlers[i]])[|before|];
    assert forall k :: 0 <= k < |at| ==> ran[at[k]] == before[at[k]];
  }

  /** Some first handlers began in order, all of them if so it says. */
  ghost predicate Begun(handlers: Handlers, from: nat, ran: seq<Script>, all: bool) {
    exists at: seq<nat> ::
      |at| <= |handlers| && RanInOrder(handlers[..|at|], from, ran, at) && (all ==> |at| == |handlers|)
  }

  // ---------- The course of the turns ----------

  /** The handlers of a turn began: those of a message, or of a close whose event is
      certain; all of them if calm, that is if none threw and the test lives. */
  ghost predicate TurnBegun(t: Turn, from: nat, ran: seq<Script>, calm: bool) {
    match t
    case Incoming(Message(_), onMessage, _, _) => Begun(onMessage, from, ran, calm)
    case Incoming(ReadError(status, _), _, _, onClose) => 0 <= status ==> Begun(onClose, from, ran, calm)
    case EventsClosed(onClose) => Begun(onClose, from, ran, calm)
    case _ => true
  }

  /** First the "open" handlers began, then those of one turn after another, each turn's
      between its marks in the log; the messages of these turns, and no others, were
      taken. The turns are all there are, unless the session is over. */
  ghost predicate Course(onOpen: Handlers, turns: seq<Turn>, marks: seq<nat>, from: nat, ran: seq<Script>,
                         was: seq<int>, arrivals: seq<int>, calm: bool)
  {
    && 1 <= |marks| <= |turns| + 1 && from <= marks[0]
    && Chain(turns, marks, ran, calm) && BegunBy(onOpen, from, ran, marks[0], calm)
    && arrivals == was + Arrivals(turns[..|marks| - 1])
  }

  /** They began before position m. */
  ghost predicate BegunBy(handlers: Handlers, from: nat, ran: seq<Script>, m: nat, calm: bool) {
    m <= |ran| && Begun(handlers, from, ran[..m], calm)
  }

  lemma BegunByStays(handlers: Handlers, from: nat, ran: seq<Script>, ran': seq<Script>, m: nat, calm: bool, calm': bool)
    requires BegunBy(handlers, from, ran, m, calm) && ran <= ran' && (calm' ==> calm)
    ensures BegunBy(handlers, from, ran', m, calm')
  {
    SamePrefix(ran, ran', m);
    CalmBegun(handlers, from, ran[..m], calm, calm');
  }

  ghost predicate Chain(turns: seq<Turn>, marks: seq<nat>, ran: seq<Script>, calm: bool)
    requires |marks| <= |turns| + 1
  {
    && (forall k :: 0 <= k < |marks| ==> marks[k] <= |ran|)
    && forall j, k :: 0 <= j < k < |marks| && k == j + 1 ==>
      marks[j] <= marks[k] && TurnBegun(turns[j], marks[j], ran[..marks[k]], calm)
  }

  lemma CourseOpens(onOpen: Handlers, turns: seq<Turn>, from: nat, ran: seq<Script>, was: seq<int>, calm: bool)
    requires from <= |ran| && Begun(onOpen, from, ran, calm)
    ensures Course(onOpen, turns, [|ran|], from, ran, was, was, calm)
  {
    assert ran[..|ran|] == ran && turns[..0] == [];
  }

  lemma CalmBegun(handlers: Handlers, from: nat, ran: seq<Script>, calm: bool, calm': bool)
    requires Begun(handlers, from, ran, calm) && (calm' ==> calm)
    ensures Begun(handlers, from, ran, calm')
  {
    var at: seq<nat> :|
      |at| <= |handlers| && RanInOrder(handlers[..|at|], from, ran, at) && (calm ==> |at| == |handlers|);
  }

  lemma CalmTurnBegun(t: Turn, from: nat, ran: seq<Script>, calm: bool, calm': bool)
    requires TurnBegun(t, from, ran, calm) && (calm' ==> calm)
    ensures TurnBegun(t, from, ran, calm')
  {
    match t
    case Incoming(Message(_), onMessage, _, _) => CalmBegun(onMessage, from, ran, calm, calm');
    case Incoming(ReadError(status, _), _, _, onClose) => if 0 <= status { CalmBegun(onClose, from, ran, calm, calm'); }
    case EventsClosed(onClose) => CalmBegun(onClose, from, ran, calm, calm');
    case _ =>
  }

  /** One more turn was taken. */
  lemma CourseGoesOn(onOpen: Handlers, turns: seq<Turn>, marks: seq<nat>, from: nat, ran: seq<Script>, ran': seq<Script>,
                     was: seq<int>, arrivals: seq<int>, calm: bool, calm': bool)
    requires Course(onOpen, turns, marks, from, ran, was, arrivals, calm) && |marks| <= |turns|
    requires marks[|marks| - 1] == |ran| && ran <= ran' && (calm' ==> calm)
    requires TurnBegun(turns[|marks| - 1], |ran|, ran', calm')
    ensures Course(onOpen, turns, marks + [|ran'|], from, ran', was, arrivals + ArrivalOf(turns[|marks| - 1]), calm')
  {
    var n := |marks| - 1;
    ArrivalsStep(was, turns, n);
    BegunByStays(onOpen, from, ran, ran', marks[0], calm, calm');
    ChainGoesOn(turns, marks, ran, ran', calm, calm');
    IsCourse(onOpen, turns, marks + [|ran'|], n + 1, marks[0], from, ran', was, arrivals + ArrivalOf(turns[n]), calm');
  }

  lemma IsCourse(onOpen: Handlers, turns: seq<Turn>, marks: seq<nat>, n: nat, first: nat, from: nat, ran: seq<Script>,
                 was: seq<int>, arrivals: seq<int>, calm: bool)
    requires |marks| == n + 1 && n <= |turns| && marks[0] == first && from <= first
    requires Chain(turns, marks, ran, calm) && BegunBy(onOpen, from, ran, first, calm)
    requires arrivals == was + Arrivals(turns[..n])
    ensures Course(onOpen, turns, marks, from, ran, was, arrivals, calm)
  {
  }

  lemma ArrivalsStep(was: seq<int>, turns: seq<Turn>, n: nat)
    requires n < |turns|
    ensures was + Arrivals(turns[..n + 1]) == was + Arrivals(turns[..n]) + ArrivalOf(turns[n])
  {
    assert turns[..n + 1][..n] == turns[..n];
  }

  /** The test may end meanwhile. */
  lemma CourseCalms(onOpen: Handlers, turns: seq<Turn>, marks: seq<nat>, from: nat, ran: seq<Script>,
                    was: seq<int>, arrivals: seq<int>, calm: bool, calm': bool)
    requires Course(onOpen, turns, marks, from, ran, was, arrivals, calm) && (calm' ==> calm)
    ensures Course(onOpen, turns, marks, from, ran, was, arrivals, calm')
  {
    BegunByStays(onOpen, from, ran, ran, marks[0], calm, calm');
    forall j, k | 0 <= j < k < |marks| && k == j + 1 ensures TurnBegun(turns[j], marks[j], ran[..marks[k]], calm') {
      CalmTurnBegun(turns[j], marks[j], ran[..marks[k]], calm, calm');
    }
  }

  lemma SamePrefix(ran: seq<Script>, ran': seq<Script>, m: nat)
    requires ran <= ran' && m <= |ran|
    ensures ran'[..m] == ran[..m]
  {
  }

  lemma ChainGoesOn(turns: seq<Turn>, marks: seq<nat>, ran: seq<Script>, ran': seq<Script>, calm: bool, calm': bool)
    requires 0 < |marks| <= |turns| && Chain(turns, marks, ran, calm)
    requires marks[|marks| - 1] == |ran| && ran <= ran' && (calm' ==> calm)
    requires TurnBegun(turns[|marks| - 1], |ran|, ran', calm')
    ensures Chain(turns, marks + [|ran'|], ran', calm')
  {
    var (n, more) := (|marks| - 1, marks + [|ran'|]);
    forall j, k | 0 <= j < k < |more| && k == j + 1
      ensures more[j] <= more[k] && TurnBegun(turns[j], more[j], ran'[..more[k]], calm')
    {
      if k <= n {
        SamePrefix(ran, ran', marks[k]);
        CalmTurnBegun(turns[j], marks[j], ran[..marks[k]], calm, calm');
      } else {
        assert ran'[..|ran'|] == ran' && j == n;
      }
    }
  }

  // ---------- What a session does while the test lives ----------

  // These functions say exactly what becomes of a session, if the test context does not
  // end meanwhile. A handler stops at a throw; the flag returned says that it did.

  ghost function CountedError(v: View): View {
    v.(metrics := v.metrics.(errors := v.metrics.errors + 1))
  }

  /** A send was written. If its reply is awaited it joins the queue, at the cost of the
      oldest if that is full. */
  ghost function AfterWrite(v: View, reply: bool, start: int): View {
    var w := v.(metrics := v.metrics.(sent := v.metrics.sent + 1));
    if !reply then w
    else if |v.pending| < MAX_PENDING_REPLIES then w.(pending := v.pending + [start], past := v.past.(timed := v.past.timed + [start]))
    else
      w.(pending := v.pending[1..] + [start], past := v.past.(timed := v.past.timed + [start], fates := v.past.fates + [Evicted]))
  }

  /** A message was taken; the oldest send awaiting a reply has it. */
  ghost function Taken(v: View, at: int): View {
    var m := v.metrics.(received := v.metrics.received + 1);
    var p := v.past.(arrivals := v.past.arrivals + [at]);
    if v.pending == [] then v.(metrics := m, past := p)
    else
      v.(pending := v.pending[1..], metrics := m.(latencies := m.latencies + [at - v.pending[0]]),
         past := p.(fates := p.fates + [Paired(|v.past.arrivals|)]))
  }

  ghost function Marked(v: View, error: bool, code: Code, closeWith: int): View {
    v.(done := true, closeCode := closeWith, past := v.past.(ends := v.past.ends + 1, abnormal := error),
       failed := v.failed || error, code := if error && !v.failed && v.code == NoCode then code else v.code)
  }

  ghost function Thrown(v: View): View {
    v.(done := true, thrown := true)
  }

  ghost function DoAction(v: View, a: Action): (View, bool)
    decreases Weight(a), 0, 0
  {
    match a
    case Send(reply, start, write, onError, onClose) => (DoSend(v, reply, start, write, onError, onClose), false)
    case Close => (v.(closing := v.closing || !v.done), false)
    case Throw => (v, true)
  }

  ghost function DoSend(v: View, reply: bool, start: int, write: Write, onError: Handlers, onClose: Handlers): View
    decreases HandlersWeight(onError) + HandlersWeight(onClose), 9, 0
  {
    if v.done || v.closing then DoEmit(CountedError(v), onError)
    else if write.Failed? then DoFail(v, write.code, onError, onClose)
    else AfterWrite(v, reply, start)
  }

  ghost function DoFail(v: View, classified: Code, onError: Handlers, onClose: Handlers): View
    decreases HandlersWeight(onError) + HandlersWeight(onClose), 8, 0
  {
    DoEnd(DoEmit(CountedError(v), onError), true, classified, STATUS_ABNORMAL, onClose).(code := classified)
  }

  ghost function DoEnd(v: View, error: bool, code: Code, closeWith: int, onClose: Handlers): View
    decreases HandlersWeight(onClose), 5, 0
  {
    if v.done then v else DoEmit(Marked(v, error, code, closeWith), onClose)
  }

  ghost function DoActions(v: View, actions: seq<Action>): (View, bool)
    decreases ActionsWeight(actions), 1, 0
  {
    if actions == [] then (v, false)
    else
      var (w, stop) := DoAction(v, actions[0]);
      if stop then (w, true) else DoActions(w, actions[1..])
  }

  ghost function DoScript(v: View, s: Script): (View, bool)
    decreases ScriptWeight(s), 2, 0
  {
    DoActions(v.(past := v.past.(ran := v.past.ran + [s])), s.actions)
  }

  /** The handlers of an event, until one throws. */
  ghost function DoEmit(v: View, handlers: Handlers): View
    decreases HandlersWeight(handlers), 4, |handlers|
  {
    if handlers == [] || v.thrown then v
    else
      var (w, threw) := DoScript(v, handlers[0]);
      if threw then Thrown(w) else DoEmit(w, handlers[1..])
  }

  ghost function DoClosedByPeer(v: View, status: int, onClose: Handlers): View {
    if status == STATUS_NORMAL || status == STATUS_GOING_AWAY then DoEnd(v, false, NoCode, status, onClose)
    else DoEnd(v, true, Server, status, onClose).(code := Server)
  }

  ghost function DoReadFailed(v: View, status: int, classified: Code, onError: Handlers, onClose: Handlers): View {
    if 0 <= status then DoClosedByPeer(v, status, onClose)
    else if v.closing then DoEnd(v, false, NoCode, STATUS_NORMAL, onClose)
    else DoFail(v, classified, onError, onClose)
  }

  /** Due timers, until the session is over or one throws. */
  ghost function DoTimers(v: View, fired: Handlers): View
    decreases |fired|
  {
    if fired == [] || v.done then v
    else
      var (w, threw) := DoScript(v, fired[0]);
      if threw then Thrown(w) else DoTimers(w, fired[1..])
  }

  ghost function DoTurn(v: View, t: Turn): View {
    match t
    case Incoming(Message(at), onMessage, _, _) => DoEmit(Taken(v, at), onMessage)
    case Incoming(ReadError(status, classified), _, onError, onClose) => DoReadFailed(v, status, classified, onError, onClose)
    case EventsClosed(onClose) => DoEnd(v, false, NoCode, STATUS_ABNORMAL, onClose)
    case Timers(fired) => DoTimers(v, fired)
    case TestEnding => v
  }

  /** Turns, until the session is over. */
  ghost function DoTurns(v: View, turns: seq<Turn>): View
    decreases |turns|
  {
    if turns == [] || v.done then v else DoTurns(DoTurn(v, turns[0]), turns[1..])
  }

  /** Its outcome is recorded. */
  ghost function Recorded(v: View): View {
    v.(metrics := v.metrics.(samples := v.metrics.samples + [v.failed], durations := v.metrics.durations + 1))
  }

  /** The callback style's run; the flag says that the setup callback threw. */
  ghost function DoRun(v: View, setup: Script, onOpen: Handlers, turns: seq<Turn>): (View, bool) {
    var (w, threw) := DoScript(v, setup);
    if threw then (Thrown(w), true) else (DoConverse(w, onOpen, turns), false)
  }

  /** "open", the turns and, if the session is then over, the outcome. */
  ghost function DoConverse(v: View, onOpen: Handlers, turns: seq<Turn>): View {
    var w := DoTurns(DoEmit(v, onOpen), turns);
    if w.done then Recorded(w) else w
  }

  lemma DoActionsFrom(v: View, actions: seq<Action>, i: nat)
    requires i < |actions|
    ensures DoActions(v, actions[i..])
         == var (w, stop) := DoAction(v, actions[i]); if stop then (w, true) else DoActions(w, actions[i + 1..])
  {
    assert actions[i..][1..] == actions[i + 1..];
  }

  lemma DoEmitFrom(v: View, handlers: Handlers, i: nat)
    requires i < |handlers|
    ensures DoEmit(v, handlers[i..])
         == if v.thrown then v
            else var (w, threw) := DoScript(v, handlers[i]); if threw then Thrown(w) else DoEmit(w, handlers[i + 1..])
  {
    assert handlers[i..][1..] == handlers[i + 1..];
  }

  lemma DoTimersFrom(v: View, fired: Handlers, i: nat)
    requires i < |fired|
    ensures DoTimers(v, fired[i..])
         == if v.done then v
            else var (w, threw) := DoScript(v, fired[i]); if threw then Thrown(w) else DoTimers(w, fired[i + 1..])
  {
    assert fired[i..][1..] == fired[i + 1..];
  }

  lemma DoTurnsFrom(v: View, turns: seq<Turn>, i: nat)
    requires i < |turns|
    ensures DoTurns(v, turns[i..]) == if v.done then v else DoTurns(DoTurn(v, turns[i]), turns[i + 1..])
  {
    assert turns[i..][1..] == turns[i + 1..];
  }
}
