// The blocking style: sockets the script sends on, receives from and closes, and
// the iteration that owns them.
module WsBlocking {
  import opened WsScript
  import opened WsSession
  import H = WsHandOff

  /** How the wait in receive ends. */
  datatype Wait = Got(event: Event) | ChannelClosed | TimedOut | TestEnds

  /** The read error close finds when it drains the channel, if there is one
      before the reader closes it. */
  datatype Drained = Nothing | Stopped(status: int, code: Code)

  // ---------- What becomes of a socket while the test lives ----------

  /** It is finished: its end, if that is to come, and its outcome. */
  ghost function Finished(v: View): View {
    Recorded(if v.done then v else Marked(v, false, NoCode, STATUS_NORMAL))
  }

  ghost function AfterSend(v: View, finished: bool, reply: bool, start: int, write: Write): View {
    if finished then CountedError(v).(failed := true, code := Closed)
    else if write.Written? then AfterWrite(v, reply, start)
    else Finished(DoFail(v, write.code, [], []))
  }

  ghost function AfterReceive(v: View, wait: Wait): View {
    match wait
    case ChannelClosed => Finished(DoEnd(v, false, NoCode, STATUS_ABNORMAL, []))
    case Got(ReadError(status, classified)) => Finished(DoReadFailed(v, status, classified, [], []))
    case Got(Message(at)) => Taken(v, at)
    case TimedOut => CountedError(v).(failed := true, code := Timeout)
    case TestEnds => v
  }

  ghost function AfterClose(v: View, code: int, drained: Drained): View {
    var w := v.(closing := true);
    var x := if drained.Stopped? then DoReadFailed(w, drained.status, drained.code, [], []) else w;
    Finished(DoEnd(x, false, NoCode, code, []))
  }

  /** What a script does with one of its sockets, and what the network answers. */
  datatype Call =
    | Send(reply: bool, start: int, write: Write)
    | Receive(wait: Wait)
    | Close(code: int, drained: Drained)

  class BlockingSocket {
    const s: Session
    var finished: bool
    /** Whether the handshake failed, and whether a receive timed out while open. */
    ghost const refused: bool
    ghost var timedOut: bool
    /** The calls the script has made. */
    ghost var calls: seq<Call>

    /** Between calls a socket is either open, its connection in use and nothing
        recorded, or finished: no goroutine is left and, unless the test has ended,
        exactly one outcome has been recorded and end has taken effect once. The
        outcome is a failure if the handshake failed, the session ended abnormally
        or, before it ended, a receive timed out. */
    ghost predicate ValidIn(ctxDone: bool)
      reads this, s
    {
      && s.ValidIn(ctxDone)
      && (!finished ==>
            && !s.done && !s.closing && s.metrics.samples == [] && s.Linked() && H.InUse(s.link)
            && s.past.ends == 0 && !refused && !s.past.abnormal && s.failed == timedOut)
      && (finished ==>
            && H.Quiet(s.link) && |s.metrics.samples| <= 1
            && (s.metrics.samples != [] ==> s.metrics.samples[0] == (refused || s.past.abnormal || timedOut))
            && (!ctxDone ==> |s.metrics.samples| == 1)
            && (!ctxDone && !refused ==> s.past.ends == 1))
    }

    ghost predicate Valid()
      reads this, s, s.ctx
    {
      ValidIn(s.ctx.done)
    }

    /** ws.connect without a callback. */
    constructor (ctx: Context, outcome: Handshake)
      modifies ctx
      ensures Valid() && fresh(s) && s.ctx == ctx && (old(ctx.done) ==> ctx.done)
      ensures finished == refused == outcome.Refused? && calls == []
    {
      var session := new Session(ctx);
      var ok := session.Dial(outcome);
      if ok {
        session.StartReader();
      }
      s, finished, refused, timedOut, calls := session, !ok, !ok, false, [];
    }

    /** Releases the connection's goroutines and records the outcome. */
    method Finish()
      requires !finished && s.Valid() && s.Linked() && H.InUse(s.link) && s.metrics.samples == []
      requires !refused && s.failed == (s.past.abnormal || timedOut) && (s.done && !s.ctx.done ==> s.past.ends == 1)
      modifies this`finished, s, s.ctx
      ensures Valid() && finished && (old(s.ctx.done) ==> s.ctx.done) && timedOut == old(timedOut)
      ensures s.past.timed == old(s.past.timed) && s.past.fates == old(s.past.fates) && s.past.abnormal == old(s.past.abnormal)
      ensures s.metrics.latencies == old(s.metrics.latencies)
      ensures !s.ctx.done ==> s.Now() == Finished(old(s.Now()))
    {
      finished := true;
      s.Release();
      s.Conclude();
    }

    /** socket.send: every message is reply-marked unless the script says otherwise. */
    method Send(reply: bool, start: int, write: Write) returns (ok: bool)
      requires Valid()
      modifies this`finished, this`calls, s, s.ctx
      ensures Valid() && (old(s.ctx.done) ==> s.ctx.done) && (old(finished) ==> finished && !ok)
      ensures ok ==> s.past.timed == old(s.past.timed) + (if reply then [start] else [])
      ensures ok ==> s.past.fates == old(s.past.fates) + (if reply && |old(s.pending)| == MAX_PENDING_REPLIES then [Evicted] else [])
      ensures !ok ==> s.past.timed == old(s.past.timed) && s.past.fates == old(s.past.fates)
      ensures ok <==> !old(finished) && write.Written?
      ensures ok ==> !finished
      ensures !ok && !old(finished) ==> finished && (!s.ctx.done ==> s.past.abnormal)
      ensures calls == old(calls) + [Call.Send(reply, start, write)]
      ensures !s.ctx.done ==> s.Now() == AfterSend(old(s.Now()), old(finished), reply, start, write)
    {
      calls := calls + [Call.Send(reply, start, write)];
      if finished {
        s.CountError();
        s.failed, s.code := true, Closed;
        return false;
      }
      ok := s.SendMessage(reply, start, write, [], []);
      if s.done {
        Finish();
      }
    }

    /** socket.receive. */
    method Receive(wait: Wait) returns (got: bool)
      requires Valid()
      modifies this, s, s.ctx
      ensures Valid() && (old(s.ctx.done) ==> s.ctx.done) && (old(finished) ==> finished) && s.past.timed == old(s.past.timed)
      ensures got == (!old(finished) && wait.Got? && wait.event.Message?)
      ensures got ==> s.past.arrivals == old(s.past.arrivals) + [wait.event.at]
      ensures got && old(s.pending) != [] ==> s.past.fates == old(s.past.fates) + [Paired(|old(s.past.arrivals)|)]
      ensures got && old(s.pending) != [] && !s.ctx.done ==>
        s.metrics.latencies == old(s.metrics.latencies) + [wait.event.at - s.past.timed[|old(s.past.fates)|]]
      ensures !got || old(s.pending) == [] ==>
        s.past.fates == old(s.past.fates) && s.metrics.latencies == old(s.metrics.latencies)
      ensures timedOut == (old(timedOut) || (wait.TimedOut? && !old(finished)))
      ensures !old(finished) ==> (finished <==> wait.ChannelClosed? || (wait.Got? && wait.event.ReadError?))
      ensures !old(finished) ==> s.past.abnormal == (wait.Got? && wait.event.ReadError? && wait.event.status !in {STATUS_NORMAL, STATUS_GOING_AWAY})
      ensures calls == old(calls) + [Call.Receive(wait)]
      ensures old(finished) ==> unchanged(s)
      ensures !old(finished) && !s.ctx.done ==> s.Now() == AfterReceive(old(s.Now()), wait)
    {
      calls := calls + [Call.Receive(wait)];
      if finished || s.done {
        return false;
      }
      got := ReceiveOpen(wait);
    }

    /** receive on a socket that is not finished. */
    method ReceiveOpen(wait: Wait) returns (got: bool)
      requires Valid() && !finished
      modifies this`finished, this`timedOut, s, s.ctx
      ensures Valid() && (old(s.ctx.done) ==> s.ctx.done) && s.past.timed == old(s.past.timed)
      ensures got == (wait.Got? && wait.event.Message?)
      ensures got ==> s.past.arrivals == old(s.past.arrivals) + [wait.event.at]
      ensures got && old(s.pending) != [] ==> s.past.fates == old(s.past.fates) + [Paired(|old(s.past.arrivals)|)]
      ensures got && old(s.pending) != [] && !s.ctx.done ==>
        s.metrics.latencies == old(s.metrics.latencies) + [wait.event.at - s.past.timed[|old(s.past.fates)|]]
      ensures !got || old(s.pending) == [] ==>
        s.past.fates == old(s.past.fates) && s.metrics.latencies == old(s.metrics.latencies)
      ensures timedOut == (old(timedOut) || wait.TimedOut?)
      ensures finished <==> wait.ChannelClosed? || (wait.Got? && wait.event.ReadError?)
      ensures s.past.abnormal == (wait.Got? && wait.event.ReadError? && wait.event.status !in {STATUS_NORMAL, STATUS_GOING_AWAY})
      ensures !s.ctx.done ==> s.Now() == AfterReceive(old(s.Now()), wait)
    {
      s.Elapse();
      match wait {
        case ChannelClosed =>
          FinishAfter(wait);
          return false;
        case Got(ReadError(_, _)) =>
          FinishAfter(wait);
          return false;
        case Got(Message(at)) =>
          s.TakeMessage(at);
          return true;
        case TimedOut =>
          s.CountError();
          s.failed, s.code := true, Timeout;
          timedOut := true;
          return false;
        case TestEnds =>
          return false;
      }
    }

    /** The channel is closed, or the reader stopped with an error. */
    method FinishAfter(wait: Wait)
      requires Valid() && !finished && (wait.ChannelClosed? || (wait.Got? && wait.event.ReadError?))
      modifies this`finished, s, s.ctx
      ensures Valid() && finished && (old(s.ctx.done) ==> s.ctx.done)
      ensures s.past.timed == old(s.past.timed) && s.past.fates == old(s.past.fates)
      ensures s.metrics.latencies == old(s.metrics.latencies)
      ensures s.past.abnormal == (wait.Got? && wait.event.status !in {STATUS_NORMAL, STATUS_GOING_AWAY})
      ensures !s.ctx.done ==> s.Now() == AfterReceive(old(s.Now()), wait)
    {
      if wait.ChannelClosed? {
        s.End(false, NoCode, STATUS_ABNORMAL, []);
      } else {
        s.ReadFailed(wait.event.status, wait.event.code, [], []);
      }
      Finish();
    }

    /** socket.close: waits until the socket is closed. */
    method Close(code: int, drained: Drained)
      requires Valid()
      modifies this`finished, this`calls, s, s.ctx
      ensures Valid() && finished && (old(s.ctx.done) ==> s.ctx.done)
      ensures old(finished) ==> unchanged(s) && unchanged(s.ctx)
      ensures !old(finished) ==> s.past.abnormal == (drained.Stopped? && 0 <= drained.status && drained.status !in {STATUS_NORMAL, STATUS_GOING_AWAY})
      ensures s.past.timed == old(s.past.timed) && s.past.fates == old(s.past.fates)
      ensures calls == old(calls) + [Call.Close(code, drained)]
      ensures !old(finished) && !s.ctx.done ==> s.Now() == AfterClose(old(s.Now()), code, drained)
    {
      calls := calls + [Call.Close(code, drained)];
      if finished {
        return;
      }
      if !s.done {
        s.CloseSocket();
        StartedIsLinked(old(s.link), false, true);
        s.DrainForClose();
        EndDrained(code, drained);
      }
      Finish();
    }

    /** What the drain found ends the session. */
    method EndDrained(code: int, drained: Drained)
      requires s.Valid() && !s.done && s.closing && s.past.ends == 0 && !s.past.abnormal
      modifies s, s.ctx
      ensures s.Valid() && s.done && s.past.ends == 1 && s.closing && s.link == old(s.link)
      ensures Later(old(s.Now()), s.Now()) && Silently(old(s.Now()), s.Now())
      ensures s.past.abnormal == (drained.Stopped? && 0 <= drained.status && drained.status !in {STATUS_NORMAL, STATUS_GOING_AWAY})
      ensures !s.ctx.done ==>
        s.Now() == DoEnd(if drained.Stopped? then DoReadFailed(old(s.Now()), drained.status, drained.code, [], []) else old(s.Now()),
                         false, NoCode, code, [])
    {
      if drained.Stopped? {
        s.ReadFailed(drained.status, drained.code, [], []);
      }
      s.End(false, NoCode, code, []);
    }
  }

  // ---------- An iteration ----------

  datatype Op = Connect(outcome: Handshake) | On(i: nat, call: Call)

  /** Sockets of one test context, each with a session of its own. */
  ghost predicate AllValid(sockets: set<BlockingSocket>, ctx: Context)
    reads ctx, sockets, set b | b in sockets :: b.s
  {
    AllValidIn(sockets, ctx, ctx.done)
  }

  ghost predicate AllValidIn(sockets: set<BlockingSocket>, ctx: Context, ctxDone: bool)
    reads sockets, set b | b in sockets :: b.s
  {
    && (forall a, b :: a in sockets && b in sockets && a != b ==> a.s != b.s)
    && (forall b :: b in sockets ==> b.s.ctx == ctx)
    && forall b {:trigger b.ValidIn(ctxDone)} :: b in sockets ==> b.ValidIn(ctxDone)
  }

  /** The test may end meanwhile. */
  lemma StillValid(sockets: set<BlockingSocket>, ctx: Context, before: bool, after: bool)
    requires AllValidIn(sockets, ctx, before) && (before ==> after)
    ensures AllValidIn(sockets, ctx, after)
  {
    forall b | b in sockets ensures b.ValidIn(after) {
      assert b.ValidIn(before);
    }
  }

  /** One call on one of the sockets leaves all of them valid. */
  method Apply(b: BlockingSocket, call: Call, ctx: Context, ghost sockets: set<BlockingSocket>)
    requires b in sockets && AllValid(sockets, ctx)
    modifies b, b.s, ctx
    ensures AllValid(sockets, ctx) && (old(ctx.done) ==> ctx.done)
    ensures old(b.finished) ==> b.finished
    ensures (call.Close? ==> b.finished) && b.calls == old(b.calls) + [call]
  {
    ghost var (others, before) := (sockets - {b}, ctx.done);
    assert AllValidIn(others, ctx, before);
    match call {
      case Send(reply, start, write) =>
        var ok := b.Send(reply, start, write);
      case Receive(wait) =>
        var got := b.Receive(wait);
      case Close(code, drained) =>
        b.Close(code, drained);
    }
    StillValid(others, ctx, before, ctx.done);
    assert b.ValidIn(ctx.done);
    assert sockets == others + {b};
  }

  /** What has been called on each of the sockets. */
  ghost function Logs(sockets: seq<BlockingSocket>): seq<seq<Call>>
    reads set b | b in sockets
  {
    seq(|sockets|, i requires 0 <= i < |sockets| reads set b | b in sockets => sockets[i].calls)
  }

  /** One more operation: a socket with no calls yet, or a call on one there is. */
  ghost function AfterOp(logs: seq<seq<Call>>, op: Op): seq<seq<Call>> {
    match op
    case Connect(_) => logs + [[]]
    case On(i, call) => if i < |logs| then logs[i := logs[i] + [call]] else logs
  }

  ghost function CallsOf(ops: seq<Op>): seq<seq<Call>> {
    if ops == [] then [] else AfterOp(CallsOf(ops[..|ops| - 1]), ops[|ops| - 1])
  }

  /** One call on the i-th socket; no other takes a call. */
  method CallOn(i: nat, call: Call, ctx: Context, sockets: seq<BlockingSocket>, ghost all: set<BlockingSocket>)
    requires i < |sockets| && AllValid(all, ctx) && AllDifferent(sockets) && forall b :: b in all <==> b in sockets
    modifies ctx, all, set b | b in all :: b.s
    ensures AllValid(all, ctx) && (old(ctx.done) ==> ctx.done)
    ensures Logs(sockets) == old(Logs(sockets))[i := old(Logs(sockets))[i] + [call]]
  {
    var b := sockets[i];
    Apply(b, call, ctx, all);
  }

  /** The iteration's end adds a normal close, unless the socket was refused. */
  ghost predicate ClosedLast(was: seq<Call>, calls: seq<Call>, refused: bool) {
    if refused then calls == was else exists drained :: calls == was + [Call.Close(STATUS_NORMAL, drained)]
  }

  lemma LastIsClose(was: seq<Call>, drained: Drained)
    ensures ClosedLast(was, was + [Call.Close(STATUS_NORMAL, drained)], false)
  {
  }

  ghost predicate AllDifferent(sockets: seq<BlockingSocket>) {
    forall i, j :: 0 <= i < j < |sockets| ==> sockets[i] != sockets[j]
  }

  /** Closes the sockets in order; drains is what closing each of them finds. */
  method CloseAll(list: seq<BlockingSocket>, drains: seq<Drained>, ctx: Context, ghost sockets: set<BlockingSocket>)
    requires AllValid(sockets, ctx) && AllDifferent(list) && |drains| == |list|
    requires forall j :: 0 <= j < |list| ==> list[j] in sockets && !list[j].refused
    modifies ctx, sockets, set b | b in sockets :: b.s
    ensures AllValid(sockets, ctx) && (old(ctx.done) ==> ctx.done)
    ensures forall j :: 0 <= j < |list| ==>
      list[j].finished && list[j].calls == old(list[j].calls) + [Call.Close(STATUS_NORMAL, drains[j])]
    ensures forall b :: b in sockets && b.refused ==> b.calls == old(b.calls)
  {
    for i := 0 to |list|
      invariant AllValid(sockets, ctx) && (old(ctx.done) ==> ctx.done)
      invariant forall j :: 0 <= j < i ==>
        list[j].finished && list[j].calls == old(list[j].calls) + [Call.Close(STATUS_NORMAL, drains[j])]
      invariant forall b :: b in sockets && b !in list[..i] ==> b.calls == old(b.calls)
    {
      var b := list[i];
      Apply(b, Call.Close(STATUS_NORMAL, drains[i]), ctx, sockets);
    }
  }

  /** The blocking-style sockets an iteration has opened. */
  class Instance {
    var open: seq<BlockingSocket>

    constructor ()
      ensures open == []
    {
      open := [];
    }

    /** Closes every socket the iteration left open. */
    method EndIteration(ctx: Context, ghost sockets: set<BlockingSocket>)
      requires AllValid(sockets, ctx) && Keeps(sockets)
      modifies this, ctx, sockets, set b | b in sockets :: b.s
      ensures open == [] && AllValid(sockets, ctx) && (old(ctx.done) ==> ctx.done)
      ensures forall b :: b in sockets ==> b.finished && ClosedLast(old(b.calls), b.calls, b.refused)
    {
      assert |seq(|open|, _ => Nothing)| == |open|;
      var drains: seq<Drained> :| |drains| == |open|;
      CloseAll(open, drains, ctx, sockets);
      forall b | b in sockets ensures b.finished && ClosedLast(old(b.calls), b.calls, b.refused) {
        assert b.ValidIn(ctx.done);
        if !b.refused {
          var j :| 0 <= j < |open| && open[j] == b;
          LastIsClose(old(b.calls), drains[j]);
        }
      }
      open := [];
    }

    /** ws.connect: the socket, which is the iteration's to close if it opened. */
    method Connect(ctx: Context, outcome: Handshake, ghost sockets: set<BlockingSocket>) returns (b: BlockingSocket)
      requires AllValid(sockets, ctx)
      modifies this, ctx
      ensures fresh(b) && fresh(b.s) && AllValid(sockets + {b}, ctx) && (old(ctx.done) ==> ctx.done)
      ensures b.refused == b.finished == outcome.Refused? && open == old(open) + (if b.finished then [] else [b]) && b.calls == []
    {
      b := new BlockingSocket(ctx, outcome);
      StillValid(sockets, ctx, old(ctx.done), ctx.done);
      if !b.finished {
        open := open + [b];
      }
    }

    /** Every socket that was not refused is the iteration's to close, once. */
    ghost predicate Keeps(sockets: set<BlockingSocket>)
      reads this
    {
      && (forall b :: b in open ==> b in sockets && !b.refused)
      && (forall b :: b in sockets ==> b.refused || b in open)
      && AllDifferent(open)
    }

    /** One operation of the script; sockets are those of its connects so far. */
    method Take(op: Op, ctx: Context, sockets: seq<BlockingSocket>, ghost all: set<BlockingSocket>)
      returns (made: seq<BlockingSocket>)
      requires AllValid(all, ctx) && Keeps(all) && AllDifferent(sockets) && forall b :: b in all <==> b in sockets
      modifies this, ctx, all, set b | b in all :: b.s
      ensures |made| == (if op.Connect? then 1 else 0)
      ensures forall b :: b in made ==> fresh(b) && fresh(b.s) && b !in sockets && b.refused == op.outcome.Refused?
      ensures AllValid(all + (set b | b in made), ctx) && Keeps(all + set b | b in made)
      ensures Logs(sockets + made) == AfterOp(old(Logs(sockets)), op)
    {
      match op {
        case Connect(outcome) =>
          var b := Connect(ctx, outcome, all);
          made := [b];
          assert (set b | b in made) == {b};
        case On(i, call) =>
          made := [];
          assert all + (set b | b in made) == all && sockets + made == sockets;
          if i < |sockets| {
            CallOn(i, call, ctx, sockets, all);
          }
      }
    }
  }

  /** The handshakes among the operations, in order. */
  function Handshakes(ops: seq<Op>): (hs: seq<Handshake>)
    ensures |hs| <= |ops|
  {
    if ops == [] then []
    else Handshakes(ops[..|ops| - 1]) + (match ops[|ops| - 1] case Connect(outcome) => [outcome] case On(_, _) => [])
  }

  /** One socket for each handshake, refused if it was refused, all of them different. */
  ghost predicate OnePerHandshake(sockets: seq<BlockingSocket>, hs: seq<Handshake>) {
    && |sockets| == |hs|
    && (forall i :: 0 <= i < |hs| ==> sockets[i].refused == hs[i].Refused?)
    && AllDifferent(sockets)
  }

  lemma OneMoreOp(ops: seq<Op>, k: nat, sockets: seq<BlockingSocket>, made: seq<BlockingSocket>)
    requires k < |ops| && OnePerHandshake(sockets, Handshakes(ops[..k]))
    requires |made| == (if ops[k].Connect? then 1 else 0)
    requires forall b :: b in made ==> b !in sockets && b.refused == ops[k].outcome.Refused?
    ensures OnePerHandshake(sockets + made, Handshakes(ops[..k + 1]))
  {
    assert ops[..k + 1][..k] == ops[..k];
    if made != [] {
      assert made[0] in made;
    }
  }

  /** Any sequence of calls on any sockets of an iteration, then its end. There is one
      socket for each connect, refused ones included, which took the calls made on it
      and, unless refused, a last close. Every one is finished: its goroutines are gone,
      end took effect at most once and, while the test lives, exactly one outcome was
      recorded for it, as ValidIn says. */
  method RunIteration(ctx: Context, ops: seq<Op>) returns (sockets: seq<BlockingSocket>)
    modifies ctx
    ensures OnePerHandshake(sockets, Handshakes(ops))
    ensures |CallsOf(ops)| == |sockets|
    ensures forall i :: 0 <= i < |sockets| ==> ClosedLast(CallsOf(ops)[i], sockets[i].calls, sockets[i].refused)
    ensures AllValid((set b | b in sockets), ctx) && forall b :: b in sockets ==> b.finished
  {
    var instance := new Instance();
    ghost var all;
    sockets, all := RunScript(instance, ctx, ops);
    instance.EndIteration(ctx, all);
    assert all == (set b | b in sockets);
    forall i | 0 <= i < |sockets| ensures ClosedLast(CallsOf(ops)[i], sockets[i].calls, sockets[i].refused) {
      assert sockets[i] in all;
    }
  }

  /** The script's operations. */
  method RunScript(instance: Instance, ctx: Context, ops: seq<Op>)
    returns (sockets: seq<BlockingSocket>, ghost all: set<BlockingSocket>)
    requires instance.open == []
    modifies instance, ctx
    ensures AllValid(all, ctx) && instance.Keeps(all) && (forall b :: b in all <==> b in sockets)
    ensures forall b :: b in all ==> fresh(b) && fresh(b.s)
    ensures OnePerHandshake(sockets, Handshakes(ops)) && Logs(sockets) == CallsOf(ops)
  {
    sockets, all := [], {};
    for k := 0 to |ops|
      invariant AllValid(all, ctx) && instance.Keeps(all) && (forall b :: b in all <==> b in sockets)
      invariant forall b :: b in all ==> fresh(b) && fresh(b.s)
      invariant OnePerHandshake(sockets, Handshakes(ops[..k])) && Logs(sockets) == CallsOf(ops[..k])
    {
      var made := instance.Take(ops[k], ctx, sockets, all);
      OneMoreOp(ops, k, sockets, made);
      OneMoreCall(ops, k);
      sockets, all := sockets + made, all + set b | b in made;
    }
    assert ops[..|ops|] == ops;
  }

  lemma OneMoreCall(ops: seq<Op>, k: nat)
    requires k < |ops|
    ensures CallsOf(ops[..k + 1]) == AfterOp(CallsOf(ops[..k]), ops[k])
  {
    assert ops[..k + 1][..k] == ops[..k];
  }

  /** The outcome recorded for a socket is the documented one, a failed handshake or an
      abnormal end, unless a receive timed out on a socket of which neither is true. */
  lemma DocumentedOutcomeIff(b: BlockingSocket)
    requires b.Valid() && b.finished && b.s.metrics.samples != []
    ensures b.s.metrics.samples[0] == (b.refused || b.s.past.abnormal) <==> (b.timedOut ==> b.refused || b.s.past.abnormal)
  {
  }

  /** A receive that timed out marks the session failed even if it then closes
      cleanly. */
  method TimeoutThenCleanClose(ctx: Context) returns (b: BlockingSocket)
    modifies ctx
    ensures fresh(b) && fresh(b.s) && b.s.ctx == ctx && b.Valid() && b.finished && !b.refused && !b.s.past.abnormal
    ensures !ctx.done ==> b.s.metrics.samples == [true]
  {
    b := new BlockingSocket(ctx, Established);
    var got := b.Receive(TimedOut);
    b.Close(STATUS_NORMAL, Stopped(STATUS_NORMAL, NoCode));
  }
}
