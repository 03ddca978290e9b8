// One WebSocket session: the part both styles share, and the callback style.
// What the network, the clock and the script's JavaScript do comes in as
// arguments; the test context may end at any moment. The connection's goroutines
// are those of WsHandOff: a session follows them in ghost state, where they may
// take any steps while the VU is busy or waits. While the test lives, each method
// does what its function in WsScript says.
module WsSession {
  import opened WsScript
  import H = WsHandOff

  /** The test context: once it has ended it stays so, and any look at it may be
      the first after it has. */
  class Context {
    var done: bool

    constructor ()
      ensures !done
    {
      done := false;
    }

    method Err() returns (ended: bool)
      modifies this
      ensures old(done) ==> done
      ensures ended == done
    {
      if * {
        done := true;
      }
      return done;
    }
  }

  /** The connection's state once a close handshake has been started, if one was. */
  ghost function Started(link: H.State, wasClosing: bool, closing: bool): H.State {
    if closing && !wasClosing && H.InUse(link) then link.(closer := H.Handshaking) else link
  }

  lemma StartedIsLinked(link: H.State, wasClosing: bool, closing: bool)
    requires H.Inv(link) && (H.InUse(link) ==> (wasClosing <==> link.closer != H.NotStarted)) && (wasClosing ==> closing)
    ensures var next := Started(link, wasClosing, closing);
      H.Inv(next) && H.InUse(next) == H.InUse(link) && (H.InUse(next) ==> (closing <==> next.closer != H.NotStarted))
  {
    var next := Started(link, wasClosing, closing);
    if next != link {
      H.StepKeepsInv(link, next);
    }
  }

  class Session {
    const ctx: Context
    // Whether s.err is set, and s.code.
    var failed: bool
    var code: Code
    var closeCode: int
    // The times of the sends that still await a reply, in the order of IsQueue.
    var pending: seq<int>
    var closing: bool
    var done: bool
    var thrown: bool
    // The connection's goroutines and channel.
    ghost var link: H.State
    // What has been recorded.
    var metrics: Metrics
    ghost var past: History

    constructor (ctx: Context)
      ensures Valid() && this.ctx == ctx && !done && !closing && !failed && !thrown && link == H.Nothing()
      ensures Now() == Fresh(ctx.done)
    {
      this.ctx := ctx;
      failed, code, closeCode, pending, closing, done, thrown := false, NoCode, 0, [], false, false, false;
      link := H.Nothing();
      metrics, past := Metrics([], 0, 0, 0, 0, []), History([], [], [], [], 0, false);
    }

    ghost predicate Valid()
      reads this, ctx
    {
      ValidIn(ctx.done)
    }

    ghost predicate ValidIn(ctxDone: bool)
      reads this
    {
      && Tracked(pending, past.timed, past.fates, past.arrivals, metrics.received, metrics.latencies, !ctxDone)
      && past.ends <= 1 && (0 < past.ends ==> done) && (past.abnormal ==> failed && past.ends == 1)
    }

    /** The goroutines are where some interleaving can have brought them; while the VU
        uses the connection, a close handshake was started if closing says so. */
    ghost predicate Linked()
      reads this
    {
      H.Inv(link) && (H.InUse(link) ==> (closing <==> link.closer != H.NotStarted))
    }

    /** All that happens to the connection meanwhile is the start of a close handshake. */
    twostate predicate Starts()
      reads this
    {
      (old(closing) ==> closing) && link == Started(old(link), old(closing), closing)
    }

    ghost function Now(): View
      reads this, ctx
    {
      NowIn(ctx.done)
    }

    ghost function NowIn(ctxDone: bool): View
      reads this
    {
      View(ctxDone, done, closing, thrown, failed, code, closeCode, pending, metrics, past)
    }

    // ---------- Recording ----------

    /** Whether there is a recorder: only while the test context is live. */
    method Recording() returns (live: bool)
      modifies ctx
      ensures old(ctx.done) ==> ctx.done
      ensures live == !ctx.done
    {
      var ended := ctx.Err();
      live := !ended;
    }

    method CountError()
      modifies this`metrics, ctx
      ensures old(ctx.done) ==> ctx.done
      ensures metrics == old(metrics).(errors := metrics.errors)
      ensures !ctx.done ==> Now() == CountedError(old(Now()))
    {
      var live := Recording();
      if live { metrics := metrics.(errors := metrics.errors + 1); }
    }

    method CountSent()
      modifies this`metrics, ctx
      ensures (old(ctx.done) ==> ctx.done) && metrics == old(metrics).(sent := metrics.sent)
      ensures !ctx.done ==> metrics.sent == old(metrics.sent) + 1
    {
      var live := Recording();
      if live { metrics := metrics.(sent := metrics.sent + 1); }
    }

    method CountReceived()
      modifies this`metrics, ctx
      ensures (old(ctx.done) ==> ctx.done) && metrics == old(metrics).(received := metrics.received)
      ensures !ctx.done ==> metrics.received == old(metrics.received) + 1
    {
      var live := Recording();
      if live { metrics := metrics.(received := metrics.received + 1); }
    }

    method RecordLatency(d: int)
      modifies this`metrics, ctx
      ensures (old(ctx.done) ==> ctx.done) && metrics == old(metrics).(latencies := metrics.latencies)
      ensures !ctx.done ==> metrics.latencies == old(metrics.latencies) + [d]
    {
      var live := Recording();
      if live { metrics := metrics.(latencies := metrics.latencies + [d]); }
    }

    method RecordSessionFailed(value: bool)
      modifies this`metrics, ctx
      ensures old(ctx.done) ==> ctx.done
      ensures metrics == old(metrics).(samples := metrics.samples)
      ensures metrics.samples == old(metrics.samples) || metrics.samples == old(metrics.samples) + [value]
      ensures !ctx.done ==> metrics.samples == old(metrics.samples) + [value]
    {
      var live := Recording();
      if live { metrics := metrics.(samples := metrics.samples + [value]); }
    }

    method RecordSessionEnd()
      modifies this`metrics, ctx
      ensures old(ctx.done) ==> ctx.done
      ensures metrics == old(metrics).(samples := metrics.samples, durations := metrics.durations)
      ensures metrics.samples == old(metrics.samples) || metrics.samples == old(metrics.samples) + [failed]
      ensures !ctx.done ==> Now() == Recorded(old(Now()))
    {
      var live := Recording();
      if live { metrics := metrics.(durations := metrics.durations + 1); }
      RecordSessionFailed(failed);
    }

    // ---------- The connection's goroutines ----------

    /** Starts the reader of a new connection. */
    ghost method StartReader()
      requires Valid() && !closing
      modifies this`link
      ensures Valid() && Linked() && link == H.Start() && Now() == old(Now())
    {
      link := H.Start();
    }

    /** Time passes, for the goroutines too. */
    ghost method Elapse()
      requires Linked()
      modifies this`link
      ensures Linked() && H.InUse(link) == old(H.InUse(link)) && (!H.InUse(link) ==> link == old(link)) && Now() == old(Now())
    {
      if H.InUse(link) {
        link := H.Elapse(link);
      }
    }

    /** The drain of close: when it is over the VU goes on to the release. There is none
        if the reader's error has been received. */
    ghost method DrainForClose()
      requires Linked() && H.InUse(link) && closing
      modifies this`link
      ensures Linked() && link.vu == H.Stopping && H.Reached(old(link), link) && Now() == old(Now())
    {
      if link.vu == H.Open {
        link := H.Drain(link);
      } else {
        assert H.ReachedIn(link, link, 0);
      }
    }

    /** The release: when it returns, none of the goroutines is left. */
    ghost method Release()
      requires Linked() && H.InUse(link)
      modifies this`link
      ensures Linked() && !H.InUse(link) && H.Reached(old(link), link) && H.Quiet(link)
      ensures Now() == old(Now())
    {
      link := H.Release(link);
    }

    // ---------- Life cycle ----------

    /** The handshake. A failed one is a failed session. */
    method Dial(outcome: Handshake) returns (ok: bool)
      requires Valid() && metrics.samples == [] && !done && !failed && past.ends == 0
      modifies this`failed, this`code, this`metrics, ctx
      ensures Valid() && (old(ctx.done) ==> ctx.done)
      ensures ok == outcome.Established?
      ensures ok ==> unchanged(this)
      ensures metrics == old(metrics).(samples := metrics.samples)
      ensures !ok ==> failed && code == outcome.code && (metrics.samples == [true] || (metrics.samples == [] && ctx.done))
      ensures !ok && !ctx.done ==> Now() == old(Now()).(failed := true, code := outcome.code, metrics := old(metrics).(samples := [true]))
    {
      if outcome.Established? {
        return true;
      }
      failed, code := true, outcome.code;
      RecordSessionFailed(true);
      return false;
    }

    /** Marks the session over, once, and fires "close". */
    method End(error: bool, codeIfError: Code, closeWith: int, onClose: Handlers)
      requires Valid()
      modifies this, ctx
      ensures Valid() && done && Later(old(Now()), Now()) && Starts()
      ensures !old(done) ==> past.ends == 1 && closeCode == closeWith && past.abnormal == error
      ensures !old(done) ==> Begun(onClose, old(|past.ran|), past.ran, !thrown && !ctx.done)
      ensures onClose == [] ==> Silently(old(Now()), Now())
      ensures !ctx.done ==> Now() == DoEnd(old(Now()), error, codeIfError, closeWith, onClose)
      decreases HandlersWeight(onClose), 5
    {
      if done {
        return;
      }
      MarkEnded(error, codeIfError, closeWith);
      Emit(onClose);
    }

    /** Ends a session that is released, if it is not over, and records its outcome. */
    method Conclude()
      requires Valid() && metrics.samples == []
      modifies this, ctx
      ensures Valid() && done && link == old(link) && (old(ctx.done) ==> ctx.done)
      ensures past.timed == old(past.timed) && past.fates == old(past.fates) && past.abnormal == old(past.abnormal)
      ensures past.arrivals == old(past.arrivals) && metrics.latencies == old(metrics.latencies)
      ensures past.ends == if old(done) then old(past.ends) else 1
      ensures !ctx.done ==> Now() == Recorded(if old(done) then old(Now()) else Marked(old(Now()), false, NoCode, STATUS_NORMAL))
      ensures |metrics.samples| <= 1 && (metrics.samples != [] ==> metrics.samples[0] == old(failed)) && (!ctx.done ==> |metrics.samples| == 1)
    {
      if !done {
        MarkEnded(false, NoCode, STATUS_NORMAL);
      }
      var ended := ctx.Err();
      if !ended {
        RecordSessionEnd();
      }
    }

    method MarkEnded(error: bool, codeIfError: Code, closeWith: int)
      modifies this`done, this`closeCode, this`past, this`failed, this`code
      ensures Now() == Marked(old(Now()), error, codeIfError, closeWith)
    {
      done, closeCode, past := true, closeWith, past.(ends := past.ends + 1, abnormal := error);
      if error && !failed {
        failed := true;
        if code == NoCode { code := codeIfError; }
      }
    }

    /** Calls the handlers of one event, until one throws or is interrupted. */
    method Emit(handlers: Handlers)
      requires Valid()
      modifies this, ctx
      ensures Valid() && EndsBadly(old(Now()), Now()) && Starts()
      ensures handlers == [] ==> Now() == old(Now())
      ensures Begun(handlers, old(|past.ran|), past.ran, !thrown && !ctx.done)
      ensures !ctx.done ==> Now() == DoEmit(old(Now()), handlers)
      decreases HandlersWeight(handlers), 4
    {
      ghost var at: seq<nat> := [];
      for i := 0 to |handlers|
        invariant Valid() && EndsBadly(old(Now()), Now()) && Starts()
        invariant i == 0 ==> Now() == old(Now())
        invariant |at| == i && RanInOrder(handlers[..i], old(|past.ran|), past.ran, at)
        invariant !ctx.done ==> DoEmit(old(Now()), handlers) == DoEmit(Now(), handlers[i..])
      {
        DoEmitFrom(Now(), handlers, i);
        if thrown {
          return;
        }
        ScriptIsLighter(handlers, i);
        var threw;
        threw, at := Call(handlers, i, old(|past.ran|), at);
        if threw {
          return;
        }
      }
    }

    /** Runs the i-th handler, after those that began as at says. */
    method Call(handlers: Handlers, i: nat, ghost from: nat, ghost at: seq<nat>) returns (threw: bool, ghost at': seq<nat>)
      requires Valid() && i < |handlers| && from <= |past.ran| && RanInOrder(handlers[..i], from, past.ran, at)
      modifies this, ctx
      ensures Valid() && EndsBadly(old(Now()), Now()) && Starts()
      ensures |at'| == i + 1 && RanInOrder(handlers[..i + 1], from, past.ran, at')
      ensures threw ==> done && (thrown || ctx.done)
      ensures Throws(handlers[i]) ==> threw
      ensures !ctx.done ==> var (w, t) := DoScript(old(Now()), handlers[i]); t == threw && Now() == if t then Thrown(w) else w
      decreases ScriptWeight(handlers[i]), 3
    {
      ghost var before := past.ran;
      threw := Perform(handlers[i]);
      OneMoreRan(handlers, i, from, before, past.ran, at);
      at' := at + [|before|];
      if threw {
        HandleThrow();
      }
    }

    /** Runs one handler (or the setup callback, or a timer): its actions in order,
        unless it throws or the end of the test interrupts it. */
    method Perform(script: Script) returns (threw: bool)
      requires Valid()
      modifies this, ctx
      ensures Valid() && EndsBadly(old(Now()), Now()) && Starts() && old(past.ran) + [script] <= past.ran
      ensures (Throw in script.actions ==> threw) && (threw ==> Throw in script.actions || ctx.done)
      ensures !ctx.done ==> (Now(), threw) == DoScript(old(Now()), script)
      decreases ScriptWeight(script), 2
    {
      past := past.(ran := past.ran + [script]);
      threw := ActAll(script.actions);
    }

    /** Actions in order, until one stops the script. */
    method ActAll(actions: seq<Action>) returns (threw: bool)
      requires Valid()
      modifies this, ctx
      ensures Valid() && EndsBadly(old(Now()), Now()) && Starts()
      ensures (Throw in actions ==> threw) && (threw ==> Throw in actions || ctx.done)
      ensures !ctx.done ==> (Now(), threw) == DoActions(old(Now()), actions)
      decreases ActionsWeight(actions), 1
    {
      for i := 0 to |actions|
        invariant Valid() && EndsBadly(old(Now()), Now()) && Starts()
        invariant forall k :: 0 <= k < i ==> !actions[k].Throw?
        invariant !ctx.done ==> DoActions(old(Now()), actions) == DoActions(Now(), actions[i..])
      {
        DoActionsFrom(Now(), actions, i);
        ActionIsLighter(actions, i);
        threw := Act(actions[i]);
        if threw {
          return;
        }
      }
      return false;
    }

    method Act(a: Action) returns (stop: bool)
      requires Valid()
      modifies this, ctx
      ensures Valid() && EndsBadly(old(Now()), Now()) && Starts()
      ensures (a.Throw? ==> stop) && (stop ==> a.Throw? || ctx.done)
      ensures !ctx.done ==> (Now(), stop) == DoAction(old(Now()), a)
      decreases Weight(a), 0
    {
      var ended := ctx.Err();
      if ended {
        if * {
          return true;
        }
      }
      match a {
        case Send(reply, start, write, onError, onClose) =>
          var written := SendMessage(reply, start, write, onError, onClose);
        case Close =>
          CloseSocket();
        case Throw =>
          return true;
      }
      return false;
    }

    method HandleThrow()
      requires Valid()
      modifies this`done, this`thrown, ctx
      ensures Valid() && done && Later(old(Now()), Now()) && Starts() && (thrown || ctx.done)
      ensures !ctx.done ==> Now() == Thrown(old(Now()))
    {
      done := true;
      var ended := ctx.Err();
      if !ended {
        thrown := true;
      }
    }

    // ---------- Sending and receiving ----------

    /** Writes one message. A reply-marked one awaits its reply in the queue, at the
        cost of the oldest if that is full. */
    method SendMessage(reply: bool, start: int, write: Write, onError: Handlers, onClose: Handlers) returns (written: bool)
      requires Valid()
      modifies this, ctx
      ensures Valid() && EndsBadly(old(Now()), Now()) && Starts()
      ensures written <==> !old(done) && !old(closing) && write.Written?
      ensures !written && !old(closing) ==> done
      ensures written ==> done == old(done) && past.timed == old(past.timed) + (if reply then [start] else [])
      ensures written ==> closing == old(closing) && failed == old(failed) && past.ends == old(past.ends) && past.abnormal == old(past.abnormal)
      ensures written ==> past.fates == old(past.fates) + (if reply && |old(pending)| == MAX_PENDING_REPLIES then [Evicted] else [])
      ensures !ctx.done ==> Now() == DoSend(old(Now()), reply, start, write, onError, onClose)
      ensures onError == [] && onClose == [] && !written ==>
        && Silently(old(Now()), Now())
        && (!old(done) && done && !ctx.done ==> past.ends == 1 && past.abnormal)
      decreases HandlersWeight(onError) + HandlersWeight(onClose), 9
    {
      if done || closing {
        ReportError(onError);
        return false;
      }
      if write.Failed? {
        FailedWrite(write.code, onError, onClose);
        return false;
      }
      Wrote(reply, start);
      return true;
    }

    /** Counts an error and fires "error". */
    method ReportError(onError: Handlers)
      requires Valid()
      modifies this, ctx
      ensures Valid() && EndsBadly(old(Now()), Now()) && Starts()
      ensures onError == [] ==> Same(old(Now()), Now())
      ensures !ctx.done ==> Now() == DoEmit(CountedError(old(Now())), onError)
      decreases HandlersWeight(onError), 5
    {
      CountError();
      Emit(onError);
    }

    /** A message was written; if reply-marked it awaits its reply. */
    method Wrote(reply: bool, start: int)
      requires Valid()
      modifies this`pending, this`metrics, this`past, ctx
      ensures Valid() && (old(ctx.done) ==> ctx.done)
      ensures metrics == old(metrics).(sent := metrics.sent)
      ensures if !reply then pending == old(pending) && past == old(past)
              else if |old(pending)| < MAX_PENDING_REPLIES
              then pending == old(pending) + [start] && past == old(past).(timed := old(past.timed) + [start])
              else
                && pending == old(pending)[1..] + [start]
                && past == old(past).(timed := old(past.timed) + [start], fates := old(past.fates) + [Evicted])
      ensures !ctx.done ==> Now() == AfterWrite(old(Now()), reply, start)
    {
      CountSent();
      if reply {
        Await(start, !ctx.done);
      }
    }

    method FailedWrite(classified: Code, onError: Handlers, onClose: Handlers)
      requires Valid() && !done
      modifies this, ctx
      ensures Valid() && done && EndsBadly(old(Now()), Now()) && Starts()
      ensures onError == [] && onClose == [] ==>
        && Silently(old(Now()), Now())
        && (!ctx.done ==> past.ends == 1 && past.abnormal)
      ensures !ctx.done ==> Now() == DoFail(old(Now()), classified, onError, onClose)
      decreases HandlersWeight(onError) + HandlersWeight(onClose), 8
    {
      var ended := ctx.Err();
      if ended {
        done := true; // the test is ending
        return;
      }
      ReceiveOrWriteError(classified, onError, onClose);
    }

    /** An error while the session was open: fires "error", counts it and ends the session. */
    method ReceiveOrWriteError(classified: Code, onError: Handlers, onClose: Handlers)
      requires Valid()
      modifies this, ctx
      ensures Valid() && done && EndsBadly(old(Now()), Now()) && Starts()
      ensures onError == [] && onClose == [] ==>
        && Silently(old(Now()), Now())
        && (!old(done) ==> past.ends == 1 && past.abnormal)
      ensures code == classified
      ensures !ctx.done ==> Now() == DoEnd(DoEmit(CountedError(old(Now())), onError), true, classified, STATUS_ABNORMAL, onClose).(code := classified)
      decreases HandlersWeight(onError) + HandlersWeight(onClose), 7
    {
      ReportError(onError);
      EndWithError(classified, onClose);
    }

    /** Ends the session with a classified error. */
    method EndWithError(classified: Code, onClose: Handlers)
      requires Valid()
      modifies this, ctx
      ensures Valid() && done && EndsBadly(old(Now()), Now()) && Starts() && code == classified
      ensures !old(done) ==> past.ends == 1 && past.abnormal
      ensures onClose == [] ==> Silently(old(Now()), Now())
      ensures !ctx.done ==> Now() == DoEnd(old(Now()), true, classified, STATUS_ABNORMAL, onClose).(code := classified)
      decreases HandlersWeight(onClose), 6
    {
      End(true, classified, STATUS_ABNORMAL, onClose);
      code := classified;
    }

    /** Puts a send in the queue of those awaiting a reply. */
    method Await(start: int, ghost live: bool)
      requires Tracked(pending, past.timed, past.fates, past.arrivals, metrics.received, metrics.latencies, live)
      modifies this`pending, this`past
      ensures Tracked(pending, past.timed, past.fates, past.arrivals, metrics.received, metrics.latencies, live)
      ensures if |old(pending)| < MAX_PENDING_REPLIES
              then pending == old(pending) + [start] && past == old(past).(timed := old(past.timed) + [start])
              else
                && pending == old(pending)[1..] + [start]
                && past == old(past).(timed := old(past.timed) + [start], fates := old(past.fates) + [Evicted])
    {
      PushKeepsQueue(pending, past.timed, past.fates, past.arrivals, metrics.received, metrics.latencies, live, start);
      if |pending| >= MAX_PENDING_REPLIES {
        pending := pending[1..];
        past := past.(fates := past.fates + [Evicted]);
      }
      pending := pending + [start];
      past := past.(timed := past.timed + [start]);
    }

    /** A message from the reader is paired with the oldest send awaiting a reply. */
    method TakeMessage(at: int)
      requires Valid()
      modifies this`pending, this`past, this`metrics, ctx
      ensures Valid() && past == old(past).(arrivals := old(past.arrivals) + [at], fates := past.fates) && (old(ctx.done) ==> ctx.done)
      ensures metrics == old(metrics).(received := metrics.received, latencies := metrics.latencies)
      ensures old(pending) == [] ==> past.fates == old(past.fates) && metrics.latencies == old(metrics.latencies)
      ensures old(pending) != [] ==> past.fates == old(past.fates) + [Paired(|old(past.arrivals)|)]
      ensures old(pending) != [] && !ctx.done ==> metrics.latencies == old(metrics.latencies) + [at - past.timed[|old(past.fates)|]]
      ensures !ctx.done ==> metrics.received == old(metrics.received) + 1 && Now() == Taken(old(Now()), at)
    {
      PopKeepsQueue(pending, past.timed, past.fates, past.arrivals, metrics.received, metrics.latencies, !ctx.done, at);
      TakeOldest(at);
    }

    /** What a message does to the queue, and what is recorded of it. */
    method TakeOldest(at: int)
      modifies this`pending, this`past, this`metrics, ctx
      ensures old(ctx.done) ==> ctx.done
      ensures metrics == old(metrics).(received := metrics.received, latencies := metrics.latencies)
      ensures if old(pending) == [] then pending == [] && past == old(past).(arrivals := old(past.arrivals) + [at])
              else
                && pending == old(pending)[1..]
                && past == old(past).(arrivals := old(past.arrivals) + [at], fates := old(past.fates) + [Paired(|old(past.arrivals)|)])
      ensures old(pending) == [] ==> metrics.latencies == old(metrics.latencies)
      ensures !ctx.done ==>
        && metrics.received == old(metrics.received) + 1
        && metrics.latencies == old(metrics.latencies) + if old(pending) == [] then [] else [at - old(pending)[0]]
    {
      CountReceived();
      if 0 < |pending| {
        var start := pending[0];
        pending := pending[1..];
        past := past.(fates := past.fates + [Paired(|past.arrivals|)]);
        RecordLatency(at - start);
      }
      past := past.(arrivals := past.arrivals + [at]);
    }

    /** What becomes of a session whose reader has stopped, by the status it stopped
        with (negative if there is none). */
    method ReadFailed(status: int, classified: Code, onError: Handlers, onClose: Handlers)
      requires Valid()
      modifies this, ctx
      ensures Valid() && done && Later(old(Now()), Now()) && Starts()
      ensures onError == [] && onClose == [] ==>
        Silently(old(Now()), Now())
      ensures !old(done) && (0 <= status || old(closing)) ==>
        && past.ends == 1 && closeCode == (if 0 <= status then status else STATUS_NORMAL)
        && past.abnormal == (0 <= status && status !in {STATUS_NORMAL, STATUS_GOING_AWAY})
      ensures !old(done) && status < 0 && !old(closing) ==> code == classified && (past.ends == 1 ==> past.abnormal)
      ensures !old(done) && onError == [] && onClose == [] ==>
        past.ends == 1 && past.abnormal == !(status in {STATUS_NORMAL, STATUS_GOING_AWAY} || (status < 0 && old(closing)))
      ensures !old(done) && 0 <= status ==> Begun(onClose, old(|past.ran|), past.ran, !thrown && !ctx.done)
      ensures !ctx.done ==> Now() == DoReadFailed(old(Now()), status, classified, onError, onClose)
    {
      if 0 <= status {
        ClosedByPeer(status, onClose);
      } else if closing {
        End(false, NoCode, STATUS_NORMAL, onClose);
      } else {
        ReceiveOrWriteError(classified, onError, onClose);
      }
    }

    /** The peer sent a close frame. */
    method ClosedByPeer(status: int, onClose: Handlers)
      requires Valid() && 0 <= status
      modifies this, ctx
      ensures Valid() && done && Later(old(Now()), Now()) && Starts()
      ensures onClose == [] ==> Silently(old(Now()), Now())
      ensures !old(done) ==> past.ends == 1 && closeCode == status && past.abnormal == (status !in {STATUS_NORMAL, STATUS_GOING_AWAY})
      ensures !old(done) ==> Begun(onClose, old(|past.ran|), past.ran, !thrown && !ctx.done)
      ensures !ctx.done ==> Now() == DoClosedByPeer(old(Now()), status, onClose)
    {
      if status == STATUS_NORMAL || status == STATUS_GOING_AWAY {
        End(false, NoCode, status, onClose);
      } else {
        End(true, Server, status, onClose);
        code := Server;
      }
    }

    /** Starts the close handshake of an open session, if it has not been started. */
    method CloseSocket()
      modifies this`closing, this`link
      ensures Now() == old(Now()).(closing := old(closing || !done)) && Starts()
    {
      if closing || done {
        return;
      }
      closing := true;
      link := Started(link, false, true);
    }

    // ---------- The callback style ----------

    /** One turn of the event loop, with what the handlers it fires do. */
    method TakeTurn(t: Turn)
      requires Valid()
      modifies this, ctx
      ensures Valid() && Later(old(Now()).(past := old(past).(arrivals := old(past.arrivals) + ArrivalOf(t))), Now()) && Starts() && (Stops(t) ==> done)
      ensures !old(done) ==> TurnBegun(t, old(|past.ran|), past.ran, !thrown && !ctx.done)
      ensures !ctx.done ==> Now() == DoTurn(old(Now()), t)
    {
      match t {
        case Incoming(ev, onMessage, onError, onClose) =>
          Handle(ev, onMessage, onError, onClose);
        case EventsClosed(onClose) =>
          End(false, NoCode, STATUS_ABNORMAL, onClose);
        case Timers(fired) =>
          ghost var at := FireTimers(fired);
        case TestEnding =>
          var ended := ctx.Err();
          if ended {
            done := true;
          }
      }
    }

    /** One event from the reader. */
    method Handle(ev: Event, onMessage: Handlers, onError: Handlers, onClose: Handlers)
      requires Valid()
      modifies this, ctx
      ensures Valid() && (ev.ReadError? ==> done)
      ensures Later(old(Now()).(past := old(past).(arrivals := old(past.arrivals) + if ev.Message? then [ev.at] else [])), Now()) && Starts()
      ensures !old(done) ==> TurnBegun(Incoming(ev, onMessage, onError, onClose), old(|past.ran|), past.ran, !thrown && !ctx.done)
      ensures !ctx.done ==> Now() == DoTurn(old(Now()), Incoming(ev, onMessage, onError, onClose))
    {
      match ev {
        case Message(at) =>
          TakeMessage(at);
          Emit(onMessage);
        case ReadError(status, classified) =>
          ReadFailed(status, classified, onError, onClose);
      }
    }

    /** Runs the due timers in order, until the session is over or one throws. The k-th
        begins at position at[k] of what has run. */
    method FireTimers(fired: Handlers) returns (ghost at: seq<nat>)
      requires Valid()
      modifies this, ctx
      ensures Valid() && Later(old(Now()), Now()) && Starts()
      ensures |at| <= |fired| && RanInOrder(fired[..|at|], old(|past.ran|), past.ran, at)
      ensures (|at| < |fired| ==> done) && (at == [] ==> fired == [] || old(done))
      ensures forall k :: 0 <= k < |at| - 1 ==> !Throws(fired[k])
      ensures at != [] && Throws(fired[|at| - 1]) ==> done
      ensures !ctx.done ==> Now() == DoTimers(old(Now()), fired)
    {
      at := [];
      for i := 0 to |fired|
        invariant Valid() && Later(old(Now()), Now()) && Starts()
        invariant |at| == i && RanInOrder(fired[..i], old(|past.ran|), past.ran, at) && (i == 0 ==> done == old(done))
        invariant forall k :: 0 <= k < i ==> !Throws(fired[k])
        invariant !ctx.done ==> DoTimers(old(Now()), fired) == DoTimers(Now(), fired[i..])
      {
        DoTimersFrom(Now(), fired, i);
        if done {
          return;
        }
        var threw;
        threw, at := Call(fired, i, old(|past.ran|), at);
        if threw {
          return;
        }
      }
    }

    /** The setup callback, "open" and the event loop, for as many turns as there are.
        It returns if a turn is one that ends the session, or the setup callback
        throws. Then every goroutine has been waited for and, while the test lives, one
        outcome is recorded unless the setup callback threw: whether the session ended
        with an error. start and marks are positions in the log of handlers. */
    method Run(setup: Script, onOpen: Handlers, turns: seq<Turn>)
      returns (returned: bool, setupThrew: bool, ghost start: nat, ghost marks: seq<nat>)
      requires Valid() && metrics.samples == [] && !closing && !failed
      modifies this, ctx
      ensures Valid() && (old(ctx.done) ==> ctx.done) && |metrics.samples| <= 1
      ensures returned ==> done && H.Quiet(link)
      ensures returned && !ctx.done ==> (|metrics.samples| == 1 <==> !setupThrew)
      ensures metrics.samples != [] ==> metrics.samples[0] == failed == past.abnormal
      ensures !returned ==> !done && !setupThrew && metrics.samples == []
      ensures (exists k :: 0 <= k < |turns| && Stops(turns[k])) ==> returned
      ensures (Throw in setup.actions ==> setupThrew) && (setupThrew ==> metrics.samples == [] && (Throw in setup.actions || ctx.done))
      ensures !setupThrew ==>
        && old(|past.ran|) < start && (|marks| <= |turns| ==> done)
        && Course(onOpen, turns, marks, start, past.ran, old(past.arrivals), past.arrivals, !thrown && !ctx.done)
      ensures !ctx.done ==> (Now(), setupThrew) == DoRun(old(Now()), setup, onOpen, turns)
    {
      StartReader();
      setupThrew := Perform(setup);
      StartedIsLinked(H.Start(), false, closing);
      start, marks := |past.ran|, [];
      if setupThrew {
        HandleThrow();
        Release();
        returned := true;
      } else {
        returned, marks := Converse(onOpen, turns);
      }
    }

    /** What follows the setup callback. */
    method Converse(onOpen: Handlers, turns: seq<Turn>) returns (returned: bool, ghost marks: seq<nat>)
      requires Valid() && InSession()
      modifies this, ctx
      ensures Valid() && (old(ctx.done) ==> ctx.done) && |metrics.samples| <= 1 && returned == done && (returned ==> H.Quiet(link))
      ensures returned && !ctx.done ==> |metrics.samples| == 1
      ensures (metrics.samples != [] ==> metrics.samples[0] == failed == past.abnormal) && (!returned ==> metrics.samples == [])
      ensures (forall k :: 0 <= k < |turns| && Stops(turns[k]) ==> returned) && (|marks| <= |turns| ==> returned)
      ensures Course(onOpen, turns, marks, old(|past.ran|), past.ran, old(past.arrivals), past.arrivals, !thrown && !ctx.done)
      ensures !ctx.done ==> Now() == DoConverse(old(Now()), onOpen, turns)
    {
      returned, marks := Loop(onOpen, turns);
      if returned {
        ghost var calm := !thrown && !ctx.done;
        Leave();
        CourseCalms(onOpen, turns, marks, old(|past.ran|), past.ran, old(past.arrivals), past.arrivals, calm, !thrown && !ctx.done);
      }
    }

    /** Fires "open" and takes turns until the session is over, if it gets there. */
    method Loop(onOpen: Handlers, turns: seq<Turn>) returns (over: bool, ghost marks: seq<nat>)
      requires Valid() && InSession()
      modifies this, ctx
      ensures Valid() && InSession() && (old(ctx.done) ==> ctx.done) && over == done
      ensures forall k :: 0 <= k < |turns| && Stops(turns[k]) ==> over
      ensures |marks| <= |turns| ==> over
      ensures Course(onOpen, turns, marks, old(|past.ran|), past.ran, old(past.arrivals), past.arrivals, !thrown && !ctx.done)
      ensures !ctx.done ==> Now() == DoTurns(DoEmit(old(Now()), onOpen), turns)
    {
      marks := Open(onOpen, turns);
      for i := 0 to |turns|
        invariant Valid() && InSession() && (old(ctx.done) ==> ctx.done)
        invariant forall k :: 0 <= k < i && Stops(turns[k]) ==> done
        invariant |marks| == i + 1 && marks[i] == |past.ran|
        invariant Course(onOpen, turns, marks, old(|past.ran|), past.ran, old(past.arrivals), past.arrivals, !thrown && !ctx.done)
        invariant !ctx.done ==> DoTurns(DoEmit(old(Now()), onOpen), turns) == DoTurns(Now(), turns[i..])
      {
        DoTurnsFrom(Now(), turns, i);
        if done {
          return true, marks;
        }
        marks := NextTurn(turns, i, onOpen, marks, old(|past.ran|), old(past.arrivals));
      }
      return done, marks;
    }

    /** Fires "open". */
    method Open(onOpen: Handlers, ghost turns: seq<Turn>) returns (ghost marks: seq<nat>)
      requires Valid() && InSession()
      modifies this, ctx
      ensures Valid() && InSession() && (old(ctx.done) ==> ctx.done) && marks == [|past.ran|]
      ensures Course(onOpen, turns, marks, old(|past.ran|), past.ran, old(past.arrivals), past.arrivals, !thrown && !ctx.done)
      ensures !ctx.done ==> Now() == DoEmit(old(Now()), onOpen)
    {
      ghost var was, before := link, closing;
      Emit(onOpen);
      StartedIsLinked(was, before, closing);
      CourseOpens(onOpen, turns, old(|past.ran|), past.ran, past.arrivals, !thrown && !ctx.done);
      marks := [|past.ran|];
    }

    /** Takes the i-th turn, after those that the marks tell of. */
    method NextTurn(turns: seq<Turn>, i: nat, ghost onOpen: Handlers, ghost marks: seq<nat>, ghost from: nat, ghost was: seq<int>)
      returns (ghost marks': seq<nat>)
      requires Valid() && InSession() && !done && i < |turns| && |marks| == i + 1 && marks[i] == |past.ran|
      requires Course(onOpen, turns, marks, from, past.ran, was, past.arrivals, !thrown && !ctx.done)
      modifies this, ctx
      ensures Valid() && InSession() && (old(ctx.done) ==> ctx.done) && (Stops(turns[i]) ==> done)
      ensures |marks'| == i + 2 && marks'[i + 1] == |past.ran|
      ensures Course(onOpen, turns, marks', from, past.ran, was, past.arrivals, !thrown && !ctx.done)
      ensures !ctx.done ==> Now() == DoTurn(old(Now()), turns[i])
    {
      AwaitTurn(turns[i]);
      CourseGoesOn(onOpen, turns, marks, from, old(past.ran), past.ran, was, old(past.arrivals),
                   old(!thrown && !ctx.done), !thrown && !ctx.done);
      marks' := marks + [|past.ran|];
    }

    /** The connection is in use and no outcome has been recorded. */
    ghost predicate InSession()
      reads this
    {
      Linked() && H.InUse(link) && metrics.samples == [] && failed == past.abnormal
    }

    /** Waits for the next turn and takes it. */
    method AwaitTurn(t: Turn)
      requires Valid() && InSession() && !done
      modifies this, ctx
      ensures Valid() && InSession() && (old(ctx.done) ==> ctx.done) && (Stops(t) ==> done) && (old(thrown) ==> thrown)
      ensures old(past.ran) <= past.ran && past.arrivals == old(past.arrivals) + ArrivalOf(t)
      ensures TurnBegun(t, old(|past.ran|), past.ran, !thrown && !ctx.done)
      ensures !ctx.done ==> Now() == DoTurn(old(Now()), t)
    {
      Elapse();
      ghost var was, before := link, closing;
      TakeTurn(t);
      StartedIsLinked(was, before, closing);
    }

    /** The session is over: records its outcome and releases the connection. */
    method Leave()
      requires Valid() && Linked() && H.InUse(link) && done && metrics.samples == []
      modifies this`metrics, this`link, ctx
      ensures Valid() && H.Quiet(link) && |metrics.samples| <= 1 && (old(ctx.done) ==> ctx.done)
      ensures metrics == old(metrics).(samples := metrics.samples, durations := metrics.durations)
      ensures (metrics.samples != [] ==> metrics.samples[0] == failed) && (!ctx.done ==> |metrics.samples| == 1)
      ensures !ctx.done ==> Now() == Recorded(old(Now()))
    {
      var ended := ctx.Err();
      if !ended {
        RecordSessionEnd();
      }
      Release();
    }
  }

  /** ws.connect with a callback: it returns if the handshake fails, the setup callback
      throws or the reader stops. At most one outcome is recorded, and exactly one while
      the test lives unless the setup callback throws: whether the handshake failed or
      the session ended with an error. Unless the setup callback throws, turn after turn
      is taken until the session is over. */
  method ConnectWithCallback(ctx: Context, outcome: Handshake, setup: Script, onOpen: Handlers, turns: seq<Turn>)
    returns (s: Session, returned: bool, setupThrew: bool, ghost start: nat, ghost marks: seq<nat>)
    modifies ctx
    ensures fresh(s) && s.ctx == ctx && s.Valid() && |s.metrics.samples| <= 1
    ensures returned ==> H.Quiet(s.link)
    ensures returned && !ctx.done ==> (|s.metrics.samples| == 1 <==> !setupThrew)
    ensures !returned ==> !s.done && s.metrics.samples == []
    ensures s.metrics.samples != [] ==> s.metrics.samples[0] == (outcome.Refused? || s.past.abnormal)
    ensures outcome.Refused? ==> returned && !setupThrew && s.failed && s.code == outcome.code
    ensures outcome.Established? ==>
      && ((exists k :: 0 <= k < |turns| && Stops(turns[k])) || Throw in setup.actions ==> returned)
      && (Throw in setup.actions ==> setupThrew) && (setupThrew ==> s.metrics.samples == [] && (Throw in setup.actions || ctx.done))
    ensures outcome.Established? && !setupThrew ==>
      && 0 < start && (|marks| <= |turns| ==> returned)
      && Course(onOpen, turns, marks, start, s.past.ran, [], s.past.arrivals, !s.thrown && !ctx.done)
    ensures outcome.Established? && !ctx.done ==> (s.Now(), setupThrew) == DoRun(Fresh(false), setup, onOpen, turns)
  {
    s := new Session(ctx);
    start, marks := 0, [];
    var ok := s.Dial(outcome);
    if !ok {
      return s, true, false, 0, [];
    }
    returned, setupThrew, start, marks := s.Run(setup, onOpen, turns);
  }
}
