// The timers of a session in the callback style. Times are integers; what a
// timer's callback does to the list comes in as an argument.
module WsTimers {
  import opened Options

  /** every is 0 for a timer that fires once. */
  datatype Timer = Timer(id: nat, at: int, every: int)

  /** A timer the script asks for: after a delay, once or again and again. */
  datatype Request = Request(delay: int, repeat: bool)

  /** What a callback does: the timers it asks for and when, and whether the session
      is over after it, as it is if it throws. */
  datatype Firing = Firing(asked: seq<Request>, clock: int, over: bool)

  // ---------- In what order timers are due ----------

  /** Earlier, or at the same time and asked for earlier. */
  predicate Before(a: Timer, b: Timer) {
    a.at < b.at || (a.at == b.at && a.id < b.id)
  }

  ghost predicate InOrder(s: seq<Timer>) {
    forall i, j :: 0 <= i < j < |s| ==> Before(s[i], s[j])
  }

  ghost predicate ByAge(s: seq<Timer>) {
    forall i, j :: 0 <= i < j < |s| ==> s[i].id < s[j].id
  }

  function Due(timers: seq<Timer>, now: int): seq<Timer> {
    if timers == [] then []
    else
      var t := timers[|timers| - 1];
      Due(timers[..|timers| - 1], now) + if t.at > now then [] else [t]
  }

  /** A stable sort by time, as the library's. */
  function SortStable(s: seq<Timer>): seq<Timer> {
    if s == [] then [] else InsertLast(SortStable(s[..|s| - 1]), s[|s| - 1])
  }

  /** After those that are due no later. */
  function InsertLast(s: seq<Timer>, t: Timer): seq<Timer> {
    if s == [] || s[|s| - 1].at <= t.at then s + [t] else InsertLast(s[..|s| - 1], t) + [s[|s| - 1]]
  }

  lemma {:induction false} InsertKeepsAll(s: seq<Timer>, t: Timer)
    ensures multiset(InsertLast(s, t)) == multiset(s) + multiset{t}
  {
    if s == [] || s[|s| - 1].at <= t.at {
    } else {
      assert s == s[..|s| - 1] + [s[|s| - 1]];
      InsertKeepsAll(s[..|s| - 1], t);
    }
  }

  lemma {:induction false} InsertKeepsOrder(s: seq<Timer>, t: Timer)
    requires InOrder(s) && forall u :: u in s ==> u.id < t.id
    ensures InOrder(InsertLast(s, t))
  {
    if s == [] || s[|s| - 1].at <= t.at {
    } else {
      var (rest, last) := (s[..|s| - 1], s[|s| - 1]);
      InsertKeepsOrder(rest, t);
      InsertKeepsAll(rest, t);
      forall u | u in InsertLast(rest, t) ensures Before(u, last) {
        assert u in multiset(InsertLast(rest, t));
      }
    }
  }

  lemma {:induction false} DueIsByAge(timers: seq<Timer>, now: int)
    requires ByAge(timers)
    ensures ByAge(Due(timers, now))
    ensures forall t :: t in Due(timers, now) <==> t in timers && t.at <= now
  {
    if timers == [] {
    } else {
      var rest := timers[..|timers| - 1];
      assert timers == rest + [timers[|timers| - 1]];
      DueIsByAge(rest, now);
    }
  }

  /** Of timers listed by age the stable sort makes one order: by time, and by age
      among those due at one time. */
  lemma {:induction false} SortIsInOrder(s: seq<Timer>)
    requires ByAge(s)
    ensures InOrder(SortStable(s)) && multiset(SortStable(s)) == multiset(s)
  {
    if s == [] {
    } else {
      var rest := s[..|s| - 1];
      assert s == rest + [s[|s| - 1]];
      SortIsInOrder(rest);
      forall u | u in SortStable(rest) ensures u.id < s[|s| - 1].id {
        assert u in multiset(SortStable(rest));
      }
      InsertKeepsOrder(SortStable(rest), s[|s| - 1]);
      InsertKeepsAll(SortStable(rest), s[|s| - 1]);
    }
  }

  /** The timers to fire are those that are due, each once and in order. */
  lemma {:induction false} FiringOrder(timers: seq<Timer>, now: int)
    requires ByAge(timers)
    ensures var due := SortStable(Due(timers, now));
            InOrder(due) && (forall t :: t in due <==> t in timers && t.at <= now) && OnceEach(due)
  {
    DueIsByAge(timers, now);
    SortIsInOrder(Due(timers, now));
    var due := SortStable(Due(timers, now));
    forall t ensures t in due <==> t in timers && t.at <= now {
      assert t in due <==> t in multiset(due);
    }
    AreOnceEach(timers, due);
  }

  ghost predicate OnceEach(s: seq<Timer>) {
    forall i, j :: 0 <= i < j < |s| ==> s[i].id != s[j].id
  }

  lemma AreOnceEach(timers: seq<Timer>, s: seq<Timer>)
    requires ByAge(timers) && InOrder(s) && forall t :: t in s ==> t in timers
    ensures OnceEach(s)
  {
    forall i, j | 0 <= i < j < |s| ensures s[i].id != s[j].id {
      assert Before(s[i], s[j]);
      assert s[i] in timers && s[j] in timers;
    }
  }

  // ---------- What firing does to the list ----------

  /** What is left of a timer that fires now: nothing, or its next time, put off if
      that has passed already. */
  ghost function AfterFiring(t: Timer, now: int): seq<Timer> {
    if t.every <= 0 then []
    else if t.at + t.every < now then [t.(at := now + t.every)]
    else [t.(at := t.at + t.every)]
  }

  /** The list once the timers with the given ids have fired. */
  ghost function Settled(timers: seq<Timer>, fired: set<nat>, now: int): seq<Timer> {
    if timers == [] then []
    else
      var t := timers[|timers| - 1];
      Settled(timers[..|timers| - 1], fired, now) + if t.id in fired then AfterFiring(t, now) else [t]
  }

  lemma {:induction false} SettledConcat(a: seq<Timer>, b: seq<Timer>, fired: set<nat>, now: int)
    ensures Settled(a + b, fired, now) == Settled(a, fired, now) + Settled(b, fired, now)
  {
    if b == [] {
      assert a + b == a;
    } else {
      SettledConcat(a, b[..|b| - 1], fired, now);
      assert (a + b)[..|a + b| - 1] == a + b[..|b| - 1];
    }
  }

  lemma {:induction false} SettledOthers(timers: seq<Timer>, fired: set<nat>, now: int)
    requires forall t :: t in timers ==> t.id !in fired
    ensures Settled(timers, fired, now) == timers
  {
    if timers == [] {
    } else {
      assert timers == timers[..|timers| - 1] + [timers[|timers| - 1]];
      SettledOthers(timers[..|timers| - 1], fired, now);
    }
  }

  /** One more timer fires. */
  lemma {:induction false} SettledOneMore(timers: seq<Timer>, fired: set<nat>, id: nat, now: int)
    requires id !in fired
    ensures Settled(Settled(timers, fired, now), {id}, now) == Settled(timers, fired + {id}, now)
  {
    if timers == [] {
    } else {
      var (rest, t) := (timers[..|timers| - 1], timers[|timers| - 1]);
      var part := if t.id in fired then AfterFiring(t, now) else [t];
      SettledOneMore(rest, fired, id, now);
      SettledConcat(Settled(rest, fired, now), part, {id}, now);
      if part != [] {
        assert part[..0] == [];
      }
    }
  }

  function Ids(s: seq<Timer>): set<nat> {
    set t | t in s :: t.id
  }

  /** Settling keeps the order of age. */
  lemma {:induction false} SettledIsByAge(timers: seq<Timer>, fired: set<nat>, now: int)
    requires ByAge(timers) && forall t :: t in timers ==> 0 <= t.every
    ensures ByAge(Settled(timers, fired, now)) && Ids(Settled(timers, fired, now)) <= Ids(timers)
    ensures forall u :: u in Settled(timers, fired, now) ==> 0 <= u.every
  {
    if timers == [] {
    } else {
      var (rest, t) := (timers[..|timers| - 1], timers[|timers| - 1]);
      assert timers == rest + [t];
      SettledIsByAge(rest, fired, now);
      var part := if t.id in fired then AfterFiring(t, now) else [t];
      Joined(Settled(rest, fired, now), part, Ids(rest), t.id);
      assert Ids(timers) == Ids(rest) + {t.id};
    }
  }

  lemma Joined(s: seq<Timer>, part: seq<Timer>, ids: set<nat>, id: nat)
    requires ByAge(s) && Ids(s) <= ids && forall x :: x in ids ==> x < id
    requires |part| <= 1 && forall t :: t in part ==> t.id == id
    ensures ByAge(s + part) && Ids(s + part) <= ids + {id}
  {
    forall i | 0 <= i < |s| ensures s[i].id < id {
      assert s[i].id in Ids(s);
    }
  }

  /** Once all timers that were due have fired, none of these is overdue, and a
      repeated one is due again within its interval. */
  lemma {:induction false} NoneOverdue(timers: seq<Timer>, fired: set<nat>, now: int)
    requires ByAge(timers) && forall t :: t in timers ==> 0 <= t.every && (t.at <= now <==> t.id in fired)
    ensures forall u :: u in Settled(timers, fired, now) ==> now <= u.at
    ensures forall u :: u in Settled(timers, fired, now) && u.id in fired ==> 0 < u.every && u.at <= now + u.every
  {
    if timers == [] {
    } else {
      var (rest, t) := (timers[..|timers| - 1], timers[|timers| - 1]);
      assert timers == rest + [t];
      NoneOverdue(rest, fired, now);
    }
  }

  lemma SettledKeepsValid(timers: seq<Timer>, fired: set<nat>, now: int, top: nat)
    requires ByAge(timers) && forall t :: t in timers ==> t.id <= top && 0 <= t.every
    ensures var s := Settled(timers, fired, now); ByAge(s) && forall t :: t in s ==> t.id <= top && 0 <= t.every
  {
    SettledIsByAge(timers, fired, now);
    forall t | t in Settled(timers, fired, now) ensures t.id <= top {
      assert t.id in Ids(Settled(timers, fired, now));
    }
  }

  /** What becomes of a timer: one that has not fired is left alone, one that fires once
      is gone, and a repeated one is due its interval after its last time, or after now
      if that has passed. */
  ghost predicate Follows(t: Timer, fired: bool, now: int, list: seq<Timer>) {
    if !fired then t in list
    else if t.every == 0 then forall u :: u in list ==> u.id != t.id
    else t.(at := if t.at + t.every < now then now + t.every else t.at + t.every) in list
  }

  ghost predicate OnSchedule(timers: seq<Timer>, fired: set<nat>, now: int, list: seq<Timer>) {
    forall t :: t in timers ==> Follows(t, t.id in fired, now, list)
  }

  lemma {:induction false} SettledOnSchedule(timers: seq<Timer>, fired: set<nat>, now: int)
    requires ByAge(timers) && forall t :: t in timers ==> 0 <= t.every
    ensures OnSchedule(timers, fired, now, Settled(timers, fired, now))
  {
    if timers == [] {
    } else {
      var (rest, last) := (timers[..|timers| - 1], timers[|timers| - 1]);
      assert timers == rest + [last];
      SettledOnSchedule(rest, fired, now);
      SettledIsByAge(rest, fired, now);
      LastOnSchedule(rest, last, fired, now, Settled(rest, fired, now));
    }
  }

  lemma LastOnSchedule(rest: seq<Timer>, last: Timer, fired: set<nat>, now: int, list: seq<Timer>)
    requires (forall t :: t in rest ==> t.id < last.id) && 0 <= last.every
    requires Ids(list) <= Ids(rest) && OnSchedule(rest, fired, now, list)
    ensures OnSchedule(rest + [last], fired, now, list + if last.id in fired then AfterFiring(last, now) else [last])
  {
    var part := if last.id in fired then AfterFiring(last, now) else [last];
    forall u | u in list ensures u.id < last.id {
      assert u.id in Ids(list);
    }
    assert Follows(last, last.id in fired, now, list + part);
    forall t | t in rest ensures Follows(t, t.id in fired, now, list + part) {
      FollowsMore(t, t.id in fired, now, list, part);
    }
  }

  /** Timers with other ids may come after. */
  lemma FollowsMore(t: Timer, fired: bool, now: int, list: seq<Timer>, more: seq<Timer>)
    requires Follows(t, fired, now, list) && forall u :: u in more ==> u.id != t.id
    ensures Follows(t, fired, now, list + more)
  {
  }

  // ---------- What callbacks ask for ----------

  /** The timer a request adds, given the last id so far. */
  ghost function AskedOne(r: Request, clock: int, top: nat): seq<Timer> {
    if r.repeat && r.delay <= 0 then []
    else [Timer(top + 1, if r.delay < 0 then clock else clock + r.delay, if r.repeat then r.delay else 0)]
  }

  ghost function AskedAll(asked: seq<Request>, clock: int, top: nat): seq<Timer> {
    if asked == [] then []
    else
      var rest := AskedAll(asked[..|asked| - 1], clock, top);
      rest + AskedOne(asked[|asked| - 1], clock, top + |rest|)
  }

  /** The timers that several callbacks ask for, one after another. */
  ghost function AskedIn(runs: seq<Firing>, top: nat): seq<Timer> {
    if runs == [] then []
    else
      var rest := AskedIn(runs[..|runs| - 1], top);
      rest + AskedAll(runs[|runs| - 1].asked, runs[|runs| - 1].clock, top + |rest|)
  }

  lemma {:induction false} AskedAbove(asked: seq<Request>, clock: int, top: nat)
    ensures forall t :: t in AskedAll(asked, clock, top) ==> top < t.id && clock <= t.at
  {
    if asked == [] {
    } else {
      AskedAbove(asked[..|asked| - 1], clock, top);
    }
  }

  lemma {:induction false} AskedInAbove(runs: seq<Firing>, top: nat, now: int)
    requires NoEarlier(runs, now)
    ensures forall t :: t in AskedIn(runs, top) ==> top < t.id && now <= t.at
  {
    if runs == [] {
    } else {
      var rest := runs[..|runs| - 1];
      AskedInAbove(rest, top, now);
      AskedAbove(runs[|runs| - 1].asked, runs[|runs| - 1].clock, top + |AskedIn(rest, top)|);
    }
  }

  /** The list, and the last id, with what has been asked for. */
  ghost predicate AskedOn(was: seq<Timer>, top: nat, asked: seq<Request>, clock: int, list: seq<Timer>, id: nat) {
    list == was + AskedAll(asked, clock, top) && id == top + |AskedAll(asked, clock, top)|
  }

  lemma AskedStep(was: seq<Timer>, top: nat, asked: seq<Request>, i: nat, clock: int, list: seq<Timer>, id: nat)
    requires i < |asked| && AskedOn(was, top, asked[..i], clock, list, id)
    ensures var one := AskedOne(asked[i], clock, id); AskedOn(was, top, asked[..i + 1], clock, list + one, id + |one|)
  {
    assert asked[..i + 1][..i] == asked[..i];
  }

  /** The list, and the last id, once the given timers of the first one have fired and
      asked for more. */
  ghost predicate Progress(first: seq<Timer>, fired: seq<Timer>, list: seq<Timer>, id: nat, runs: seq<Firing>, top: nat, now: int) {
    list == Settled(first, Ids(fired), now) + AskedIn(runs, top) && id == top + |AskedIn(runs, top)|
  }

  lemma NoneFired(first: seq<Timer>, top: nat, now: int)
    ensures Progress(first, [], first, top, [], top, now)
  {
    SettledOthers(first, {}, now);
    assert Ids([]) == {};
  }

  /** Firing one more timer of the first list. */
  lemma FiredOneMore(first: seq<Timer>, fired: seq<Timer>, t: Timer, list: seq<Timer>, id: nat, runs: seq<Firing>, top: nat, now: int)
    requires Progress(first, fired, list, id, runs, top, now) && NoEarlier(runs, now)
    requires t.id !in Ids(fired) && t.id <= top
    ensures Progress(first, fired + [t], Settled(list, {t.id}, now), id, runs, top, now)
  {
    SettledOneMore(first, Ids(fired), t.id, now);
    assert Ids(fired + [t]) == Ids(fired) + {t.id};
    AskedInAbove(runs, top, now);
    SettledAndRest(Settled(first, Ids(fired), now), AskedIn(runs, top), t.id, now);
  }

  lemma AskedOneMore(first: seq<Timer>, fired: seq<Timer>, list: seq<Timer>, id: nat, runs: seq<Firing>, run: Firing, top: nat, now: int)
    requires Progress(first, fired, list, id, runs, top, now)
    ensures var asked := AskedAll(run.asked, run.clock, id);
      Progress(first, fired, list + asked, id + |asked|, runs + [run], top, now)
  {
    assert (runs + [run])[..|runs|] == runs;
  }

  /** The callbacks run no earlier than now. */
  ghost predicate NoEarlier(runs: seq<Firing>, now: int) {
    forall k :: 0 <= k < |runs| ==> now <= runs[k].clock
  }

  lemma SettledAndRest(part: seq<Timer>, rest: seq<Timer>, id: nat, now: int)
    requires forall t :: t in rest ==> id < t.id
    ensures Settled(part + rest, {id}, now) == Settled(part, {id}, now) + rest
  {
    SettledConcat(part, rest, {id}, now);
    SettledOthers(rest, {id}, now);
  }

  lemma FiresNext(due: seq<Timer>, fired: seq<Timer>)
    requires OnceEach(due) && fired < due
    ensures due[|fired|].id !in Ids(fired) && fired + [due[|fired|]] <= due
  {
  }

  lemma RunsNext(runs: seq<Firing>, taken: seq<Firing>, now: int)
    requires NoEarlier(runs, now) && taken < runs
    ensures NoEarlier(taken, now) && taken + [runs[|taken|]] <= runs
  {
  }

  /** After a turn that fired all that was due, nothing on the list is overdue. */
  lemma AllFired(first: seq<Timer>, list: seq<Timer>, id: nat, runs: seq<Firing>, top: nat, now: int)
    requires ByAge(first) && forall t :: t in first ==> 0 <= t.every
    requires Progress(first, SortStable(Due(first, now)), list, id, runs, top, now)
    requires NoEarlier(runs, now)
    ensures forall t :: t in list ==> now <= t.at
  {
    var fired := Ids(SortStable(Due(first, now)));
    FiringOrder(first, now);
    assert forall t :: t in first ==> (t.at <= now <==> t.id in fired);
    NoneOverdue(first, fired, now);
    AskedInAbove(runs, top, now);
  }

  lemma AllOnSchedule(first: seq<Timer>, fired: seq<Timer>, list: seq<Timer>, id: nat, runs: seq<Firing>, top: nat, now: int)
    requires ByAge(first) && forall t :: t in first ==> 0 <= t.every && t.id <= top
    requires Progress(first, fired, list, id, runs, top, now) && NoEarlier(runs, now)
    ensures OnSchedule(first, Ids(fired), now, list)
  {
    SettledOnSchedule(first, Ids(fired), now);
    AskedInAbove(runs, top, now);
    forall t | t in first ensures Follows(t, t.id in Ids(fired), now, list) {
      FollowsMore(t, t.id in Ids(fired), now, Settled(first, Ids(fired), now), AskedIn(runs, top));
    }
  }

  // ---------- The list ----------

  class Timers {
    var timers: seq<Timer>
    var nextId: nat

    ghost predicate Valid()
      reads this
    {
      ByAge(timers) && forall t :: t in timers ==> t.id <= nextId && 0 <= t.every
    }

    constructor ()
      ensures Valid() && timers == []
    {
      timers, nextId := [], 0;
    }

    /** setTimeout and setInterval. An interval of no length is refused. */
    method Add(now: int, r: Request) returns (id: Option<nat>)
      requires Valid()
      modifies this
      ensures Valid() && timers == old(timers) + AskedOne(r, now, old(nextId)) && nextId == old(nextId) + |AskedOne(r, now, old(nextId))|
      ensures id == None <==> r.repeat && r.delay <= 0
      ensures id == None ==> timers == old(timers) && nextId == old(nextId)
      ensures id.Some? ==> exists t: Timer ::
        timers == old(timers) + [t] && t.id == id.value > old(nextId) && now <= t.at && (0 <= r.delay ==> t.at == now + r.delay)
        && t.every == if r.repeat then r.delay else 0
    {
      var d := if r.delay < 0 then 0 else r.delay;
      if r.repeat && d <= 0 {
        return None;
      }
      nextId := nextId + 1;
      timers := timers + [Timer(nextId, now + d, if r.repeat then d else 0)];
      return Some(nextId);
    }

    /** The least time on the list, or none if the list is empty. */
    method NextTimer() returns (next: Option<int>)
      ensures next == None <==> timers == []
      ensures next.Some? ==> (forall t :: t in timers ==> next.value <= t.at) && exists t :: t in timers && t.at == next.value
    {
      next := None;
      for i := 0 to |timers|
        invariant next == None <==> i == 0
        invariant next.Some? ==> (forall t :: t in timers[..i] ==> next.value <= t.at) && exists t :: t in timers[..i] && t.at == next.value
      {
        assert timers[..i + 1] == timers[..i] + [timers[i]];
        if next == None || timers[i].at < next.value {
          next := Some(timers[i].at);
          assert timers[i] in timers[..i + 1];
        }
      }
      assert timers[..|timers|] == timers;
    }

    /** One timer has its next time set, or is taken off the list. */
    method Settle(t: Timer, now: int)
      requires Valid()
      modifies this`timers
      ensures timers == Settled(old(timers), {t.id}, now) && Valid()
    {
      var kept := [];
      for i := 0 to |timers|
        invariant kept == Settled(timers[..i], {t.id}, now)
      {
        assert timers[..i + 1][..i] == timers[..i];
        var x := timers[i];
        if x.id != t.id {
          kept := kept + [x];
        } else if 0 < x.every {
          var next := x.at + x.every;
          if next < now {
            next := now + x.every;
          }
          kept := kept + [x.(at := next)];
        }
      }
      assert timers[..|timers|] == timers;
      SettledKeepsValid(timers, {t.id}, now, nextId);
      timers := kept;
    }

    /** What one callback asks for. An interval of no length is not added. */
    method AddAll(now: int, asked: seq<Request>)
      requires Valid()
      modifies this
      ensures Valid() && AskedOn(old(timers), old(nextId), asked, now, timers, nextId)
    {
      assert asked[..0] == [];
      for i := 0 to |asked|
        invariant Valid() && AskedOn(old(timers), old(nextId), asked[..i], now, timers, nextId)
      {
        AskedStep(old(timers), old(nextId), asked, i, now, timers, nextId);
        var id := Add(now, asked[i]);
      }
      assert asked[..|asked|] == asked;
    }

    /** One timer fires: it is settled and its callback runs. The ghosts are the list
        the turn began with, what has fired of it and asked so far, and the last id it had. */
    method FireOne(t: Timer, now: int, run: Firing, ghost first: seq<Timer>, ghost fired: seq<Timer>, ghost runs: seq<Firing>,
                   ghost top: nat)
      requires Valid() && NoEarlier(runs, now)
      requires t.id !in Ids(fired) && t.id <= top
      requires Progress(first, fired, timers, nextId, runs, top, now)
      modifies this
      ensures Valid() && Progress(first, fired + [t], timers, nextId, runs + [run], top, now)
    {
      FiredOneMore(first, fired, t, timers, nextId, runs, top, now);
      Settle(t, now);
      AskedOneMore(first, fired + [t], timers, nextId, runs, run, top, now);
      AddAll(run.clock, run.asked);
    }

    /** Fires the next of the timers due, with its run. */
    method FireNext(due: seq<Timer>, fired: seq<Timer>, now: int, runs: seq<Firing>, ghost taken: seq<Firing>,
                    ghost first: seq<Timer>, ghost top: nat)
      returns (fired': seq<Timer>, ghost taken': seq<Firing>)
      requires Valid() && OnceEach(due) && forall k :: 0 <= k < |due| ==> due[k].id <= top
      requires |runs| == |due| && NoEarlier(runs, now) && fired < due && taken < runs && |fired| == |taken|
      requires Progress(first, fired, timers, nextId, taken, top, now)
      modifies this
      ensures fired' <= due && taken' <= runs && |fired'| == |taken'| == |fired| + 1
      ensures Valid() && Progress(first, fired', timers, nextId, taken', top, now)
    {
      var i := |fired|;
      FiresNext(due, fired);
      RunsNext(runs, taken, now);
      FireOne(due[i], now, runs[i], first, fired, taken, top);
      fired', taken' := fired + [due[i]], taken + [runs[i]];
    }

    /** Fires timers of the list in the order given, until one of them says the session
        is over. There is one run for each. */
    method FireInOrder(due: seq<Timer>, now: int, runs: seq<Firing>) returns (fired: seq<Timer>, ghost taken: seq<Firing>)
      requires Valid() && OnceEach(due) && forall k :: 0 <= k < |due| ==> due[k].id <= nextId
      requires |runs| == |due| && NoEarlier(runs, now)
      modifies this
      ensures Valid()
      ensures fired <= due && (fired < due ==> fired != [] && runs[|fired| - 1].over)
      ensures forall k :: 0 <= k < |fired| - 1 ==> !runs[k].over
      ensures taken <= runs && |taken| == |fired|
      ensures Progress(old(timers), fired, timers, nextId, taken, old(nextId), now)
    {
      fired, taken := [], [];
      NoneFired(timers, nextId, now);
      for i := 0 to |due|
        invariant Valid() && |fired| == |taken| == i && fired <= due && taken <= runs
        invariant forall k :: 0 <= k < i ==> !runs[k].over
        invariant Progress(old(timers), fired, timers, nextId, taken, old(nextId), now)
      {
        fired, taken := FireNext(due, fired, now, runs, taken, old(timers), old(nextId));
        if runs[i].over {
          break;
        }
      }
    }

    /** Fires the due timers in order, unless the session is over earlier. Timers asked
        for meanwhile wait for another turn. */
    method FireTimers(now: int, runs: seq<Firing>) returns (fired: seq<Timer>)
      requires Valid() && |runs| == |SortStable(Due(timers, now))| && NoEarlier(runs, now)
      modifies this
      ensures Valid()
      ensures fired <= SortStable(Due(old(timers), now))
      ensures fired < SortStable(Due(old(timers), now)) ==> fired != [] && runs[|fired| - 1].over
      ensures forall k :: 0 <= k < |fired| - 1 ==> !runs[k].over
      ensures Progress(old(timers), fired, timers, nextId, runs[..|fired|], old(nextId), now)
      ensures OnSchedule(old(timers), Ids(fired), now, timers)
      ensures fired == SortStable(Due(old(timers), now)) ==> forall t :: t in timers ==> now <= t.at
    {
      var due := SortStable(Due(timers, now));
      FiringOrder(timers, now);
      ghost var taken;
      fired, taken := FireInOrder(due, now, runs);
      assert taken == runs[..|fired|];
      if fired == due {
        AllFired(old(timers), timers, nextId, runs[..|fired|], old(nextId), now);
      }
      AllOnSchedule(old(timers), fired, timers, nextId, runs[..|fired|], old(nextId), now);
    }
  }
}
