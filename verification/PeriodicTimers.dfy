/**
 Periodic timers keep time: on every run without wrap, the k-th time a periodic timer is
 returned it is due exactly k periods after the first time.
 */
module PeriodicTimers {
  import opened Basics
  import opened TimerRuns
  import opened VirtualClock

  ghost predicate IsPeriodic(h: History, id: int) {
    id in h.issued && h.issued[id].etype == Timer && h.issued[id].period != 0
  }

  /** How often a timer is listed. */
  function Times(rs: seq<Ready>, id: int): nat {
    if rs == [] then 0 else Times(rs[..|rs| - 1], id) + if rs[|rs| - 1].id == id then 1 else 0
  }

  lemma TimesAppend(rs: seq<Ready>, r: Ready, id: int)
    ensures Times(rs + [r], id) == Times(rs, id) + if r.id == id then 1 else 0
  {
    assert (rs + [r])[..|rs|] == rs;
  }

  lemma {:induction false} NotListed(rs: seq<Ready>, id: int)
    requires forall k :: 0 <= k < |rs| ==> rs[k].id != id
    ensures Times(rs, id) == 0
  {
    if rs != [] {
      NotListed(rs[..|rs| - 1], id);
    }
  }

  lemma {:induction false} ListedTimes(waiting: map<int, TimeEvent>, order: seq<int>, id: int)
    requires forall j, k :: 0 <= j < k < |order| ==> order[j] != order[k]
    ensures Times(Listed(waiting, order), id) == if id in order then 1 else 0
  {
    if order != [] {
      var n := |order| - 1;
      ListedTimes(waiting, order[..n], id);
      assert order == order[..n] + [order[n]];
      var listed := Listed(waiting, order);
      assert listed[..n] == Listed(waiting, order[..n]);
    }
  }

  /** When a timer is due that has been due n times before. */
  function DueAt(event: TimeEvent, n: nat): nat {
    event.when + n * event.period
  }

  lemma NextDue(event: TimeEvent, n: nat)
    ensures DueAt(event, n + 1) == DueAt(event, n) + event.period
  {
    assert (n + 1) * event.period == n * event.period + event.period;
  }

  /** A periodic timer is always waiting for its next time; it is ready at most once, and was
      returned every time before. */
  ghost predicate KeepsTime(h: History, id: int) {
    id in h.issued ==>
      var event, c, n := h.issued[id], h.clock, Times(h.returned, id);
      && id in c.waiting
      && c.waiting[id].etype == event.etype && c.waiting[id].period == event.period
      && c.waiting[id].gid == event.gid && c.waiting[id].timerId == event.timerId
      && c.waiting[id].when == DueAt(event, n + Times(c.ready, id))
      && Times(c.ready, id) <= 1
      && (forall k :: 0 <= k < |c.ready| && c.ready[k].id == id ==> c.ready[k].event.when == DueAt(event, n))
      && (forall j :: 0 <= j < |h.returned| && h.returned[j].id == id ==>
            h.returned[j].event.when == DueAt(event, Times(h.returned[..j], id)))
  }

  ghost predicate AllKeepTime(h: History) {
    forall id :: IsPeriodic(h, id) ==> KeepsTime(h, id)
  }

  lemma AddKeepsTime(h: History, op: Op, h': History)
    requires op.AddEvent? && Step(h, op, h') && FreshStep(h, op) && NoWrap(h, op, h') && Sound(h) && AllKeepTime(h)
    ensures AllKeepTime(h')
  {
    forall id | IsPeriodic(h', id) ensures KeepsTime(h', id) {
      if id == op.id {
        NotListed(h.clock.ready, id);
        NotListed(h.returned, id);
      } else {
        assert IsPeriodic(h, id);
      }
    }
  }

  /** The last entry of the ready array is returned. */
  lemma FireKeepsTime(h: History, d: Clock, r: Ready, id: int)
    requires KeepsTime(h, id) && Fired(h.clock, d, r)
    ensures KeepsTime(History(d, h.issued, h.returned + [r]), id)
  {
    var c := h.clock;
    assert c.ready == d.ready + [r];
    TimesAppend(d.ready, r, id);
    TimesAppend(h.returned, r, id);
    forall j | 0 <= j < |h.returned| + 1 ensures (h.returned + [r])[..j] == h.returned[..j] {}
    if id in h.issued && r.id == id {
      OnceOnly(d.ready, id);
    }
  }

  lemma {:induction false} OnceOnly(rs: seq<Ready>, id: int)
    requires Times(rs, id) == 0
    ensures forall k :: 0 <= k < |rs| ==> rs[k].id != id
  {
    if rs != [] {
      OnceOnly(rs[..|rs| - 1], id);
    }
  }

  /** Moving on to the earliest time does this to one periodic timer: it is due at that time, is
      made ready and waits again, or it stays as it is. */
  lemma UpdateOne(c: Clock, t: Tick, u: Clock, order: seq<int>, id: int)
    requires c.ready == [] && IsEarliest(c, t) && Updated(c.(tick := t), u, order)
    requires id in c.waiting && c.waiting[id].etype == Timer && c.waiting[id].period != 0
    requires c.waiting[id].when <= t ==> t + c.waiting[id].period < TICKS
    ensures id in u.waiting && c.waiting[id].when >= t
    ensures u.waiting[id] == if c.waiting[id].when == t then c.waiting[id].(when := t + c.waiting[id].period)
                             else c.waiting[id]
    ensures Times(u.ready, id) == if c.waiting[id].when == t then 1 else 0
    ensures forall k :: 0 <= k < |u.ready| && u.ready[k].id == id ==> u.ready[k].event == c.waiting[id]
  {
    var m := c.(tick := t);
    assert t <= c.waiting[id].when;
    hide Ordered, IsEarliest, UpdatedBut;
    ReadyPart(m, u, order, id);
    WaitingPart(m, u, order, id);
  }

  lemma ReadyPart(m: Clock, u: Clock, order: seq<int>, id: int)
    requires m.ready == [] && UpdatedBut(m, u, order, {}) && id in m.waiting && m.waiting[id].etype == Timer
    ensures Times(u.ready, id) == if m.waiting[id].when <= m.tick then 1 else 0
    ensures forall k :: 0 <= k < |u.ready| && u.ready[k].id == id ==> u.ready[k].event == m.waiting[id]
  {
    hide UpdatedBut, Listed, Times;
    OrderOfTimers(m, u, order);
    ListedTimes(m.waiting, order, id);
    assert id in order <==> DueTimer(m, id);
  }

  lemma OrderOfTimers(m: Clock, u: Clock, order: seq<int>)
    requires m.ready == [] && UpdatedBut(m, u, order, {})
    ensures u.ready == Listed(m.waiting, order)
    ensures forall j, k :: 0 <= j < k < |order| ==> order[j] != order[k]
    ensures forall id :: id in order <==> DueTimer(m, id)
    ensures forall k :: 0 <= k < |order| ==> order[k] in m.waiting
  {
    hide Listed;
    assert [] + Listed(m.waiting, order) == Listed(m.waiting, order);
    forall k | 0 <= k < |order| ensures order[k] in m.waiting {
      assert order[k] in order;
    }
  }

  lemma WaitingPart(m: Clock, u: Clock, order: seq<int>, id: int)
    requires UpdatedBut(m, u, order, {}) && id in m.waiting && m.waiting[id].period != 0
    ensures id in u.waiting
    ensures var event := m.waiting[id];
            u.waiting[id] == if event.when <= m.tick then event.(when := Plus(m.tick, event.period)) else event
  {
    assert Due(m, id) <==> m.waiting[id].when <= m.tick;
  }

  lemma UpdateKeepsTime(h: History, t: Tick, u: Clock, order: seq<int>, id: int)
    requires KeepsTime(h, id) && h.clock.ready == [] && Ordered(h.clock) && IsPeriodic(h, id)
    requires IsEarliest(h.clock, t) && Updated(h.clock.(tick := t), u, order)
    requires id in h.clock.waiting && h.clock.waiting[id].when <= t ==> t + h.clock.waiting[id].period < TICKS
    ensures KeepsTime(h.(clock := u), id)
  {
    hide Ordered, DueAt, IsEarliest, Updated;
    UpdateOne(h.clock, t, u, order, id);
    NextDue(h.issued[id], Times(h.returned, id));
  }

  lemma NextKeepsTime(h: History, h': History)
    requires Step(h, GetNext, h') && NoWrap(h, GetNext, h') && Sound(h) && Ordered(h.clock) && AllKeepTime(h)
    ensures AllKeepTime(h')
  {
    forall id | IsPeriodic(h', id) ensures KeepsTime(h', id) {
      assert IsPeriodic(h, id);
      OneKeepsTime(h, h', id);
    }
  }

  lemma OneKeepsTime(h: History, h': History, id: int)
    requires Step(h, GetNext, h') && NoWrap(h, GetNext, h') && Ordered(h.clock) && IsPeriodic(h, id) && KeepsTime(h, id)
    ensures KeepsTime(h', id)
  {
    hide KeepsTime, Ordered, Updated, IsEarliest, Fired;
    if NextEvent(h.clock, h'.clock, None) && h'.returned == h.returned {
      var t: Tick, u, order :|
        IsEarliest(h.clock, t) && Updated(h.clock.(tick := t), u, order) && u.ready == [] && h'.clock == u;
      UpdateNoWrap(h, h', t, u, order, id);
      UpdateKeepsTime(h, t, u, order, id);
      assert h' == h.(clock := u);
    } else {
      var r :| NextEvent(h.clock, h'.clock, Some(r)) && h'.returned == h.returned + [r];
      assert h' == History(h'.clock, h.issued, h.returned + [r]);
      if h.clock.ready != [] {
        FireKeepsTime(h, h'.clock, r, id);
      } else {
        var t: Tick, u, order :| IsEarliest(h.clock, t) && Updated(h.clock.(tick := t), u, order)
          && u.ready != [] && Fired(u, h'.clock, r);
        FiredTick(u, h'.clock, r);
        UpdateNoWrap(h, h', t, u, order, id);
        UpdateKeepsTime(h, t, u, order, id);
        FireKeepsTime(h.(clock := u), h'.clock, r, id);
      }
    }
  }

  lemma FiredTick(u: Clock, d: Clock, r: Ready)
    requires Fired(u, d, r)
    ensures d.tick == u.tick
  {
  }

  lemma UpdateNoWrap(h: History, h': History, t: Tick, u: Clock, order: seq<int>, id: int)
    requires NoWrap(h, GetNext, h') && Updated(h.clock.(tick := t), u, order) && h'.clock.tick == u.tick
    requires IsPeriodic(h, id) && KeepsTime(h, id)
    ensures id in h.clock.waiting && h.clock.waiting[id].when <= t ==> t + h.clock.waiting[id].period < TICKS
  {
  }

  lemma {:induction false} RunKeepsTime(hs: seq<History>, ops: seq<Op>, i: nat)
    requires FreshRun(hs, ops) && i <= |ops|
    requires forall j :: 0 <= j < i ==> NoWrap(hs[j], ops[j], hs[j + 1])
    ensures AllKeepTime(hs[i])
  {
    hide AllKeepTime, NoWrap, FreshStep, Step, Sound, Ordered, Conserved;
    if i == 0 {
      NothingPeriodic();
    } else {
      RunKeepsTime(hs, ops, i - 1);
      TimersConserved(hs, ops, i - 1);
      RunInOrder(hs, ops, i - 1);
      if ops[i - 1].AddEvent? {
        AddKeepsTime(hs[i - 1], ops[i - 1], hs[i]);
      } else {
        NextKeepsTime(hs[i - 1], hs[i]);
      }
    }
  }

  lemma NothingPeriodic()
    ensures AllKeepTime(Start)
  {
  }

  /** On every run without wrap, a periodic timer is never lost, and each time it is returned it is due
      one period after the time before. */
  lemma PeriodicTimersKeepTime(hs: seq<History>, ops: seq<Op>, i: nat, id: int)
    requires FreshRun(hs, ops) && i <= |ops| && IsPeriodic(hs[i], id)
    requires forall j :: 0 <= j < i ==> NoWrap(hs[j], ops[j], hs[j + 1])
    ensures var h, event := hs[i], hs[i].issued[id];
            && id in h.clock.waiting
            && h.clock.waiting[id].when ==
               event.when + (Times(h.returned, id) + Times(h.clock.ready, id)) * event.period
            && forall j :: 0 <= j < |h.returned| && h.returned[j].id == id ==>
                 h.returned[j].event.when == event.when + Times(h.returned[..j], id) * event.period
  {
    RunKeepsTime(hs, ops, i);
    assert KeepsTime(hs[i], id);
    hide Run, FreshRun, AllKeepTime, Step;
  }

  // -------------------------------------------------- events stay what they are

  /** Apart from its time, the event is the one that was queued under the id; a one-time event keeps
      its time as well. */
  predicate Genuine(issued: map<int, TimeEvent>, id: int, event: TimeEvent) {
    && id in issued
    && event.(when := issued[id].when) == issued[id]
    && (event.period == 0 ==> event == issued[id])
  }

  ghost predicate AllGenuine(h: History) {
    && (forall id :: id in h.clock.waiting ==> Genuine(h.issued, id, h.clock.waiting[id]))
    && (forall k :: 0 <= k < |h.clock.ready| ==> Genuine(h.issued, h.clock.ready[k].id, h.clock.ready[k].event))
    && (forall k :: 0 <= k < |h.returned| ==> Genuine(h.issued, h.returned[k].id, h.returned[k].event))
  }

  lemma UpdateKeepsGenuine(h: History, t: Tick, u: Clock, order: seq<int>)
    requires AllGenuine(h) && h.clock.ready == [] && Updated(h.clock.(tick := t), u, order)
    ensures AllGenuine(h.(clock := u))
  {
    var m := h.clock.(tick := t);
    OrderOfTimers(m, u, order);
    forall id | id in u.waiting ensures Genuine(h.issued, id, u.waiting[id]) {
      assert id in m.waiting;
    }
    hide Updated, UpdatedBut;
  }

  lemma FireKeepsGenuine(h: History, d: Clock, r: Ready)
    requires AllGenuine(h) && Fired(h.clock, d, r)
    ensures AllGenuine(History(d, h.issued, h.returned + [r]))
  {
  }

  lemma StepKeepsGenuine(h: History, op: Op, h': History)
    requires AllGenuine(h) && FreshStep(h, op) && Step(h, op, h')
    ensures AllGenuine(h')
  {
    hide AllGenuine, Updated, IsEarliest, Fired;
    if op.AddEvent? {
      AddKeepsGenuine(h, op, h');
    } else if NextEvent(h.clock, h'.clock, None) && h'.returned == h.returned {
      var t: Tick, u, order :|
        IsEarliest(h.clock, t) && Updated(h.clock.(tick := t), u, order) && u.ready == [] && h'.clock == u;
      UpdateKeepsGenuine(h, t, u, order);
      assert h' == h.(clock := u);
    } else {
      var r :| NextEvent(h.clock, h'.clock, Some(r)) && h'.returned == h.returned + [r];
      assert h' == History(h'.clock, h.issued, h.returned + [r]);
      if h.clock.ready != [] {
        FireKeepsGenuine(h, h'.clock, r);
      } else {
        var t: Tick, u, order :| IsEarliest(h.clock, t) && Updated(h.clock.(tick := t), u, order)
          && u.ready != [] && Fired(u, h'.clock, r);
        UpdateKeepsGenuine(h, t, u, order);
        FireKeepsGenuine(h.(clock := u), h'.clock, r);
      }
    }
  }

  lemma AddKeepsGenuine(h: History, op: Op, h': History)
    requires AllGenuine(h) && op.AddEvent? && FreshStep(h, op) && Step(h, op, h')
    ensures AllGenuine(h')
  {
  }

  lemma NothingGenuine()
    ensures AllGenuine(Start)
  {
  }

  lemma {:induction false} RunKeepsGenuine(hs: seq<History>, ops: seq<Op>, i: nat)
    requires FreshRun(hs, ops) && i <= |ops|
    ensures AllGenuine(hs[i])
  {
    hide AllGenuine, FreshStep, Step;
    if i == 0 {
      NothingGenuine();
    } else {
      RunKeepsGenuine(hs, ops, i - 1);
      StepKeepsGenuine(hs[i - 1], ops[i - 1], hs[i]);
    }
  }

  /** On every run with fresh ids, a returned timer carries the timer id, the goroutine and the period
      it was queued with; a one-time timer also the time, its delay after the tick of that moment. */
  lemma ReturnedAsQueued(hs: seq<History>, ops: seq<Op>, i: nat, j: nat, k: nat)
    requires FreshRun(hs, ops) && i < j <= |ops| && ops[i].AddEvent? && k < |hs[j].returned|
    requires hs[j].returned[k].id == ops[i].id
    ensures var event, queued := hs[j].returned[k].event, ops[i].event;
            && event.timerId == queued.timerId && event.gid == queued.gid && event.period == queued.period
            && (queued.period == 0 ==> event.when == (hs[i].clock.tick + queued.when) % TICKS)
  {
    IssuedStays(hs, ops, i, j);
    RunKeepsGenuine(hs, ops, j);
    assert Genuine(hs[j].issued, hs[j].returned[k].id, hs[j].returned[k].event);
    assert Step(hs[i], ops[i], hs[i + 1]);
    hide AllGenuine, Conserved, Sound;
  }

  lemma {:induction false} IssuedStays(hs: seq<History>, ops: seq<Op>, i: nat, j: nat)
    requires FreshRun(hs, ops) && i < j <= |ops| && ops[i].AddEvent?
    ensures ops[i].id in hs[i + 1].issued && ops[i].id in hs[j].issued
    ensures hs[j].issued[ops[i].id] == hs[i + 1].issued[ops[i].id]
  {
    assert Step(hs[i], ops[i], hs[i + 1]);
    if i + 1 < j {
      IssuedStays(hs, ops, i, j - 1);
      assert Step(hs[j - 1], ops[j - 1], hs[j]) && FreshStep(hs[j - 1], ops[j - 1]);
    }
  }
}
