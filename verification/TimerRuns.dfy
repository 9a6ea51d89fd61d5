/**
 Runs of AddTimerEvent and GetNextEvent on one virtual clock.
 */
module TimerRuns {
  import opened Basics
  import opened Sums
  import opened VirtualClock

  datatype Op = AddEvent(id: int, event: TimeEvent) | GetNext

  /** A clock with its history: every event ever queued, and every timer returned. */
  datatype History = History(clock: Clock, issued: map<int, TimeEvent>, returned: seq<Ready>)

  const Start := History(New, map[], [])

  ghost predicate Step(h: History, op: Op, h': History) {
    match op
    case AddEvent(id, event) =>
      && h'.clock == Add(h.clock, id, event)
      && h'.issued == h.issued[id := h'.clock.waiting[id]]
      && h'.returned == h.returned
    case GetNext =>
      && h'.issued == h.issued
      && (   (NextEvent(h.clock, h'.clock, None) && h'.returned == h.returned)
          || (exists r :: NextEvent(h.clock, h'.clock, Some(r)) && h'.returned == h.returned + [r]))
  }

  ghost predicate Run(hs: seq<History>, ops: seq<Op>) {
    && |hs| == |ops| + 1
    && hs[0] == Start
    && forall i :: 0 <= i < |ops| ==> Step(hs[i], ops[i], hs[i + 1])
  }

  // ----------------------------------------------------------- earliest first

  /** No addition of ticks for a timer exceeds 64 bits in this step. */
  ghost predicate NoWrap(h: History, op: Op, h': History) {
    match op
    case AddEvent(_, event) => event.etype == Timer ==> h.clock.tick + event.when < TICKS
    case GetNext =>
      forall id :: id in h.clock.waiting && h.clock.waiting[id].etype == Timer ==>
        h.clock.waiting[id].when <= h'.clock.tick ==> h'.clock.tick + h.clock.waiting[id].period < TICKS
  }

  /** Waiting timers lie ahead; timers in the ready array are due exactly now. */
  ghost predicate Ordered(c: Clock) {
    && (forall id :: id in c.waiting && c.waiting[id].etype == Timer ==> c.tick <= c.waiting[id].when)
    && (forall k :: 0 <= k < |c.ready| ==> c.ready[k].event.etype == Timer && c.ready[k].event.when == c.tick)
  }

  /** Moving to the earliest waiting time keeps the order. */
  lemma UpdateKeepsOrder(c: Clock, t: Tick, u: Clock, order: seq<int>)
    requires Ordered(c) && c.ready == [] && IsEarliest(c, t) && Updated(c.(tick := t), u, order)
    requires forall id :: id in c.waiting && c.waiting[id].etype == Timer && c.waiting[id].when <= t ==>
               t + c.waiting[id].period < TICKS
    ensures Ordered(u) && c.tick <= u.tick == t
  {
    var m := c.(tick := t);
    forall k | 0 <= k < |u.ready| ensures u.ready[k].event.etype == Timer && u.ready[k].event.when == t {
      assert order[k] in order && DueTimer(m, order[k]);
      assert u.ready[k] == Listed(c.waiting, order)[k];
    }
    forall id | id in u.waiting && u.waiting[id].etype == Timer ensures t <= u.waiting[id].when {
      assert id in c.waiting;
    }
  }

  lemma NextKeepsOrder(h: History, h': History, r: Option<Ready>)
    requires Ordered(h.clock) && NextEvent(h.clock, h'.clock, r) && NoWrap(h, GetNext, h')
    ensures Ordered(h'.clock) && h.clock.tick <= h'.clock.tick
    ensures r.Some? ==> r.value.event.when == h'.clock.tick
  {
    var c := h.clock;
    if c.ready == [] {
      var t: Tick, u, order :| IsEarliest(c, t) && Updated(c.(tick := t), u, order)
        && if u.ready == [] then r == None && h'.clock == u else r.Some? && Fired(u, h'.clock, r.value);
      assert h'.clock.tick == t;
      UpdateKeepsOrder(c, t, u, order);
    }
  }

  /** Queueing an event keeps the order of a clock if and only if the event is a sleep or the
      addition does not wrap. */
  lemma AddKeepsOrderUnlessItWraps(c: Clock, id: int, event: TimeEvent)
    requires Ordered(c)
    ensures Ordered(Add(c, id, event)) <==> event.etype == Sleep || c.tick + event.when < TICKS
  {
    var d := Add(c, id, event);
    assert d.waiting[id].when == Plus(c.tick, event.when);
    if event.etype == Timer && c.tick + event.when >= TICKS {
      assert d.waiting[id].when < d.tick;
    }
  }

  /** What a run without wrap keeps: the queues are in order, and the timers returned so
      far came in order and lie in the past. */
  ghost predicate InOrder(h: History) {
    && Ordered(h.clock)
    && (forall j, k :: 0 <= j < k < |h.returned| ==> h.returned[j].event.when <= h.returned[k].event.when)
    && (forall k :: 0 <= k < |h.returned| ==> h.returned[k].event.when <= h.clock.tick)
  }

  lemma StepKeepsInOrder(h: History, op: Op, h': History)
    requires InOrder(h) && Step(h, op, h') && NoWrap(h, op, h')
    ensures InOrder(h')
  {
    hide NextEvent, Ordered;
    if op.AddEvent? {
      AddKeepsOrderUnlessItWraps(h.clock, op.id, op.event);
    } else if NextEvent(h.clock, h'.clock, None) && h'.returned == h.returned {
      NextKeepsOrder(h, h', None);
    } else {
      var r :| NextEvent(h.clock, h'.clock, Some(r)) && h'.returned == h.returned + [r];
      NextKeepsOrder(h, h', Some(r));
    }
  }

  lemma {:induction false} RunInOrder(hs: seq<History>, ops: seq<Op>, i: nat)
    requires Run(hs, ops) && i <= |ops|
    requires forall j :: 0 <= j < i ==> NoWrap(hs[j], ops[j], hs[j + 1])
    ensures InOrder(hs[i])
  {
    if i > 0 {
      RunInOrder(hs, ops, i - 1);
      StepKeepsInOrder(hs[i - 1], ops[i - 1], hs[i]);
    }
  }

  /** Earliest first: in every run without wrap, a timer is returned no later than every
      timer still queued is due, and no earlier than every timer returned before. */
  lemma EarliestFirst(hs: seq<History>, ops: seq<Op>, i: nat, r: Ready)
    requires Run(hs, ops) && i < |ops| && ops[i] == GetNext
    requires forall j :: 0 <= j <= i ==> NoWrap(hs[j], ops[j], hs[j + 1])
    requires NextEvent(hs[i].clock, hs[i + 1].clock, Some(r))
    ensures var d := hs[i + 1].clock;
            && (forall id :: id in d.waiting && d.waiting[id].etype == Timer ==> r.event.when <= d.waiting[id].when)
            && (forall k :: 0 <= k < |d.ready| ==> r.event.when <= d.ready[k].event.when)
    ensures forall k :: 0 <= k < |hs[i].returned| ==> hs[i].returned[k].event.when <= r.event.when
  {
    RunInOrder(hs, ops, i);
    NextKeepsOrder(hs[i], hs[i + 1], Some(r));
  }

  /** When only sleepers wait the tick jumps to the maximum: from then on every timer with a
      delay wraps. */
  lemma NilMakesDelaysWrap(c: Clock, d: Clock, id: int, event: TimeEvent)
    requires NextEvent(c, d, None)
    requires event.etype == Timer && event.when > 0
    ensures d.tick == MAX_TICK
    ensures Add(d, id, event).waiting[id].when == event.when - 1
  {
    var t: Tick, u, order :| IsEarliest(c, t) && Updated(c.(tick := t), u, order) && u.ready == [] && d == u;
    NilMeansNoTimers(c, t, u, order);
  }

  // ----------------------------------------------------------- runs step by step

  ghost predicate Reaches(ops: seq<Op>, h: History) {
    exists hs :: FreshRun(hs, ops) && hs[|ops|] == h
  }

  lemma OneMore(ops: seq<Op>, h: History, op: Op, h': History)
    requires Reaches(ops, h) && FreshStep(h, op) && Step(h, op, h')
    ensures Reaches(ops + [op], h')
  {
    var hs :| FreshRun(hs, ops) && hs[|ops|] == h;
    hide Step, FreshStep;
    assert FreshRun(hs + [h'], ops + [op]);
  }

  /** Queueing one more event. */
  lemma Queues(ops: seq<Op>, h: History, id: int, event: TimeEvent)
    requires Reaches(ops, h) && FreshStep(h, AddEvent(id, event))
    ensures var c := Add(h.clock, id, event);
            Reaches(ops + [AddEvent(id, event)], History(c, h.issued[id := c.waiting[id]], h.returned))
  {
    var c := Add(h.clock, id, event);
    OneMore(ops, h, AddEvent(id, event), History(c, h.issued[id := c.waiting[id]], h.returned));
  }

  /** A single timer waits, next to sleeps.  When it is due, the sleeps due by then have ended;
      left is what still waits, and asleep are the goroutines whose sleep has not ended. */
  ghost predicate FiresOnly(c: Clock, id: int, left: map<int, TimeEvent>, asleep: map<int, bool>) {
    && c.ready == [] && id in c.waiting && c.waiting[id].etype == Timer && c.waiting[id].period == 0
    && (forall k :: k in c.waiting && k != id ==> c.waiting[k].etype == Sleep && c.waiting[k].period == 0)
    && (forall k :: k in left <==> k in c.waiting && c.waiting[k].when > c.waiting[id].when)
    && (forall k :: k in left ==> left[k] == c.waiting[k])
    && (var m := c.(tick := c.waiting[id].when);
        forall g :: g in asleep <==> g in c.sleeping && !exists k :: DueSleeper(m, k) && c.waiting[k].gid == g)
    && (forall g :: g in asleep ==> asleep[g] == c.sleeping[g])
  }

  lemma FiringUpdates(c: Clock, id: int, left: map<int, TimeEvent>, asleep: map<int, bool>)
    requires FiresOnly(c, id, left, asleep)
    ensures var t := c.waiting[id].when;
            && Updated(c.(tick := t), Clock(t, left, [Ready(id, c.waiting[id])], asleep), [id])
            && IsEarliest(c, t)
  {
    var m, r := c.(tick := c.waiting[id].when), Ready(id, c.waiting[id]);
    assert Listed(c.waiting, [id]) == [r] && m.ready + [r] == [r];
    hide Listed;
    assert forall k :: k in [id] <==> DueTimer(m, k);
  }

  /** Such a timer is returned. */
  lemma Fires(ops: seq<Op>, h: History, id: int, left: map<int, TimeEvent>, asleep: map<int, bool>)
    requires Reaches(ops, h) && FiresOnly(h.clock, id, left, asleep)
    ensures var r := Ready(id, h.clock.waiting[id]);
            Reaches(ops + [GetNext], History(Clock(r.event.when, left, [], asleep), h.issued, h.returned + [r]))
  {
    var c, r := h.clock, Ready(id, h.clock.waiting[id]);
    var t := r.event.when;
    FiringUpdates(c, id, left, asleep);
    var u, d := Clock(t, left, [r], asleep), Clock(t, left, [], asleep);
    hide Updated, IsEarliest, Reaches;
    assert Fired(u, d, r);
    assert NextEvent(c, d, Some(r));
    OneMore(ops, h, GetNext, History(d, h.issued, h.returned + [r]));
  }

  /** With sleeps only, the result is nil. */
  lemma FindsNothing(ops: seq<Op>, h: History)
    requires Reaches(ops, h) && h.clock.ready == []
    requires forall k :: k in h.clock.waiting ==> h.clock.waiting[k].etype == Sleep && h.clock.waiting[k].period == 0
    requires forall g :: g in h.clock.sleeping ==>
               exists k :: k in h.clock.waiting && h.clock.waiting[k].etype == Sleep && h.clock.waiting[k].gid == g
    ensures Reaches(ops + [GetNext], History(Clock(MAX_TICK, map[], [], map[]), h.issued, h.returned))
  {
    var c := h.clock;
    var m, u := c.(tick := MAX_TICK), Clock(MAX_TICK, map[], [], map[]);
    assert forall k :: DueSleeper(m, k) <==> k in c.waiting;
    assert Listed(c.waiting, []) == [];
    assert Updated(m, u, []);
    assert IsEarliest(c, MAX_TICK);
    assert NextEvent(c, u, None);
    OneMore(ops, h, GetNext, History(u, h.issued, h.returned));
  }

  lemma AtStart()
    ensures Reaches([], Start)
  {
    assert FreshRun([Start], []);
    assert [Start][0] == Start;
  }

  const Timer100 := TimeEvent(Timer, 100, 0, 0, 1)
  const Nap := TimeEvent(Sleep, 10, 0, 1, 0)
  const Timer5 := TimeEvent(Timer, 5, 0, 0, 2)

  const Returned := History(Clock(100, map[], [], map[]), map[1 := Timer100], [] + [Ready(1, Timer100)])

  lemma ReturnsAt100()
    ensures Reaches([] + [AddEvent(1, Timer100)] + [GetNext], Returned)
  {
    hide Reaches;
    AtStart();
    Queues([], Start, 1, Timer100);
    var h := History(Clock(0, map[1 := Timer100], [], map[]), map[1 := Timer100], []);
    assert Reaches([] + [AddEvent(1, Timer100)], h);
    Fires([] + [AddEvent(1, Timer100)], h, 1, map[], map[]);
  }

  const Jumped := Returned.(clock := Clock(MAX_TICK, map[], [], map[]),
                            issued := Returned.issued[2 := Nap.(when := 110)])

  lemma JumpsToTheEnd(ops: seq<Op>)
    requires Reaches(ops, Returned)
    ensures Reaches(ops + [AddEvent(2, Nap)] + [GetNext], Jumped)
  {
    hide Reaches;
    Queues(ops, Returned, 2, Nap);
    var nap := Nap.(when := 110);
    var h := Returned.(clock := Clock(100, map[2 := nap], [], map[1 := true]), issued := Returned.issued[2 := nap]);
    assert Reaches(ops + [AddEvent(2, Nap)], h);
    FindsNothing(ops + [AddEvent(2, Nap)], h);
  }

  lemma FiresAt4(ops: seq<Op>)
    requires Reaches(ops, Jumped)
    ensures exists h :: Reaches(ops + [AddEvent(3, Timer5)] + [GetNext], h)
              && h.returned == [Ready(1, Timer100), Ready(3, Timer5.(when := 4))]
  {
    hide Reaches;
    Queues(ops, Jumped, 3, Timer5);
    var timer := Timer5.(when := 4);
    var h := Jumped.(clock := Clock(MAX_TICK, map[3 := timer], [], map[]), issued := Jumped.issued[3 := timer]);
    assert Reaches(ops + [AddEvent(3, Timer5)], h);
    Fires(ops + [AddEvent(3, Timer5)], h, 3, map[], map[]);
    assert h.returned + [Ready(3, timer)] == [Ready(1, Timer100), Ready(3, timer)];
  }

  /** Without the premise timers do not come earliest first.  A timer is returned at 100; then
      only a sleep waits, and the tick jumps; a timer five ticks ahead is now due at 4, and is
      returned next. */
  lemma WrappedTimerComesLate()
    ensures exists ops, h :: Reaches(ops, h) && h.returned == [Ready(1, Timer100), Ready(3, Timer5.(when := 4))]
  {
    hide Reaches;
    ReturnsAt100();
    var ops := [] + [AddEvent(1, Timer100)] + [GetNext];
    JumpsToTheEnd(ops);
    FiresAt4(ops + [AddEvent(2, Nap)] + [GetNext]);
  }

  lemma NilMeansNoTimers(c: Clock, t: Tick, u: Clock, order: seq<int>)
    requires IsEarliest(c, t) && Updated(c.(tick := t), u, order) && u.ready == []
    ensures t == MAX_TICK
    ensures forall id :: id in c.waiting ==> c.waiting[id].etype == Sleep
  {
    assert order == [];
    forall id | id in c.waiting && c.waiting[id].etype == Timer ensures t < c.waiting[id].when {
      assert !DueTimer(c.(tick := t), id);
    }
  }

  // ------------------------------------------------------------- conservation

  /** Event ids are new, and sleeps happen once. */
  ghost predicate FreshStep(h: History, op: Op) {
    op.AddEvent? ==> op.id !in h.issued && (op.event.etype == Sleep ==> op.event.period == 0)
  }

  ghost predicate OneShot(h: History, id: int) {
    id in h.issued && h.issued[id].etype == Timer && h.issued[id].period == 0
  }

  predicate Holds(rs: seq<Ready>, id: int) {
    exists k :: 0 <= k < |rs| && rs[k].id == id
  }

  predicate Once(rs: seq<Ready>, id: int) {
    forall j, k :: 0 <= j < k < |rs| ==> !(rs[j].id == id && rs[k].id == id)
  }

  /** Every one-shot timer is in exactly one place: waiting as it was queued, ready, or returned. */
  ghost predicate Conserved(h: History) {
    forall id :: OneShot(h, id) ==>
      && (if id in h.clock.waiting then
            h.clock.waiting[id] == h.issued[id] && !Holds(h.clock.ready, id) && !Holds(h.returned, id)
          else Holds(h.clock.ready, id) != Holds(h.returned, id))
      && Once(h.clock.ready, id) && Once(h.returned, id)
  }

  /** The queues hold issued events only; the array timers only; sleeping goroutines wait. */
  ghost predicate Sound(h: History) {
    && OnlyTimers(h.clock)
    && (forall id :: id in h.clock.waiting ==>
          && id in h.issued
          && h.clock.waiting[id].etype == h.issued[id].etype && h.clock.waiting[id].period == h.issued[id].period
          && (h.clock.waiting[id].etype == Sleep ==> h.clock.waiting[id].period == 0))
    && (forall k :: 0 <= k < |h.clock.ready| ==> h.clock.ready[k].id in h.issued)
    && (forall k :: 0 <= k < |h.returned| ==> h.returned[k].id in h.issued)
    && (forall g :: g in h.clock.sleeping ==> h.clock.sleeping[g] && Sleeper(h.clock, g))
  }

  /** A sleep of goroutine g is waiting. */
  ghost predicate Sleeper(c: Clock, g: int) {
    exists id :: id in c.waiting && c.waiting[id].etype == Sleep && c.waiting[id].gid == g
  }

  lemma AddKeeps(h: History, op: Op, h': History)
    requires Sound(h) && Conserved(h) && op.AddEvent? && FreshStep(h, op) && Step(h, op, h')
    ensures Sound(h') && Conserved(h')
  {
    forall g | g in h'.clock.sleeping ensures h'.clock.sleeping[g] && Sleeper(h'.clock, g) {
      if g in h.clock.sleeping {
        var id :| id in h.clock.waiting && h.clock.waiting[id].etype == Sleep && h.clock.waiting[id].gid == g;
        assert id in h'.clock.waiting;
      } else {
        assert op.id in h'.clock.waiting;
      }
    }
    forall id | OneShot(h', id) ensures id != op.id ==> OneShot(h, id) {}
  }

  /** Moving on to the earliest time. */
  lemma UpdateKeepsSound(h: History, t: Tick, u: Clock, order: seq<int>)
    requires Sound(h) && Updated(h.clock.(tick := t), u, order)
    ensures Sound(h.(clock := u))
  {
    var m := h.clock.(tick := t);
    forall k | 0 <= k < |u.ready| ensures u.ready[k].event.etype == Timer && u.ready[k].id in h.issued {
      if k >= |m.ready| {
        var id := order[k - |m.ready|];
        assert id in order && DueTimer(m, id);
        assert u.ready[k] == Listed(m.waiting, order)[k - |m.ready|];
      }
    }
    forall g | g in u.sleeping ensures u.sleeping[g] && Sleeper(u, g) {
      var id :| id in m.waiting && m.waiting[id].etype == Sleep && m.waiting[id].gid == g;
      assert !DueSleeper(m, id);
      assert id in u.waiting;
    }
  }

  lemma UpdateKeepsConserved(h: History, t: Tick, u: Clock, order: seq<int>)
    requires Sound(h) && Conserved(h) && h.clock.ready == [] && Updated(h.clock.(tick := t), u, order)
    ensures Conserved(h.(clock := u))
  {
    var m := h.clock.(tick := t);
    forall id ensures Holds(u.ready, id) <==> DueTimer(m, id) {
      if Holds(u.ready, id) {
        var k :| 0 <= k < |u.ready| && u.ready[k].id == id;
        assert order[k] in order && u.ready[k] == Listed(m.waiting, order)[k];
      }
      if DueTimer(m, id) {
        var k :| 0 <= k < |order| && order[k] == id;
        assert u.ready[k] == Listed(m.waiting, order)[k];
      }
    }
    forall id ensures Once(u.ready, id) {
      forall j, k | 0 <= j < k < |u.ready| ensures !(u.ready[j].id == id && u.ready[k].id == id) {
        assert order[j] in order && order[k] in order;
        assert u.ready[j] == Listed(m.waiting, order)[j] && u.ready[k] == Listed(m.waiting, order)[k];
      }
    }
    forall id | OneShot(h.(clock := u), id) ensures OneShot(h, id) {}
  }

  /** Taking the last entry of the ready array. */
  lemma FireKeeps(h: History, d: Clock, r: Ready)
    requires Sound(h) && Conserved(h) && Fired(h.clock, d, r)
    ensures var h' := History(d, h.issued, h.returned + [r]); Sound(h') && Conserved(h')
  {
    var h' := History(d, h.issued, h.returned + [r]);
    var n := |h.clock.ready| - 1;
    forall g | g in d.sleeping ensures Sleeper(d, g) {
      assert Sleeper(h.clock, g);
    }
    forall id | OneShot(h, id)
      ensures Holds(h'.returned, id) <==> Holds(h.returned, id) || r.id == id
      ensures Holds(d.ready, id) <==> Holds(h.clock.ready, id) && r.id != id
      ensures Once(d.ready, id) && Once(h'.returned, id)
    {
      MovedEntry(h.clock.ready, h.returned, id);
      if r.id == id {
        assert Holds(h.clock.ready, id);
      }
    }
    forall id | OneShot(h', id) ensures OneShot(h, id) {}
  }

  lemma MovedEntry(ready: seq<Ready>, returned: seq<Ready>, id: int)
    requires ready != [] && Once(ready, id) && Once(returned, id)
    ensures var r := ready[|ready| - 1];
            && (Holds(returned + [r], id) <==> Holds(returned, id) || r.id == id)
            && (Holds(ready[..|ready| - 1], id) <==> Holds(ready, id) && r.id != id)
            && Once(ready[..|ready| - 1], id)
            && (!Holds(returned, id) || r.id != id ==> Once(returned + [r], id))
  {
    var r := ready[|ready| - 1];
    var returned' := returned + [r];
    assert returned'[|returned|] == r;
    if Holds(returned, id) {
      var k :| 0 <= k < |returned| && returned[k].id == id;
      assert returned'[k].id == id;
    }
    if Holds(ready, id) && r.id != id {
      var k :| 0 <= k < |ready| && ready[k].id == id;
      assert ready[..|ready| - 1][k].id == id;
    }
  }

  lemma StepKeeps(h: History, op: Op, h': History)
    requires Sound(h) && Conserved(h) && FreshStep(h, op) && Step(h, op, h')
    ensures Sound(h') && Conserved(h')
  {
    hide Sound, Conserved, UpdatedBut, Fired, IsEarliest;
    if op.AddEvent? {
      AddKeeps(h, op, h');
    } else if NextEvent(h.clock, h'.clock, None) && h'.returned == h.returned {
      var t: Tick, u, order :|
        IsEarliest(h.clock, t) && Updated(h.clock.(tick := t), u, order) && u.ready == [] && h'.clock == u;
      UpdateKeepsSound(h, t, u, order);
      UpdateKeepsConserved(h, t, u, order);
      assert h' == h.(clock := u);
    } else {
      var r :| NextEvent(h.clock, h'.clock, Some(r)) && h'.returned == h.returned + [r];
      assert h' == History(h'.clock, h.issued, h.returned + [r]);
      if h.clock.ready != [] {
        FireKeeps(h, h'.clock, r);
      } else {
        var t: Tick, u, order :| IsEarliest(h.clock, t) && Updated(h.clock.(tick := t), u, order)
          && u.ready != [] && Fired(u, h'.clock, r);
        UpdateKeepsSound(h, t, u, order);
        UpdateKeepsConserved(h, t, u, order);
        FireKeeps(h.(clock := u), h'.clock, r);
      }
    }
  }

  ghost predicate FreshRun(hs: seq<History>, ops: seq<Op>) {
    Run(hs, ops) && forall i :: 0 <= i < |ops| ==> FreshStep(hs[i], ops[i])
  }

  /** In every run with fresh event ids and one-time sleeps, each one-shot timer is waiting,
      ready or returned, and only one of these; the ready array never holds a sleep, so it
      always has a timer to give; and a goroutine marked as sleeping has a sleep waiting. */
  lemma {:induction false} TimersConserved(hs: seq<History>, ops: seq<Op>, i: nat)
    requires FreshRun(hs, ops) && i <= |ops|
    ensures Conserved(hs[i]) && OnlyTimers(hs[i].clock)
    ensures forall g :: IsSleeping(hs[i].clock, g) ==> Sleeper(hs[i].clock, g)
    ensures Sound(hs[i])
  {
    if i > 0 {
      TimersConserved(hs, ops, i - 1);
      StepKeeps(hs[i - 1], ops[i - 1], hs[i]);
    }
  }

  lemma Empty<V>(m: map<int, V>)
    requires forall id :: id !in m
    ensures m == map[]
  {
    if m.Keys != {} {
      var id := SomeElement(m.Keys);
    }
  }

  /** A nil result means that nothing waits and nobody sleeps any more. */
  lemma NilLeavesNothing(hs: seq<History>, ops: seq<Op>, i: nat)
    requires FreshRun(hs, ops) && i < |ops|
    requires ops[i] == GetNext && NextEvent(hs[i].clock, hs[i + 1].clock, None)
    ensures hs[i + 1].clock.waiting == map[] && hs[i + 1].clock.sleeping == map[] && hs[i + 1].clock.ready == []
  {
    TimersConserved(hs, ops, i);
    TimersConserved(hs, ops, i + 1);
    var c, d := hs[i].clock, hs[i + 1].clock;
    var t: Tick, u, order :| IsEarliest(c, t) && Updated(c.(tick := t), u, order) && u.ready == [] && d == u;
    var m := c.(tick := t);
    NilMeansNoTimers(c, t, u, order);
    assert forall id :: id in c.waiting ==> Due(m, id);
    assert forall id :: id !in d.waiting;
    assert forall g :: !Sleeper(d, g);
    Empty(d.waiting);
    Empty(d.sleeping);
  }

  // ----------------------------------------------------------------- sleeping

  /** A goroutine that sleeps does not go to sleep again. */
  ghost predicate NoDoubleSleep(h: History, op: Op) {
    op.AddEvent? && op.event.etype == Sleep ==> !IsSleeping(h.clock, op.event.gid)
  }

  /** Each waiting sleep is the only one of its goroutine, which is marked as sleeping. */
  ghost predicate SleepersMarked(c: Clock) {
    && (forall id :: id in c.waiting && c.waiting[id].etype == Sleep ==> IsSleeping(c, c.waiting[id].gid))
    && (forall a, b | a in c.waiting && b in c.waiting && c.waiting[a].etype == c.waiting[b].etype == Sleep ::
          c.waiting[a].gid == c.waiting[b].gid ==> a == b)
  }

  lemma UpdateKeepsMarks(h: History, t: Tick, u: Clock, order: seq<int>)
    requires Sound(h) && SleepersMarked(h.clock) && Updated(h.clock.(tick := t), u, order)
    ensures SleepersMarked(u)
  {
    var m := h.clock.(tick := t);
    forall id | id in u.waiting && u.waiting[id].etype == Sleep ensures IsSleeping(u, u.waiting[id].gid) {
      assert id in m.waiting && !Due(m, id);
      var g := m.waiting[id].gid;
      assert forall k :: DueSleeper(m, k) && k != id ==> m.waiting[k].gid != g;
    }
  }

  /** If no goroutine goes to sleep while it sleeps, IsSleeping is exact. */
  lemma {:induction false} OneSleepEachIsExact(hs: seq<History>, ops: seq<Op>, i: nat)
    requires FreshRun(hs, ops) && i <= |ops|
    requires forall j :: 0 <= j < i ==> NoDoubleSleep(hs[j], ops[j])
    ensures Exact(hs[i].clock) && SleepersMarked(hs[i].clock)
  {
    TimersConserved(hs, ops, i);
    if i > 0 {
      var h, h' := hs[i - 1], hs[i];
      OneSleepEachIsExact(hs, ops, i - 1);
      TimersConserved(hs, ops, i - 1);
      if ops[i - 1].GetNext? && h.clock.ready == [] {
        var t: Tick, u, order :|
          Updated(h.clock.(tick := t), u, order) && h'.clock.waiting == u.waiting && h'.clock.sleeping == u.sleeping;
        UpdateKeepsMarks(h, t, u, order);
      } else if ops[i - 1].AddEvent? {
        AddKeepsMarks(h, ops[i - 1], h');
      }
    }
  }

  lemma AddKeepsMarks(h: History, op: Op, h': History)
    requires Sound(h) && SleepersMarked(h.clock) && op.AddEvent? && FreshStep(h, op) && Step(h, op, h')
    requires NoDoubleSleep(h, op)
    ensures SleepersMarked(h'.clock)
  {
  }

  /** IsSleeping holds of a goroutine if and only if a sleep of that goroutine is waiting. */
  ghost predicate Exact(c: Clock) {
    forall g :: IsSleeping(c, g) <==> Sleeper(c, g)
  }

  /** a and b are sleeps of one goroutine; by t the first has ended and the second has not. */
  ghost predicate Parted(c: Clock, t: Tick, a: int, b: int) {
    && a in c.waiting && b in c.waiting && c.waiting[a].etype == Sleep && c.waiting[b].etype == Sleep
    && c.waiting[a].gid == c.waiting[b].gid && c.waiting[a].when <= t < c.waiting[b].when
  }

  /** The clock moves on, to a time between the ends of two sleeps of one goroutine. */
  ghost predicate PartsSleeps(h: History, op: Op, h': History) {
    op == GetNext && h.clock.ready == [] && exists a, b :: Parted(h.clock, h'.clock.tick, a, b)
  }

  /** Moving on to time t. */
  lemma UpdateExact(h: History, t: Tick, u: Clock, order: seq<int>)
    requires Sound(h) && Updated(h.clock.(tick := t), u, order) && Exact(h.clock)
    ensures Exact(u) <==> forall a, b :: !Parted(h.clock, t, a, b)
  {
    var c, m := h.clock, h.clock.(tick := t);
    if a, b :| Parted(c, t, a, b) {
      assert DueSleeper(m, a) && b in u.waiting;
      assert Sleeper(u, c.waiting[b].gid) && !IsSleeping(u, c.waiting[b].gid);
    } else {
      forall g ensures IsSleeping(u, g) <==> Sleeper(u, g) {
        if IsSleeping(u, g) {
          var id :| id in c.waiting && c.waiting[id].etype == Sleep && c.waiting[id].gid == g;
          assert !DueSleeper(m, id);
          assert id in u.waiting;
        }
        if Sleeper(u, g) {
          var b :| b in u.waiting && u.waiting[b].etype == Sleep && u.waiting[b].gid == g;
          assert b in c.waiting && c.waiting[b].when > t && Sleeper(c, g);
          forall a | DueSleeper(m, a) ensures c.waiting[a].gid != g {
            assert !Parted(c, t, a, b);
          }
        }
      }
    }
  }

  lemma AddKeepsExact(h: History, op: Op, h': History)
    requires Sound(h) && Exact(h.clock) && op.AddEvent? && FreshStep(h, op) && Step(h, op, h')
    ensures Exact(h'.clock)
  {
    forall g ensures IsSleeping(h'.clock, g) <==> Sleeper(h'.clock, g) {
      assert op.id !in h.clock.waiting && op.id in h'.clock.waiting;
      if Sleeper(h.clock, g) {
        var id :| id in h.clock.waiting && h.clock.waiting[id].etype == Sleep && h.clock.waiting[id].gid == g;
        assert id in h'.clock.waiting;
      }
      if Sleeper(h'.clock, g) {
        var id :| id in h'.clock.waiting && h'.clock.waiting[id].etype == Sleep && h'.clock.waiting[id].gid == g;
        assert id != op.id ==> id in h.clock.waiting;
      }
    }
  }

  lemma StepExact(h: History, op: Op, h': History)
    requires Sound(h) && Exact(h.clock) && FreshStep(h, op) && Step(h, op, h')
    ensures Exact(h'.clock) <==> !PartsSleeps(h, op, h')
  {
    if op.AddEvent? {
      AddKeepsExact(h, op, h');
    } else if h.clock.ready == [] {
      NextExact(h, h');
    } else {
      SameSleeps(h.clock, h'.clock);
    }
  }

  lemma SameSleeps(c: Clock, d: Clock)
    requires c.waiting == d.waiting && c.sleeping == d.sleeping
    ensures Exact(c) <==> Exact(d)
  {
    assert forall g :: Sleeper(c, g) <==> Sleeper(d, g);
  }

  lemma NextExact(h: History, h': History)
    requires Sound(h) && Exact(h.clock) && Step(h, GetNext, h') && h.clock.ready == []
    ensures Exact(h'.clock) <==> !PartsSleeps(h, GetNext, h')
  {
    var t: Tick, u, order :| Updated(h.clock.(tick := t), u, order) && h'.clock.waiting == u.waiting
      && h'.clock.sleeping == u.sleeping && h'.clock.tick == t;
    hide Updated, Sound, NextEvent, Exact;
    UpdateExact(h, t, u, order);
    SameSleeps(h'.clock, u);
  }

  lemma StartExact(h: History)
    requires h == Start
    ensures Exact(h.clock)
  {
  }

  /** On every run, IsSleeping is exact at every moment if and only if the clock never moves on
      to a time between the ends of two sleeps of one goroutine. */
  lemma {:induction false} SleepingIsExact(hs: seq<History>, ops: seq<Op>, i: nat)
    requires FreshRun(hs, ops) && i <= |ops|
    ensures (forall j :: 0 <= j <= i ==> Exact(hs[j].clock)) <==>
            (forall j :: 0 <= j < i ==> !PartsSleeps(hs[j], ops[j], hs[j + 1]))
  {
    hide Exact, PartsSleeps, FreshStep, Step, Sound;
    if i > 0 {
      SleepingIsExact(hs, ops, i - 1);
      if Exact(hs[i - 1].clock) {
        TimersConserved(hs, ops, i - 1);
        StepExact(hs[i - 1], ops[i - 1], hs[i]);
      }
    } else {
      StartExact(hs[0]);
    }
  }

  /** And it can: a goroutine sleeps until 5 and until 10, a timer is due at 7.  When the timer
      has been returned, the second sleep is waiting, but the goroutine is not taken to be asleep. */
  lemma OverlappingSleeps()
    ensures exists ops, h :: Reaches(ops, h) && Sleeper(h.clock, 1) && !IsSleeping(h.clock, 1)
  {
    hide Reaches;
    var a, b, timer := TimeEvent(Sleep, 5, 0, 1, 0), TimeEvent(Sleep, 10, 0, 1, 0), TimeEvent(Timer, 7, 0, 0, 1);
    AtStart();
    Queues([], Start, 1, a);
    var h1 := History(Clock(0, map[1 := a], [], map[1 := true]), map[1 := a], []);
    var ops1 := [] + [AddEvent(1, a)];
    assert Reaches(ops1, h1);
    Queues(ops1, h1, 2, b);
    var h2 := History(Clock(0, map[1 := a, 2 := b], [], map[1 := true]), h1.issued[2 := b], []);
    var ops2 := ops1 + [AddEvent(2, b)];
    assert h1.clock.sleeping[1 := true] == h1.clock.sleeping;
    assert Add(h1.clock, 2, b) == h2.clock;
    assert Reaches(ops2, h2);
    Queues(ops2, h2, 3, timer);
    var h3 := History(Clock(0, map[1 := a, 2 := b, 3 := timer], [], map[1 := true]), h2.issued[3 := timer], []);
    var ops3 := ops2 + [AddEvent(3, timer)];
    assert Reaches(ops3, h3);
    assert DueSleeper(h3.clock.(tick := 7), 1);
    Fires(ops3, h3, 3, map[2 := b], map[]);
    var h4 := History(Clock(7, map[2 := b], [], map[]), h3.issued, [] + [Ready(3, timer)]);
    assert Reaches(ops3 + [GetNext], h4);
    assert 2 in h4.clock.waiting;
  }
}
