/**
 The virtual clock of one process: timers and sleeping goroutines wait in a map, timers
 whose time has come wait in a ready array until they are fired one by one.

 Ticks are 64-bit and additions wrap.  Maps are traversed in no particular order.
 Entries of the ready array carry the id under which they were waiting; the program
 drops it, here it tells which timer is which.
 */
module VirtualClock {
  import opened Basics
  import opened Sums

  const TICKS := 0x1_0000_0000_0000_0000
  const MAX_TICK := TICKS - 1

  type Tick = x: int | 0 <= x < TICKS

  function Plus(a: Tick, b: Tick): Tick {
    (a + b) % TICKS
  }

  datatype TimeEventType = Sleep | Timer

  datatype TimeEvent = TimeEvent(etype: TimeEventType, when: Tick, period: Tick, gid: int, timerId: int)

  datatype Ready = Ready(id: int, event: TimeEvent)

  datatype Clock = Clock(tick: Tick, waiting: map<int, TimeEvent>, ready: seq<Ready>, sleeping: map<int, bool>)

  const New := Clock(0, map[], [], map[])

  function Add(c: Clock, id: int, event: TimeEvent): Clock {
    var queued := event.(when := Plus(c.tick, event.when));
    c.(waiting := c.waiting[id := queued],
       sleeping := if event.etype == Sleep then c.sleeping[event.gid := true] else c.sleeping)
  }

  predicate IsSleeping(c: Clock, gid: int) {
    gid in c.sleeping && c.sleeping[gid]
  }

  // ------------------------------------------------------------ moving on

  predicate Due(c: Clock, id: int) {
    id in c.waiting && c.waiting[id].when <= c.tick
  }

  predicate DueTimer(c: Clock, id: int) {
    Due(c, id) && c.waiting[id].etype == Timer
  }

  predicate DueSleeper(c: Clock, id: int) {
    Due(c, id) && c.waiting[id].etype == Sleep
  }

  /** What the traversal does with one waiting entry. */
  function Release(c: Clock, id: int): Clock
    requires id in c.waiting
  {
    var event := c.waiting[id];
    if event.when <= c.tick then
      Clock(c.tick,
            if event.period != 0 then c.waiting[id := event.(when := Plus(c.tick, event.period))] else c.waiting - {id},
            if event.etype == Timer then c.ready + [Ready(id, event)] else c.ready,
            if event.etype == Sleep then c.sleeping - {event.gid} else c.sleeping)
    else c
  }

  /** d is c after everything due, except for the entries in rest, has left the waiting map:
      timers for the ready array, in some order; sleepers wake up; periodic entries queue up
      again.  The order lists the ids of the timers. */
  ghost predicate UpdatedBut(c: Clock, d: Clock, order: seq<int>, rest: set<int>) {
    && d.tick == c.tick
    && (forall j, k :: 0 <= j < k < |order| ==> order[j] != order[k])
    && (forall id :: id in order <==> DueTimer(c, id) && id !in rest)
    && d.ready == c.ready + Listed(c.waiting, order)
    && (forall id :: id in d.waiting <==>
          id in c.waiting && (Due(c, id) && id !in rest ==> c.waiting[id].period != 0))
    && (forall id :: id in d.waiting ==>
          (d.waiting[id] == if Due(c, id) && id !in rest then c.waiting[id].(when := Plus(c.tick, c.waiting[id].period))
                            else c.waiting[id]))
    && (forall g :: g in d.sleeping <==>
          g in c.sleeping && !exists id :: DueSleeper(c, id) && id !in rest && c.waiting[id].gid == g)
    && (forall g :: g in d.sleeping ==> d.sleeping[g] == c.sleeping[g])
  }

  /** The ready entries of a list of waiting timers. */
  function Listed(waiting: map<int, TimeEvent>, order: seq<int>): (r: seq<Ready>)
    ensures |r| == |order|
    ensures forall k :: 0 <= k < |order| && order[k] in waiting ==> r[k] == Ready(order[k], waiting[order[k]])
  {
    if order == [] then []
    else
      var id := order[|order| - 1];
      Listed(waiting, order[..|order| - 1])
      + [if id in waiting then Ready(id, waiting[id]) else Ready(id, TimeEvent(Timer, 0, 0, 0, 0))]
  }

  ghost predicate Updated(c: Clock, d: Clock, order: seq<int>) {
    UpdatedBut(c, d, order, {})
  }

  lemma ReleaseKeeps(c: Clock, d: Clock, order: seq<int>, rest: set<int>, id: int)
    requires UpdatedBut(c, d, order, rest) && id in rest && id in c.waiting
    ensures var order' := if DueTimer(c, id) then order + [id] else order;
            UpdatedBut(c, Release(d, id), order', rest - {id})
  {
    var order' := if DueTimer(c, id) then order + [id] else order;
    var d' := Release(d, id);
    if DueTimer(c, id) {
      assert order'[..|order|] == order;
      assert d'.ready == c.ready + Listed(c.waiting, order');
    }
  }

  /** t is the earliest time of a waiting timer; the maximum when there is none. */
  ghost predicate IsEarliest(c: Clock, t: Tick) {
    && (forall id :: id in c.waiting && c.waiting[id].etype == Timer ==> t <= c.waiting[id].when)
    && (t == MAX_TICK || exists id :: id in c.waiting && c.waiting[id].etype == Timer && c.waiting[id].when == t)
  }

  ghost predicate OnlyTimers(c: Clock) {
    forall k :: 0 <= k < |c.ready| ==> c.ready[k].event.etype == Timer
  }

  /** Firing: with nothing but timers in the array, the last one is taken. */
  ghost predicate Fired(c: Clock, d: Clock, r: Ready) {
    c.ready != [] && r == c.ready[|c.ready| - 1] && d == c.(ready := c.ready[..|c.ready| - 1])
  }

  /** One call of GetNextEvent. */
  ghost predicate NextEvent(c: Clock, d: Clock, r: Option<Ready>) {
    if c.ready != [] then r.Some? && Fired(c, d, r.value)
    else exists t, u, order ::
      && IsEarliest(c, t) && Updated(c.(tick := t), u, order)
      && if u.ready == [] then r == None && d == u else r.Some? && Fired(u, d, r.value)
  }

  /** The ready array together with the ids of its entries. */
  function Tagged(ids: seq<int>, events: seq<TimeEvent>): (r: seq<Ready>)
    requires |ids| == |events|
    ensures |r| == |ids|
    ensures forall k :: 0 <= k < |ids| ==> r[k] == Ready(ids[k], events[k])
  {
    seq(|ids|, k requires 0 <= k < |ids| => Ready(ids[k], events[k]))
  }

  class VirtualClock {
    var currentTick: Tick
    var waitingQ: map<int, TimeEvent>
    var readyQ: seq<TimeEvent>
    var sleepingRoutines: map<int, bool>
    ghost var readyIds: seq<int>

    ghost predicate Valid()
      reads this
    {
      && |readyIds| == |readyQ|
      && forall k :: 0 <= k < |readyQ| ==> readyQ[k].etype == Timer
    }

    ghost function View(): Clock
      reads this
      requires Valid()
    {
      Clock(currentTick, waitingQ, Tagged(readyIds, readyQ), sleepingRoutines)
    }

    constructor ()
      ensures Valid() && View() == New
    {
      currentTick, waitingQ, readyQ, sleepingRoutines := 0, map[], [], map[];
      readyIds := [];
    }

    method AddTimerEvent(eventId: int, etype: TimeEventType, when: Tick, period: Tick, gid: int, timerId: int)
      requires Valid()
      modifies this
      ensures Valid()
      ensures View() == Add(old(View()), eventId, TimeEvent(etype, when, period, gid, timerId))
    {
      var event := TimeEvent(etype, (currentTick + when) % TICKS, period, gid, timerId);
      waitingQ := waitingQ[eventId := event];
      if etype == Sleep {
        sleepingRoutines := sleepingRoutines[gid := true];
      }
    }

    method IsSleepingNow(gid: int) returns (asleep: bool)
      requires Valid()
      ensures asleep == IsSleeping(View(), gid)
    {
      if gid in sleepingRoutines {
        return sleepingRoutines[gid];
      }
      return false;
    }

    /** The traversal meets each entry once: it only ever removes or replaces the current one. */
    method UpdateQs() returns (ghost order: seq<int>)
      requires Valid()
      modifies this
      ensures Valid()
      ensures Updated(old(View()), View(), order)
    {
      ghost var c := View();
      order := [];
      var rest := waitingQ.Keys;
      while rest != {}
        invariant Valid() && rest <= c.waiting.Keys
        invariant UpdatedBut(c, View(), order, rest)
        decreases |rest|
      {
        ghost var some := SomeElement(rest);
        var id :| id in rest;
        ghost var before := View();
        ReleaseKeeps(c, before, order, rest, id);
        order := if DueTimer(c, id) then order + [id] else order;
        ReleaseEntry(id);
        rest := rest - {id};
      }
    }

    /** The body of the traversal. */
    method ReleaseEntry(id: int)
      requires Valid() && id in waitingQ
      modifies this
      ensures Valid()
      ensures View() == Release(old(View()), id)
    {
      var event := waitingQ[id];
      if event.when <= currentTick {
        if event.etype == Sleep {
          sleepingRoutines := sleepingRoutines - {event.gid};
        } else {
          readyQ := readyQ + [event];
          readyIds := readyIds + [id];
        }
        if event.period != 0 {
          waitingQ := waitingQ[id := event.(when := (currentTick + event.period) % TICKS)];
        } else {
          waitingQ := waitingQ - {id};
        }
      }
    }

    method SetTick(amount: Tick) returns (ghost order: seq<int>)
      requires Valid()
      modifies this
      ensures Valid()
      ensures Updated(old(View()).(tick := amount), View(), order)
    {
      currentTick := amount;
      order := UpdateQs();
    }

    /** The smallest value seen is never recorded, so the last timer of the array wins. */
    method GetNextEventFromReady() returns (timeEvent: TimeEvent, ghost r: Ready)
      requires Valid() && readyQ != []
      modifies this
      ensures Valid()
      ensures Fired(old(View()), View(), r) && timeEvent == r.event
    {
      var lowestIndex := -1;
      var lowestVal := MAX_TICK;
      timeEvent := readyQ[0];
      var i := 0;
      while i < |readyQ|
        invariant i <= |readyQ| && lowestIndex == i - 1 && lowestVal == MAX_TICK
        invariant i > 0 ==> timeEvent == readyQ[i - 1]
      {
        var element := readyQ[i];
        if element.etype != Sleep {
          if element.when <= lowestVal {
            timeEvent := element;
            lowestIndex := i;
          }
        }
        i := i + 1;
      }
      r := Ready(readyIds[lowestIndex], timeEvent);
      ghost var last := |readyQ| - 1;
      readyQ := readyQ[lowestIndex := readyQ[|readyQ| - 1]];
      readyQ := readyQ[..|readyQ| - 1];
      readyIds := readyIds[..last];
      assert Tagged(readyIds, readyQ) == old(View()).ready[..last];
    }

    method GetNextEvent() returns (timeEvent: Option<TimeEvent>, ghost r: Option<Ready>)
      requires Valid()
      modifies this
      ensures Valid()
      ensures NextEvent(old(View()), View(), r)
      ensures timeEvent == match r case None => None case Some(e) => Some(e.event)
    {
      if readyQ != [] {
        var e, f := GetNextEventFromReady();
        return Some(e), Some(f);
      }
      var earliestTick := MAX_TICK;
      var rest := waitingQ.Keys;
      while rest != {}
        invariant unchanged(this) && rest <= waitingQ.Keys
        invariant forall id :: id in waitingQ && id !in rest && waitingQ[id].etype == Timer ==>
                    earliestTick <= waitingQ[id].when
        invariant earliestTick == MAX_TICK ||
                  exists id :: id in waitingQ && waitingQ[id].etype == Timer && waitingQ[id].when == earliestTick
        decreases |rest|
      {
        ghost var some := SomeElement(rest);
        var id :| id in rest;
        rest := rest - {id};
        var event := waitingQ[id];
        if event.etype != Sleep {
          if event.when <= earliestTick {
            earliestTick := event.when;
          }
        }
      }
      assert IsEarliest(View(), earliestTick);
      ghost var order := SetTick(earliestTick);
      ghost var u := View();
      if readyQ == [] {
        return None, None;
      }
      var e, f := GetNextEventFromReady();
      assert Updated(old(View()).(tick := earliestTick), u, order);
      return Some(e), Some(f);
    }
  }
}
