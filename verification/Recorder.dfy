/**
 Recording: batches of events and coverage are taken from the shared memory of a process and
 appended to the schedule, and the explorer builds its first statistics from that schedule.

 How the runtime encodes values is not part of this model: decode stands for it.  Checking
 properties is a parameter of each extraction.
 */
module Recorder {
  import opened Actions
  import opened Coverage
  import opened Printing
  import opened Sums
  import VirtualClock

  type Clock = VirtualClock.VirtualClock

  datatype EventType = LOG_EVENT | DELETEVAR_EVENT | TIMER_EVENT | CRASH_EVENT | OTHER_EVENT

  /** A value as the program decodes it; an event that does not log holds none. */
  datatype Value = NoValue | Decoded(text: string)

  /** A variable as the runtime writes it into shared memory. */
  datatype RawVar = RawVar(name: string, typ: string, raw: string)

  datatype Var = Var(name: string, value: Value, typ: string)

  /** The first arguments of a system call, read as 64-bit numbers. */
  type Word = VirtualClock.Tick

  datatype Syscall = Syscall(isSleep: bool, args: (Word, Word, Word))

  datatype Event<+V> = Event(etype: EventType, p: int, g: RoutineInfo, logId: string, vars: seq<V>, syscall: Syscall)

  type RawEvent = Event<RawVar>

  type LogEvent = Event<Var>

  datatype CoverageEvent = CoverageEvent(coverage: CovStats, eventIndex: int)

  datatype PropEvent = PropEvent(failures: seq<string>, eventIndex: int)

  type Context = map<string, Value>

  // ---------------------------------------------------------------- one event

  /** Values are decoded for log events only. */
  function RecordedVar(etype: EventType, v: RawVar, decode: (string, string) -> Value): Var {
    if etype == LOG_EVENT then Var(v.name, decode(v.typ, v.raw), v.typ) else Var(v.name, NoValue, "")
  }

  function RecordedVars(etype: EventType, vars: seq<RawVar>, decode: (string, string) -> Value): (r: seq<Var>)
    ensures |r| == |vars|
  {
    if vars == [] then []
    else RecordedVars(etype, vars[..|vars| - 1], decode) + [RecordedVar(etype, vars[|vars| - 1], decode)]
  }

  function Recorded(ee: RawEvent, decode: (string, string) -> Value): LogEvent {
    Event(ee.etype, ee.p, ee.g, ee.logId, RecordedVars(ee.etype, ee.vars, decode), ee.syscall)
  }

  function RecordedAll(events: seq<RawEvent>, decode: (string, string) -> Value): (r: seq<LogEvent>)
    ensures |r| == |events|
  {
    if events == [] then [] else RecordedAll(events[..|events| - 1], decode) + [Recorded(events[|events| - 1], decode)]
  }

  /** What recorded variables do to the context of the property checker. */
  function AfterVars(context: Context, etype: EventType, vars: seq<Var>): Context {
    if vars == [] then context
    else
      var before := AfterVars(context, etype, vars[..|vars| - 1]);
      var v := vars[|vars| - 1];
      match etype
      case LOG_EVENT => before[v.name := v.value]
      case DELETEVAR_EVENT => before - {v.name}
      case _ => before
  }

  /** The context, rebuilt from a recorded log alone. */
  function AfterLog(context: Context, log: seq<LogEvent>): Context {
    if log == [] then context
    else
      var e := log[|log| - 1];
      AfterVars(AfterLog(context, log[..|log| - 1]), e.etype, e.vars)
  }

  lemma {:induction false} AfterLogConcat(context: Context, a: seq<LogEvent>, b: seq<LogEvent>)
    ensures AfterLog(context, a + b) == AfterLog(AfterLog(context, a), b)
  {
    if b == [] {
      assert a + b == a;
    } else {
      var n := |b| - 1;
      AfterLogConcat(context, a, b[..n]);
      assert (a + b)[..|a + b| - 1] == a + b[..n];
    }
  }

  // ------------------------------------------------------------------ timers

  function TimerOf(ee: RawEvent): VirtualClock.TimeEvent {
    var args := ee.syscall.args;
    VirtualClock.TimeEvent(VirtualClock.Timer, args.1, args.2, ee.g.gid, args.0)
  }

  function SleepOf(ee: RawEvent): VirtualClock.TimeEvent {
    var args := ee.syscall.args;
    VirtualClock.TimeEvent(VirtualClock.Sleep, args.0, 0, args.1, 0)
  }

  /** The clock after one event: an installed timer and a sleep are queued under the next ids. */
  function Queued(c: VirtualClock.Clock, counter: nat, ee: RawEvent): (VirtualClock.Clock, nat) {
    var (c1, n1) := if ee.etype == TIMER_EVENT then (VirtualClock.Add(c, counter + 1, TimerOf(ee)), counter + 1)
                    else (c, counter);
    if ee.syscall.isSleep then (VirtualClock.Add(c1, n1 + 1, SleepOf(ee)), n1 + 1) else (c1, n1)
  }

  function QueuedAll(c: VirtualClock.Clock, counter: nat, events: seq<RawEvent>): (VirtualClock.Clock, nat) {
    if events == [] then (c, counter)
    else
      var (c1, n1) := QueuedAll(c, counter, events[..|events| - 1]);
      Queued(c1, n1, events[|events| - 1])
  }

  /** No waiting event has an id above the counter: so every new id is fresh. */
  ghost predicate IdsBelow(c: VirtualClock.Clock, counter: nat) {
    forall id :: id in c.waiting ==> 1 <= id <= counter
  }

  /** A batch queues its timers under new ids, and so replaces no event that waits. */
  lemma {:induction false} NewIdsAreFresh(c: VirtualClock.Clock, counter: nat, events: seq<RawEvent>)
    requires IdsBelow(c, counter)
    ensures var (d, n) := QueuedAll(c, counter, events);
            && counter <= n && IdsBelow(d, n)
            && (forall id :: id in c.waiting ==> id in d.waiting && d.waiting[id] == c.waiting[id])
            && (forall id :: id in d.waiting && id !in c.waiting ==> counter < id)
  {
    if events != [] {
      NewIdsAreFresh(c, counter, events[..|events| - 1]);
    }
  }

  // --------------------------------------------------------------- extraction

  /** The end of each batch in the log. */
  ghost predicate BatchEnds(ends: seq<nat>, length: nat) {
    && (forall j, k :: 0 <= j < k < |ends| ==> ends[j] <= ends[k])
    && (if ends == [] then length == 0 else ends[|ends| - 1] == length)
  }

  /** Every coverage event points to the last event of its batch. */
  ghost predicate Indexed(covEvents: seq<CoverageEvent>, ends: seq<nat>) {
    |covEvents| == |ends| && forall k :: 0 <= k < |ends| ==> covEvents[k].eventIndex + 1 == ends[k]
  }

  class Recorder {
    const decode: (string, string) -> Value
    var logEvents: seq<LogEvent>
    var covEvents: seq<CoverageEvent>
    var propEvents: seq<PropEvent>
    var index: nat
    var context: Context
    var eventCounter: nat
    ghost var ends: seq<nat>

    ghost predicate Valid()
      reads this
    {
      && index == |logEvents|
      && context == AfterLog(map[], logEvents)
      && BatchEnds(ends, |logEvents|)
      && Indexed(covEvents, ends)
      && |propEvents| == |ends|
      && (forall k :: 0 <= k < |ends| ==> propEvents[k].eventIndex + 1 == ends[k])
    }

    constructor (decode: (string, string) -> Value)
      ensures Valid() && logEvents == [] && eventCounter == 0 && this.decode == decode
    {
      this.decode := decode;
      logEvents, covEvents, propEvents, index, context, eventCounter := [], [], [], 0, map[], 0;
      ends := [];
    }

    /** The inner loop: the variables of one event. */
    method ConsumeVars(ee: RawEvent) returns (vars: seq<Var>)
      modifies `context
      ensures vars == RecordedVars(ee.etype, ee.vars, decode)
      ensures context == AfterVars(old(context), ee.etype, vars)
    {
      vars := [];
      for j := 0 to |ee.vars|
        invariant vars == RecordedVars(ee.etype, ee.vars[..j], decode)
        invariant context == AfterVars(old(context), ee.etype, vars)
      {
        var v := ee.vars[j];
        assert ee.vars[..j + 1][..j] == ee.vars[..j];
        var recorded := Var(v.name, NoValue, "");
        if ee.etype == LOG_EVENT {
          recorded := Var(v.name, decode(v.typ, v.raw), v.typ);
          context := context[recorded.name := recorded.value];
        } else if ee.etype == DELETEVAR_EVENT {
          context := context - {recorded.name};
        }
        assert (vars + [recorded])[..j] == vars;
        vars := vars + [recorded];
      }
      assert ee.vars[..|ee.vars|] == ee.vars;
    }

    /** A timer that was installed, and a goroutine that went to sleep, go to the clock. */
    method QueueTimers(ee: RawEvent, clock: Clock)
      requires clock.Valid()
      modifies `eventCounter, clock
      ensures clock.Valid()
      ensures (clock.View(), eventCounter) == Queued(old(clock.View()), old(eventCounter), ee)
    {
      if ee.etype == TIMER_EVENT {
        eventCounter := eventCounter + 1;
        var args := ee.syscall.args;
        clock.AddTimerEvent(eventCounter, VirtualClock.Timer, args.1, args.2, ee.g.gid, args.0);
      }
      if ee.syscall.isSleep {
        eventCounter := eventCounter + 1;
        clock.AddTimerEvent(eventCounter, VirtualClock.Sleep, ee.syscall.args.0, 0, ee.syscall.args.1, 0);
      }
    }

    method ConsumeLog(events: seq<RawEvent>, clock: Clock) returns (log: seq<LogEvent>)
      requires clock.Valid()
      modifies `context, `eventCounter, clock
      ensures clock.Valid()
      ensures log == RecordedAll(events, decode)
      ensures context == AfterLog(old(context), log)
      ensures (clock.View(), eventCounter) == QueuedAll(old(clock.View()), old(eventCounter), events)
    {
      log := [];
      for i := 0 to |events|
        invariant clock.Valid()
        invariant log == RecordedAll(events[..i], decode)
        invariant context == AfterLog(old(context), log)
        invariant (clock.View(), eventCounter) == QueuedAll(old(clock.View()), old(eventCounter), events[..i])
      {
        var ee := events[i];
        assert events[..i + 1][..i] == events[..i];
        var vars := ConsumeVars(ee);
        var e := Event(ee.etype, ee.p, ee.g, ee.logId, vars, ee.syscall);
        assert (log + [e])[..i] == log;
        log := log + [e];
        QueueTimers(ee, clock);
      }
      assert events[..|events|] == events;
    }

    /** One batch: events, coverage, and the failures of the property check go to the schedule. */
    method ExtractDataFromProc(events: seq<RawEvent>, blocks: seq<(string, Frequency)>, clock: Clock,
                               failures: seq<string>)
      returns (log: seq<LogEvent>, coverage: CovStats, hasBug: bool)
      requires Valid() && clock.Valid()
      modifies this, clock
      ensures Valid() && clock.Valid()
      ensures log == RecordedAll(events, decode) && logEvents == old(logEvents) + log
      ensures HoldsLastListings(coverage, blocks)
      ensures covEvents == old(covEvents) + [CoverageEvent(coverage, |logEvents| - 1)]
      ensures propEvents == old(propEvents) + [PropEvent(failures, |logEvents| - 1)]
      ensures ends == old(ends) + [|logEvents|]
      ensures (clock.View(), eventCounter) == QueuedAll(old(clock.View()), old(eventCounter), events)
      ensures hasBug <==> failures != [] || exists e :: e in log && e.etype == CRASH_EVENT
    {
      hide VirtualClock.Add, QueuedAll, RecordedAll, AfterLog, BatchEnds, Consumed, HoldsLastListings;
      log := ConsumeLog(events, clock);
      coverage := ConsumeCoverage(blocks);
      AfterLogConcat(map[], logEvents, log);
      BatchAdded(ends, |logEvents|, |logEvents| + |log|);
      propEvents := propEvents + [PropEvent(failures, index + |log| - 1)];
      logEvents := logEvents + log;
      covEvents := covEvents + [CoverageEvent(coverage, index + |log| - 1)];
      hasBug := failures != [];
      var crashed := HasCrash(log);
      if crashed {
        hasBug := true;
      }
      index := index + |log|;
      ends := ends + [index];
    }
  }

  /** Recorded indexes stay inside the log exactly when the first batch had an event. */
  lemma FirstBatchDecides(covEvents: seq<CoverageEvent>, ends: seq<nat>, length: nat)
    requires BatchEnds(ends, length) && Indexed(covEvents, ends)
    ensures InBounds(covEvents, length) <==> ends == [] || ends[0] > 0
  {
    if ends != [] {
      assert covEvents[0].eventIndex + 1 == ends[0];
      assert forall k :: 0 <= k < |ends| ==> ends[0] <= ends[k] <= length;
    }
  }

  lemma BatchAdded(ends: seq<nat>, length: nat, length': nat)
    requires BatchEnds(ends, length) && length <= length'
    ensures BatchEnds(ends + [length'], length')
  {
  }

  method HasCrash(log: seq<LogEvent>) returns (crashed: bool)
    ensures crashed <==> exists e :: e in log && e.etype == CRASH_EVENT
  {
    for k := 0 to |log|
      invariant forall e :: e in log[..k] ==> e.etype != CRASH_EVENT
    {
      if log[k].etype == CRASH_EVENT {
        assert log[k] in log;
        return true;
      }
      assert log[..k + 1] == log[..k] + [log[k]];
    }
    assert log[..|log|] == log;
    return false;
  }

  /** The blocks that the runtime listed; a block listed twice keeps its last count. */
  function Consumed(blocks: seq<(string, Frequency)>): CovStats {
    if blocks == [] then map[]
    else Consumed(blocks[..|blocks| - 1])[blocks[|blocks| - 1].0 := blocks[|blocks| - 1].1]
  }

  /** The k-th listing of its block is the last one. */
  predicate LastListing(blocks: seq<(string, Frequency)>, k: nat)
    requires k < |blocks|
  {
    forall j :: k < j < |blocks| ==> blocks[j].0 != blocks[k].0
  }

  /** A block is in the table exactly when it is listed, and with the count of its last listing. */
  ghost predicate HoldsLastListings(coverage: CovStats, blocks: seq<(string, Frequency)>) {
    && (forall block :: block in coverage <==> exists k :: 0 <= k < |blocks| && blocks[k].0 == block)
    && (forall k :: 0 <= k < |blocks| && LastListing(blocks, k) ==> coverage[blocks[k].0] == blocks[k].1)
  }

  lemma {:induction false} ConsumedHoldsLastListings(blocks: seq<(string, Frequency)>)
    ensures HoldsLastListings(Consumed(blocks), blocks)
  {
    if blocks != [] {
      var n := |blocks| - 1;
      ConsumedHoldsLastListings(blocks[..n]);
      OneMoreListing(Consumed(blocks[..n]), blocks[..n], blocks[n]);
      assert blocks == blocks[..n] + [blocks[n]];
      hide HoldsLastListings;
    }
  }

  lemma OneMoreListing(coverage: CovStats, front: seq<(string, Frequency)>, last: (string, Frequency))
    requires HoldsLastListings(coverage, front)
    ensures HoldsLastListings(coverage[last.0 := last.1], front + [last])
  {
    var blocks, n, c := front + [last], |front|, coverage[last.0 := last.1];
    assert blocks[n] == last && forall k :: 0 <= k < n ==> blocks[k] == front[k];
    forall block ensures block in c <==> exists k :: 0 <= k < |blocks| && blocks[k].0 == block {
      if block in coverage {
        var k :| 0 <= k < n && front[k].0 == block;
        assert blocks[k].0 == block;
      }
    }
    forall k | 0 <= k < |blocks| && LastListing(blocks, k) ensures c[blocks[k].0] == blocks[k].1 {
      if k < n {
        assert blocks[n].0 != blocks[k].0;
        assert LastListing(front, k);
      }
    }
  }

  method ConsumeCoverage(blocks: seq<(string, Frequency)>) returns (coverage: CovStats)
    ensures HoldsLastListings(coverage, blocks)
    ensures coverage == Consumed(blocks)
  {
    ConsumedHoldsLastListings(blocks);
    hide HoldsLastListings;
    coverage := map[];
    for i := 0 to |blocks|
      invariant coverage == Consumed(blocks[..i])
    {
      assert blocks[..i + 1][..i] == blocks[..i];
      coverage := coverage[blocks[i].0 := blocks[i].1];
    }
    assert blocks[..|blocks|] == blocks;
  }

  // ------------------------------------------------------------------ statistics

  datatype Stats = Built(stats: map<string, CovStats>) | OutOfRange

  predicate InBounds(covEvents: seq<CoverageEvent>, length: nat) {
    forall k :: 0 <= k < |covEvents| ==> 0 <= covEvents[k].eventIndex < length
  }

  /** The action that ends a batch. */
  function ActionOf(e: LogEvent): string {
    KeyString(ThreadKey(e.p, e.g.gid, e.g.gpc))
  }

  /** How often the batches of one action covered a block. */
  function CoveredBy(log: seq<LogEvent>, covEvents: seq<CoverageEvent>, action: string, block: string): nat
    requires InBounds(covEvents, |log|)
  {
    if covEvents == [] then 0
    else
      var last := covEvents[|covEvents| - 1];
      CoveredBy(log, covEvents[..|covEvents| - 1], action, block)
      + if ActionOf(log[last.eventIndex]) == action then CountOf(last.coverage, block) else 0
  }

  /** How often all batches covered a block. */
  function CoveredByAll(covEvents: seq<CoverageEvent>, block: string): nat {
    if covEvents == [] then 0
    else CoveredByAll(covEvents[..|covEvents| - 1], block) + CountOf(covEvents[|covEvents| - 1].coverage, block)
  }

  function CountIn(stats: map<string, CovStats>, action: string, block: string): nat {
    if action in stats then CountOf(stats[action], block) else 0
  }

  ghost function TotalIn(stats: map<string, CovStats>, block: string): nat {
    Count(stats.Keys, action => CountIn(stats, action, block))
  }

  /** The statistics hold, for every action, what its batches covered. */
  ghost predicate StatsMatch(stats: map<string, CovStats>, log: seq<LogEvent>, covEvents: seq<CoverageEvent>)
    requires InBounds(covEvents, |log|)
  {
    forall action, block :: CountIn(stats, action, block) == CoveredBy(log, covEvents, action, block)
  }

  /** Taken together, they hold what all batches covered. */
  ghost predicate StatsAddUp(stats: map<string, CovStats>, covEvents: seq<CoverageEvent>) {
    forall block :: TotalIn(stats, block) == CoveredByAll(covEvents, block)
  }

  /** The explorer reads the log at the index of every coverage event: an index out of range
      is a panic.  Otherwise every action gets what its batches covered, and nothing is lost. */
  method BuildActionStats(log: seq<LogEvent>, covEvents: seq<CoverageEvent>) returns (r: Stats)
    ensures r.OutOfRange? <==> !InBounds(covEvents, |log|)
    ensures r.Built? ==> StatsMatch(r.stats, log, covEvents) && StatsAddUp(r.stats, covEvents)
  {
    var actionStats: map<string, CovStats> := map[];
    NothingBuilt(log);
    hide StatsMatch, StatsAddUp;
    for k := 0 to |covEvents|
      invariant InBounds(covEvents[..k], |log|)
      invariant StatsMatch(actionStats, log, covEvents[..k]) && StatsAddUp(actionStats, covEvents[..k])
    {
      var event := covEvents[k];
      if !(0 <= event.eventIndex < |log|) {
        return OutOfRange;
      }
      var e := log[event.eventIndex];
      var actionString := "P" + Itoa(e.p) + "T" + Itoa(e.g.gid) + "H" + Hex(e.g.gpc);
      StatsGrow(log, covEvents[..k], event, actionStats);
      assert covEvents[..k + 1] == covEvents[..k] + [event];
      if actionString !in actionStats {
        actionStats := actionStats[actionString := event.coverage];
      } else {
        var merged := CoverageUnion(actionStats[actionString], event.coverage);
        actionStats := actionStats[actionString := merged];
      }
    }
    assert covEvents[..|covEvents|] == covEvents;
    r := Built(actionStats);
  }

  lemma NothingBuilt(log: seq<LogEvent>)
    ensures StatsMatch(map[], log, []) && StatsAddUp(map[], [])
  {
  }

  function WithBatch(stats: map<string, CovStats>, action: string, coverage: CovStats): map<string, CovStats> {
    stats[action := if action in stats then Union(stats[action], coverage) else coverage]
  }

  lemma StatsGrow(log: seq<LogEvent>, before: seq<CoverageEvent>, event: CoverageEvent, stats: map<string, CovStats>)
    requires InBounds(before, |log|) && 0 <= event.eventIndex < |log|
    requires StatsMatch(stats, log, before) && StatsAddUp(stats, before)
    ensures InBounds(before + [event], |log|)
    ensures var stats' := WithBatch(stats, ActionOf(log[event.eventIndex]), event.coverage);
            StatsMatch(stats', log, before + [event]) && StatsAddUp(stats', before + [event])
  {
    var action := ActionOf(log[event.eventIndex]);
    var stats' := WithBatch(stats, action, event.coverage);
    assert (before + [event])[..|before|] == before;
    hide ActionOf, WithBatch, TotalIn;
    forall a, block ensures CountIn(stats', a, block) == CoveredBy(log, before + [event], a, block) {
      BatchGoesTo(stats, action, event.coverage, a, block);
    }
    forall block ensures TotalIn(stats', block) == CoveredByAll(before + [event], block) {
      BatchAddsUp(stats, action, event.coverage, block);
    }
  }

  lemma BatchGoesTo(stats: map<string, CovStats>, action: string, coverage: CovStats, a: string, block: string)
    ensures CountIn(WithBatch(stats, action, coverage), a, block)
         == CountIn(stats, a, block) + if a == action then CountOf(coverage, block) else 0
  {
  }

  /** Whatever the action, a batch adds its own counts to the total. */
  lemma BatchAddsUp(stats: map<string, CovStats>, action: string, coverage: CovStats, block: string)
    ensures TotalIn(WithBatch(stats, action, coverage), block) == TotalIn(stats, block) + CountOf(coverage, block)
  {
    var stats' := WithBatch(stats, action, coverage);
    CountTake(stats'.Keys, a => CountIn(stats', a, block), action);
    CountEqual(stats.Keys - {action}, a => CountIn(stats', a, block), a => CountIn(stats, a, block));
    assert stats'.Keys - {action} == stats.Keys - {action};
    if action in stats {
      CountTake(stats.Keys, a => CountIn(stats, a, block), action);
    } else {
      assert stats.Keys - {action} == stats.Keys;
    }
  }
}
