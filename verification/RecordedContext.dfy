/**
 What a recorded schedule says about the run: the context of the property checker, from the
 variables as the runtime wrote them; when a queued timer is due; and which action a batch
 belongs to.
 */
module RecordedContext {
  import opened Actions
  import opened Coverage
  import opened ExplorerRules
  import opened Printing
  import opened Recorder
  import VirtualClock

  // ---------------------------------------------------------------- variables

  /** The event assigns to a variable, or deletes it. */
  ghost predicate Touches(ee: RawEvent, name: string) {
    (ee.etype == LOG_EVENT || ee.etype == DELETEVAR_EVENT) && exists k :: 0 <= k < |ee.vars| && ee.vars[k].name == name
  }

  /** Event i is the last one that touches the variable. */
  ghost predicate LastTouch(events: seq<RawEvent>, name: string, i: nat) {
    i < |events| && Touches(events[i], name) && forall j :: i < j < |events| ==> !Touches(events[j], name)
  }

  /** Entry k is the last one for the variable. */
  ghost predicate LastNamed(vars: seq<RawVar>, name: string, k: nat) {
    k < |vars| && vars[k].name == name && forall j :: k < j < |vars| ==> vars[j].name != name
  }

  /** What the variables of one event have made of the context. */
  ghost predicate Say(context: Context, after: Context, etype: EventType, vars: seq<RawVar>,
                      decode: (string, string) -> Value, name: string) {
    && (etype == LOG_EVENT ==> forall k: nat :: LastNamed(vars, name, k) ==>
          name in after && after[name] == decode(vars[k].typ, vars[k].raw))
    && (etype == DELETEVAR_EVENT ==> forall k :: 0 <= k < |vars| && vars[k].name == name ==> name !in after)
    && ((etype != LOG_EVENT && etype != DELETEVAR_EVENT) || (forall k :: 0 <= k < |vars| ==> vars[k].name != name) ==>
          (name in after <==> name in context) && (name in context ==> after[name] == context[name]))
  }

  lemma VarSays(context: Context, before: Context, etype: EventType, vars: seq<RawVar>, v: RawVar,
                decode: (string, string) -> Value, name: string)
    requires Say(context, before, etype, vars, decode, name)
    ensures var after := match etype
                         case LOG_EVENT => before[v.name := decode(v.typ, v.raw)]
                         case DELETEVAR_EVENT => before - {v.name}
                         case _ => before;
            Say(context, after, etype, vars + [v], decode, name)
  {
    var longer, n := vars + [v], |vars|;
    assert longer[n] == v && forall k :: 0 <= k < n ==> longer[k] == vars[k];
    forall k: nat | LastNamed(longer, name, k) && k < n ensures LastNamed(vars, name, k) && v.name != name {}
  }

  lemma {:induction false} VarsSay(context: Context, etype: EventType, vars: seq<RawVar>,
                                   decode: (string, string) -> Value, name: string)
    ensures Say(context, AfterVars(context, etype, RecordedVars(etype, vars, decode)), etype, vars, decode, name)
  {
    hide Say;
    if vars == [] {
      NothingSaid(context, etype, decode, name);
    } else {
      var n := |vars| - 1;
      VarsSay(context, etype, vars[..n], decode, name);
      VarSays(context, AfterVars(context, etype, RecordedVars(etype, vars[..n], decode)), etype, vars[..n], vars[n],
              decode, name);
      assert vars[..n] + [vars[n]] == vars;
      assert RecordedVars(etype, vars, decode)[..n] == RecordedVars(etype, vars[..n], decode);
    }
  }

  lemma NothingSaid(context: Context, etype: EventType, decode: (string, string) -> Value, name: string)
    ensures Say(context, context, etype, [], decode, name)
  {
  }

  /** A variable is in the context, after any batches, if and only if the last event that touches it
      logs it; its value is then what is decoded from the last entry for it in that event. */
  lemma {:induction false} ContextSays(events: seq<RawEvent>, decode: (string, string) -> Value, name: string)
    ensures var context := AfterLog(map[], RecordedAll(events, decode));
            && (name in context <==> exists i: nat :: LastTouch(events, name, i) && events[i].etype == LOG_EVENT)
            && (forall i: nat, k: nat :: LastTouch(events, name, i) && events[i].etype == LOG_EVENT
                                         && LastNamed(events[i].vars, name, k) ==>
                  name in context && context[name] == decode(events[i].vars[k].typ, events[i].vars[k].raw))
  {
    if events != [] {
      var n := |events| - 1;
      var front, ee := events[..n], events[n];
      ContextSays(front, decode, name);
      var before := AfterLog(map[], RecordedAll(front, decode));
      VarsSay(before, ee.etype, ee.vars, decode, name);
      LogOfOneMore(events, decode);
      hide AfterLog, RecordedAll, AfterVars, RecordedVars;
      LastTouchNext(events, name);
      if Touches(ee, name) && ee.etype == LOG_EVENT {
        var k := SomeLastNamed(ee.vars, name);
        assert LastTouch(events, name, n);
      }
    }
  }

  lemma LogOfOneMore(events: seq<RawEvent>, decode: (string, string) -> Value)
    requires events != []
    ensures var n := |events| - 1;
            AfterLog(map[], RecordedAll(events, decode)) ==
            AfterVars(AfterLog(map[], RecordedAll(events[..n], decode)), events[n].etype,
                      RecordedVars(events[n].etype, events[n].vars, decode))
  {
    var n := |events| - 1;
    assert RecordedAll(events, decode)[..n] == RecordedAll(events[..n], decode);
  }

  lemma LastTouchNext(events: seq<RawEvent>, name: string)
    requires events != []
    ensures var n := |events| - 1;
            forall i: nat :: LastTouch(events, name, i) <==>
              if Touches(events[n], name) then i == n else i < n && LastTouch(events[..n], name, i)
  {
  }

  lemma {:induction false} SomeLastNamed(vars: seq<RawVar>, name: string) returns (k: nat)
    requires exists j :: 0 <= j < |vars| && vars[j].name == name
    ensures LastNamed(vars, name, k)
  {
    if vars[|vars| - 1].name == name {
      k := |vars| - 1;
    } else {
      k := SomeLastNamed(vars[..|vars| - 1], name);
    }
  }

  // ------------------------------------------------------------------- timers

  /** An installed timer gets the next id; it waits for as long as its second argument says, and
      after that again and again for as long as the third says.  A sleep gets the next id after
      that, and its goroutine counts as asleep. */
  lemma QueuedSays(c: VirtualClock.Clock, counter: nat, ee: RawEvent)
    requires IdsBelow(c, counter)
    ensures var (d, n) := Queued(c, counter, ee);
            && d.tick == c.tick && d.ready == c.ready
            && n == counter + (if ee.etype == TIMER_EVENT then 1 else 0) + (if ee.syscall.isSleep then 1 else 0)
            && (ee.etype == TIMER_EVENT ==>
                  && counter + 1 in d.waiting && d.waiting[counter + 1].etype == VirtualClock.Timer
                  && d.waiting[counter + 1].timerId == ee.syscall.args.0
                  && d.waiting[counter + 1].when == (c.tick + ee.syscall.args.1) % VirtualClock.TICKS
                  && d.waiting[counter + 1].period == ee.syscall.args.2
                  && d.waiting[counter + 1].gid == ee.g.gid)
            && (ee.syscall.isSleep ==>
                  && n in d.waiting && d.waiting[n].etype == VirtualClock.Sleep
                  && d.waiting[n].when == (c.tick + ee.syscall.args.0) % VirtualClock.TICKS && d.waiting[n].period == 0
                  && d.waiting[n].gid == ee.syscall.args.1
                  && VirtualClock.IsSleeping(d, ee.syscall.args.1))
            && (forall id :: id in d.waiting && id <= counter ==> id in c.waiting && d.waiting[id] == c.waiting[id])
            && (forall g :: g != ee.syscall.args.1 || !ee.syscall.isSleep ==>
                  (VirtualClock.IsSleeping(d, g) <==> VirtualClock.IsSleeping(c, g)))
  {
  }

  // ------------------------------------------------------------------ actions

  /** A batch counts for a goroutine of the explorer exactly if its last event comes from that
      goroutine of that process. */
  lemma BatchBelongsTo(e: LogEvent, t: ProcThread)
    ensures ActionOf(e) == ThreadString(t) <==>
            e.p == t.proc && e.g.gid == t.thread.gid && e.g.gpc == t.thread.gpc
  {
    if ActionOf(e) == ThreadString(t) {
      KeyStringInjective(ThreadKey(e.p, e.g.gid, e.g.gpc), ThreadOf(t));
    }
  }

  /** The statistics that the explorer starts from say of a goroutine what its batches covered. */
  lemma StatsOfGoroutine(stats: map<string, CovStats>, log: seq<LogEvent>, covEvents: seq<CoverageEvent>,
                         t: ProcThread, block: string)
    requires InBounds(covEvents, |log|) && StatsMatch(stats, log, covEvents)
    ensures CountIn(stats, ThreadString(t), block) == CoveredByGoroutine(log, covEvents, t, block)
  {
    CoveredByThread(log, covEvents, t, block);
  }

  /** How often the batches that end with an event of a goroutine covered a block. */
  function CoveredByGoroutine(log: seq<LogEvent>, covEvents: seq<CoverageEvent>, t: ProcThread, block: string): nat
    requires InBounds(covEvents, |log|)
  {
    if covEvents == [] then 0
    else
      var last := covEvents[|covEvents| - 1];
      var e := log[last.eventIndex];
      CoveredByGoroutine(log, covEvents[..|covEvents| - 1], t, block)
      + if e.p == t.proc && e.g.gid == t.thread.gid && e.g.gpc == t.thread.gpc then CountOf(last.coverage, block)
        else 0
  }

  lemma {:induction false} CoveredByThread(log: seq<LogEvent>, covEvents: seq<CoverageEvent>, t: ProcThread,
                                           block: string)
    requires InBounds(covEvents, |log|)
    ensures CoveredBy(log, covEvents, ThreadString(t), block) == CoveredByGoroutine(log, covEvents, t, block)
  {
    if covEvents != [] {
      var n := |covEvents| - 1;
      CoveredByThread(log, covEvents[..n], t, block);
      BatchBelongsTo(log[covEvents[n].eventIndex], t);
      hide ThreadString, ActionOf;
    }
  }
}
