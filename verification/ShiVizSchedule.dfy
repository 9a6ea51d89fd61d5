/**
 What the ShiViz converter writes, from the schedule alone: which routine is taken to be
 running, where a switching line appears, which line belongs to which event; and that the
 vectors of the events are ordered exactly as the events happen before each other.
 */
module ShiVizSchedule {
  import opened Basics
  import opened ShiViz

  /** The routine running after some events. */
  function Running(front: seq<Event>): Routine {
    if front == [] then (1, 1)
    else
      var last := front[|front| - 1];
      if last.kind != ThreadEvent then last.Id() else Running(front[..|front| - 1])
  }

  /** Event j is the last one that is not a thread event. */
  ghost predicate LastNonThread(front: seq<Event>, j: nat) {
    && j < |front| && front[j].kind != ThreadEvent
    && forall k :: j < k < |front| ==> front[k].kind == ThreadEvent
  }

  /** It is the routine of the last event that is not a thread event, or 1:1. */
  lemma {:induction false} RunningIsLastNonThread(front: seq<Event>)
    ensures (forall k :: 0 <= k < |front| ==> front[k].kind == ThreadEvent) ==> Running(front) == (1, 1)
    ensures forall j: nat :: LastNonThread(front, j) ==> Running(front) == front[j].Id()
  {
    if front != [] {
      var n := |front| - 1;
      RunningIsLastNonThread(front[..n]);
      forall j: nat | LastNonThread(front, j) ensures Running(front) == front[j].Id() {
        if j < n {
          assert front[n].kind == ThreadEvent;
          assert LastNonThread(front[..n], j);
        }
      }
    }
  }

  function ProcessAfter(front: seq<Event>): int {
    if front == [] then 1 else front[|front| - 1].process
  }

  /** Event i comes with a switching line. */
  predicate SwitchAt(events: seq<Event>, i: nat)
    requires i < |events|
  {
    || (events[i].kind == SchedEvent && Running(events[..i]) != events[i].Id())
    || ProcessAfter(events[..i]) != events[i].process
  }

  /** The number of lines for the first i events: one for each, and one for each switch. */
  function LinesFor(events: seq<Event>, i: nat): nat
    requires i <= |events|
  {
    if i == 0 then 0 else LinesFor(events, i - 1) + if SwitchAt(events, i - 1) then 2 else 1
  }

  /** The position of the line of event i itself. */
  function LineOf(events: seq<Event>, i: nat): nat
    requires i < |events|
  {
    LinesFor(events, i + 1) - 1
  }

  lemma SameSwitch(events: seq<Event>, more: seq<Event>, i: nat)
    requires i < |events|
    ensures SwitchAt(events + more, i) == SwitchAt(events, i)
    ensures Running((events + more)[..i]) == Running(events[..i])
  {
    assert (events + more)[..i] == events[..i];
  }

  lemma {:induction false} SameLines(events: seq<Event>, more: seq<Event>, i: nat)
    requires i <= |events|
    ensures LinesFor(events + more, i) == LinesFor(events, i)
  {
    if i > 0 {
      SameLines(events, more, i - 1);
      SameSwitch(events, more, i - 1);
    }
  }

  /** What the replay has reached after all events of a schedule. */
  ghost predicate Reached(events: seq<Event>, s: State) {
    && s.running == Running(events)
    && s.process == ProcessAfter(events)
    && |s.lines| == LinesFor(events, |events|)
    && (forall r :: r in s.clocks <==> Occurs(events, r))
  }

  ghost predicate Occurs(events: seq<Event>, r: Routine) {
    exists k :: 0 <= k < |events| && events[k].Id() == r
  }

  /** The lines of event i. */
  ghost predicate Written(events: seq<Event>, lines: seq<Line>, i: nat)
    requires i < |events|
  {
    var n := LineOf(events, i);
    && n < |lines| && lines[n].routine == events[i].Id() && !lines[n].switching
    && (SwitchAt(events, i) ==> n > 0 && lines[n - 1].routine == Running(events[..i]) && lines[n - 1].switching)
  }

  lemma OccursNext(events: seq<Event>, e: Event, r: Routine)
    ensures Occurs(events + [e], r) <==> Occurs(events, r) || r == e.Id()
  {
    var longer := events + [e];
    if Occurs(events, r) {
      var k :| 0 <= k < |events| && events[k].Id() == r;
      assert longer[k].Id() == r;
    }
    assert longer[|events|] == e;
  }

  /** One event more, compared with what the converter does. */
  lemma LastSwitch(events: seq<Event>, s: State, e: Event)
    requires Reached(events, s)
    ensures var longer, n := events + [e], |events|;
            && longer[..n] == events && longer[n] == e
            && (SwitchAt(longer, n) <==> Switches(s, e))
            && LinesFor(longer, n) == |s.lines|
            && Running(longer) == (if e.kind == ThreadEvent then s.running else e.Id())
            && ProcessAfter(longer) == e.process
  {
    assert (events + [e])[..|events|] == events;
    SameLines(events, [e], |events|);
    hide Occurs;
  }

  lemma StepKeys(s: State, e: Event)
    ensures Step(s, e).None? <==> Switches(s, e) && s.running !in s.clocks && s.running != e.Id()
    ensures Step(s, e).Some? ==> Step(s, e).value.clocks.Keys == s.clocks.Keys + {e.Id()}
  {
  }

  lemma StepReached(events: seq<Event>, s: State, e: Event)
    requires Reached(events, s) && Step(s, e).Some?
    ensures Reached(events + [e], Step(s, e).value)
  {
    var s' := Step(s, e).value;
    LastSwitch(events, s, e);
    StepKeys(s, e);
    hide SwitchAt, Occurs, Running, ProcessAfter, Ticked, Switches, Merge, Tick;
    forall r ensures r in s'.clocks <==> Occurs(events + [e], r) {
      OccursNext(events, e, r);
    }
  }

  lemma StepWrites(events: seq<Event>, s: State, e: Event)
    requires Reached(events, s) && Step(s, e).Some?
    ensures s.lines <= Step(s, e).value.lines
    ensures Written(events + [e], Step(s, e).value.lines, |events|)
  {
    hide SwitchAt, Occurs, Running, ProcessAfter, Ticked, Switches, Merge, Tick;
    LastSwitch(events, s, e);
    assert LinesFor(events + [e], |events| + 1) == |Step(s, e).value.lines|;
  }

  /** The converter keeps track of who is running as the schedule says. */
  lemma {:induction false} ReplayReached(events: seq<Event>)
    requires Replay(events).Some?
    ensures Reached(events, Replay(events).value)
  {
    hide Reached, Step;
    if events == [] {
      NothingReached();
    } else {
      var front, e := events[..|events| - 1], events[|events| - 1];
      ReplayReached(front);
      StepReached(front, Replay(front).value, e);
      assert front + [e] == events;
    }
  }

  lemma NothingReached()
    ensures Reached([], Start)
  {
  }

  /** Each event gets one line of its own routine, and before it a switching line of the running
      routine exactly when it switches.  Nothing else is written. */
  lemma LinesOfSchedule(events: seq<Event>)
    requires Replay(events).Some?
    ensures |Replay(events).value.lines| == LinesFor(events, |events|)
    ensures forall i :: 0 <= i < |events| ==> Written(events, Replay(events).value.lines, i)
  {
    ReplayReached(events);
    forall i | 0 <= i < |events| ensures Written(events, Replay(events).value.lines, i) {
      LinesOfEvent(events, i);
    }
  }

  lemma LinesOfEvent(events: seq<Event>, i: nat)
    requires Replay(events).Some? && i < |events|
    ensures Written(events, Replay(events).value.lines, i)
  {
    hide Replay, Step, Reached;
    var upTo := events[..i + 1];
    LinesGrow(events, i + 1);
    FrontReplays(upTo);
    var front := upTo[..i];
    ReplayReached(front);
    StepWrites(front, Replay(front).value, upTo[i]);
    assert front + [upTo[i]] == upTo && upTo + events[i + 1..] == events;
    WrittenStays(upTo, events[i + 1..], Replay(upTo).value.lines, Replay(events).value.lines, i);
  }

  lemma FrontReplays(events: seq<Event>)
    requires events != [] && Replay(events).Some?
    ensures var front := events[..|events| - 1];
            Replay(front).Some? && Replay(events) == Step(Replay(front).value, events[|events| - 1])
  {
  }

  lemma WrittenStays(events: seq<Event>, more: seq<Event>, lines: seq<Line>, longer: seq<Line>, i: nat)
    requires i < |events| && Written(events, lines, i) && lines <= longer
    ensures Written(events + more, longer, i)
  {
    SameSwitch(events, more, i);
    SameLines(events, more, i + 1);
    assert (events + more)[i] == events[i];
    assert forall k :: 0 <= k < |lines| ==> longer[k] == lines[k];
  }

  /** No event up to i belongs to the routine running before i. */
  ghost predicate Unknown(events: seq<Event>, i: nat)
    requires i < |events|
  {
    !Occurs(events[..i + 1], Running(events[..i]))
  }

  /** The converter panics exactly when some event switches away from a routine that no event
      up to it belongs to. */
  lemma {:induction false} PanicsExactly(events: seq<Event>)
    ensures Replay(events).None? <==> exists i :: 0 <= i < |events| && SwitchAt(events, i) && Unknown(events, i)
  {
    hide SwitchAt, Unknown, Step, Reached;
    if events != [] {
      var n := |events| - 1;
      PanicsExactly(events[..n]);
      forall i | 0 <= i < n
        ensures SwitchAt(events, i) == SwitchAt(events[..n], i) && Unknown(events, i) == Unknown(events[..n], i)
      {
        SameUnknown(events, i, n);
      }
      if Replay(events[..n]).Some? {
        PanicsAtLast(events);
      } else {
        var i :| 0 <= i < n && SwitchAt(events[..n], i) && Unknown(events[..n], i);
        assert SwitchAt(events, i) && Unknown(events, i);
      }
    }
  }

  lemma SameUnknown(events: seq<Event>, i: nat, n: nat)
    requires i < n < |events|
    ensures SwitchAt(events, i) == SwitchAt(events[..n], i) && Unknown(events, i) == Unknown(events[..n], i)
  {
    assert events[..n][..i] == events[..i] && events[..n][..i + 1] == events[..i + 1];
  }

  lemma PanicsAtLast(events: seq<Event>)
    requires events != [] && Replay(events[..|events| - 1]).Some?
    ensures Replay(events).None? <==> SwitchAt(events, |events| - 1) && Unknown(events, |events| - 1)
  {
    hide SwitchAt, Running, Occurs, Step, Ticked, Switches;
    var n := |events| - 1;
    var front, e := events[..n], events[n];
    var s := Replay(front).value;
    ReplayReached(front);
    assert front + [e] == events && events[..n + 1] == events;
    LastSwitch(front, s, e);
    StepKeys(s, e);
    OccursNext(front, e, s.running);
  }

  // ------------------------------------------------- self-switches, mended

  /** A self-switch ticks the clock of its routine twice.  In the mended lines its first line
      shows the first tick, so that they follow the clock rule; the line of the event itself,
      and all other lines, are as the converter writes them. */
  ghost function Mended(events: seq<Event>): State
    requires Replay(events).Some?
    ensures Mended(events).(lines := Replay(events).value.lines) == Replay(events).value
  {
    if events == [] then Start
    else
      FrontReplays(events);
      var e := events[|events| - 1];
      var s := Mended(events[..|events| - 1]);
      StepIgnoresLines(s, Replay(events[..|events| - 1]).value.lines, e);
      MendedStep(s, e)
  }

  function MendedStep(s: State, e: Event): State
    requires Step(s, e).Some?
  {
    var s', n := Step(s, e).value, |s.lines|;
    if SelfSwitch(s, e) then
      s'.(lines := s.lines + [Line(s.running, false, Ticked(s, e)[e.Id()]), s'.lines[n + 1]])
    else s'
  }

  lemma StepIgnoresLines(s: State, lines: seq<Line>, e: Event)
    ensures Step(s, e).Some? <==> Step(s.(lines := lines), e).Some?
    ensures Step(s, e).Some? ==>
              var a, b := Step(s, e).value, Step(s.(lines := lines), e).value;
              && a.(lines := b.lines) == b
              && a.lines[|s.lines|..] == b.lines[|lines|..]
              && s.lines <= a.lines && lines <= b.lines && |b.lines| - |lines| == if Switches(s, e) then 2 else 1
  {
  }

  lemma MergeWithItself(v: VClock)
    ensures Merge(v, v) == v
  {
  }

  lemma MendedStepConsistent(s: State, e: Event)
    requires Consistent(s) && Step(s, e).Some?
    ensures Consistent(MendedStep(s, e))
  {
    if !SelfSwitch(s, e) {
      StepConsistent(s, e);
    } else {
      var c := s.running;
      var v := Ticked(s, e)[c];
      var first, own := Line(c, false, v), Line(c, false, Tick(v, c));
      MergeWithItself(Tick(v, c));
      OneLine(s.clocks, s.lines, first);
      OneLine(s.clocks[c := v], s.lines + [first], own);
      assert s.lines + [first] + [own] == s.lines + [first, own];
      assert s.clocks[c := v][c := own.clock] == Step(s, e).value.clocks;
    }
  }

  lemma {:induction false} MendedConsistent(events: seq<Event>)
    requires Replay(events).Some?
    ensures Consistent(Mended(events))
  {
    hide Consistent, Step, MendedStep;
    if events == [] {
      NothingConsistent();
    } else {
      FrontReplays(events);
      MendedConsistent(events[..|events| - 1]);
      StepIgnoresLines(Mended(events[..|events| - 1]), Replay(events[..|events| - 1]).value.lines,
                       events[|events| - 1]);
      MendedStepConsistent(Mended(events[..|events| - 1]), events[|events| - 1]);
    }
  }

  lemma NothingConsistent()
    ensures Consistent(Start)
  {
  }

  /** The mended lines of event i. */
  ghost predicate Shown(events: seq<Event>, mended: seq<Line>, lines: seq<Line>, i: nat)
    requires i < |events|
  {
    var n := LineOf(events, i);
    && n < |mended| && n < |lines|
    && mended[n] == lines[n] && mended[n].routine == events[i].Id() && !mended[n].switching
    && (SwitchAt(events, i) ==>
          && n > 0 && mended[n - 1].routine == Running(events[..i])
          && (mended[n - 1].switching <==> Running(events[..i]) != events[i].Id()))
  }

  lemma ShownStays(events: seq<Event>, more: seq<Event>, mended: seq<Line>, mended': seq<Line>, lines: seq<Line>,
                   lines': seq<Line>, i: nat)
    requires i < |events| && Shown(events, mended, lines, i) && mended <= mended' && lines <= lines'
    ensures Shown(events + more, mended', lines', i)
  {
    SameSwitch(events, more, i);
    SameLines(events, more, i + 1);
    assert (events + more)[i] == events[i];
    assert forall k :: 0 <= k < |lines| ==> lines'[k] == lines[k];
    assert forall k :: 0 <= k < |mended| ==> mended'[k] == mended[k];
  }

  lemma StepShows(events: seq<Event>, s: State, lines: seq<Line>, e: Event)
    requires Reached(events, s) && |lines| == |s.lines| && Step(s, e).Some?
    ensures var m, l := MendedStep(s, e).lines, Step(s.(lines := lines), e).value.lines;
            Shown(events + [e], m, l, |events|) && |m| == |l| && s.lines <= m && lines <= l
  {
    hide SwitchAt, Occurs, Running, ProcessAfter, Ticked, Merge, Tick;
    LastSwitch(events, s, e);
    StepIgnoresLines(s, lines, e);
    var m, l := MendedStep(s, e).lines, Step(s.(lines := lines), e).value.lines;
    assert LinesFor(events + [e], |events| + 1) == |m|;
    assert l[|l| - 1] == Step(s, e).value.lines[|l| - 1];
  }

  lemma {:induction false} MendedShows(events: seq<Event>)
    requires Replay(events).Some?
    ensures |Mended(events).lines| == |Replay(events).value.lines| && Reached(events, Mended(events))
    ensures forall i :: 0 <= i < |events| ==> Shown(events, Mended(events).lines, Replay(events).value.lines, i)
  {
    hide Step, MendedStep, Shown;
    ReplayReached(events);
    if events != [] {
      FrontReplays(events);
      var n := |events| - 1;
      var front, e := events[..n], events[n];
      MendedShows(front);
      StepIgnoresLines(Mended(front), Replay(front).value.lines, e);
      StepShows(front, Mended(front), Replay(front).value.lines, e);
      assert front + [e] == events;
      forall i | 0 <= i < n ensures Shown(events, Mended(events).lines, Replay(events).value.lines, i) {
        ShownStays(front, [e], Mended(front).lines, Mended(events).lines, Replay(front).value.lines,
                   Replay(events).value.lines, i);
      }
    }
  }

  // ------------------------------------------------------- happens before

  /** Event i leads on to the later events of its routine, and, when it is running before event j
      switches, to event j. */
  ghost predicate Leads(events: seq<Event>, i: nat, j: nat) {
    && i < j < |events|
    && (events[i].Id() == events[j].Id() || (SwitchAt(events, j) && Running(events[..j]) == events[i].Id()))
  }

  ghost predicate HappensBefore(events: seq<Event>, i: nat, j: nat)
    decreases j
  {
    i == j || exists k: nat :: k < j && Leads(events, k, j) && HappensBefore(events, i, k)
  }

  /** Lines that show a schedule. */
  ghost predicate Shows(events: seq<Event>, lines: seq<Line>) {
    && |lines| == LinesFor(events, |events|)
    && forall i :: 0 <= i < |events| ==> Shown(events, lines, lines, i)
  }

  lemma {:induction false} LinesAscend(events: seq<Event>, i: nat, j: nat)
    requires i <= j <= |events|
    ensures LinesFor(events, i) + (j - i) <= LinesFor(events, j)
  {
    if i < j {
      LinesAscend(events, i, j - 1);
    }
  }

  /** The event that a line was written for. */
  lemma {:induction false} EventOfLine(events: seq<Event>, n: nat, i: nat) returns (k: nat)
    requires n <= |events| && i < LinesFor(events, n)
    ensures k < n && (i == LineOf(events, k) || (SwitchAt(events, k) && i == LineOf(events, k) - 1))
  {
    if i < LinesFor(events, n - 1) {
      k := EventOfLine(events, n - 1, i);
    } else {
      k := n - 1;
    }
  }

  /** Event i happens before some earlier event of routine r than j. */
  ghost predicate ComesBy(events: seq<Event>, i: nat, r: Routine, j: nat) {
    exists k: nat :: k < j && k < |events| && events[k].Id() == r && HappensBefore(events, i, k)
  }

  /** What reaches the lines of event j comes from events that happen before it. */
  lemma {:induction false} ReachedFrom(events: seq<Event>, lines: seq<Line>, i: nat, j: nat, b: nat)
    requires Shows(events, lines) && i < |events| && j < |events| && Reaches(lines, LineOf(events, i), b)
    requires b == LineOf(events, j) || (SwitchAt(events, j) && b == LineOf(events, j) - 1)
    ensures if b == LineOf(events, j) then HappensBefore(events, i, j)
            else ComesBy(events, i, Running(events[..j]), j)
    decreases b
  {
    var a := LineOf(events, i);
    if a == b {
      SameLine(events, i, j, b);
    } else {
      var m: nat :| m < b && Edge(lines, m, b) && Reaches(lines, a, m);
      var k := EventOfLine(events, |events|, m);
      ReachedFrom(events, lines, i, k, m);
      LineBeforeLine(events, k, m, j, b);
      assert Shown(events, lines, lines, k) && Shown(events, lines, lines, j);
      ReachedOn(events, lines, i, k, m, j, b);
    }
  }

  /** A line of event k before a line of event j. */
  lemma LineBeforeLine(events: seq<Event>, k: nat, m: nat, j: nat, b: nat)
    requires k < |events| && j < |events| && m < b
    requires m == LineOf(events, k) || (SwitchAt(events, k) && m == LineOf(events, k) - 1)
    requires b == LineOf(events, j) || (SwitchAt(events, j) && b == LineOf(events, j) - 1)
    ensures k < j || (k == j && b == LineOf(events, j) && SwitchAt(events, j) && m == b - 1)
    ensures m == LineOf(events, k) && b == LineOf(events, j) ==> k < j
    ensures b == LineOf(events, j) && m == b - 1 && SwitchAt(events, j) ==> k == j
    ensures b == m + 1 && m != LineOf(events, k) ==> b == LineOf(events, j) && k == j
  {
    if j < k {
      LinesAscend(events, j + 1, k);
    } else if k < j {
      LinesAscend(events, k + 1, j);
    }
  }

  lemma SameLine(events: seq<Event>, i: nat, j: nat, b: nat)
    requires i < |events| && j < |events| && b == LineOf(events, i)
    requires b == LineOf(events, j) || (SwitchAt(events, j) && b == LineOf(events, j) - 1)
    ensures i == j && b == LineOf(events, j)
  {
    if i < j {
      LinesAscend(events, i + 1, j);
    } else if j < i {
      LinesAscend(events, j + 1, i);
    }
  }

  lemma ReachedOn(events: seq<Event>, lines: seq<Line>, i: nat, k: nat, m: nat, j: nat, b: nat)
    requires k <= j < |events| && b < |lines| && Edge(lines, m, b)
    requires Shown(events, lines, lines, k) && Shown(events, lines, lines, j)
    requires m == LineOf(events, k) || (SwitchAt(events, k) && m == LineOf(events, k) - 1)
    requires b == LineOf(events, j) || (SwitchAt(events, j) && b == LineOf(events, j) - 1)
    requires k < j || (b == LineOf(events, j) && SwitchAt(events, j) && m == b - 1)
    requires lines[m].switching && b == m + 1 ==> b == LineOf(events, j) && k == j
    requires if m == LineOf(events, k) then HappensBefore(events, i, k) && k < j
             else ComesBy(events, i, Running(events[..k]), k)
    ensures if b == LineOf(events, j) then HappensBefore(events, i, j)
            else ComesBy(events, i, Running(events[..j]), j)
  {
    hide Running, SwitchAt, HappensBefore, LinesFor;
    var from: nat;
    if m == LineOf(events, k) {
      from := k;
    } else {
      from :| from < k && from < |events| && events[from].Id() == Running(events[..k])
        && HappensBefore(events, i, from);
    }
    if b == LineOf(events, j) {
      assert Leads(events, from, j);
      OneStepOn(events, i, from, j);
    }
  }

  lemma OneStepOn(events: seq<Event>, i: nat, k: nat, j: nat)
    requires Leads(events, k, j) && HappensBefore(events, i, k)
    ensures HappensBefore(events, i, j)
  {
  }

  /** And the other way round. */
  lemma {:induction false} ReachesThen(events: seq<Event>, lines: seq<Line>, i: nat, j: nat)
    requires Shows(events, lines) && i < |events| && j < |events| && HappensBefore(events, i, j)
    ensures Reaches(lines, LineOf(events, i), LineOf(events, j))
    decreases j
  {
    if i != j {
      var k: nat :| k < j && Leads(events, k, j) && HappensBefore(events, i, k);
      ReachesThen(events, lines, i, k);
      LinesAscend(events, k + 1, j);
      assert Shown(events, lines, lines, k) && Shown(events, lines, lines, j);
      hide HappensBefore, Running, LinesFor;
      var a, b := LineOf(events, k), LineOf(events, j);
      LinesAscend(events, j + 1, |events|);
      if events[k].Id() == events[j].Id() {
        assert Edge(lines, a, b);
      } else {
        assert Edge(lines, a, b - 1) && Edge(lines, b - 1, b);
      }
    }
  }

  /** The vector on the line of event i. */
  ghost function VectorOf(events: seq<Event>, i: nat): VClock
    requires Replay(events).Some? && i < |events|
  {
    LinesOfEvent(events, i);
    Replay(events).value.lines[LineOf(events, i)].clock
  }

  /** For every schedule that is converted to the end, with or without self-switches, the vectors
      on the lines of two events are ordered exactly if the one event happens before the other. */
  lemma EventVectorsAreExact(events: seq<Event>, i: nat, j: nat)
    requires Replay(events).Some? && i < |events| && j < |events|
    ensures Leq(VectorOf(events, i), VectorOf(events, j)) <==> HappensBefore(events, i, j)
  {
    MendedConsistent(events);
    MendedShows(events);
    var mended, lines := Mended(events).lines, Replay(events).value.lines;
    BuiltIsStrong(mended);
    forall k | 0 <= k < |events| ensures Shown(events, mended, mended, k) {
      assert Shown(events, mended, lines, k);
    }
    assert Shown(events, mended, lines, i) && Shown(events, mended, lines, j);
    hide Replay, Mended, Reaches, HappensBefore, Built, Tracks, SwitchAt, Running, LinesFor;
    if Reaches(mended, LineOf(events, i), LineOf(events, j)) {
      ReachedFrom(events, mended, i, j, LineOf(events, j));
    }
    if HappensBefore(events, i, j) {
      ReachesThen(events, mended, i, j);
    }
  }

  /** The schedule alone says whether there is a self-switch. */
  lemma SelfSwitchesInSchedule(events: seq<Event>)
    requires Replay(events).Some?
    ensures NoSelfSwitch(events) <==>
            forall i :: 0 <= i < |events| ==> !(SwitchAt(events, i) && Running(events[..i]) == events[i].Id())
  {
    forall i | 0 <= i < |events|
      ensures Replay(events[..i]).Some?
      ensures SelfSwitch(Replay(events[..i]).value, events[i]) <==>
              SwitchAt(events, i) && Running(events[..i]) == events[i].Id()
    {
      LinesGrow(events, i);
      ReplayReached(events[..i]);
    }
    hide Replay, Running, SwitchAt, SelfSwitch;
  }
}
