/**
 The ShiViz converter: a schedule is replayed into vector clocks, one line per event
 and one more line for the routine that is switched away from.

 A routine is identified by its process and goroutine number, which also fixes the
 name under which it ticks.  Texts of lines and coverage notes are not modelled.
 */
module ShiViz {
  import opened Basics

  datatype Kind = SchedEvent | ThreadEvent | OtherEvent

  type Routine = (int, int)

  datatype Event = Event(kind: Kind, process: int, gid: int) {
    function Id(): Routine { (process, gid) }
  }

  /** A vector clock; routines without an entry stand at 0. */
  type VClock = map<Routine, nat>

  function Entry(v: VClock, r: Routine): nat {
    if r in v then v[r] else 0
  }

  function Tick(v: VClock, r: Routine): VClock {
    v[r := Entry(v, r) + 1]
  }

  function Max(a: nat, b: nat): nat {
    if a < b then b else a
  }

  function Merge(v: VClock, w: VClock): VClock {
    map r | r in v.Keys + w.Keys :: Max(Entry(v, r), Entry(w, r))
  }

  ghost predicate Leq(v: VClock, w: VClock) {
    forall r :: Entry(v, r) <= Entry(w, r)
  }

  /** One line of the log; switching lines are written for the routine that goes off. */
  datatype Line = Line(routine: Routine, switching: bool, clock: VClock)

  datatype State = State(clocks: map<Routine, VClock>, running: Routine, process: int, lines: seq<Line>)

  const Start := State(map[], (1, 1), 1, [])

  /** Does an event hand over from the running routine to its own? */
  predicate Switches(s: State, e: Event) {
    (e.kind == SchedEvent && s.running != e.Id()) || s.process != e.process
  }

  /** The clock of the event's own routine after its tick. */
  function Ticked(s: State, e: Event): map<Routine, VClock> {
    var v := if e.Id() in s.clocks then s.clocks[e.Id()] else map[];
    s.clocks[e.Id() := Tick(v, e.Id())]
  }

  /** One event; None when the converter dereferences the missing clock of the routine
      it believes to be running. */
  function Step(s: State, e: Event): Option<State> {
    var u := e.Id();
    var clocks := Ticked(s, e);
    var running := if e.kind == ThreadEvent then s.running else u;
    if !Switches(s, e) then
      Some(State(clocks, running, e.process, s.lines + [Line(u, false, clocks[u])]))
    else if s.running !in clocks then
      None
    else
      var c := s.running;
      var off := clocks[c := Tick(clocks[c], c)];
      var merged := off[u := Merge(off[u], off[c])];
      Some(State(merged, running, e.process,
                 s.lines + [Line(c, true, off[c]), Line(u, false, merged[u])]))
  }

  function Replay(events: seq<Event>): Option<State> {
    if events == [] then Some(Start)
    else
      match Replay(events[..|events| - 1])
      case None => None
      case Some(s) => Step(s, events[|events| - 1])
  }

  /** The conversion loop. */
  method ParseSchedule(events: seq<Event>) returns (lines: Option<seq<Line>>)
    ensures lines.Some? <==> Replay(events).Some?
    ensures lines.Some? ==> lines.value == Replay(events).value.lines
  {
    hide Tick, Merge;
    var clocks: map<Routine, VClock> := map[];
    var running := (1, 1);
    var process := 1;
    var out: seq<Line> := [];
    var i := 0;
    while i < |events|
      invariant i <= |events|
      invariant Replay(events[..i]) == Some(State(clocks, running, process, out))
    {
      var event := events[i];
      var id := event.Id();
      ghost var s := State(clocks, running, process, out);
      assert events[..i + 1][..i] == events[..i];
      if id !in clocks {
        clocks := clocks[id := map[]];
      }
      clocks := clocks[id := Tick(clocks[id], id)];
      assert clocks == Ticked(s, event);
      if (event.kind == SchedEvent && running != id) || process != event.process {
        if running !in clocks {
          PanicPersists(events, i + 1);
          return None;
        }
        clocks := clocks[running := Tick(clocks[running], running)];
        out := out + [Line(running, true, clocks[running])];
        clocks := clocks[id := Merge(clocks[id], clocks[running])];
      }
      out := out + [Line(id, false, clocks[id])];
      assert out == Step(s, event).value.lines;
      if event.kind != ThreadEvent {
        running := id;
      }
      process := event.process;
      i := i + 1;
    }
    assert events[..|events|] == events;
    return Some(out);
  }

  lemma {:induction false} PanicPersists(events: seq<Event>, i: nat)
    requires i <= |events| && Replay(events[..i]).None?
    ensures Replay(events).None?
  {
    if i == |events| {
      assert events[..i] == events;
    } else {
      assert events[..|events| - 1][..i] == events[..i];
      PanicPersists(events[..|events| - 1], i);
    }
  }

  // -------------------------------------------------------------- causality

  /** A line leads on to the later lines of its routine, and a switching line to the
      line of the routine that comes on. */
  ghost predicate Edge(lines: seq<Line>, a: nat, b: nat) {
    && a < b < |lines|
    && (lines[a].routine == lines[b].routine || (lines[a].switching && b == a + 1))
  }

  ghost predicate Reaches(lines: seq<Line>, a: nat, b: nat)
    decreases b
  {
    a == b || exists m: nat :: m < b && Edge(lines, m, b) && Reaches(lines, a, m)
  }

  /** Vector order is causal order. */
  ghost predicate StrongClock(lines: seq<Line>) {
    forall a: nat, b: nat :: a < |lines| && b < |lines| ==>
      (Leq(lines[a].clock, lines[b].clock) <==> Reaches(lines, a, b))
  }

  /** The number of lines of a routine among the first n. */
  function Count(lines: seq<Line>, r: Routine, n: nat): nat
    requires n <= |lines|
  {
    if n == 0 then 0
    else Count(lines, r, n - 1) + if lines[n - 1].routine == r then 1 else 0
  }

  /** The position after the last line of a routine among the first n; 0 if there is none. */
  function LastOf(lines: seq<Line>, r: Routine, n: nat): (p: nat)
    requires n <= |lines|
    ensures p <= n
    ensures p > 0 ==> lines[p - 1].routine == r
    ensures forall k :: p <= k < n ==> lines[k].routine != r
    ensures Count(lines, r, p) == Count(lines, r, n)
  {
    if n == 0 then 0
    else if lines[n - 1].routine == r then n
    else LastOf(lines, r, n - 1)
  }

  /** The clock a routine has after the first n lines. */
  function ClockAt(lines: seq<Line>, r: Routine, n: nat): VClock
    requires n <= |lines|
  {
    var p := LastOf(lines, r, n);
    if p == 0 then map[] else lines[p - 1].clock
  }

  /** The vector on line b: the routine's previous one ticked, and merged with the line
      before when that one switches to it. */
  ghost predicate BuiltLine(lines: seq<Line>, b: nat)
    requires b < |lines|
  {
    var r := lines[b].routine;
    var ticked := Tick(ClockAt(lines, r, b), r);
    var switched := b > 0 && lines[b - 1].switching;
    && (switched ==> lines[b - 1].routine != r)
    && forall x :: Entry(lines[b].clock, x) ==
                   if switched then Max(Entry(ticked, x), Entry(lines[b - 1].clock, x)) else Entry(ticked, x)
  }

  ghost predicate Built(lines: seq<Line>) {
    forall b: nat :: b < |lines| ==> BuiltLine(lines, b)
  }

  lemma {:induction false} CountMonotone(lines: seq<Line>, r: Routine, m: nat, n: nat)
    requires m <= n <= |lines|
    ensures Count(lines, r, m) <= Count(lines, r, n)
  {
    if m < n {
      CountMonotone(lines, r, m, n - 1);
    }
  }

  /** Causal past, one step back. */
  lemma ReachesBack(lines: seq<Line>, a: nat, b: nat)
    requires a < b < |lines|
    ensures var p := LastOf(lines, lines[b].routine, b);
            Reaches(lines, a, b) <==>
              (p > 0 && Reaches(lines, a, p - 1)) || (lines[b - 1].switching && Reaches(lines, a, b - 1))
  {
    var p := LastOf(lines, lines[b].routine, b);
    if Reaches(lines, a, b) {
      var m: nat :| m < b && Edge(lines, m, b) && Reaches(lines, a, m);
      if lines[m].routine == lines[b].routine && m != p - 1 {
        assert m < p - 1 && Edge(lines, m, p - 1);
      }
    }
    if p > 0 && Reaches(lines, a, p - 1) {
      assert Edge(lines, p - 1, b);
    }
    if lines[b - 1].switching && Reaches(lines, a, b - 1) {
      assert Edge(lines, b - 1, b);
    }
  }

  /** What the vector on line b says: entry x counts the lines of x in the causal past. */
  ghost predicate Causal(lines: seq<Line>, b: nat)
    requires b < |lines|
  {
    && Entry(lines[b].clock, lines[b].routine) == Count(lines, lines[b].routine, b + 1)
    && (forall x :: Entry(lines[b].clock, x) <= Count(lines, x, b + 1))
    && (forall a: nat :: a < |lines| ==>
          (Reaches(lines, a, b) <==> Count(lines, lines[a].routine, a + 1) <= Entry(lines[b].clock, lines[a].routine)))
  }

  lemma ReachesForward(lines: seq<Line>, a: nat, b: nat)
    requires Reaches(lines, a, b)
    ensures a <= b
    decreases b
  {
    if a != b {
      var m: nat :| m < b && Edge(lines, m, b) && Reaches(lines, a, m);
      ReachesForward(lines, a, m);
    }
  }

  /** The lines from which line b takes its vector. */
  ghost predicate SourcesCausal(lines: seq<Line>, b: nat)
    requires b < |lines|
  {
    var p := LastOf(lines, lines[b].routine, b);
    && (p > 0 ==> Causal(lines, p - 1))
    && (b > 0 && lines[b - 1].switching ==> Causal(lines, b - 1))
  }

  lemma EntryBounded(lines: seq<Line>, b: nat, x: Routine)
    requires b < |lines| && BuiltLine(lines, b) && SourcesCausal(lines, b)
    ensures Entry(lines[b].clock, x) <= Count(lines, x, b + 1)
    ensures x == lines[b].routine ==> Entry(lines[b].clock, x) == Count(lines, x, b + 1)
  {
    var p := LastOf(lines, lines[b].routine, b);
    CountMonotone(lines, x, p, b);
    assert Entry(ClockAt(lines, lines[b].routine, b), x) <= Count(lines, x, p);
  }

  lemma CausalPast(lines: seq<Line>, a: nat, b: nat)
    requires a < b < |lines| && BuiltLine(lines, b) && SourcesCausal(lines, b)
    ensures Reaches(lines, a, b) <==>
            Count(lines, lines[a].routine, a + 1) <= Entry(lines[b].clock, lines[a].routine)
  {
    var x, r := lines[a].routine, lines[b].routine;
    if x == r {
      EntryBounded(lines, b, x);
      CountMonotone(lines, x, a + 1, b + 1);
      assert Edge(lines, a, b) && Reaches(lines, a, a);
    } else {
      ForeignPast(lines, a, b, Count(lines, x, a + 1));
    }
  }

  /** The entry of another routine comes from the two sources of a line alone. */
  lemma ForeignPast(lines: seq<Line>, a: nat, b: nat, n: nat)
    requires a < b < |lines| && BuiltLine(lines, b) && lines[a].routine != lines[b].routine && n >= 1
    requires var p := LastOf(lines, lines[b].routine, b);
             p > 0 ==> (Reaches(lines, a, p - 1) <==> n <= Entry(lines[p - 1].clock, lines[a].routine))
    requires lines[b - 1].switching ==>
               (Reaches(lines, a, b - 1) <==> n <= Entry(lines[b - 1].clock, lines[a].routine))
    ensures Reaches(lines, a, b) <==> n <= Entry(lines[b].clock, lines[a].routine)
  {
    ReachesBack(lines, a, b);
  }

  lemma {:induction false} BuiltIsCausal(lines: seq<Line>, b: nat)
    requires Built(lines) && b < |lines|
    ensures Causal(lines, b)
    decreases b
  {
    hide BuiltLine, Merge, Tick, LastOf;
    var p := LastOf(lines, lines[b].routine, b);
    if p > 0 {
      BuiltIsCausal(lines, p - 1);
    }
    if b > 0 {
      BuiltIsCausal(lines, b - 1);
    }
    assert BuiltLine(lines, b) && SourcesCausal(lines, b);
    forall x ensures Entry(lines[b].clock, x) <= Count(lines, x, b + 1) {
      EntryBounded(lines, b, x);
    }
    EntryBounded(lines, b, lines[b].routine);
    forall a: nat | a < |lines|
      ensures Reaches(lines, a, b) <==>
              Count(lines, lines[a].routine, a + 1) <= Entry(lines[b].clock, lines[a].routine)
    {
      if a < b {
        CausalPast(lines, a, b);
      } else if a > b {
        CountMonotone(lines, lines[a].routine, b + 1, a);
        if Reaches(lines, a, b) { ReachesForward(lines, a, b); }
      }
    }
  }

  /** Vectors only grow along causal paths. */
  lemma {:induction false} ReachesLeq(lines: seq<Line>, a: nat, b: nat)
    requires Built(lines) && a < |lines| && b < |lines| && Reaches(lines, a, b)
    ensures Leq(lines[a].clock, lines[b].clock)
    decreases b
  {
    if a != b {
      ReachesForward(lines, a, b);
      ReachesBack(lines, a, b);
      assert BuiltLine(lines, b);
      var p := LastOf(lines, lines[b].routine, b);
      if p > 0 && Reaches(lines, a, p - 1) {
        ReachesLeq(lines, a, p - 1);
      } else {
        ReachesLeq(lines, a, b - 1);
      }
    }
  }

  /** Lines built by the clock rule satisfy the strong clock condition. */
  lemma BuiltIsStrong(lines: seq<Line>)
    requires Built(lines)
    ensures StrongClock(lines)
  {
    forall a: nat, b: nat | a < |lines| && b < |lines|
      ensures Leq(lines[a].clock, lines[b].clock) <==> Reaches(lines, a, b)
    {
      BuiltIsCausal(lines, a);
      BuiltIsCausal(lines, b);
      if Reaches(lines, a, b) {
        ReachesLeq(lines, a, b);
      }
    }
  }

  // --------------------------------------------------------------- replaying

  /** A change of process that lands back on the running routine: the routine is then
      switched away from and switched to at once. */
  predicate SelfSwitch(s: State, e: Event) {
    Switches(s, e) && s.running == e.Id()
  }

  ghost predicate NoSelfSwitch(events: seq<Event>) {
    forall i :: 0 <= i < |events| && Replay(events[..i]).Some? ==>
      !SelfSwitch(Replay(events[..i]).value, events[i])
  }

  /** The state's clocks are those of the lines written so far. */
  ghost predicate Consistent(s: State) {
    && Built(s.lines)
    && (s.lines != [] ==> !s.lines[|s.lines| - 1].switching)
    && Tracks(s.clocks, s.lines)
  }

  ghost predicate Tracks(clocks: map<Routine, VClock>, lines: seq<Line>) {
    && (forall r :: r in clocks ==> clocks[r] == ClockAt(lines, r, |lines|))
    && (forall r :: r !in clocks ==> LastOf(lines, r, |lines|) == 0)
  }

  /** Adding a line changes nothing about earlier positions. */
  lemma {:induction false} LastOfAppend(lines: seq<Line>, line: Line, r: Routine, n: nat)
    requires n <= |lines|
    ensures LastOf(lines + [line], r, n) == LastOf(lines, r, n)
    ensures ClockAt(lines + [line], r, n) == ClockAt(lines, r, n)
  {
    if n > 0 {
      LastOfAppend(lines, line, r, n - 1);
    }
  }

  /** Appending a line that follows the clock rule keeps everything consistent. */
  lemma AppendLine(clocks: map<Routine, VClock>, lines: seq<Line>, line: Line)
    requires Built(lines) && Tracks(clocks, lines)
    requires BuiltLine(lines + [line], |lines|)
    ensures Built(lines + [line]) && Tracks(clocks[line.routine := line.clock], lines + [line])
  {
    BuiltAppend(lines, line);
    TracksAppend(clocks, lines, line);
  }

  lemma BuiltAppend(lines: seq<Line>, line: Line)
    requires Built(lines) && BuiltLine(lines + [line], |lines|)
    ensures Built(lines + [line])
  {
    forall b: nat | b < |lines| + 1 ensures BuiltLine(lines + [line], b) {
      if b < |lines| {
        assert BuiltLine(lines, b);
        LastOfAppend(lines, line, lines[b].routine, b);
      }
    }
  }

  /** One line more: it is the last line of its routine, and of no other. */
  ghost predicate ClockAfter(lines: seq<Line>, line: Line, r: Routine) {
    var longer, n := lines + [line], |lines|;
    if r == line.routine then LastOf(longer, r, n + 1) == n + 1 && ClockAt(longer, r, n + 1) == line.clock
    else LastOf(longer, r, n + 1) == LastOf(lines, r, n) && ClockAt(longer, r, n + 1) == ClockAt(lines, r, n)
  }

  lemma LastOneMore(lines: seq<Line>, line: Line, r: Routine)
    ensures ClockAfter(lines, line, r)
  {
    LastOfAppend(lines, line, r, |lines|);
  }

  lemma TracksAppend(clocks: map<Routine, VClock>, lines: seq<Line>, line: Line)
    requires Tracks(clocks, lines)
    ensures Tracks(clocks[line.routine := line.clock], lines + [line])
  {
    hide LastOf, ClockAt;
    var clocks' := clocks[line.routine := line.clock];
    forall r | r in clocks' ensures clocks'[r] == ClockAt(lines + [line], r, |lines| + 1) {
      LastOneMore(lines, line, r);
    }
    forall r | r !in clocks' ensures LastOf(lines + [line], r, |lines| + 1) == 0 {
      LastOneMore(lines, line, r);
    }
  }

  /** The next line of a routine follows the clock rule when its vector is the tracked
      one, ticked, and merged with the line before if that switches. */
  lemma NextLine(clocks: map<Routine, VClock>, lines: seq<Line>, line: Line)
    requires Tracks(clocks, lines)
    requires var ticked := Tick(if line.routine in clocks then clocks[line.routine] else map[], line.routine);
             if lines != [] && lines[|lines| - 1].switching then
               && lines[|lines| - 1].routine != line.routine
               && line.clock == Merge(ticked, lines[|lines| - 1].clock)
             else line.clock == ticked
    ensures BuiltLine(lines + [line], |lines|)
  {
    LastOfAppend(lines, line, line.routine, |lines|);
  }

  lemma OneLine(clocks: map<Routine, VClock>, lines: seq<Line>, line: Line)
    requires Built(lines) && Tracks(clocks, lines)
    requires var ticked := Tick(if line.routine in clocks then clocks[line.routine] else map[], line.routine);
             if lines != [] && lines[|lines| - 1].switching then
               && lines[|lines| - 1].routine != line.routine
               && line.clock == Merge(ticked, lines[|lines| - 1].clock)
             else line.clock == ticked
    ensures Built(lines + [line]) && Tracks(clocks[line.routine := line.clock], lines + [line])
  {
    NextLine(clocks, lines, line);
    AppendLine(clocks, lines, line);
  }

  /** A switching line followed by the line of the routine that comes on. */
  lemma TwoLines(clocks: map<Routine, VClock>, lines: seq<Line>, l1: Line, l2: Line)
    requires Built(lines) && Tracks(clocks, lines) && (lines != [] ==> !lines[|lines| - 1].switching)
    requires l1.switching && l1.routine in clocks && l1.clock == Tick(clocks[l1.routine], l1.routine)
    requires l1.routine != l2.routine
    requires var u := l2.routine;
             l2.clock == Merge(Tick(if u in clocks then clocks[u] else map[], u), l1.clock)
    ensures Built(lines + [l1, l2])
    ensures Tracks(clocks[l1.routine := l1.clock][l2.routine := l2.clock], lines + [l1, l2])
  {
    OneLine(clocks, lines, l1);
    OneLine(clocks[l1.routine := l1.clock], lines + [l1], l2);
    assert lines + [l1, l2] == lines + [l1] + [l2];
  }

  lemma StepConsistent(s: State, e: Event)
    requires Consistent(s) && Step(s, e).Some? && !SelfSwitch(s, e)
    ensures Consistent(Step(s, e).value)
  {
    var u := e.Id();
    var clocks := Ticked(s, e);
    if Switches(s, e) {
      var c := s.running;
      var l1 := Line(c, true, Tick(clocks[c], c));
      var l2 := Line(u, false, Merge(clocks[u], l1.clock));
      TwoLines(s.clocks, s.lines, l1, l2);
      assert Step(s, e).value.clocks == s.clocks[c := l1.clock][u := l2.clock];
    } else {
      OneLine(s.clocks, s.lines, Line(u, false, clocks[u]));
    }
  }

  lemma {:induction false} ReplayConsistent(events: seq<Event>)
    requires Replay(events).Some? && NoSelfSwitch(events)
    ensures Consistent(Replay(events).value)
  {
    if events != [] {
      var front := events[..|events| - 1];
      forall i | 0 <= i < |front| && Replay(front[..i]).Some?
        ensures !SelfSwitch(Replay(front[..i]).value, front[i])
      {
        assert front[..i] == events[..i];
      }
      ReplayConsistent(front);
      StepConsistent(Replay(front).value, events[|events| - 1]);
    }
  }

  /** The lines written for a prefix of the schedule stay as they are. */
  lemma {:induction false} LinesGrow(events: seq<Event>, i: nat)
    requires i <= |events| && Replay(events).Some?
    ensures Replay(events[..i]).Some? && Replay(events[..i]).value.lines <= Replay(events).value.lines
  {
    if i == |events| {
      assert events[..i] == events;
    } else {
      assert events[..|events| - 1][..i] == events[..i];
      LinesGrow(events[..|events| - 1], i);
    }
  }

  /** A self-switch writes two lines of one routine with the same vector. */
  lemma SelfSwitchBreaks(events: seq<Event>, i: nat)
    requires Replay(events).Some? && i < |events|
    requires Replay(events[..i]).Some? && SelfSwitch(Replay(events[..i]).value, events[i])
    ensures !StrongClock(Replay(events).value.lines)
  {
    var s := Replay(events[..i]).value;
    LinesGrow(events, i + 1);
    assert events[..i + 1][..i] == events[..i];
    var lines := Replay(events).value.lines;
    var m: nat := |s.lines|;
    assert lines[m].clock == Step(s, events[i]).value.lines[m].clock;
    assert forall r :: Entry(lines[m + 1].clock, r) == Entry(lines[m].clock, r);
    if Reaches(lines, m + 1, m) {
      ReachesForward(lines, m + 1, m);
    }
  }

  // ----------------------------------------------------------------- theorems

  /** For every schedule the converter gets through, the emitted vectors satisfy the
      strong clock condition if and only if no change of process lands back on the
      routine taken to be running. */
  lemma StrongClockCondition(events: seq<Event>)
    requires Replay(events).Some?
    ensures StrongClock(Replay(events).value.lines) <==> NoSelfSwitch(events)
  {
    if NoSelfSwitch(events) {
      ReplayConsistent(events);
      BuiltIsStrong(Replay(events).value.lines);
    } else {
      var i :| 0 <= i < |events| && Replay(events[..i]).Some? && SelfSwitch(Replay(events[..i]).value, events[i]);
      SelfSwitchBreaks(events, i);
    }
  }

  /** Without a self-switch, the k-th line of a routine carries k as its own entry. */
  lemma OwnEntryCountsLines(events: seq<Event>, b: nat)
    requires Replay(events).Some? && NoSelfSwitch(events) && b < |Replay(events).value.lines|
    ensures var lines := Replay(events).value.lines;
            Entry(lines[b].clock, lines[b].routine) == Count(lines, lines[b].routine, b + 1)
  {
    ReplayConsistent(events);
    BuiltIsCausal(Replay(events).value.lines, b);
  }

  /** With one process there is no self-switch, whatever the schedule. */
  lemma OneProcessNeverSelfSwitches(events: seq<Event>)
    requires forall i :: 0 <= i < |events| ==> events[i].process == 1
    ensures NoSelfSwitch(events)
  {
    forall i | 0 <= i < |events| && Replay(events[..i]).Some?
      ensures !SelfSwitch(Replay(events[..i]).value, events[i])
    {
      ProcessIsOne(events[..i]);
    }
  }

  lemma {:induction false} ProcessIsOne(events: seq<Event>)
    requires Replay(events).Some?
    requires forall i :: 0 <= i < |events| ==> events[i].process == 1
    ensures Replay(events).value.process == 1
  {
    if events != [] {
      ProcessIsOne(events[..|events| - 1]);
    }
  }

  /** A schedule that starts with an event of routine 1:1 is always converted to the end. */
  lemma {:induction false} StartingWithMainNeverPanics(events: seq<Event>)
    requires events != [] ==> events[0].Id() == (1, 1)
    ensures Replay(events).Some?
    ensures events != [] ==> Replay(events).value.running in Replay(events).value.clocks
  {
    if events != [] {
      StartingWithMainNeverPanics(events[..|events| - 1]);
    }
  }
}
