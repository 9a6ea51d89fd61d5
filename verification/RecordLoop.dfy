/**
 The record loop of the scheduler against any behaviour of the runtimes, one atomic step at a
 time.  For each process there is a lock in shared memory; the scheduler holds it until it lets
 the process run.  A runtime changes the shared fields of its process only while it holds the
 lock, except that it signals the end of a network wait.
 */
module RecordLoop {
  import opened RoundRobin

  datatype Holder = Scheduler | Runtime | Nobody

  /** The lock, whether the scheduler believes it owns it, the command field, the events that
      wait in the buffer, and all events the runtime has ever written there. */
  datatype Shared = Shared(holder: Holder, owned: bool, run: int, buffer: seq<int>, written: seq<int>)

  /** Where the scheduler is. */
  datatype Place =
    | Outer               // about to choose a process
    | Begin(p: nat)       // the process has been chosen
    | Try(p: nat)         // trying to get the lock
    | Inside(p: nat)      // the lock is held
    | Unlock(p: nat)      // about to release the lock
    | UnlockRearm(p: nat) // the same, after a network wait
    | Rearm(p: nat)       // the lock released, about to set the command
    | Forget(p: nat)      // about to note that the lock is released
    | Done

  datatype Recorded = Recorded(p: nat, event: int)

  datatype State = State(place: Place, last: nat, status: map<int, ProcStatus>, procs: map<int, Shared>,
                         log: seq<Recorded>)

  /** The number of processes, and how many events to record. */
  datatype Config = Config(n: nat, recordLen: int)

  ghost predicate Init(cfg: Config, s: State) {
    && s.place == Outer && s.last == 0 && s.log == []
    && (forall p :: p in s.procs <==> 1 <= p <= cfg.n)
    && (forall p :: p in s.status <==> 1 <= p <= cfg.n)
    && (forall p :: p in s.procs ==> s.procs[p] == Shared(Scheduler, true, -1, [], []) && s.status[p] == ALIVE)
  }

  function Batch(p: nat, events: seq<int>): (batch: seq<Recorded>)
    ensures |batch| == |events|
  {
    seq(|events|, i requires 0 <= i < |events| => Recorded(p, events[i]))
  }

  /** The buffer goes to the log. */
  function Extracted(s: State, p: nat): State
    requires p in s.procs
  {
    s.(procs := s.procs[p := s.procs[p].(buffer := [])], log := s.log + Batch(p, s.procs[p].buffer))
  }

  function WithRun(s: State, p: nat, run: int): State
    requires p in s.procs
  {
    s.(procs := s.procs[p := s.procs[p].(run := run)])
  }

  /** The end of the round: the process is dead, or the scheduler tries again. */
  ghost predicate AfterEnd(s: State, s': State, p: nat) {
    s' == s.(place := Outer, status := s.status[p := DEAD]) || s' == s.(place := Try(p))
  }

  /** What the scheduler does with the lock in hand, by the command it finds. */
  ghost predicate Serve(cfg: Config, s: State, s': State, p: nat)
    requires p in s.procs
  {
    var run := s.procs[p].run;
    if run == -3 then s' == s.(place := Unlock(p))
    else if run == -100 then AfterEnd(Extracted(s, p), s', p)
    else if run == -6 then s' == (if |s.procs[p].buffer| > 0 then Extracted(s, p) else s).(place := Outer)
    else if run == -7 then s' == s.(place := UnlockRearm(p))
    else if run >= 0 then
      var e := Extracted(s, p);
      s' == WithRun(e, p, if |e.log| >= cfg.recordLen - cfg.n then -4 else -3).(place := Outer)
    else AfterEnd(s, s', p)
  }

  ghost predicate SchedulerStep(cfg: Config, s: State, s': State) {
    match s.place
    case Outer =>
      if |s.log| >= cfg.recordLen || forall p :: p in s.status ==> s.status[p] == DEAD then s' == s.(place := Done)
      else exists p: nat :: IsNextAlive(s.status, cfg.n, s.last, p) && s' == s.(place := Begin(p), last := p)
    case Begin(p) =>
      p in s.procs && s' == if s.procs[p].run == -1 then WithRun(s, p, -3).(place := Unlock(p)) else s.(place := Try(p))
    case Try(p) =>
      && p in s.procs
      && (s.procs[p].owned || s.procs[p].holder == Nobody)
      && s' == s.(place := Inside(p), procs := s.procs[p := s.procs[p].(holder := Scheduler, owned := true)])
    case Inside(p) => p in s.procs && Serve(cfg, s, s', p)
    case Unlock(p) =>
      p in s.procs && s' == s.(place := Forget(p), procs := s.procs[p := s.procs[p].(holder := Nobody)])
    case UnlockRearm(p) =>
      p in s.procs && s' == s.(place := Rearm(p), procs := s.procs[p := s.procs[p].(holder := Nobody)])
    case Rearm(p) => p in s.procs && s' == WithRun(s, p, -3).(place := Forget(p))
    case Forget(p) =>
      p in s.procs && s' == s.(place := Try(p), procs := s.procs[p := s.procs[p].(owned := false)])
    case Done => false
  }

  /** What a runtime may do to its own process. */
  ghost predicate RuntimeChange(a: Shared, b: Shared) {
    || (a.holder == Nobody && b == a.(holder := Runtime))
    || (a.holder == Runtime && b == a.(holder := Nobody))
    || (a.holder == Runtime && exists run, events ::
          b == a.(run := run, buffer := a.buffer + events, written := a.written + events))
    || (a.run == -6 && b == a.(run := -7))
  }

  ghost predicate RuntimeStep(s: State, s': State, p: nat) {
    p in s.procs && exists b :: RuntimeChange(s.procs[p], b) && s' == s.(procs := s.procs[p := b])
  }

  ghost predicate Step(cfg: Config, s: State, s': State) {
    SchedulerStep(cfg, s, s') || exists p :: RuntimeStep(s, s', p)
  }

  ghost predicate Run(cfg: Config, ss: seq<State>) {
    && ss != [] && Init(cfg, ss[0])
    && forall i :: 0 <= i < |ss| - 1 ==> Step(cfg, ss[i], ss[i + 1])
  }

  // ---------------------------------------------------------------- invariant

  function Chosen(place: Place): nat {
    match place
    case Outer => 0
    case Done => 0
    case Begin(p) => p
    case Try(p) => p
    case Inside(p) => p
    case Unlock(p) => p
    case UnlockRearm(p) => p
    case Rearm(p) => p
    case Forget(p) => p
  }

  predicate Owns(a: Shared) {
    a.holder == Scheduler && a.owned
  }

  /** The lock of the chosen process, by where the scheduler is. */
  predicate ChosenLock(place: Place, a: Shared) {
    match place
    case Try(_) => a.owned <==> a.holder == Scheduler
    case Rearm(_) => a.holder != Scheduler
    case Forget(_) => a.holder != Scheduler
    case _ => Owns(a)
  }

  ghost predicate LocksInv(s: State) {
    forall p :: p in s.procs ==> if p == Chosen(s.place) then ChosenLock(s.place, s.procs[p]) else Owns(s.procs[p])
  }

  /** The events of one process in the log. */
  function EventsOf(log: seq<Recorded>, p: int): seq<int> {
    if log == [] then []
    else EventsOf(log[..|log| - 1], p) + if log[|log| - 1].p == p then [log[|log| - 1].event] else []
  }

  ghost predicate LogInv(s: State) {
    forall p :: p in s.procs ==> EventsOf(s.log, p) + s.procs[p].buffer == s.procs[p].written
  }

  ghost predicate KeysInv(cfg: Config, s: State) {
    && (forall p :: p in s.procs <==> 1 <= p <= cfg.n)
    && (s.place.Outer? || s.place.Done? || Chosen(s.place) in s.procs)
    && s.last <= cfg.n
  }

  ghost predicate Inv(cfg: Config, s: State) {
    KeysInv(cfg, s) && LocksInv(s) && LogInv(s)
  }

  lemma EventsOfOne(log: seq<Recorded>, r: Recorded, q: int)
    ensures EventsOf(log + [r], q) == EventsOf(log, q) + if r.p == q then [r.event] else []
  {
    assert (log + [r])[..|log|] == log;
  }

  lemma BatchLast(p: nat, events: seq<int>)
    requires events != []
    ensures var n := |events| - 1; Batch(p, events) == Batch(p, events[..n]) + [Recorded(p, events[n])]
  {
  }

  lemma {:induction false} EventsOfBatch(log: seq<Recorded>, p: nat, events: seq<int>, q: int)
    ensures EventsOf(log + Batch(p, events), q) == EventsOf(log, q) + if p == q then events else []
  {
    hide Batch, EventsOf;
    if events == [] {
      assert log + Batch(p, events) == log;
    } else {
      var n := |events| - 1;
      EventsOfBatch(log, p, events[..n], q);
      BatchLast(p, events);
      assert log + Batch(p, events) == (log + Batch(p, events[..n])) + [Recorded(p, events[n])];
      EventsOfOne(log + Batch(p, events[..n]), Recorded(p, events[n]), q);
      assert events == events[..n] + [events[n]];
    }
  }

  lemma ExtractKeepsLog(s: State, p: nat)
    requires LogInv(s) && p in s.procs
    ensures LogInv(Extracted(s, p))
  {
    var s' := Extracted(s, p);
    forall q | q in s'.procs ensures EventsOf(s'.log, q) + s'.procs[q].buffer == s'.procs[q].written {
      EventsOfBatch(s.log, p, s.procs[p].buffer, q);
    }
  }

  /** Neither a command nor the place nor a status matters to the log. */
  lemma LogUnchanged(s: State, p: nat, run: int, place: Place, status: map<int, ProcStatus>)
    requires LogInv(s) && p in s.procs
    ensures LogInv(WithRun(s, p, run).(place := place)) && LogInv(s.(place := place, status := status))
  {
  }

  lemma ServeKeepsLog(cfg: Config, s: State, s': State, p: nat)
    requires LogInv(s) && p in s.procs && Serve(cfg, s, s', p)
    ensures LogInv(s')
  {
    ExtractKeepsLog(s, p);
    var e := Extracted(s, p);
    LogUnchanged(s, p, 0, s'.place, s'.status);
    LogUnchanged(e, p, -3, s'.place, s'.status);
    LogUnchanged(e, p, -4, s'.place, s'.status);
    hide LogInv, Extracted;
  }

  lemma ServeKeepsLocks(cfg: Config, s: State, s': State, p: nat)
    requires KeysInv(cfg, s) && LocksInv(s) && s.place == Inside(p) && p in s.procs && Serve(cfg, s, s', p)
    ensures KeysInv(cfg, s') && LocksInv(s')
  {
    hide Batch;
  }

  lemma SchedulerKeepsInv(cfg: Config, s: State, s': State)
    requires Inv(cfg, s) && SchedulerStep(cfg, s, s')
    ensures Inv(cfg, s')
  {
    hide EventsOf;
    if s.place.Inside? {
      ServeKeepsLog(cfg, s, s', s.place.p);
      ServeKeepsLocks(cfg, s, s', s.place.p);
    }
  }

  lemma RuntimeKeepsInv(cfg: Config, s: State, s': State, p: nat)
    requires Inv(cfg, s) && RuntimeStep(s, s', p)
    ensures Inv(cfg, s')
  {
    hide EventsOf;
  }

  lemma {:induction false} InvHolds(cfg: Config, ss: seq<State>, i: nat)
    requires Run(cfg, ss) && i < |ss|
    ensures Inv(cfg, ss[i])
  {
    if i > 0 {
      InvHolds(cfg, ss, i - 1);
      var s, s' := ss[i - 1], ss[i];
      if SchedulerStep(cfg, s, s') {
        SchedulerKeepsInv(cfg, s, s');
      } else {
        var p :| RuntimeStep(s, s', p);
        RuntimeKeepsInv(cfg, s, s', p);
      }
    }
  }

  // ------------------------------------------------------------------ theorems

  ghost predicate Held(s: State, p: int) {
    p in s.procs && s.procs[p].holder == Scheduler
  }

  /** Each time the scheduler is about to choose a process, it holds every lock; at any other
      moment it holds every lock but that of the process it has chosen: so no two runtimes are
      ever free at once. */
  lemma RecordingIsSerialised(cfg: Config, ss: seq<State>, i: nat, p: nat)
    requires Run(cfg, ss) && i < |ss| && 1 <= p <= cfg.n && !Held(ss[i], p)
    ensures !ss[i].place.Outer? && !ss[i].place.Done? && p == Chosen(ss[i].place)
    ensures forall q :: 1 <= q <= cfg.n && q != p ==> Held(ss[i], q)
  {
    InvHolds(cfg, ss, i);
  }

  /** No event is lost, repeated or reordered: what the log holds of a process, followed by its
      buffer, is all that its runtime has written. */
  lemma NothingLost(cfg: Config, ss: seq<State>, i: nat, p: nat)
    requires Run(cfg, ss) && i < |ss| && 1 <= p <= cfg.n
    ensures p in ss[i].procs && EventsOf(ss[i].log, p) + ss[i].procs[p].buffer == ss[i].procs[p].written
  {
    InvHolds(cfg, ss, i);
  }

  /** The scheduler changes the fields of a process only while it holds the lock, except for
      the command it sets after a network wait: there it has always released the lock before. */
  lemma WritesAreGuarded(cfg: Config, ss: seq<State>, i: nat, p: nat)
    requires Run(cfg, ss) && i + 1 < |ss| && 1 <= p <= cfg.n && SchedulerStep(cfg, ss[i], ss[i + 1])
    requires p in ss[i].procs && p in ss[i + 1].procs
    requires ss[i].procs[p].run != ss[i + 1].procs[p].run || ss[i].procs[p].buffer != ss[i + 1].procs[p].buffer
    ensures Held(ss[i], p) <==> ss[i].place != Rearm(p)
  {
    InvHolds(cfg, ss, i);
  }

  // ----------------------------------------------------- the unguarded command

  const One := Config(1, 10)

  function OneProcess(place: Place, last: nat, holder: Holder, owned: bool, run: int, events: seq<int>): State {
    State(place, last, map[1 := ALIVE], map[1 := Shared(holder, owned, run, events, events)], [])
  }

  ghost predicate Reachable(cfg: Config, s: State) {
    exists ss :: Run(cfg, ss) && ss[|ss| - 1] == s
  }

  lemma ReachNext(cfg: Config, s: State, s': State)
    requires Reachable(cfg, s) && Step(cfg, s, s')
    ensures Reachable(cfg, s')
  {
    var ss :| Run(cfg, ss) && ss[|ss| - 1] == s;
    assert Run(cfg, ss + [s']);
  }

  lemma SchedulerMoves(s: State, s': State)
    requires Reachable(One, s) && SchedulerStep(One, s, s')
    ensures Reachable(One, s')
  {
    ReachNext(One, s, s');
  }

  lemma Chooses(s: State, s': State)
    requires Reachable(One, s) && s.place == Outer && s.status == map[1 := ALIVE] && s.log == []
    requires s' == s.(place := Begin(1), last := 1)
    ensures Reachable(One, s')
  {
    assert IsNextAlive(s.status, 1, s.last, 1);
    SchedulerMoves(s, s');
  }

  lemma RuntimeMoves(s: State, s': State, b: Shared)
    requires Reachable(One, s) && 1 in s.procs && RuntimeChange(s.procs[1], b) && s' == s.(procs := s.procs[1 := b])
    ensures Reachable(One, s')
  {
    assert RuntimeStep(s, s', 1);
    ReachNext(One, s, s');
  }

  lemma RuntimeWrites(a: Shared, run: int, events: seq<int>)
    requires a.holder == Runtime
    ensures RuntimeChange(a, a.(run := run, buffer := a.buffer + events, written := a.written + events))
  {
  }

  lemma ReachFirst(s: State)
    requires Init(One, s)
    ensures Reachable(One, s)
  {
    assert Run(One, [s]);
    assert [s][0] == s;
  }

  const Started := OneProcess(Try(1), 1, Nobody, false, -3, [])

  /** The process has been told to record, and runs. */
  lemma Starts()
    ensures Reachable(One, Started)
  {
    hide Reachable, IsNextAlive;
    var s0 := OneProcess(Outer, 0, Scheduler, true, -1, []);
    ReachFirst(s0);
    var s1 := OneProcess(Begin(1), 1, Scheduler, true, -1, []);
    Chooses(s0, s1);
    var s2 := OneProcess(Unlock(1), 1, Scheduler, true, -3, []);
    SchedulerMoves(s1, s2);
    var s3 := OneProcess(Forget(1), 1, Nobody, true, -3, []);
    SchedulerMoves(s2, s3);
    SchedulerMoves(s3, Started);
  }

  const Blocked := OneProcess(Outer, 1, Scheduler, true, -6, [])

  /** It waits for the network, and the scheduler keeps its lock. */
  lemma Blocks()
    ensures Reachable(One, Blocked)
  {
    hide Reachable, IsNextAlive;
    Starts();
    var s1 := OneProcess(Try(1), 1, Runtime, false, -3, []);
    RuntimeMoves(Started, s1, s1.procs[1]);
    var s2 := OneProcess(Try(1), 1, Runtime, false, -6, []);
    RuntimeWrites(s1.procs[1], -6, []);
    RuntimeMoves(s1, s2, s2.procs[1]);
    var s3 := OneProcess(Try(1), 1, Nobody, false, -6, []);
    RuntimeMoves(s2, s3, s3.procs[1]);
    var s4 := OneProcess(Inside(1), 1, Scheduler, true, -6, []);
    SchedulerMoves(s3, s4);
    SchedulerMoves(s4, Blocked);
  }

  const Released := OneProcess(Rearm(1), 1, Nobody, true, -7, [])

  /** The wait ends, and the scheduler releases the lock. */
  lemma Wakes()
    ensures Reachable(One, Released)
  {
    hide Reachable, IsNextAlive;
    Blocks();
    var s1 := OneProcess(Outer, 1, Scheduler, true, -7, []);
    RuntimeMoves(Blocked, s1, s1.procs[1]);
    var s2 := OneProcess(Begin(1), 1, Scheduler, true, -7, []);
    Chooses(s1, s2);
    var s3 := OneProcess(Try(1), 1, Scheduler, true, -7, []);
    SchedulerMoves(s2, s3);
    var s4 := OneProcess(Inside(1), 1, Scheduler, true, -7, []);
    SchedulerMoves(s3, s4);
    var s5 := OneProcess(UnlockRearm(1), 1, Scheduler, true, -7, []);
    SchedulerMoves(s4, s5);
    SchedulerMoves(s5, Released);
  }

  const Reported := OneProcess(Rearm(1), 1, Runtime, true, 5, [8])

  /** The command can come too late: when the runtime, with the lock in its hands, has already
      reported a goroutine and an event, the scheduler overwrites the report. */
  lemma CommandOverwritesReport()
    ensures Reachable(One, Reported) && Reported.place == Rearm(1)
    ensures Reported.procs[1].holder == Runtime && Reported.procs[1].run == 5 && Reported.procs[1].buffer == [8]
    ensures SchedulerStep(One, Reported, OneProcess(Forget(1), 1, Runtime, true, -3, [8]))
  {
    hide Reachable, IsNextAlive;
    Wakes();
    var s1 := OneProcess(Rearm(1), 1, Runtime, true, -7, []);
    RuntimeMoves(Released, s1, s1.procs[1]);
    RuntimeWrites(s1.procs[1], 5, [8]);
    assert [] + [8] == [8];
    RuntimeMoves(s1, Reported, Reported.procs[1]);
  }

  // ------------------------------------------------------------- what is asked for

  /** Unless it is dead, a process whose events have been taken is asked to end as soon as there is
      room for no more than one event of each process, and to go on as long as there is. */
  lemma EndsNearTheLimit(cfg: Config, ss: seq<State>, i: nat, p: nat)
    requires Run(cfg, ss) && i + 1 < |ss| && SchedulerStep(cfg, ss[i], ss[i + 1])
    requires ss[i].place == Inside(p) && p in ss[i].procs && ss[i].procs[p].run >= 0
    ensures p in ss[i + 1].procs && ss[i + 1].place == Outer && ss[i + 1].procs[p].buffer == []
    ensures ss[i + 1].procs[p].run == if |ss[i + 1].log| + cfg.n >= cfg.recordLen then -4 else -3
    ensures EventsOf(ss[i + 1].log, p) == ss[i + 1].procs[p].written
  {
    InvHolds(cfg, ss, i + 1);
    assert |Extracted(ss[i], p).log| == |ss[i + 1].log|;
    assert EventsOf(ss[i + 1].log, p) + [] == EventsOf(ss[i + 1].log, p);
    hide EventsOf;
  }
}
