/**
 The explorer: an object that is asked again and again for the next action.

 Random choices are arbitrary.  Logging, and saving and loading of files, are left out.
 */
module Explorer {
  import opened Basics
  import opened Actions
  import opened Coverage
  import opened ExplorerRules
  import opened Fingerprint
  import opened Printing
  import opened Search
  import opened Sums
  import VirtualClock

  datatype Strategy = RANDOM | COVERAGE_UNIQUE | COVERAGE_FREQUENCY | COVERAGE_NODE_FREQUENCY

  datatype ActionType = RESTART | SCHEDULE(thread: ProcThread) | TIMER(proc: int, id: int)

  type Clock = VirtualClock.VirtualClock

  ghost predicate Asleep(clock: Clock, gid: int)
    reads clock
  {
    gid in clock.sleepingRoutines && clock.sleepingRoutines[gid]
  }

  /** There is a clock for every process, and no two processes share one. */
  ghost predicate ClocksValid(clocks: map<int, Clock>, n: nat)
    reads clocks.Values
  {
    && ForProcs(clocks.Keys, n)
    && (forall p :: p in clocks ==> clocks[p].Valid())
    && (forall p, q :: p in clocks && q in clocks && p != q ==> clocks[p] != clocks[q])
  }

  /** The goroutine may be scheduled, with the clocks as they are now. */
  ghost predicate Possible(init: map<int, bool>, blocked: map<int, bool>, clocks: map<int, Clock>, t: ProcThread)
    requires t.proc in clocks
    reads clocks.Values
  {
    MayRun(init, blocked, Asleep(clocks[t.proc], t.thread.gid), t)
  }

  /** What a choice is made from: the strategy, what is known of the actions, the schedule so far
      and those visited, and the two tables. */
  datatype Knowledge = Knowledge(strategy: Strategy, stats: map<string, CovStats>, schedule: string,
                                 visited: set<string>, total: AllCoverage, current: AllCoverage)

  /** The choice by an objective: the last goroutine, if some estimate beats the total score;
      else one without statistics, if there is one; else the last goroutine again, if some
      estimate beats the score of the current run, into which the estimates go. */
  ghost predicate ChosenBy(k: Knowledge, obj: Objective, threads: seq<ProcThread>, next: Option<ProcThread>,
                           current: AllCoverage) {
    if Improves(k.total, threads, k.stats, {}, obj) then
      threads != [] && next == Some(threads[|threads| - 1]) && current == k.current
    else if SomeUnseen(threads, k.stats) then
      next.Some? && ThreadString(next.value) !in k.stats && current == k.current
    else
      var skipped := Leading(threads, k.schedule, k.visited);
      && current == Credited(k.current, threads, k.stats, skipped)
      && (Improves(k.current, threads, k.stats, skipped, obj) ==>
            threads != [] && next == Some(threads[|threads| - 1]))
  }

  /** The choice by the strategy, with the tables it leaves: at random nothing changes; otherwise
      the total table receives the estimate for every goroutine. */
  ghost predicate ByStrategy(k: Knowledge, threads: seq<ProcThread>, next: Option<ProcThread>, total: AllCoverage,
                             current: AllCoverage) {
    && total == (if k.strategy == RANDOM then k.total else Credited(k.total, threads, k.stats, {}))
    && match k.strategy
       case RANDOM => current == k.current
       case COVERAGE_UNIQUE => ChosenBy(k, UNIQUE, threads, next, current)
       case COVERAGE_FREQUENCY => ChosenBy(k, FREQUENCY, threads, next, current)
       case COVERAGE_NODE_FREQUENCY => ChosenBy(k, NODE_FREQUENCY, threads, next, current)
  }

  /** The goroutines that may be scheduled, in the order in which they are listed. */
  ghost function Candidates(threads: seq<ProcThread>, init: map<int, bool>, blocked: map<int, bool>,
                            clocks: map<int, Clock>): seq<ProcThread>
    requires forall t :: t in threads ==> t.proc in clocks
    reads clocks.Values
  {
    if threads == [] then []
    else
      var last := threads[|threads| - 1];
      assert last in threads;
      Candidates(threads[..|threads| - 1], init, blocked, clocks)
      + if Possible(init, blocked, clocks, last) then [last] else []
  }

  lemma {:induction false} CandidatesArePossible(threads: seq<ProcThread>, init: map<int, bool>,
                                                 blocked: map<int, bool>, clocks: map<int, Clock>)
    requires forall t :: t in threads ==> t.proc in clocks
    ensures forall t :: t in Candidates(threads, init, blocked, clocks) <==>
                        t in threads && Possible(init, blocked, clocks, t)
  {
    if threads != [] {
      CandidatesArePossible(threads[..|threads| - 1], init, blocked, clocks);
      assert threads == threads[..|threads| - 1] + [threads[|threads| - 1]];
    }
  }

  lemma PossibleCandidates(threads: seq<ProcThread>, init: map<int, bool>, blocked: map<int, bool>,
                           clocks: map<int, Clock>, n: nat)
    requires OnProcs(threads, n) && ClocksValid(clocks, n)
    ensures forall t :: t in threads ==> t.proc in clocks
    ensures forall t :: t in Candidates(threads, init, blocked, clocks) <==>
                        t in threads && Possible(init, blocked, clocks, t)
    ensures OnProcs(Candidates(threads, init, blocked, clocks), n)
  {
    CandidatesArePossible(threads, init, blocked, clocks);
  }

  method GetNextRandomThread(threads: seq<ProcThread>) returns (next: Option<ProcThread>)
    ensures next.None? <==> threads == []
    ensures next.Some? ==> next.value in threads
  {
    if threads == [] {
      return None;
    }
    var choice :| 0 <= choice < |threads|;
    return Some(threads[choice]);
  }

  method NoWaitingEvents(clocks: map<int, Clock>) returns (none: bool)
    ensures none <==> forall p :: p in clocks ==> clocks[p].waitingQ == map[]
  {
    var rest := clocks.Keys;
    while rest != {}
      invariant rest <= clocks.Keys
      invariant forall p :: p in clocks && p !in rest ==> clocks[p].waitingQ == map[]
      decreases |rest|
    {
      ghost var some := SomeElement(rest);
      var p :| p in rest;
      rest := rest - {p};
      if |clocks[p].waitingQ| != 0 {
        return false;
      }
    }
    return true;
  }

  /** Every process starts uncovered and uninitialised. */
  method NothingYet(numProcs: nat) returns (current: AllCoverage, total: AllCoverage, init: map<int, bool>)
    ensures ForProcs(total.Keys, numProcs) && Dominates(total, current)
    ensures InitMatches([], init, numProcs) && MainFirst([])
  {
    current, total, init := map[], map[], map[];
    var i := 1;
    while i <= numProcs
      invariant 1 <= i <= numProcs + 1
      invariant ForProcs(current.Keys, i - 1) && ForProcs(total.Keys, i - 1) && ForProcs(init.Keys, i - 1)
      invariant forall p :: p in current ==> current[p] == map[] && !init[p]
    {
      current := current[i := map[]];
      total := total[i := map[]];
      init := init[i := false];
      i := i + 1;
    }
    FreshRun(total, current, init, numProcs);
  }

  class Explorer {
    var visitedScheds: map<string, bool>
    var maxDepth: nat
    var strategy: Strategy
    var uniqueStates: int
    var currentDepth: nat
    var currentSchedule: string
    var currentCoverage: AllCoverage
    var totalCoverage: AllCoverage
    var actionStats: map<string, CovStats>
    var currentAction: string
    var initStatus: map<int, bool>
    var stateSpaceResults: seq<int>
    var runningProc: int
    var exploredStates: map<string, bool>

    /** The number of processes, the runs so far, and the tables looked at so far. */
    ghost const n: nat
    ghost var trace: Trace
    ghost var seen: set<seq<CovStats>>

    ghost function Remembered(): Memory
      reads `visitedScheds, `currentSchedule, `currentDepth
    {
      Memory(visitedScheds.Keys, currentSchedule, currentDepth)
    }

    ghost predicate SearchValid()
      reads `visitedScheds, `currentSchedule, `currentDepth, `maxDepth, `initStatus, `trace
    {
      && Search.Inv(Remembered(), trace, maxDepth)
      && InitMatches(trace.path, initStatus, n)
      && MainFirst(trace.path)
      && AllMainFirst(trace.runs)
    }

    ghost predicate CoverageValid()
      reads `currentCoverage, `totalCoverage
    {
      ForProcs(totalCoverage.Keys, n) && ForProcs(currentCoverage.Keys, n) && Dominates(totalCoverage, currentCoverage)
    }

    ghost predicate CountValid()
      reads `exploredStates, `uniqueStates, `stateSpaceResults, `seen
    {
      && Recorded(exploredStates.Keys, seen) && (forall tables :: tables in seen ==> |tables| == n)
      && uniqueStates == |exploredStates|
      && Nondecreasing(stateSpaceResults + [uniqueStates])
    }

    ghost predicate Valid()
      reads this
    {
      && SearchValid() && CoverageValid() && CountValid()
      && 0 <= runningProc <= n
    }

    constructor (numProcs: nat, explorationStrategy: Strategy, stats: map<string, CovStats>)
      ensures Valid() && n == numProcs && strategy == explorationStrategy
      ensures trace == Trace([], []) && seen == {} && maxDepth == 0 && actionStats == stats
    {
      hide Search.Inv, Dominates, MainFirst, InitMatches, StateOf;
      visitedScheds, maxDepth, strategy, uniqueStates := map[], 0, explorationStrategy, 0;
      currentDepth, currentSchedule, currentAction, runningProc := 0, "", "", 0;
      actionStats, stateSpaceResults, exploredStates := stats, [], map[];
      n := numProcs;
      trace, seen := Trace([], []), {};
      currentCoverage, totalCoverage, initStatus := map[], map[], map[];
      new;
      currentCoverage, totalCoverage, initStatus := NothingYet(numProcs);
      FreshInv(maxDepth);
      assert Remembered() == Fresh;
    }

    /** Called once, before the first action. */
    method SetMaxDepth(depth: nat)
      requires Valid() && trace == Trace([], [])
      modifies `maxDepth
      ensures Valid() && maxDepth == depth
    {
      maxDepth := depth;
    }

    /** In every state the explorer gets into, the current run is within its bound. */
    lemma RunsWithinBound()
      requires Valid()
      ensures |trace.path| <= (|trace.runs| + 1) * maxDepth
      ensures forall r :: 0 <= r < |trace.runs| ==> |trace.runs[r]| <= (r + 1) * maxDepth
    {
      hide VisitedIsTrie, InitMatches, MainFirst, AllMainFirst, CoverageValid, CountValid;
      PathBounded(Remembered(), trace, maxDepth);
    }

    /** If no block id contains a comma, the counter shows how many different tables the
        explorer has seen, and the results of the runs never fall. */
    lemma StatesCountedExactly()
      requires Valid()
      requires forall tables :: tables in seen ==> PlainTables(tables)
      ensures uniqueStates == |seen|
      ensures forall j, k :: 0 <= j < k < |stateSpaceResults| ==>
                stateSpaceResults[j] <= stateSpaceResults[k] <= uniqueStates
    {
      CountIsExact(exploredStates.Keys, seen, n);
      var s := stateSpaceResults + [uniqueStates];
      assert forall j :: 0 <= j < |stateSpaceResults| ==> s[j] == stateSpaceResults[j];
      assert s[|stateSpaceResults|] == uniqueStates;
    }

    // --------------------------------------------------------------- the search

    method RestartExploration()
      requires Valid()
      modifies `visitedScheds, `currentDepth, `currentSchedule, `currentCoverage, `initStatus, `stateSpaceResults,
               `trace
      ensures Valid()
      ensures trace == Trace(old(trace.runs) + [old(trace.path)], [])
      ensures Remembered() == Restarted(old(Remembered()))
      ensures stateSpaceResults == old(stateSpaceResults) + [uniqueStates]
      ensures forall p :: p in currentCoverage ==> currentCoverage[p] == map[]
    {
      hide Search.Inv, CountValid;
      ForgetSchedule();
      ResetProcesses();
      FreshRun(totalCoverage, currentCoverage, initStatus, n);
      SaveResult();
    }

    method SaveResult()
      requires CountValid()
      modifies `stateSpaceResults
      ensures CountValid() && stateSpaceResults == old(stateSpaceResults) + [uniqueStates]
    {
      ResultsStaySorted(stateSpaceResults, uniqueStates);
      stateSpaceResults := stateSpaceResults + [uniqueStates];
    }

    method ForgetSchedule()
      requires SearchValid()
      modifies `visitedScheds, `currentDepth, `currentSchedule, `trace
      ensures trace == NextTrace(old(trace), Restart) && Remembered() == Restarted(old(Remembered()))
      ensures Search.Inv(Remembered(), trace, maxDepth)
      ensures AllMainFirst(trace.runs)
    {
      hide Search.Inv, MainFirst;
      RestartKeeps(Remembered(), trace, maxDepth);
      visitedScheds := visitedScheds[currentSchedule := true];
      trace := NextTrace(trace, Restart);
      currentDepth := 0;
      currentSchedule := "";
      assert Remembered() == Restarted(old(Remembered()));
    }

    method ResetProcesses()
      requires ForProcs(totalCoverage.Keys, n) && ForProcs(initStatus.Keys, n)
      modifies `currentCoverage, `initStatus
      ensures ForProcs(currentCoverage.Keys, n) && ForProcs(initStatus.Keys, n)
      ensures forall p :: p in currentCoverage ==> currentCoverage[p] == map[] && !initStatus[p]
    {
      currentCoverage := map[];
      var procs := |totalCoverage|;
      KeysOfProcs(totalCoverage.Keys, n);
      var i := 1;
      while i <= procs
        invariant 1 <= i <= procs + 1
        invariant ForProcs(currentCoverage.Keys, i - 1) && ForProcs(initStatus.Keys, n)
        invariant forall p :: p in currentCoverage ==> currentCoverage[p] == map[] && !initStatus[p]
      {
        currentCoverage := currentCoverage[i := map[]];
        initStatus := initStatus[i := false];
        i := i + 1;
      }
    }

    /** The string of an action is added to the current schedule; only a schedule that has not
        been visited counts towards the depth. */
    method Follow(ghost key: Key, text: string)
      requires SearchValid() && text == KeyString(key) && currentDepth < maxDepth && 1 <= key.proc <= n
      requires key.ThreadKey? && !initStatus[key.proc] ==> key.gid == 1
      modifies `visitedScheds, `currentDepth, `currentSchedule, `trace
      ensures Issued(old(trace), old(Remembered()), key)
    {
      hide Search.Inv, InitMatches, MainFirst, AllMainFirst, KeyString;
      StepKeepsInv(Remembered(), trace, Issue(key), maxDepth);
      IssueKeepsMainFirst(trace.path, key, initStatus, n);
      trace := NextTrace(trace, Issue(key));
      currentSchedule := currentSchedule + text;
      if currentSchedule !in visitedScheds {
        visitedScheds := visitedScheds[currentSchedule := true];
        currentDepth := currentDepth + 1;
      }
      assert Remembered() == Extended(old(Remembered()), key);
    }

    // -------------------------------------------------------------- the coverage

    /** What the last action covered is added to what its goroutine has covered before, and to
        the tables of its process; a new state is counted. */
    method UpdateActionCoverage(coverage: Option<CovStats>)
      requires Valid()
      modifies `actionStats, `currentCoverage, `totalCoverage, `uniqueStates, `exploredStates, `seen
      ensures Valid()
      ensures actionStats ==
              if coverage.Some? then WithStats(old(actionStats), currentAction, coverage.value) else old(actionStats)
      ensures currentCoverage == AfterAction(old(currentCoverage), runningProc, coverage)
      ensures totalCoverage == AfterAction(old(totalCoverage), runningProc, coverage)
      ensures Counted(old(exploredStates), old(uniqueStates), StateOf(Tables(currentCoverage, n)),
                      exploredStates, uniqueStates)
      ensures seen == old(seen) + {Tables(currentCoverage, n)}
    {
      hide SearchValid, CountValid, CoverageValid, StateOf, Tables, WithStats;
      if currentAction != "" || currentAction != "RESTART" {
        if coverage.Some? {
          UpdateCurrentActionStats(coverage.value);
        }
        if runningProc != 0 {
          UpdateTables(coverage);
        }
        CountState();
      }
    }

    method UpdateCurrentActionStats(coverage: CovStats)
      modifies `actionStats
      ensures actionStats == WithStats(old(actionStats), currentAction, coverage)
    {
      if currentAction !in actionStats {
        UnionOfNothing(coverage);
        actionStats := actionStats[currentAction := coverage];
      } else {
        var merged := CoverageUnion(actionStats[currentAction], coverage);
        actionStats := actionStats[currentAction := merged];
      }
    }

    method UpdateTables(coverage: Option<CovStats>)
      requires CoverageValid() && 1 <= runningProc <= n
      modifies `currentCoverage, `totalCoverage
      ensures CoverageValid()
      ensures currentCoverage == AfterAction(old(currentCoverage), runningProc, coverage)
      ensures totalCoverage == AfterAction(old(totalCoverage), runningProc, coverage)
    {
      if coverage.Some? {
        UnionKeepsLeq(currentCoverage[runningProc], totalCoverage[runningProc], coverage.value);
        var current := CoverageUnion(currentCoverage[runningProc], coverage.value);
        currentCoverage := currentCoverage[runningProc := current];
        var total := CoverageUnion(totalCoverage[runningProc], coverage.value);
        totalCoverage := totalCoverage[runningProc := total];
      }
    }

    method CountState()
      requires CountValid() && CoverageValid()
      modifies `uniqueStates, `exploredStates, `seen
      ensures CountValid()
      ensures Counted(old(exploredStates), old(uniqueStates), StateOf(Tables(currentCoverage, n)),
                      exploredStates, uniqueStates)
      ensures seen == old(seen) + {Tables(currentCoverage, n)}
    {
      hide StateOf, Dominates, Recorded, Nondecreasing;
      KeysOfProcs(currentCoverage.Keys, n);
      var currentState := PrintState(currentCoverage, |currentCoverage|);
      ghost var tables := Tables(currentCoverage, n);
      RecordOne(exploredStates, uniqueStates, stateSpaceResults, seen, tables, currentState);
      seen := seen + {tables};
      exploredStates, uniqueStates := CountOne(exploredStates, uniqueStates, currentState);
    }

    // ------------------------------------------------------- choosing a goroutine

    ghost function Known(): Knowledge
      reads `strategy, `actionStats, `currentSchedule, `visitedScheds, `totalCoverage, `currentCoverage
    {
      Knowledge(strategy, actionStats, currentSchedule, visitedScheds.Keys, totalCoverage, currentCoverage)
    }

    /** Both passes write every estimate into the table they compare with.  The variable that
        points to the chosen goroutine points to the loop variable, so after the loop it shows
        the last goroutine of the list. */
    method GetNextCoverageThread(threads: seq<ProcThread>, obj: Objective) returns (next: Option<ProcThread>)
      requires CoverageValid() && OnProcs(threads, n)
      modifies `currentCoverage, `totalCoverage
      ensures CoverageValid()
      ensures next.None? <==> threads == []
      ensures next.Some? ==> next.value in threads
      ensures totalCoverage == Credited(old(totalCoverage), threads, actionStats, {})
      ensures ChosenBy(old(Known()), obj, threads, next, currentCoverage)
    {
      hide Improves, Score, KeyString;
      CreditedKeepsProcs(totalCoverage, threads, actionStats, {}, n);
      CreditedKeepsDominance(totalCoverage, currentCoverage, threads, actionStats, {}, n);
      ghost var total := totalCoverage;
      var improved, unseen;
      improved, unseen, totalCoverage := CompareTotals(totalCoverage, threads, actionStats, obj);
      if improved {
        return Some(threads[|threads| - 1]);
      }
      if |unseen| > 0 {
        assert unseen[0] in unseen;
        next := GetNextRandomThread(unseen);
        return;
      }
      improved := PickLocally(threads, obj, total);
      if improved {
        return Some(threads[|threads| - 1]);
      }
      next := GetNextRandomThread(threads);
    }

    method PickLocally(threads: seq<ProcThread>, obj: Objective, ghost total: AllCoverage) returns (improved: bool)
      requires ForProcs(total.Keys, n) && Dominates(total, currentCoverage) && OnProcs(threads, n)
      requires totalCoverage == Credited(total, threads, actionStats, {})
      modifies `currentCoverage
      ensures CoverageValid() && (improved ==> threads != [])
      ensures var skipped := Leading(threads, currentSchedule, visitedScheds.Keys);
              && currentCoverage == Credited(old(currentCoverage), threads, actionStats, skipped)
              && (improved <==> Improves(old(currentCoverage), threads, actionStats, skipped, obj))
    {
      hide Improves, Leading, Score, KeyString;
      ghost var current, skipped := currentCoverage, Leading(threads, currentSchedule, visitedScheds.Keys);
      improved, currentCoverage := ComparePaths(currentCoverage, threads, actionStats, obj,
                                                currentSchedule, visitedScheds);
      CreditedKeepsProcs(total, threads, actionStats, {}, n);
      CreditedKeepsDominance(total, current, threads, actionStats, skipped, n);
    }

    method GetNextPossibleThreads(threads: seq<ProcThread>, clocks: map<int, Clock>, isblocked: map<int, bool>)
      returns (possible: seq<ProcThread>)
      requires OnProcs(threads, n) && ClocksValid(clocks, n)
      ensures possible == Candidates(threads, initStatus, isblocked, clocks)
    {
      possible := [];
      for i := 0 to |threads|
        invariant possible == Candidates(threads[..i], initStatus, isblocked, clocks)
      {
        var t := threads[i];
        assert t in threads;
        assert threads[..i + 1][..i] == threads[..i] && threads[..i + 1][i] == t;
        if t.proc in initStatus && initStatus[t.proc] {
          if t.thread.status == Runnable {
            var asleep := clocks[t.proc].IsSleepingNow(t.thread.gid);
            if asleep {
              continue;
            }
            if t.proc in isblocked && isblocked[t.proc] {
              continue;
            }
            possible := possible + [t];
          }
        } else {
          if t.thread.gid == 1 {
            possible := possible + [t];
          }
        }
      }
      assert threads[..|threads|] == threads;
    }

    /** With nothing to choose from, the program stops with a panic. */
    method GetNextThread(threads: seq<ProcThread>) returns (next: Option<ProcThread>)
      requires SearchValid() && CoverageValid() && OnProcs(threads, n) && currentDepth < maxDepth
      requires forall t :: t in threads && !initStatus[t.proc] ==> t.thread.gid == 1
      modifies `visitedScheds, `currentDepth, `currentSchedule, `currentCoverage, `totalCoverage, `trace
      ensures CoverageValid()
      ensures next.None? <==> threads == []
      ensures next.None? ==> SearchValid() && trace == old(trace)
      ensures next.Some? ==> next.value in threads && Issued(old(trace), old(Remembered()), ThreadOf(next.value))
      ensures ByStrategy(old(Known()), threads, next, totalCoverage, currentCoverage)
    {
      hide SearchValid, CoverageValid, Issued, Extended, ByStrategy, Itoa, Hex;
      next := ChooseThread(threads);
      if next.None? {
        return;
      }
      var text := PrintThread(next.value);
      Follow(ThreadOf(next.value), text);
    }

    /** The strategy decides. */
    method ChooseThread(threads: seq<ProcThread>) returns (next: Option<ProcThread>)
      requires CoverageValid() && OnProcs(threads, n)
      modifies `currentCoverage, `totalCoverage
      ensures CoverageValid()
      ensures next.None? <==> threads == []
      ensures next.Some? ==> next.value in threads
      ensures ByStrategy(old(Known()), threads, next, totalCoverage, currentCoverage)
    {
      hide ChosenBy, Credited, CoverageValid;
      match strategy
      case RANDOM =>
        next := GetNextRandomThread(threads);
      case COVERAGE_UNIQUE =>
        next := GetNextCoverageThread(threads, UNIQUE);
      case COVERAGE_FREQUENCY =>
        next := GetNextCoverageThread(threads, FREQUENCY);
      case COVERAGE_NODE_FREQUENCY =>
        next := GetNextCoverageThread(threads, NODE_FREQUENCY);
    }

    /** The clock of a process is asked for a timer to fire. */
    method GetNextTimer(clock: Clock, proc: int) returns (next: Option<int>,
                        ghost fired: Option<VirtualClock.Ready>)
      requires Valid() && clock.Valid() && 1 <= proc <= n && currentDepth < maxDepth
      modifies `visitedScheds, `currentDepth, `currentSchedule, `trace, `currentAction, `runningProc, clock
      ensures clock.Valid() && VirtualClock.NextEvent(old(clock.View()), clock.View(), fired)
      ensures next == if fired.Some? then Some(fired.value.event.timerId) else None
      ensures next.None? ==> unchanged(this)
      ensures next.Some? ==> Taken(TIMER(proc, next.value), old(trace))
    {
      hide VirtualClock.NextEvent, VirtualClock.Tagged, Search.Inv, MainFirst, AllMainFirst, InitMatches;
      hide CountValid, CoverageValid, Extended, KeyString, Itoa;
      var event;
      event, fired := clock.GetNextEvent();
      if event.None? {
        return None, fired;
      }
      var text := PrintTimer(proc, event.value.timerId);
      Follow(TimerKey(proc, event.value.timerId), text);
      currentAction := text;
      runningProc := proc;
      next := Some(event.value.timerId);
    }

    /** The action has been added to the run; if it schedules a goroutine, its process counts
        as initialised from now on. */
    ghost predicate Issued(before: Trace, remembered: Memory, key: Key)
      reads `visitedScheds, `currentSchedule, `currentDepth, `maxDepth, `initStatus, `trace
    {
      && trace == NextTrace(before, Issue(key))
      && Remembered() == Extended(remembered, key)
      && Search.Inv(Remembered(), trace, maxDepth)
      && MainFirst(trace.path)
      && InitMatches(trace.path, if key.ThreadKey? then initStatus[key.proc := true] else initStatus, n)
      && AllMainFirst(trace.runs)
    }

    /** The clocks are asked in any order until one has a timer to fire; as each may have woken
        up goroutines, the possible ones are looked up again. */
    method GetAnyTimer(threads: seq<ProcThread>, clocks: map<int, Clock>, isblocked: map<int, bool>,
                       candidates: seq<ProcThread>)
      returns (action: Option<ActionType>, possible: seq<ProcThread>)
      requires Valid() && currentDepth < maxDepth && OnProcs(threads, n) && ClocksValid(clocks, n)
      requires candidates == Candidates(threads, initStatus, isblocked, clocks)
      modifies `visitedScheds, `currentDepth, `currentSchedule, `trace, `currentAction, `runningProc, clocks.Values
      ensures ClocksValid(clocks, n)
      ensures action.None? ==> unchanged(this)
      ensures action.None? ==> possible == Candidates(threads, initStatus, isblocked, clocks)
      ensures action.Some? ==> action.value.TIMER? && Taken(action.value, old(trace))
      ensures action.Some? ==> NotScheduled(action.value, old(Known()))
    {
      hide Valid, Possible, VirtualClock.NextEvent, VirtualClock.Tagged, Taken;
      possible := candidates;
      var rest := clocks.Keys;
      while rest != {}
        invariant unchanged(this) && ClocksValid(clocks, n) && rest <= clocks.Keys
        invariant possible == Candidates(threads, initStatus, isblocked, clocks)
        decreases |rest|
      {
        ghost var some := SomeElement(rest);
        var p :| p in rest;
        rest := rest - {p};
        if |clocks[p].waitingQ| != 0 {
          var nextTimer, fired := GetNextTimer(clocks[p], p);
          if nextTimer.None? {
            possible := GetNextPossibleThreads(threads, clocks, isblocked);
            continue;
          }
          return Some(TIMER(p, nextTimer.value)), possible;
        }
      }
      action := None;
    }

    /** No goroutine can be scheduled, and no timer is waiting. */
    ghost predicate Exhausted(threads: seq<ProcThread>, clocks: map<int, Clock>, isblocked: map<int, bool>)
      requires OnProcs(threads, n) && ForProcs(clocks.Keys, n)
      reads `initStatus, clocks.Values
    {
      && (forall t :: t in threads ==> !Possible(initStatus, isblocked, clocks, t))
      && (forall p :: p in clocks ==> clocks[p].waitingQ == map[])
    }

    /** What the action has done to the explorer. */
    ghost predicate Taken(action: ActionType, before: Trace)
      reads this
    {
      Valid() && match action
                 case RESTART =>
                   trace == NextTrace(before, Restart) && runningProc == 0 && currentAction == "RESTART"
                 case SCHEDULE(t) =>
                   && trace == NextTrace(before, Issue(ThreadOf(t)))
                   && runningProc == t.proc && currentAction == ThreadString(t)
                 case TIMER(p, id) =>
                   && trace == NextTrace(before, Issue(TimerKey(p, id)))
                   && runningProc == p && currentAction == KeyString(TimerKey(p, id))
    }

    /** What scheduling a goroutine has left of what was known. */
    ghost predicate Scheduled(t: ProcThread, k: Knowledge, candidates: seq<ProcThread>)
      reads this
    {
      t in candidates && ByStrategy(k, candidates, Some(t), totalCoverage, currentCoverage)
    }

    /** What a timer or a restart leaves. */
    ghost predicate NotScheduled(action: ActionType, k: Knowledge)
      reads this
    {
      && totalCoverage == k.total
      && (action.TIMER? ==> currentCoverage == k.current)
      && (action.RESTART? ==> forall p :: p in currentCoverage ==> currentCoverage[p] == map[])
    }

    /** The next action: a restart at the depth bound or when there is nothing left to do, and
        otherwise a timer or a goroutine.  Without a result, no goroutine could be chosen. */
    method GetNextAction(threads: seq<ProcThread>, clocks: map<int, Clock>, isblocked: map<int, bool>)
      returns (action: Option<ActionType>)
      requires Valid() && OnProcs(threads, n) && ClocksValid(clocks, n)
      modifies this, clocks.Values
      ensures ClocksValid(clocks, n) && maxDepth == old(maxDepth) && seen == old(seen)
      ensures action.Some? && action.value.RESTART? <==>
              old(currentDepth) >= maxDepth || old(Exhausted(threads, clocks, isblocked))
      ensures action.Some? ==> Taken(action.value, old(trace))
      ensures action.Some? && action.value.SCHEDULE? ==>
                action.value.thread in threads && Possible(old(initStatus), isblocked, clocks, action.value.thread)
      ensures action.None? ==> forall t :: t in threads ==> !Possible(old(initStatus), isblocked, clocks, t)
      ensures action.Some? && action.value.SCHEDULE? ==>
                Scheduled(action.value.thread, old(Known()), Candidates(threads, old(initStatus), isblocked, clocks))
      ensures action.Some? && !action.value.SCHEDULE? ==> NotScheduled(action.value, old(Known()))
      ensures strategy == old(strategy) && actionStats == old(actionStats) && uniqueStates == old(uniqueStates)
      ensures exploredStates == old(exploredStates)
      ensures stateSpaceResults ==
              old(stateSpaceResults) + if action == Some(RESTART) then [uniqueStates] else []
    {
      hide Valid, Taken, Possible, Candidates, ClocksValid, Scheduled, NotScheduled;
      var possible := GetNextPossibleThreads(threads, clocks, isblocked);
      PossibleCandidates(threads, initStatus, isblocked, clocks, n);
      var noWaiting := NoWaitingEvents(clocks);
      assert |possible| != 0 ==> possible[0] in possible;
      if currentDepth >= maxDepth || (|possible| == 0 && noWaiting) {
        TakeRestart();
        return Some(RESTART);
      }
      action := ChooseAction(threads, clocks, isblocked, possible);
    }

    method TakeRestart()
      requires Valid()
      modifies this
      ensures Taken(RESTART, old(trace)) && maxDepth == old(maxDepth) && seen == old(seen)
      ensures NotScheduled(RESTART, old(Known()))
      ensures strategy == old(strategy) && actionStats == old(actionStats) && uniqueStates == old(uniqueStates)
      ensures exploredStates == old(exploredStates)
      ensures stateSpaceResults == old(stateSpaceResults) + [uniqueStates]
    {
      hide SearchValid, CoverageValid, CountValid;
      RestartExploration();
      currentAction := "RESTART";
      runningProc := 0;
    }

    /** Whether a timer is tried first is left to chance, unless there is no goroutine. */
    method ChooseAction(threads: seq<ProcThread>, clocks: map<int, Clock>, isblocked: map<int, bool>,
                        candidates: seq<ProcThread>)
      returns (action: Option<ActionType>)
      requires Valid() && OnProcs(threads, n) && ClocksValid(clocks, n) && currentDepth < maxDepth
      requires candidates == Candidates(threads, initStatus, isblocked, clocks)
      modifies `visitedScheds, `currentDepth, `currentSchedule, `currentCoverage, `totalCoverage, `trace, `initStatus,
               `currentAction, `runningProc, clocks.Values
      ensures ClocksValid(clocks, n) && CoverageValid()
      ensures action.Some? ==> !action.value.RESTART? && Taken(action.value, old(trace))
      ensures action.Some? && action.value.SCHEDULE? ==>
                action.value.thread in threads && Possible(old(initStatus), isblocked, clocks, action.value.thread)
      ensures action.None? ==> forall t :: t in threads ==> !Possible(old(initStatus), isblocked, clocks, t)
      ensures action.Some? && action.value.SCHEDULE? ==>
                Scheduled(action.value.thread, old(Known()), Candidates(threads, old(initStatus), isblocked, clocks))
      ensures action.Some? && !action.value.SCHEDULE? ==> NotScheduled(action.value, old(Known()))
    {
      hide Taken, Scheduled, NotScheduled, Candidates, Search.Inv, MainFirst, Recorded, Nondecreasing, Dominates;
      hide ClocksValid;
      var possible := candidates;
      var choice :| choice == 0 || choice == 1;
      if choice == 0 || |possible| == 0 {
        action, possible := GetAnyTimer(threads, clocks, isblocked, possible);
        if action.Some? {
          return;
        }
      }
      PossibleCandidates(threads, initStatus, isblocked, clocks, n);
      var nextThread := ScheduleThread(possible);
      return if nextThread.Some? then Some(SCHEDULE(nextThread.value)) else None;
    }

    method ScheduleThread(threads: seq<ProcThread>) returns (next: Option<ProcThread>)
      requires Valid() && OnProcs(threads, n) && currentDepth < maxDepth
      requires forall t :: t in threads && !initStatus[t.proc] ==> t.thread.gid == 1
      modifies `visitedScheds, `currentDepth, `currentSchedule, `currentCoverage, `totalCoverage, `trace, `initStatus,
               `currentAction, `runningProc
      ensures CoverageValid()
      ensures next.None? <==> threads == []
      ensures next.Some? ==> next.value in threads && Taken(SCHEDULE(next.value), old(trace))
      ensures next.Some? ==> Scheduled(next.value, old(Known()), threads)
    {
      hide Search.Inv, AllMainFirst, MainFirst, InitMatches, CountValid, CoverageValid, Extended, ThreadString;
      ProcsKnown(trace.path, initStatus, n);
      next := GetNextThread(threads);
      if next.None? {
        return;
      }
      var t := next.value;
      if !initStatus[t.proc] {
        initStatus := initStatus[t.proc := true];
      } else {
        assert initStatus[t.proc := true] == initStatus;
      }
      currentAction := PrintThread(t);
      runningProc := t.proc;
    }
  }

  method PrintTimer(proc: int, id: int) returns (text: string)
    ensures text == KeyString(TimerKey(proc, id))
  {
    text := "P" + Itoa(proc) + "Ti" + Itoa(id);
  }

  method PrintThread(t: ProcThread) returns (text: string)
    ensures text == ThreadString(t)
  {
    text := "P" + Itoa(t.proc) + "T" + Itoa(t.thread.gid) + "H" + Hex(t.thread.gpc);
  }

  /** What is known of the actions, after one more has been executed. */
  function WithStats(stats: map<string, CovStats>, action: string, coverage: CovStats): map<string, CovStats> {
    stats[action := Union(if action in stats then stats[action] else map[], coverage)]
  }

  /** The tables, after an action has been executed on a process; none has on process 0. */
  function AfterAction(all: AllCoverage, proc: int, coverage: Option<CovStats>): AllCoverage {
    if coverage.Some? && proc != 0 then Estimated(all, coverage.value, proc) else all
  }

  /** Only the executed action is known to have covered more: what it has covered now. */
  lemma WithStatsSays(stats: map<string, CovStats>, action: string, coverage: CovStats, other: string, block: string)
    ensures var after := WithStats(stats, action, coverage);
            && (other in after <==> other in stats || other == action)
            && (other in after ==>
                  CountOf(after[other], block) ==
                  (if other in stats then CountOf(stats[other], block) else 0)
                  + if other == action then CountOf(coverage, block) else 0)
  {
  }

  /** Only the table of its process has grown: by what the action has covered. */
  lemma AfterActionSays(all: AllCoverage, proc: int, coverage: Option<CovStats>, q: int, block: string)
    ensures CountAt(AfterAction(all, proc, coverage), q, block) ==
            CountAt(all, q, block)
            + if coverage.Some? && proc != 0 && q == proc then CountOf(coverage.value, block) else 0
  {
    if coverage.Some? {
      CountsAfter(all, coverage.value, proc, block);
    }
  }

  /** The state is recorded, and counted if it was not recorded before. */
  ghost predicate Counted(states: map<string, bool>, count: int, state: string,
                          states': map<string, bool>, count': int) {
    states'.Keys == states.Keys + {state} && count' == count + if state in states then 0 else 1
  }

  method CountOne(states: map<string, bool>, count: int, state: string)
    returns (states': map<string, bool>, count': int)
    ensures Counted(states, count, state, states', count')
    ensures state in states ==> states' == states
    ensures state !in states ==> states' == states[state := true]
  {
    states', count' := states, count;
    if state !in states {
      count' := count + 1;
      states' := states[state := true];
    }
  }

  lemma NextResult(results: seq<int>, count: int)
    requires Nondecreasing(results + [count])
    ensures Nondecreasing(results + [count + 1])
  {
    var s, s' := results + [count], results + [count + 1];
    forall j, k | 0 <= j < k < |s'| ensures s'[j] <= s'[k] {
      assert s[j] <= s[k];
    }
  }

  lemma NewKey(states: map<string, bool>, state: string)
    ensures state in states ==> states.Keys + {state} == states.Keys
    ensures state !in states ==>
              states[state := true].Keys == states.Keys + {state} && |states[state := true]| == |states| + 1
  {
  }

  lemma RecordOne(states: map<string, bool>, count: int, results: seq<int>, seen: set<seq<CovStats>>,
                  tables: seq<CovStats>, state: string)
    requires Recorded(states.Keys, seen) && count == |states| && Nondecreasing(results + [count])
    requires state == StateOf(tables)
    ensures Recorded(states.Keys + {state}, seen + {tables})
    ensures state in states ==> states.Keys + {state} == states.Keys
    ensures state !in states ==>
              states[state := true].Keys == states.Keys + {state} && |states[state := true]| == count + 1
    ensures Nondecreasing(results + [count + 1])
  {
    hide StateOf, Nondecreasing;
    RecordTables(states.Keys, seen, tables);
    hide Recorded;
    NewKey(states, state);
    NextResult(results, count);
  }

  /** The first pass compares with the coverage of all runs. */
  method CompareTotals(all: AllCoverage, threads: seq<ProcThread>, stats: map<string, CovStats>, obj: Objective)
    returns (improved: bool, unseen: seq<ProcThread>, all': AllCoverage)
    ensures all' == Credited(all, threads, stats, {})
    ensures improved <==> Improves(all, threads, stats, {}, obj)
    ensures improved ==> threads != []
    ensures forall t :: t in unseen <==> t in threads && ThreadString(t) !in stats
  {
    hide KeyString, Estimated, Score, Beats;
    var prevScore := CalcFullCoverageScore(all, obj);
    var minScore := prevScore;
    all' := all;
    unseen := [];
    for i := 0 to |threads|
      invariant all' == Credited(all, threads[..i], stats, {})
      invariant prevScore == Score(all, obj) <= minScore
      invariant minScore != prevScore <==> exists k :: 0 <= k < i && Beats(all, threads, stats, {}, obj, k)
      invariant forall t :: t in unseen <==> t in threads[..i] && ThreadString(t) !in stats
    {
      var thread := threads[i];
      assert threads[..i + 1] == threads[..i] + [thread];
      CreditedNext(all, threads, i, stats, {});
      EstimateBeats(all, threads, i, stats, {}, obj);
      var procString := PrintThread(thread);
      if procString in stats {
        var estimate;
        estimate, all' := GetCoverageEstimate(all', stats[procString], thread.proc, obj);
        if estimate > minScore {
          minScore := estimate;
        }
      } else {
        unseen := unseen + [thread];
      }
    }
    assert threads[..|threads|] == threads;
    improved := minScore != prevScore;
  }

  /** The second pass compares with the coverage of the current run, and leaves out goroutines
      that lead to a visited schedule. */
  method ComparePaths(all: AllCoverage, threads: seq<ProcThread>, stats: map<string, CovStats>, obj: Objective,
                      schedule: string, visited: map<string, bool>)
    returns (improved: bool, all': AllCoverage)
    ensures all' == Credited(all, threads, stats, Leading(threads, schedule, visited.Keys))
    ensures improved <==> Improves(all, threads, stats, Leading(threads, schedule, visited.Keys), obj)
    ensures improved ==> threads != []
  {
    hide KeyString, Estimated, Score, Beats;
    ghost var skipped := Leading(threads, schedule, visited.Keys);
    var minScore := CalcFullCoverageScore(all, obj);
    var prevScore := minScore;
    var actionFound := false;
    all' := all;
    for i := 0 to |threads|
      invariant all' == Credited(all, threads[..i], stats, skipped)
      invariant prevScore == Score(all, obj) <= minScore && (actionFound <==> minScore != prevScore)
      invariant minScore != prevScore <==> exists k :: 0 <= k < i && Beats(all, threads, stats, skipped, obj, k)
    {
      var thread := threads[i];
      CreditedNext(all, threads, i, stats, skipped);
      EstimateBeats(all, threads, i, stats, skipped, obj);
      var procString := PrintThread(thread);
      assert thread in threads && procString == ThreadString(thread);
      if schedule + procString in visited {
        continue;
      }
      LeadsOn(threads, schedule, visited.Keys, procString);
      if procString in stats {
        var estimate;
        estimate, all' := GetCoverageEstimate(all', stats[procString], thread.proc, obj);
        if estimate > minScore {
          actionFound := true;
          minScore := estimate;
        }
      }
    }
    assert threads[..|threads|] == threads;
    improved := minScore != prevScore || actionFound;
  }

  lemma LeadsOn(threads: seq<ProcThread>, schedule: string, visited: set<string>, text: string)
    requires schedule + text !in visited
    ensures text !in Leading(threads, schedule, visited)
  {
  }

  /** What the comparison with the estimate of one goroutine decides. */
  lemma EstimateBeats(all: AllCoverage, threads: seq<ProcThread>, i: nat, stats: map<string, CovStats>,
                      skipped: set<string>, obj: Objective)
    requires i < |threads|
    ensures var text := ThreadString(threads[i]);
            Beats(all, threads, stats, skipped, obj, i) <==>
            && text in stats && text !in skipped
            && Score(Credited(all, threads[..i + 1], stats, skipped), obj) > Score(all, obj)
  {
  }

  lemma UnionOfNothing(cov: CovStats)
    ensures Union(map[], cov) == cov
  {
  }

  lemma {:induction false} KeysOfProcs(procs: set<int>, n: nat)
    requires ForProcs(procs, n)
    ensures |procs| == n
    decreases n
  {
    if n > 0 {
      KeysOfProcs(procs - {n}, n - 1);
    } else if procs != {} {
      var p := SomeElement(procs);
    }
  }

  lemma ResultsStaySorted(results: seq<int>, states: int)
    requires Nondecreasing(results + [states])
    ensures Nondecreasing(results + [states] + [states])
  {
    forall j, k | 0 <= j < k < |results| + 2
      ensures (results + [states] + [states])[j] <= (results + [states] + [states])[k]
    {
      var s := results + [states];
      if k == |results| + 1 && j < |results| {
        assert s[j] <= s[|results|];
      } else if k <= |results| {
        assert s[j] <= s[k];
      }
    }
  }
}
