/**
 What the choice of a goroutine comes down to: what the estimates leave in the tables, when
 they improve on the score, which goroutines are left out, and which may run at all.
 */
module ExplorerChoice {
  import opened Actions
  import opened Coverage
  import opened ExplorerRules
  import opened Search

  /** The goroutine has statistics, and is not left out. */
  predicate HasEstimate(t: ProcThread, stats: map<string, CovStats>, skipped: set<string>) {
    ThreadString(t) in stats && ThreadString(t) !in skipped
  }

  /** How often the goroutines of process q are expected to cover a block. */
  function Expected(threads: seq<ProcThread>, stats: map<string, CovStats>, skipped: set<string>, q: int,
                    block: string): nat {
    if threads == [] then 0
    else
      var t := threads[|threads| - 1];
      Expected(threads[..|threads| - 1], stats, skipped, q, block)
      + if HasEstimate(t, stats, skipped) && t.proc == q then CountOf(stats[ThreadString(t)], block) else 0
  }

  /** The estimates stay: each count has grown by what the goroutines of its process are
      expected to cover. */
  lemma {:induction false} CreditedCounts(all: AllCoverage, threads: seq<ProcThread>, stats: map<string, CovStats>,
                                          skipped: set<string>, q: int, block: string)
    ensures CountAt(Credited(all, threads, stats, skipped), q, block) ==
            CountAt(all, q, block) + Expected(threads, stats, skipped, q, block)
  {
    if threads != [] {
      var front, t := threads[..|threads| - 1], threads[|threads| - 1];
      CreditedCounts(all, front, stats, skipped, q, block);
      if HasEstimate(t, stats, skipped) {
        CountsAfter(Credited(all, front, stats, skipped), stats[ThreadString(t)], t.proc, block);
      }
      hide CountAt, CountOf, Estimated, ThreadString;
    }
  }

  /** Some goroutine is expected to reach a block that no process has covered. */
  ghost predicate ReachesNew(all: AllCoverage, threads: seq<ProcThread>, stats: map<string, CovStats>,
                             skipped: set<string>) {
    exists i :: 0 <= i < |threads| && HasEstimate(threads[i], stats, skipped)
                && Uncovered(all, stats[ThreadString(threads[i])]) != {}
  }

  /** The blocks of the table after the estimates. */
  lemma {:induction false} CreditedBlocks(all: AllCoverage, threads: seq<ProcThread>, stats: map<string, CovStats>,
                                          skipped: set<string>)
    ensures Blocks(all) <= Blocks(Credited(all, threads, stats, skipped))
    ensures !ReachesNew(all, threads, stats, skipped) ==> Blocks(Credited(all, threads, stats, skipped)) == Blocks(all)
    ensures threads != [] && HasEstimate(threads[|threads| - 1], stats, skipped) ==>
              stats[ThreadString(threads[|threads| - 1])].Keys <= Blocks(Credited(all, threads, stats, skipped))
  {
    if threads != [] {
      var n := |threads| - 1;
      var front, t := threads[..n], threads[n];
      CreditedBlocks(all, front, stats, skipped);
      NewEarlier(all, threads, n, stats, skipped);
      if HasEstimate(t, stats, skipped) {
        EstimatedBlocks(Credited(all, front, stats, skipped), stats[ThreadString(t)], t.proc);
        AllKnown(all, stats[ThreadString(t)]);
      }
      hide Blocks, Estimated, Uncovered, ThreadString;
    }
  }

  lemma NewEarlier(all: AllCoverage, threads: seq<ProcThread>, n: nat, stats: map<string, CovStats>,
                   skipped: set<string>)
    requires n <= |threads|
    ensures ReachesNew(all, threads[..n], stats, skipped) ==> ReachesNew(all, threads, stats, skipped)
  {
    if ReachesNew(all, threads[..n], stats, skipped) {
      var i :| 0 <= i < n && HasEstimate(threads[..n][i], stats, skipped)
        && Uncovered(all, stats[ThreadString(threads[..n][i])]) != {};
      assert threads[i] == threads[..n][i];
    }
  }

  /** Counting blocks, the estimates improve on the score if and only if some goroutine is
      expected to reach a block that no process has covered. */
  lemma UniqueImprovesExactly(all: AllCoverage, threads: seq<ProcThread>, stats: map<string, CovStats>,
                              skipped: set<string>)
    ensures Improves(all, threads, stats, skipped, UNIQUE) <==> ReachesNew(all, threads, stats, skipped)
  {
    hide Score, Blocks, Uncovered, ThreadString, Credited;
    ScoresAreOrdered(all);
    if i :| 0 <= i < |threads| && Beats(all, threads, stats, skipped, UNIQUE, i) {
      var front := threads[..i + 1];
      ScoresAreOrdered(Credited(all, front, stats, skipped));
      CreditedBlocks(all, front, stats, skipped);
      NewEarlier(all, threads, i + 1, stats, skipped);
    }
    if i :| 0 <= i < |threads| && HasEstimate(threads[i], stats, skipped)
            && Uncovered(all, stats[ThreadString(threads[i])]) != {} {
      var front := threads[..i + 1];
      assert front[|front| - 1] == threads[i];
      ScoresAreOrdered(Credited(all, front, stats, skipped));
      CreditedBlocks(all, front, stats, skipped);
      AllKnown(all, stats[ThreadString(threads[i])]);
      MoreBlocks(Blocks(all), Blocks(Credited(all, front, stats, skipped)), stats[ThreadString(threads[i])].Keys);
      assert Beats(all, threads, stats, skipped, UNIQUE, i);
    }
  }

  lemma MoreBlocks(a: set<string>, b: set<string>, added: set<string>)
    requires a <= b && added <= b && !(added <= a)
    ensures |b| > |a|
  {
    assert |b - a| == |b| - |a|;
    assert b - a != {} by {
      var x :| x in added && x !in a;
      assert x in b - a;
    }
  }

  /** By frequency they improve on it only then. */
  lemma FrequencyImprovesOnNewBlocks(all: AllCoverage, threads: seq<ProcThread>, stats: map<string, CovStats>,
                                     skipped: set<string>)
    requires Improves(all, threads, stats, skipped, FREQUENCY)
    ensures ReachesNew(all, threads, stats, skipped)
  {
    hide Score, Credited, ThreadString;
    var i :| 0 <= i < |threads| && Beats(all, threads, stats, skipped, FREQUENCY, i);
    NewEarlier(all, threads, i + 1, stats, skipped);
    if !ReachesNew(all, threads, stats, skipped) {
      NoGain(all, threads[..i + 1], stats, skipped);
    }
  }

  lemma {:induction false} NoGain(all: AllCoverage, threads: seq<ProcThread>, stats: map<string, CovStats>,
                                  skipped: set<string>)
    requires !ReachesNew(all, threads, stats, skipped)
    ensures Score(Credited(all, threads, stats, skipped), FREQUENCY) <= Score(all, FREQUENCY)
  {
    hide Score, ThreadString, Estimated, Blocks, Uncovered;
    if threads != [] {
      var n := |threads| - 1;
      var front, t := threads[..n], threads[n];
      NewEarlier(all, threads, n, stats, skipped);
      NoGain(all, front, stats, skipped);
      CreditedBlocks(all, front, stats, skipped);
      if HasEstimate(t, stats, skipped) {
        AllKnown(all, stats[ThreadString(t)]);
        var before := Credited(all, front, stats, skipped);
        var reach := stats[ThreadString(t)];
        NoGainFromKnownBlocks(before, reach, t.proc, Estimated(before, reach, t.proc));
      }
    }
  }

  /** Under every objective they improve on it when the first goroutine is expected to reach
      something, and new blocks only. */
  lemma NewBlocksFirst(all: AllCoverage, threads: seq<ProcThread>, stats: map<string, CovStats>,
                       skipped: set<string>, obj: Objective)
    requires threads != [] && HasEstimate(threads[0], stats, skipped)
    requires var reach := stats[ThreadString(threads[0])]; reach.Keys != {} && reach.Keys !! Blocks(all)
    ensures Improves(all, threads, stats, skipped, obj)
  {
    hide Score, Blocks, ThreadString, Estimated;
    var t := threads[0];
    assert threads[..1] == [t] && [t][..0] == [];
    assert Credited(all, [], stats, skipped) == all;
    assert Credited(all, [t], stats, skipped) == Estimated(all, stats[ThreadString(t)], t.proc);
    NewBlocksImprove(all, stats[ThreadString(t)], t.proc, obj);
    assert Beats(all, threads, stats, skipped, obj, 0);
  }

  /** In the comparison for the current run, the goroutines left out are those with which an
      earlier run went on from here. */
  lemma LeftOutExactly(m: Memory, t: Trace, maxDepth: nat, threads: seq<ProcThread>, thread: ProcThread)
    requires Search.Inv(m, t, maxDepth) && thread in threads
    ensures ThreadString(thread) in Leading(threads, m.schedule, m.visited) <==>
            TriedBefore(t.runs, t.path + [ThreadOf(thread)])
  {
    VisitedMeansTriedBefore(m, t, ThreadOf(thread));
    hide KeyString, TriedBefore;
  }

  /** What may run, by what the run has done: on a process where it has scheduled a goroutine,
      the runnable ones that do not sleep, unless the process is blocked; elsewhere the first. */
  lemma MayRunByHistory(path: seq<Key>, init: map<int, bool>, n: nat, blocked: map<int, bool>, asleep: bool,
                        t: ProcThread)
    requires InitMatches(path, init, n) && 1 <= t.proc <= n
    ensures MayRun(init, blocked, asleep, t) <==>
            if ScheduledOn(path, t.proc) then
              t.thread.status == Runnable && !asleep && (t.proc in blocked ==> !blocked[t.proc])
            else t.thread.gid == 1
  {
  }
}
