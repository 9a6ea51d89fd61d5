/**
 What the explorer keeps between its calls, on values: the coverage tables, the counted
 states, and which goroutines may be scheduled.
 */
module ExplorerRules {
  import opened Actions
  import opened Coverage
  import opened Fingerprint
  import opened Search

  datatype ProcThread = ProcThread(proc: int, thread: RoutineInfo)

  function ThreadOf(t: ProcThread): Key {
    ThreadKey(t.proc, t.thread.gid, t.thread.gpc)
  }

  /** The string of a goroutine. */
  function ThreadString(t: ProcThread): string {
    KeyString(ThreadOf(t))
  }

  /** The keys are the ids of n processes. */
  ghost predicate ForProcs(keys: set<int>, n: nat) {
    forall p :: p in keys <==> 1 <= p <= n
  }

  ghost predicate OnProcs(threads: seq<ProcThread>, n: nat) {
    forall t :: t in threads ==> 1 <= t.proc <= n
  }

  // ---------------------------------------------------------------- dominance

  ghost predicate Dominates(total: AllCoverage, current: AllCoverage) {
    (forall p :: p in total <==> p in current) && (forall p :: p in current ==> Leq(current[p], total[p]))
  }

  /** The table after the estimates for a list of goroutines have been written into it, one
      after the other, leaving out those with a skipped string. */
  function Credited(all: AllCoverage, threads: seq<ProcThread>, stats: map<string, CovStats>,
                    skipped: set<string>): AllCoverage {
    if threads == [] then all
    else
      var before := Credited(all, threads[..|threads| - 1], stats, skipped);
      Credit(before, threads[|threads| - 1], stats, skipped)
  }

  function Credit(all: AllCoverage, t: ProcThread, stats: map<string, CovStats>, skipped: set<string>): AllCoverage {
    var text := ThreadString(t);
    if text in stats && text !in skipped then Estimated(all, stats[text], t.proc) else all
  }

  lemma CreditedAfter(all: AllCoverage, before: seq<ProcThread>, t: ProcThread, stats: map<string, CovStats>,
                      skipped: set<string>)
    ensures Credited(all, before + [t], stats, skipped) ==
            Credit(Credited(all, before, stats, skipped), t, stats, skipped)
  {
    assert (before + [t])[..|before|] == before;
  }

  lemma CreditedNext(all: AllCoverage, threads: seq<ProcThread>, i: nat, stats: map<string, CovStats>,
                     skipped: set<string>)
    requires i < |threads|
    ensures Credited(all, threads[..i + 1], stats, skipped) ==
            Credit(Credited(all, threads[..i], stats, skipped), threads[i], stats, skipped)
  {
    assert threads[..i + 1] == threads[..i] + [threads[i]];
    CreditedAfter(all, threads[..i], threads[i], stats, skipped);
  }

  lemma {:induction false} CreditedKeepsProcs(all: AllCoverage, threads: seq<ProcThread>,
                                              stats: map<string, CovStats>, skipped: set<string>, n: nat)
    requires ForProcs(all.Keys, n) && OnProcs(threads, n)
    ensures ForProcs(Credited(all, threads, stats, skipped).Keys, n)
  {
    if threads != [] {
      CreditedKeepsProcs(all, threads[..|threads| - 1], stats, skipped, n);
      assert threads[|threads| - 1] in threads;
    }
  }

  lemma UnionKeepsLeq(a: CovStats, b: CovStats, more: CovStats)
    requires Leq(a, b)
    ensures Leq(a, Union(b, more)) && Leq(Union(a, more), Union(b, more))
  {
  }

  lemma CreditKeepsDominance(total: AllCoverage, current: AllCoverage, t: ProcThread, stats: map<string, CovStats>,
                             skipped: set<string>)
    requires Dominates(total, current) && t.proc in total
    ensures Dominates(Credit(total, t, stats, {}), Credit(current, t, stats, skipped))
    ensures Dominates(Credit(total, t, stats, {}), current)
  {
    var text := ThreadString(t);
    if text in stats {
      UnionKeepsLeq(current[t.proc], total[t.proc], stats[text]);
    }
  }

  /** The estimates written into the total table keep it above the current one, even after
      those for some of the same goroutines have been written into the current one. */
  lemma {:induction false} CreditedKeepsDominance(total: AllCoverage, current: AllCoverage, threads: seq<ProcThread>,
                                                  stats: map<string, CovStats>, skipped: set<string>, n: nat)
    requires Dominates(total, current) && ForProcs(total.Keys, n) && OnProcs(threads, n)
    ensures Dominates(Credited(total, threads, stats, {}), Credited(current, threads, stats, skipped))
    ensures Dominates(Credited(total, threads, stats, {}), current)
  {
    if threads != [] {
      var before, t := threads[..|threads| - 1], threads[|threads| - 1];
      assert t in threads;
      CreditedKeepsDominance(total, current, before, stats, skipped, n);
      CreditedKeepsProcs(total, before, stats, {}, n);
      var total' := Credited(total, before, stats, {});
      CreditKeepsDominance(total', Credited(current, before, stats, skipped), t, stats, skipped);
      CreditKeepsDominance(total', current, t, stats, skipped);
    }
  }

  // ------------------------------------------------------------------ choosing

  /** The estimate for goroutine i, on top of those before it, beats the score of the table. */
  ghost predicate Beats(all: AllCoverage, threads: seq<ProcThread>, stats: map<string, CovStats>,
                        skipped: set<string>, obj: Objective, i: nat)
    requires i < |threads|
  {
    && ThreadString(threads[i]) in stats && ThreadString(threads[i]) !in skipped
    && Score(Credited(all, threads[..i + 1], stats, skipped), obj) > Score(all, obj)
  }

  ghost predicate Improves(all: AllCoverage, threads: seq<ProcThread>, stats: map<string, CovStats>,
                           skipped: set<string>, obj: Objective) {
    exists i :: 0 <= i < |threads| && Beats(all, threads, stats, skipped, obj, i)
  }

  /** The strings of the goroutines that would lead to a visited schedule. */
  function Leading(threads: seq<ProcThread>, schedule: string, visited: set<string>): set<string> {
    set t | t in threads && schedule + ThreadString(t) in visited :: ThreadString(t)
  }

  /** Is there a goroutine without statistics? */
  ghost predicate SomeUnseen(threads: seq<ProcThread>, stats: map<string, CovStats>) {
    exists t :: t in threads && ThreadString(t) !in stats
  }

  // ------------------------------------------------------------------ counting

  /** The states recorded are the fingerprints of the tables seen. */
  ghost predicate Recorded(states: set<string>, seen: set<seq<CovStats>>) {
    states == set tables | tables in seen :: StateOf(tables)
  }

  lemma RecordTables(states: set<string>, seen: set<seq<CovStats>>, tables: seq<CovStats>)
    requires Recorded(states, seen)
    ensures Recorded(states + {StateOf(tables)}, seen + {tables})
  {
  }

  /** If no block id contains a comma, there are as many recorded states as different tables. */
  lemma CountIsExact(states: set<string>, seen: set<seq<CovStats>>, n: nat)
    requires Recorded(states, seen)
    requires forall tables :: tables in seen ==> |tables| == n && PlainTables(tables)
    ensures |states| == |seen|
  {
    forall a, b | a in seen && b in seen && StateOf(a) == StateOf(b) ensures a == b {
      FingerprintExact(a, b);
    }
    var f := (tables: seq<CovStats>) => StateOf(tables);
    assert states == set tables | tables in seen :: f(tables);
    ImageSize(seen, f, states);
  }

  lemma {:induction false} ImageSize<A, B>(s: set<A>, f: A -> B, image: set<B>)
    requires image == set x | x in s :: f(x)
    requires forall a, b :: a in s && b in s && f(a) == f(b) ==> a == b
    ensures |image| == |s|
    decreases |s|
  {
    if s != {} {
      var x :| x in s;
      assert image - {f(x)} == set y | y in s - {x} :: f(y);
      ImageSize(s - {x}, f, image - {f(x)});
    }
  }

  predicate Nondecreasing(results: seq<int>) {
    forall j, k :: 0 <= j < k < |results| ==> results[j] <= results[k]
  }

  // -------------------------------------------------------------- safe scheduling

  /** A goroutine may be scheduled: on a process that has been initialised, if it is runnable,
      not asleep, and its process not blocked; on any other process, if it is the first one. */
  predicate MayRun(init: map<int, bool>, blocked: map<int, bool>, asleep: bool, t: ProcThread) {
    if t.proc in init && init[t.proc] then
      t.thread.status == Runnable && !asleep && !(t.proc in blocked && blocked[t.proc])
    else
      t.thread.gid == 1
  }

  ghost predicate ScheduledOn(path: seq<Key>, p: int) {
    exists j :: 0 <= j < |path| && path[j].ThreadKey? && path[j].proc == p
  }

  /** The first goroutine that a run schedules on a process is goroutine 1. */
  ghost predicate MainFirst(path: seq<Key>) {
    forall j :: 0 <= j < |path| && path[j].ThreadKey? && !ScheduledOn(path[..j], path[j].proc) ==> path[j].gid == 1
  }

  ghost predicate AllMainFirst(runs: seq<seq<Key>>) {
    forall r :: 0 <= r < |runs| ==> MainFirst(runs[r])
  }

  /** The initialised processes are those on which the run has scheduled a goroutine. */
  ghost predicate InitMatches(path: seq<Key>, init: map<int, bool>, n: nat) {
    && ForProcs(init.Keys, n)
    && (forall p :: p in init ==> (init[p] <==> ScheduledOn(path, p)))
  }

  lemma ProcsKnown(path: seq<Key>, init: map<int, bool>, n: nat)
    requires InitMatches(path, init, n)
    ensures ForProcs(init.Keys, n)
  {
  }

  lemma FreshRun(total: AllCoverage, current: AllCoverage, init: map<int, bool>, n: nat)
    requires ForProcs(total.Keys, n) && ForProcs(current.Keys, n) && ForProcs(init.Keys, n)
    requires forall p :: p in current ==> current[p] == map[] && !init[p]
    ensures Dominates(total, current) && InitMatches([], init, n) && MainFirst([])
  {
  }

  lemma ScheduledAfter(path: seq<Key>, key: Key, p: int)
    ensures ScheduledOn(path + [key], p) <==> ScheduledOn(path, p) || (key.ThreadKey? && key.proc == p)
  {
    var longer := path + [key];
    if ScheduledOn(path, p) {
      var j :| 0 <= j < |path| && path[j].ThreadKey? && path[j].proc == p;
      assert longer[j] == path[j];
    }
    assert longer[|path|] == key;
  }

  lemma IssueKeepsMainFirst(path: seq<Key>, key: Key, init: map<int, bool>, n: nat)
    requires MainFirst(path) && InitMatches(path, init, n) && 1 <= key.proc <= n
    requires key.ThreadKey? && !init[key.proc] ==> key.gid == 1
    ensures MainFirst(path + [key])
    ensures InitMatches(path + [key], if key.ThreadKey? then init[key.proc := true] else init, n)
  {
    var longer := path + [key];
    forall j | 0 <= j < |longer| && longer[j].ThreadKey? && !ScheduledOn(longer[..j], longer[j].proc)
      ensures longer[j].gid == 1
    {
      assert longer[..j] == path[..j];
      if j == |path| {
        assert path[..j] == path;
      }
    }
    forall p | p in init ensures ScheduledOn(longer, p) <==> ScheduledOn(path, p) || (key.ThreadKey? && key.proc == p) {
      ScheduledAfter(path, key, p);
    }
  }
}
