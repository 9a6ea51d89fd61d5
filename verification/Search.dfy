/**
 The search for schedules: which schedules count as visited, and how deep a run may go.
 */
module Search {
  import opened Actions

  /** What the explorer remembers: the strings of visited schedules, the string of the
      current one, and how many of its steps were new. */
  datatype Memory = Memory(visited: set<string>, schedule: string, depth: nat)

  const Fresh := Memory({}, "", 0)

  function Extended(m: Memory, key: Key): Memory {
    var schedule := m.schedule + KeyString(key);
    if schedule in m.visited then m.(schedule := schedule)
    else Memory(m.visited + {schedule}, schedule, m.depth + 1)
  }

  function Restarted(m: Memory): Memory {
    Memory(m.visited + {m.schedule}, "", 0)
  }

  /** What happened: the finished runs, and the actions of the current one. */
  datatype Trace = Trace(runs: seq<seq<Key>>, path: seq<Key>)

  datatype Step = Issue(key: Key) | Restart

  function Next(m: Memory, step: Step): Memory {
    match step
    case Issue(key) => Extended(m, key)
    case Restart => Restarted(m)
  }

  function NextTrace(t: Trace, step: Step): Trace {
    match step
    case Issue(key) => t.(path := t.path + [key])
    case Restart => Trace(t.runs + [t.path], [])
  }

  /** An action is issued only below the depth bound; a restart is possible at any time. */
  predicate Allowed(m: Memory, step: Step, maxDepth: nat) {
    step.Issue? ==> m.depth < maxDepth
  }

  ghost predicate Explores(ms: seq<Memory>, ts: seq<Trace>, steps: seq<Step>, maxDepth: nat) {
    && |ms| == |ts| == |steps| + 1
    && ms[0] == Fresh && ts[0] == Trace([], [])
    && (forall i :: 0 <= i < |steps| ==>
          && Allowed(ms[i], steps[i], maxDepth)
          && ms[i + 1] == Next(ms[i], steps[i]) && ts[i + 1] == NextTrace(ts[i], steps[i]))
  }

  // ---------------------------------------------------------------- invariant

  /** An earlier run began with p. */
  ghost predicate TriedBefore(runs: seq<seq<Key>>, p: seq<Key>) {
    exists r :: 0 <= r < |runs| && p <= runs[r]
  }

  ghost predicate Tried(t: Trace, p: seq<Key>) {
    p <= t.path || TriedBefore(t.runs, p)
  }

  ghost predicate IsTried(t: Trace, text: string) {
    exists p :: Tried(t, p) && ScheduleString(p) == text
  }

  /** The visited strings are those of the schedules that have been tried, with all their
      beginnings; the empty schedule may be missing. */
  ghost predicate VisitedIsTrie(m: Memory, t: Trace) {
    && m.schedule == ScheduleString(t.path)
    && (forall text :: text in m.visited ==> IsTried(t, text))
    && (forall p :: p != [] && Tried(t, p) ==> ScheduleString(p) in m.visited)
  }

  /** The depth is the number of actions since the current run left all earlier ones. */
  ghost predicate DepthIsNew(m: Memory, t: Trace) {
    m.depth <= |t.path| && Shared(t.runs, t.path, |t.path| - m.depth)
  }

  /** The path has so many first actions, and no more, in common with an earlier run. */
  ghost predicate Shared(runs: seq<seq<Key>>, path: seq<Key>, shared: nat)
    requires shared <= |path|
  {
    && (shared > 0 ==> TriedBefore(runs, path[..shared]))
    && (forall j :: shared < j <= |path| ==> !TriedBefore(runs, path[..j]))
  }

  ghost predicate RunsBounded(t: Trace, maxDepth: nat) {
    forall r :: 0 <= r < |t.runs| ==> |t.runs[r]| <= (r + 1) * maxDepth
  }

  ghost predicate Inv(m: Memory, t: Trace, maxDepth: nat) {
    VisitedIsTrie(m, t) && DepthIsNew(m, t) && RunsBounded(t, maxDepth) && m.depth <= maxDepth
  }

  /** A schedule one action longer is visited exactly when an earlier run began with it. */
  lemma VisitedMeansTriedBefore(m: Memory, t: Trace, key: Key)
    requires VisitedIsTrie(m, t)
    ensures m.schedule + KeyString(key) == ScheduleString(t.path + [key])
    ensures m.schedule + KeyString(key) in m.visited <==> TriedBefore(t.runs, t.path + [key])
  {
    var longer := t.path + [key];
    ScheduleAfter(t.path, key);
    if ScheduleString(longer) in m.visited {
      assert IsTried(t, ScheduleString(longer));
      var p :| Tried(t, p) && ScheduleString(p) == ScheduleString(longer);
      SchedulesDecodable(p, longer);
    }
    if TriedBefore(t.runs, longer) {
      assert Tried(t, longer);
    }
  }

  lemma IssueKeepsTrie(m: Memory, t: Trace, key: Key)
    requires VisitedIsTrie(m, t)
    ensures VisitedIsTrie(Extended(m, key), NextTrace(t, Issue(key)))
  {
    VisitedMeansTriedBefore(m, t, key);
    var m', t' := Extended(m, key), NextTrace(t, Issue(key));
    forall text | text in m'.visited ensures IsTried(t', text) {
      if text in m.visited {
        var p :| Tried(t, p) && ScheduleString(p) == text;
        assert Tried(t', p);
      } else {
        assert Tried(t', t'.path);
      }
    }
    forall p | p != [] && Tried(t', p) ensures ScheduleString(p) in m'.visited {
      if p == t'.path {
        assert ScheduleString(p) in m'.visited;
      } else {
        assert Tried(t, p);
      }
    }
  }

  lemma SharedAfter(runs: seq<seq<Key>>, path: seq<Key>, key: Key, shared: nat)
    requires shared <= |path| && Shared(runs, path, shared)
    ensures TriedBefore(runs, path + [key]) ==> shared == |path| && Shared(runs, path + [key], |path| + 1)
    ensures !TriedBefore(runs, path + [key]) ==> Shared(runs, path + [key], shared)
  {
    var longer := path + [key];
    assert forall j :: 0 <= j <= |path| ==> longer[..j] == path[..j];
    assert longer[..|longer|] == longer && path[..|path|] == path;
    if TriedBefore(runs, longer) {
      var r :| 0 <= r < |runs| && longer <= runs[r];
      assert path <= runs[r];
      assert TriedBefore(runs, path);
    }
  }

  lemma IssueKeepsDepth(m: Memory, t: Trace, key: Key)
    requires VisitedIsTrie(m, t) && DepthIsNew(m, t)
    ensures DepthIsNew(Extended(m, key), NextTrace(t, Issue(key)))
  {
    VisitedMeansTriedBefore(m, t, key);
    hide VisitedIsTrie, ScheduleString, KeyString, Shared, TriedBefore;
    SharedAfter(t.runs, t.path, key, |t.path| - m.depth);
  }

  lemma RestartKeepsTried(t: Trace, p: seq<Key>)
    ensures Tried(t, p) ==> TriedBefore(t.runs + [t.path], p)
    ensures p != [] && Tried(NextTrace(t, Restart), p) ==> Tried(t, p)
  {
    var runs := t.runs + [t.path];
    if p <= t.path {
      assert p <= runs[|t.runs|];
    } else if TriedBefore(t.runs, p) {
      var r :| 0 <= r < |t.runs| && p <= t.runs[r];
      assert p <= runs[r];
    }
  }

  lemma RestartKeepsTrie(m: Memory, t: Trace)
    requires VisitedIsTrie(m, t)
    ensures VisitedIsTrie(Restarted(m), NextTrace(t, Restart))
  {
    var m', t' := Restarted(m), NextTrace(t, Restart);
    forall text | text in m'.visited ensures IsTried(t', text) {
      if text in m.visited {
        var p :| Tried(t, p) && ScheduleString(p) == text;
        RestartKeepsTried(t, p);
        assert Tried(t', p);
      } else {
        RestartKeepsTried(t, t.path);
        assert Tried(t', t.path);
      }
    }
    forall p | p != [] && Tried(t', p) ensures ScheduleString(p) in m'.visited {
      RestartKeepsTried(t, p);
    }
  }

  lemma RestartKeeps(m: Memory, t: Trace, maxDepth: nat)
    requires Inv(m, t, maxDepth)
    ensures Inv(Restarted(m), NextTrace(t, Restart), maxDepth)
  {
    RestartKeepsTrie(m, t);
    RestartKeepsBound(m, t, maxDepth);
    hide VisitedIsTrie, RunsBounded;
  }

  lemma RestartKeepsBound(m: Memory, t: Trace, maxDepth: nat)
    requires DepthIsNew(m, t) && RunsBounded(t, maxDepth) && m.depth <= maxDepth
    ensures RunsBounded(NextTrace(t, Restart), maxDepth)
  {
    PathBounded(m, t, maxDepth);
  }

  /** The part that a run shares with an earlier one is no longer than that one. */
  lemma PathBounded(m: Memory, t: Trace, maxDepth: nat)
    requires DepthIsNew(m, t) && RunsBounded(t, maxDepth)
    ensures |t.path| - m.depth <= |t.runs| * maxDepth
    ensures m.depth <= maxDepth ==> |t.path| <= (|t.runs| + 1) * maxDepth
  {
    var shared := |t.path| - m.depth;
    if shared > 0 {
      var r :| 0 <= r < |t.runs| && t.path[..shared] <= t.runs[r];
      Grows(r + 1, |t.runs|, maxDepth);
    }
    OneMore(|t.runs|, maxDepth);
  }

  lemma Grows(a: nat, b: nat, d: nat)
    requires a <= b
    ensures a * d <= b * d
  {
  }

  lemma SomeBound(k: nat, d: nat)
    requires k * d > 0
    ensures d > 0
  {
  }

  lemma OneMore(k: nat, d: nat)
    ensures (k + 1) * d == k * d + d
  {
  }

  lemma StepKeepsInv(m: Memory, t: Trace, step: Step, maxDepth: nat)
    requires Inv(m, t, maxDepth) && Allowed(m, step, maxDepth)
    ensures Inv(Next(m, step), NextTrace(t, step), maxDepth)
  {
    match step
    case Issue(key) =>
      IssueKeepsTrie(m, t, key);
      IssueKeepsDepth(m, t, key);
    case Restart =>
      RestartKeeps(m, t, maxDepth);
  }

  lemma FreshInv(maxDepth: nat)
    ensures Inv(Fresh, Trace([], []), maxDepth)
  {
    assert ScheduleString([]) == "";
  }

  lemma {:induction false} InvHolds(ms: seq<Memory>, ts: seq<Trace>, steps: seq<Step>, maxDepth: nat, i: nat)
    requires Explores(ms, ts, steps, maxDepth) && i <= |steps|
    ensures Inv(ms[i], ts[i], maxDepth)
  {
    if i == 0 {
      FreshInv(maxDepth);
    } else {
      InvHolds(ms, ts, steps, maxDepth, i - 1);
      StepKeepsInv(ms[i - 1], ts[i - 1], steps[i - 1], maxDepth);
    }
  }

  // ---------------------------------------------------------------- theorems

  /** The k-th run issues at most k times the depth bound actions; having issued that many,
      it is at the bound and can only restart. */
  lemma RunLengthBound(ms: seq<Memory>, ts: seq<Trace>, steps: seq<Step>, maxDepth: nat, i: nat)
    requires Explores(ms, ts, steps, maxDepth) && i <= |steps|
    ensures forall r :: 0 <= r < |ts[i].runs| ==> |ts[i].runs[r]| <= (r + 1) * maxDepth
    ensures |ts[i].path| <= (|ts[i].runs| + 1) * maxDepth
    ensures i < |steps| && |ts[i].path| == (|ts[i].runs| + 1) * maxDepth ==> steps[i] == Restart
  {
    InvHolds(ms, ts, steps, maxDepth, i);
    PathBounded(ms[i], ts[i], maxDepth);
    OneMore(|ts[i].runs|, maxDepth);
  }

  /** The visited schedules are exactly those that a run has begun with. */
  lemma VisitedExactly(ms: seq<Memory>, ts: seq<Trace>, steps: seq<Step>, maxDepth: nat, i: nat, p: seq<Key>)
    requires Explores(ms, ts, steps, maxDepth) && i <= |steps| && p != []
    ensures ScheduleString(p) in ms[i].visited <==>
            p <= ts[i].path || exists r :: 0 <= r < |ts[i].runs| && p <= ts[i].runs[r]
  {
    InvHolds(ms, ts, steps, maxDepth, i);
    if ScheduleString(p) in ms[i].visited {
      assert IsTried(ts[i], ScheduleString(p));
      var q :| Tried(ts[i], q) && ScheduleString(q) == ScheduleString(p);
      SchedulesDecodable(p, q);
    }
    if Tried(ts[i], p) {
      assert ScheduleString(p) in ms[i].visited;
    }
  }

  /** Depth zero means that the run so far only follows an earlier one, and a greater depth
      that no run has begun like this before: so a run that ends at a positive depth bound
      is a new schedule. */
  lemma DepthMeansNew(ms: seq<Memory>, ts: seq<Trace>, steps: seq<Step>, maxDepth: nat, i: nat)
    requires Explores(ms, ts, steps, maxDepth) && i <= |steps| && ts[i].path != []
    ensures ms[i].depth > 0 <==> forall r :: 0 <= r < |ts[i].runs| ==> !(ts[i].path <= ts[i].runs[r])
  {
    InvHolds(ms, ts, steps, maxDepth, i);
    var m, t := ms[i], ts[i];
    assert t.path[..|t.path|] == t.path;
    if m.depth > 0 {
      assert !TriedBefore(t.runs, t.path[..|t.path|]);
    } else {
      assert TriedBefore(t.runs, t.path[..|t.path|]);
    }
  }

  // ------------------------------------------------------------ the bound is reached

  lemma OneStepMore(ms: seq<Memory>, ts: seq<Trace>, steps: seq<Step>, step: Step, maxDepth: nat)
    requires Explores(ms, ts, steps, maxDepth) && Allowed(ms[|steps|], step, maxDepth)
    ensures Explores(ms + [Next(ms[|steps|], step)], ts + [NextTrace(ts[|steps|], step)], steps + [step], maxDepth)
  {
    var n := |steps|;
    var ms', ts', steps' := ms + [Next(ms[n], step)], ts + [NextTrace(ts[n], step)], steps + [step];
    hide Next, NextTrace, Allowed;
    forall i | 0 <= i < |steps'|
      ensures Allowed(ms'[i], steps'[i], maxDepth)
      ensures ms'[i + 1] == Next(ms'[i], steps'[i]) && ts'[i + 1] == NextTrace(ts'[i], steps'[i])
    {
      if i < n {
        assert ms'[i] == ms[i] && ms'[i + 1] == ms[i + 1];
        assert ts'[i] == ts[i] && ts'[i + 1] == ts[i + 1] && steps'[i] == steps[i];
      }
    }
  }

  function Repeated(key: Key, n: nat): seq<Key> {
    seq(n, _ => key)
  }

  /** k runs that issue the same action over and over, each until the bound stops it. */
  function DeepRuns(key: Key, maxDepth: nat, k: nat): seq<seq<Key>> {
    if k == 0 then [] else DeepRuns(key, maxDepth, k - 1) + [Repeated(key, k * maxDepth)]
  }

  lemma {:induction false} DeepRunsAre(key: Key, maxDepth: nat, k: nat)
    ensures |DeepRuns(key, maxDepth, k)| == k
    ensures k > 0 ==> DeepRuns(key, maxDepth, k)[k - 1] == Repeated(key, k * maxDepth)
  {
    if k > 0 {
      DeepRunsAre(key, maxDepth, k - 1);
    }
  }

  /** What the path shares with a run counts as shared. */
  lemma SharedAtLeast(runs: seq<seq<Key>>, path: seq<Key>, shared: nat, key: Key, followed: nat)
    requires shared <= |path| && Shared(runs, path, shared)
    requires runs != [] && runs[|runs| - 1] == Repeated(key, followed) && path == Repeated(key, |path|)
    ensures |path| - shared <= if |path| <= followed then 0 else |path| - followed
  {
    var f := if |path| <= followed then |path| else followed;
    assert path[..f] <= runs[|runs| - 1];
    assert TriedBefore(runs, path[..f]);
  }

  /** Up to maxDepth actions more than the last run issued, the bound does not stop the path. */
  lemma BelowTheBound(m: Memory, t: Trace, maxDepth: nat, key: Key, base: nat)
    requires DepthIsNew(m, t) && t.path == Repeated(key, |t.path|) && |t.path| < base + maxDepth && maxDepth > 0
    requires if t.runs == [] then base == 0 else t.runs[|t.runs| - 1] == Repeated(key, base)
    ensures m.depth < maxDepth
  {
    hide Shared;
    if t.runs != [] {
      SharedAtLeast(t.runs, t.path, |t.path| - m.depth, key, base);
    }
  }

  lemma {:induction false} DeepExploration(maxDepth: nat, key: Key, k: nat, j: nat)
    returns (ms: seq<Memory>, ts: seq<Trace>, steps: seq<Step>)
    requires j <= (k + 1) * maxDepth
    ensures Explores(ms, ts, steps, maxDepth)
    ensures |ms| == |ts| == |steps| + 1 && ts[|steps|] == Trace(DeepRuns(key, maxDepth, k), Repeated(key, j))
    decreases k, j
  {
    hide Next, VisitedIsTrie, DepthIsNew, RunsBounded;
    if j > 0 {
      ms, ts, steps := DeepExploration(maxDepth, key, k, j - 1);
      InvHolds(ms, ts, steps, maxDepth, |steps|);
      DeepRunsAre(key, maxDepth, k);
      OneMore(k, maxDepth);
      SomeBound(k + 1, maxDepth);
      BelowTheBound(ms[|steps|], ts[|steps|], maxDepth, key, k * maxDepth);
      OneStepMore(ms, ts, steps, Issue(key), maxDepth);
      assert Repeated(key, j) == Repeated(key, j - 1) + [key];
      var m, t := Next(ms[|steps|], Issue(key)), NextTrace(ts[|steps|], Issue(key));
      ms, ts, steps := ms + [m], ts + [t], steps + [Issue(key)];
    } else if k > 0 {
      ms, ts, steps := DeepExploration(maxDepth, key, k - 1, k * maxDepth);
      OneStepMore(ms, ts, steps, Restart, maxDepth);
      assert Repeated(key, 0) == [];
      ms, ts, steps := ms + [Next(ms[|steps|], Restart)], ts + [NextTrace(ts[|steps|], Restart)], steps + [Restart];
    } else {
      ms, ts, steps := [Fresh], [Trace([], [])], [];
      assert Repeated(key, 0) == [];
    }
  }

  /** The bound cannot be improved: for every k there is an exploration whose k-th run issues
      exactly k times the depth bound actions. */
  lemma BoundIsReached(maxDepth: nat, k: nat)
    requires k > 0
    ensures exists ms: seq<Memory>, ts: seq<Trace>, steps: seq<Step> :: Explores(ms, ts, steps, maxDepth)
              && |ts[|steps|].runs| == k - 1 && |ts[|steps|].path| == k * maxDepth
  {
    var key := TimerKey(1, 1);
    var ms, ts, steps := DeepExploration(maxDepth, key, k - 1, k * maxDepth);
    DeepRunsAre(key, maxDepth, k - 1);
  }
}
