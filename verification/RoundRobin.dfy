/**
 Which process runs next while recording: the first one alive after the last one chosen.
 */
module RoundRobin {

  datatype ProcStatus = ALIVE | DEAD

  predicate IsAlive(status: map<int, ProcStatus>, p: int) {
    p in status && status[p] == ALIVE
  }

  /** How far process p is ahead of the last one, going round. */
  function Distance(last: nat, p: nat, n: nat): int {
    if last < p then p - last else n - last + p
  }

  /** p is the first process alive after last. */
  ghost predicate IsNextAlive(status: map<int, ProcStatus>, n: nat, last: nat, p: nat) {
    && 1 <= p <= n && IsAlive(status, p)
    && forall q :: 1 <= q <= n && IsAlive(status, q) ==> Distance(last, p, n) <= Distance(last, q, n)
  }

  class Scheduler {
    const procs: nat
    var lastProc: nat
    var procStatus: map<int, ProcStatus>

    ghost predicate Valid()
      reads this
    {
      lastProc <= procs
    }

    constructor (procs: nat, status: map<int, ProcStatus>)
      ensures Valid() && this.procs == procs && procStatus == status && lastProc == 0
    {
      this.procs, lastProc, procStatus := procs, 0, status;
    }

    /** With no process alive the loop would not end; callers check that first. */
    method RoundRobin() returns (p: nat)
      requires Valid()
      requires exists q :: 1 <= q <= procs && IsAlive(procStatus, q)
      modifies `lastProc
      ensures Valid() && p == lastProc && IsNextAlive(procStatus, procs, old(lastProc), p)
    {
      ghost var start, steps := lastProc, 0;
      ghost var target :| 1 <= target <= procs && IsAlive(procStatus, target);
      var flag := false;
      while !flag
        invariant lastProc <= procs && 0 <= steps <= Distance(start, target, procs)
        invariant if steps == 0 then lastProc == start else 1 <= lastProc && Distance(start, lastProc, procs) == steps
        invariant flag ==> steps > 0 && IsAlive(procStatus, lastProc)
        invariant forall q :: 1 <= q <= procs && IsAlive(procStatus, q) ==>
                    if flag then steps <= Distance(start, q, procs) else steps < Distance(start, q, procs)
        decreases !flag, procs - steps
      {
        NextPlace(lastProc, procs);
        lastProc := (lastProc + 1) % (procs + 1);
        if lastProc == 0 {
          lastProc := lastProc + 1;
        }
        steps := steps + 1;
        if lastProc in procStatus && procStatus[lastProc] == ALIVE {
          flag := true;
        }
      }
      p := lastProc;
    }
  }

  lemma NextPlace(last: nat, n: nat)
    requires last <= n
    ensures (last + 1) % (n + 1) == if last == n then 0 else last + 1
  {
  }

  // ------------------------------------------------------------------ fairness

  /** A run of choices: the statuses may change from one to the next. */
  ghost predicate Choices(statuses: seq<map<int, ProcStatus>>, n: nat, chosen: seq<nat>) {
    && |chosen| == |statuses| + 1 && chosen[0] <= n
    && forall i :: 0 <= i < |statuses| ==> IsNextAlive(statuses[i], n, chosen[i], chosen[i + 1])
  }

  /** As long as p is alive and not chosen, every choice comes closer to it. */
  lemma {:induction false} ComesCloser(statuses: seq<map<int, ProcStatus>>, n: nat, chosen: seq<nat>, p: nat, i: nat)
    requires Choices(statuses, n, chosen) && 1 <= p <= n && i <= |statuses|
    requires forall j :: 0 <= j < i ==> IsAlive(statuses[j], p)
    requires forall j :: 1 <= j <= i ==> chosen[j] != p
    ensures Distance(chosen[i], p, n) + i <= Distance(chosen[0], p, n) && chosen[i] <= n
  {
    if i > 0 {
      ComesCloser(statuses, n, chosen, p, i - 1);
      assert IsNextAlive(statuses[i - 1], n, chosen[i - 1], chosen[i]);
    }
  }

  /** A process that stays alive is chosen within as many calls as there are processes. */
  lemma Fair(statuses: seq<map<int, ProcStatus>>, n: nat, chosen: seq<nat>, p: nat)
    requires Choices(statuses, n, chosen) && |statuses| == n && 1 <= p <= n
    requires forall j :: 0 <= j < n ==> IsAlive(statuses[j], p)
    ensures exists j :: 1 <= j <= n && chosen[j] == p
  {
    if forall j :: 1 <= j <= n ==> chosen[j] != p {
      ComesCloser(statuses, n, chosen, p, n);
    }
  }

  /** Going round means: the next process with a larger id, or, when none of those is alive, the
      first one from 1 on, up to the last one chosen itself. */
  lemma NextAliveIsCyclic(status: map<int, ProcStatus>, n: nat, last: nat, p: nat)
    requires last <= n
    ensures IsNextAlive(status, n, last, p) <==>
            && 1 <= p <= n && IsAlive(status, p)
            && (forall q :: last < q <= n && IsAlive(status, q) ==> last < p <= q)
            && (p <= last ==> forall q :: 1 <= q < p ==> !IsAlive(status, q))
  {
    if p > last {
      forall q | last < q < p && IsAlive(status, q) ensures Distance(last, q, n) < Distance(last, p, n) {}
    }
  }
}
