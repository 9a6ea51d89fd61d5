/**
 What a basic block is: its statements are executed one right after the other, unless one of
 them returns or panics.  So the count of a block is the count of each of its statements, up to
 that.
 */
module BasicBlocks {
  import opened Basics
  import opened GoSemantics
  import opened GoSyntax
  import opened SourcePositions

  /** The expression of a plain or return statement, under its labels. */
  function OnlyExpr(s: Stmt): Option<Expr> {
    match s
    case Plain(_, _, x) => Some(x)
    case Return(_, _, x) => Some(x)
    case Labeled(_, _, stmt) => OnlyExpr(stmt)
    case _ => None
  }

  /** A basic block goes on after a plain or return statement without function literals, and after
      no other. */
  lemma {:induction false} GoesOnExactly(s: Stmt)
    requires WellPlaced(s)
    ensures !EndsBasicBlock(s) <==> OnlyExpr(s).Some? && OnlyExpr(s).value.lits == []
  {
    if s.Labeled? {
      GoesOnExactly(s.stmt);
    }
  }

  lemma NoCalls(env: Env, fuel: nat, x: Expr, t: Trace)
    requires x.lits == []
    ensures var r := EvalExpr(env, fuel, x, t); r.trace == t + [Eval(x.id)] && r.out in {Normal, Panicked}
  {
    assert CallLits(env, fuel, x.id, x.lits, t + [Eval(x.id)]) == Result(t + [Eval(x.id)], Normal);
  }

  /** Such a statement does nothing but evaluate its expression, and then goes on, returns or
      panics. */
  lemma {:induction false} StraightLine(env: Env, fuel: nat, s: Stmt, own: Option<Label>, t: Trace)
    requires OnlyExpr(s).Some? && OnlyExpr(s).value.lits == []
    ensures var r := Exec(env, fuel, s, own, t);
            r.trace == t + [Eval(OnlyExpr(s).value.id)] && r.out in {Normal, Returned, Panicked}
  {
    if s.Labeled? {
      StraightLine(env, fuel, s.stmt, Some(s.name), t);
    } else {
      NoCalls(env, fuel, s.x, t);
    }
  }

  /** The events of the first m statements of a basic block. */
  function LineOf(list: seq<Stmt>, lead: Lead, m: nat): Trace
    requires m <= |list| && forall i :: 0 <= i < m ==> OnlyExpr(list[i]).Some?
    decreases m
  {
    if m == 0 then []
    else
      [Enter(StartOf(list[0]), Heads(list[0], lead)), Eval(OnlyExpr(list[0]).value.id)]
      + LineOf(list[1..], LeadAfter(lead, list[0]), m - 1)
  }

  /** How the statement after the first m of a list stands to the one before. */
  function LeadAt(list: seq<Stmt>, lead: Lead, m: nat): Lead
    requires m <= |list|
    decreases m
  {
    if m == 0 then lead else LeadAt(list[1..], LeadAfter(lead, list[0]), m - 1)
  }

  /** A run of a list goes through the statements that do not end its first basic block in order, with
      nothing in between, and on to the rest, unless one of them returns or panics. */
  lemma {:induction false} BlockRunsThrough(env: Env, fuel: nat, list: seq<Stmt>, lead: Lead, m: nat, t: Trace)
    requires m <= |list|
    requires forall i :: 0 <= i < m ==> WellPlaced(list[i]) && !EndsBasicBlock(list[i]) && OnlyExpr(list[i]).Some?
    ensures var r := ExecList(env, fuel, list, lead, t);
            || r == ExecList(env, fuel, list[m..], LeadAt(list, lead, m), t + LineOf(list, lead, m))
            || exists j :: 0 < j <= m && r.trace == t + LineOf(list, lead, j) && r.out in {Returned, Panicked}
    decreases m
  {
    if m == 0 {
      assert list[0..] == list && t + [] == t;
    } else {
      var s := list[0];
      GoesOnExactly(s);
      var enter := Enter(StartOf(s), Heads(s, lead));
      var x := OnlyExpr(s).value;
      StraightLine(env, fuel, s, None, t + [enter]);
      assert t + [enter] + [Eval(x.id)] == t + [enter, Eval(x.id)];
      var r := Exec(env, fuel, s, None, t + [enter]);
      Shifted(list, lead, 1, t);
      if r.out == Normal {
        var tail, next := list[1..], LeadAfter(lead, s);
        BlockRunsThrough(env, fuel, tail, next, m - 1, r.trace);
        var q := ExecList(env, fuel, tail, next, r.trace);
        assert tail[m - 1..] == list[m..];
        Shifted(list, lead, m, t);
        if j :| 0 < j <= m - 1 && q.trace == r.trace + LineOf(tail, next, j) && q.out in {Returned, Panicked} {
          Shifted(list, lead, j + 1, t);
        }
      }
    }
  }

  lemma Shifted(list: seq<Stmt>, lead: Lead, m: nat, t: Trace)
    requires 0 < m <= |list| && forall i :: 0 <= i < m ==> OnlyExpr(list[i]).Some?
    ensures var line := [Enter(StartOf(list[0]), Heads(list[0], lead)), Eval(OnlyExpr(list[0]).value.id)];
            t + line + LineOf(list[1..], LeadAfter(lead, list[0]), m - 1) == t + LineOf(list, lead, m)
  {
  }
}
