/**
 What terminating statements are for: control never runs off the end of a list that ends in
 one.  So a function body that has to end in a terminating statement returns, panics or never
 ends, before and after counters are added.
 */
module TerminatingRuns {
  import opened Basics
  import opened GoSemantics
  import opened GoSyntax
  import opened Instrumenter
  import opened TerminatingStatements

  /** A break of target concerns an enclosing statement labelled own: one without label does unless
      an inner statement takes it. */
  predicate Concerns(target: Option<Label>, own: Option<Label>, inner: bool) {
    if target == None then !inner else target == own
  }

  /** When control leaves with a break, there is a break statement for it. */
  ghost predicate BreakIn(s: Stmt, out: Outcome) {
    out.Broke? ==> forall own, inner :: Concerns(out.target, own, inner) ==> Breaks(s, own, inner)
  }

  ghost predicate BreakInList(list: seq<Stmt>, out: Outcome) {
    out.Broke? ==> forall own, inner :: Concerns(out.target, own, inner) ==> ListBreaks(list, own, inner)
  }

  ghost predicate BreakInElse(els: Else, out: Outcome) {
    out.Broke? ==> forall own, inner :: Concerns(out.target, own, inner) ==> ElseBreaks(els, own, inner)
  }

  ghost predicate BreakInClauses(clauses: seq<Clause>, out: Outcome) {
    out.Broke? ==> forall own, inner :: Concerns(out.target, own, inner) ==> ClausesBreak(clauses, own, inner)
  }

  /** How the evaluation of an expression can end. */
  predicate ExprOut(out: Outcome) {
    out in {Normal, Panicked, Blocked, OutOfFuel}
  }

  lemma {:induction false} LitsEnd(env: Env, fuel: nat, id: nat, lits: seq<FuncLit>, t: Trace)
    ensures ExprOut(CallLits(env, fuel, id, lits, t).out)
    decreases fuel
  {
    var choice := env(id, Erase(t));
    if lits != [] && choice != 0 && fuel != 0 {
      var k := choice % |lits|;
      var r := ExecList(env, fuel - 1, lits[k].body, First, t + [Call(id, k)]);
      LitsEnd(env, fuel - 1, id, lits, r.trace);
    }
  }

  lemma ExprEnds(env: Env, fuel: nat, x: Expr, t: Trace)
    ensures ExprOut(EvalExpr(env, fuel, x, t).out)
  {
    LitsEnd(env, fuel, x.id, x.lits, t + [Eval(x.id)]);
  }

  lemma OptEnds(env: Env, fuel: nat, x: Option<Expr>, t: Trace)
    ensures ExprOut(EvalOpt(env, fuel, x, t).out)
  {
    if x.Some? {
      ExprEnds(env, fuel, x.value, t);
    }
  }

  lemma {:induction false} StmtRuns(env: Env, fuel: nat, s: Stmt, own: Option<Label>, t: Trace)
    ensures var out := Exec(env, fuel, s, own, t).out;
            && BreakIn(s, out) && (Terminating(s, own) || IsFallthrough(s) ==> out != Normal)
    decreases fuel, s, 3
  {
    hide ListTerminating, ListBreaks, ClausesBreak;
    match s
    case Plain(_, _, x) => ExprEnds(env, fuel, x, t);
    case Panic(_, _, x) => ExprEnds(env, fuel, x, t);
    case Return(_, _, x) => ExprEnds(env, fuel, x, t);
    case Branch(_, _, _, _) =>
    case Block(_, _, list) => ListRuns(env, fuel, list, First, t);
    case If(_, init, cond, _, _, list, els) =>
      OptEnds(env, fuel, init, t);
      var r := EvalOpt(env, fuel, init, t);
      ExprEnds(env, fuel, cond, r.trace);
      var c := EvalExpr(env, fuel, cond, r.trace);
      ListRuns(env, fuel, list, First, c.trace);
      ElseRuns(env, fuel, els, c.trace);
    case For(_, init, _, _, _, _, _) =>
      OptEnds(env, fuel, init, t);
      LoopRuns(env, fuel, s, own, EvalOpt(env, fuel, init, t).trace);
    case Switch(_, _, _, _, _, _, _) => SwitchRuns(env, fuel, s, own, t);
    case Labeled(_, name, stmt) => StmtRuns(env, fuel, stmt, Some(name), t);
    case Counter(_) =>
  }

  lemma {:induction false} ListRuns(env: Env, fuel: nat, list: seq<Stmt>, lead: Lead, t: Trace)
    ensures var out := ExecList(env, fuel, list, lead, t).out;
            && BreakInList(list, out)
            && (ListTerminating(list) || EndsInFallthrough(list) ==> out != Normal)
    decreases fuel, list, 0
  {
    hide Terminating, Breaks, IsFallthrough;
    if list != [] {
      var s := list[0];
      OneRuns(env, fuel, s, lead, t);
      var r := ExecOne(env, fuel, s, lead, t);
      if r.out == Normal {
        ListRuns(env, fuel, list[1..], LeadAfter(lead, s), r.trace);
        var out := ExecList(env, fuel, list[1..], LeadAfter(lead, s), r.trace).out;
        TailBreaks(list, out);
      } else {
        HeadBreaks(list, r.out);
      }
    }
  }

  lemma TailBreaks(list: seq<Stmt>, out: Outcome)
    requires list != [] && BreakInList(list[1..], out)
    ensures BreakInList(list, out)
  {
    hide Breaks;
    if out.Broke? {
      forall own, inner | Concerns(out.target, own, inner) ensures ListBreaks(list, own, inner) {
        assert ListBreaks(list[1..], own, inner);
        var i :| 0 <= i < |list| - 1 && Breaks(list[1..][i], own, inner);
        assert list[i + 1] == list[1..][i];
      }
    }
  }

  lemma HeadBreaks(list: seq<Stmt>, out: Outcome)
    requires list != [] && BreakIn(list[0], out)
    ensures BreakInList(list, out)
  {
    hide Breaks;
  }

  lemma {:induction false} OneRuns(env: Env, fuel: nat, s: Stmt, lead: Lead, t: Trace)
    ensures var out := ExecOne(env, fuel, s, lead, t).out;
            && BreakIn(s, out) && (Terminating(s, None) || IsFallthrough(s) ==> out != Normal)
    decreases fuel, s, 4
  {
    hide BreakIn, ListTerminating, ListBreaks, ClausesBreak, ElseTerminating;
    if !s.Counter? {
      StmtRuns(env, fuel, s, None, t + [Enter(StartOf(s), Heads(s, lead))]);
    } else {
      NoBreak(s);
    }
  }

  lemma NoBreak(s: Stmt)
    ensures BreakIn(s, Normal)
  {
  }

  lemma {:induction false} ElseRuns(env: Env, fuel: nat, els: Else, t: Trace)
    ensures var out := ExecElse(env, fuel, els, t).out;
            BreakInElse(els, out) && (ElseTerminating(els) ==> out != Normal)
    decreases fuel, els, 0
  {
    hide Terminating, Breaks, ListTerminating, ListBreaks;
    match els
    case NoElse =>
    case ElseIf(s) => OneRuns(env, fuel, s, First, t);
    case ElseBlock(_, _, list) => ListRuns(env, fuel, list, First, t);
  }

  /** A loop takes the breaks that concern it. */
  lemma {:induction false} LoopRuns(env: Env, fuel: nat, s: Stmt, own: Option<Label>, t: Trace)
    requires s.For?
    ensures var out := Loop(env, fuel, s, own, t).out;
            && BreakIn(s, out)
            && (s.test == None && !ListBreaks(s.list, own, false) ==> out != Normal)
    decreases fuel, s, 2
  {
    hide ListBreaks, ListTerminating;
    OptEnds(env, fuel, s.test, t);
    var c := EvalOpt(env, fuel, s.test, t);
    ListRuns(env, fuel, s.list, First, c.trace);
    var r := ExecList(env, fuel, s.list, First, c.trace);
    if r.out.Broke? && r.out.target.Some? {
      LoopBreaks(s, r.out);
    }
    OptEnds(env, fuel, s.post, r.trace);
    if fuel > 0 {
      LoopRuns(env, fuel - 1, s, own, EvalOpt(env, fuel, s.post, r.trace).trace);
    }
  }

  lemma LoopBreaks(s: Stmt, out: Outcome)
    requires s.For? && out.Broke? && out.target.Some? && BreakInList(s.list, out)
    ensures BreakIn(s, out)
  {
    hide ListBreaks;
    forall own, inner | Concerns(out.target, own, inner) ensures Breaks(s, own, inner) {
      assert Concerns(out.target, own, true);
    }
  }

  lemma SwitchBreaks(s: Stmt, out: Outcome)
    requires s.Switch? && out.Broke? && out.target.Some? && BreakInClauses(s.clauses, out)
    ensures BreakIn(s, out)
  {
    hide ClausesBreak;
    forall own, inner | Concerns(out.target, own, inner) ensures Breaks(s, own, inner) {
      assert Concerns(out.target, own, true);
    }
  }

  lemma {:induction false} SwitchRuns(env: Env, fuel: nat, s: Stmt, own: Option<Label>, t: Trace)
    requires s.Switch?
    ensures var out := Exec(env, fuel, s, own, t).out;
            BreakIn(s, out) && (Terminating(s, own) ==> out != Normal)
    decreases fuel, s, 2
  {
    hide ClausesBreak, ListTerminating, EndsInFallthrough;
    OptEnds(env, fuel, s.init, t);
    var r := EvalOpt(env, fuel, s.init, t);
    OptEnds(env, fuel, s.tag, r.trace);
    var g := EvalOpt(env, fuel, s.tag, r.trace);
    var k := Selected(s.clauses, env(0, Erase(g.trace)));
    if k < |s.clauses| {
      ClausesRun(env, fuel, s.clauses, k, true, g.trace);
      var c := ExecClauses(env, fuel, s.clauses[k..], true, g.trace);
      if c.out.Broke? && c.out.target.Some? {
        SwitchBreaks(s, c.out);
      }
    }
  }

  /** No clause from k on runs off its end. */
  ghost predicate NoneEnds(clauses: seq<Clause>) {
    forall i :: 0 <= i < |clauses| ==> ListTerminating(clauses[i].body) || EndsInFallthrough(clauses[i].body)
  }

  lemma {:induction false} ClausesRun(env: Env, fuel: nat, clauses: seq<Clause>, k: nat, chosen: bool, t: Trace)
    requires k < |clauses|
    ensures var out := ExecClauses(env, fuel, clauses[k..], chosen, t).out;
            BreakInClauses(clauses, out) && (NoneEnds(clauses) ==> out != Normal)
    decreases fuel, clauses, |clauses| - k
  {
    hide ListTerminating, EndsInFallthrough, ListBreaks;
    var c := clauses[k];
    assert clauses[k..][0] == c && clauses[k..][1..] == clauses[k + 1..];
    if chosen {
      ExprEnds(env, fuel, c.guard, t);
    }
    var g := if chosen then EvalExpr(env, fuel, c.guard, t) else Result(t, Normal);
    if g.out == Normal {
      ListRuns(env, fuel, c.body, First, g.trace);
      var r := ExecList(env, fuel, c.body, First, g.trace);
      if r.out == FellThrough && k + 1 < |clauses| {
        ClausesRun(env, fuel, clauses, k + 1, false, r.trace);
      }
    }
  }

  // ----------------------------------------------------------------- theorems

  /** Control never runs off the end of a list that ends in a terminating statement. */
  lemma NeverRunsOff(env: Env, fuel: nat, list: seq<Stmt>, t: Trace)
    requires ListTerminating(list)
    ensures ExecList(env, fuel, list, First, t).out != Normal
  {
    ListRuns(env, fuel, list, First, t);
  }

  /** Nor does it off the end of the instrumented body of a function that ends in one. */
  lemma InstrumentedNeverRunsOff(env: Env, fuel: nat, lbrace: Pos, rbrace: Pos, body: seq<Stmt>, t: Trace)
    requires ListTerminating(body)
    ensures ExecList(env, fuel, WithCounters(lbrace, rbrace + 1, InstrList(body), true), First, t).out != Normal
  {
    BodyKeepsEnd(lbrace, rbrace + 1, body, true);
    NeverRunsOff(env, fuel, WithCounters(lbrace, rbrace + 1, InstrList(body), true), t);
  }
}
