/**
 Instrumentation preserves meaning: the instrumented tree does what the original tree
 does, once counter reports are erased.

 The proof goes through a common form of both trees, without counters and with every
 else-if spelled out as a block: a tree means the same as its common form, and
 instrumenting a tree does not change its common form.
 */
module InstrumentedMeaning {
  import opened Basics
  import opened GoSyntax
  import opened GoSemantics
  import opened Instrumenter

  // --------------------------------------------------------- the common form

  function Strip(s: Stmt): Stmt
    decreases s, 1
  {
    match s
    case Plain(pos, end, x) => Plain(pos, end, StripExpr(x))
    case Panic(pos, end, x) => Panic(pos, end, StripExpr(x))
    case Return(pos, end, x) => Return(pos, end, StripExpr(x))
    case Branch(_, _, _, _) => s
    case Block(lbrace, rbrace, list) => Block(lbrace, rbrace, StripList(list))
    case If(pos, init, cond, lbrace, rbrace, list, els) =>
      If(pos, StripOpt(init), StripExpr(cond), lbrace, rbrace, StripList(list), StripElse(rbrace + 1, els))
    case For(pos, init, test, post, lbrace, rbrace, list) =>
      For(pos, StripOpt(init), StripOpt(test), StripOpt(post), lbrace, rbrace, StripList(list))
    case Switch(pos, kind, init, tag, lbrace, rbrace, clauses) =>
      Switch(pos, kind, StripOpt(init), StripOpt(tag), lbrace, rbrace, StripClauses(clauses))
    case Labeled(pos, name, stmt) => Labeled(pos, name, Strip(stmt))
    case Counter(_) => s
  }

  function StripElse(start: Pos, els: Else): Else
    decreases els, 0
  {
    match els
    case NoElse => NoElse
    case ElseIf(s) => ElseBlock(start, EndOf(s), if s.Counter? then [] else [Strip(s)])
    case ElseBlock(_, rbrace, list) => ElseBlock(start, rbrace, StripList(list))
  }

  function StripList(list: seq<Stmt>): seq<Stmt>
    decreases list, 0
  {
    if list == [] then []
    else (if list[0].Counter? then [] else [Strip(list[0])]) + StripList(list[1..])
  }

  function StripExpr(x: Expr): Expr
    decreases x, 1
  {
    Expr(x.id, StripLits(x.lits))
  }

  function StripOpt(x: Option<Expr>): Option<Expr>
    decreases x, 2
  {
    match x
    case None => None
    case Some(e) => Some(StripExpr(e))
  }

  function StripLits(lits: seq<FuncLit>): (r: seq<FuncLit>)
    ensures |r| == |lits|
    ensures forall i :: 0 <= i < |lits| ==>
              r[i] == FuncLit(lits[i].lbrace, lits[i].rbrace, StripList(lits[i].body))
    decreases lits, 0
  {
    if lits == [] then []
    else [FuncLit(lits[0].lbrace, lits[0].rbrace, StripList(lits[0].body))] + StripLits(lits[1..])
  }

  function StripClauses(clauses: seq<Clause>): (r: seq<Clause>)
    ensures |r| == |clauses| && forall i :: 0 <= i < |clauses| ==> r[i].isDefault == clauses[i].isDefault
    decreases clauses, 0
  {
    if clauses == [] then []
    else
      [clauses[0].(guard := StripExpr(clauses[0].guard), body := StripList(clauses[0].body))]
      + StripClauses(clauses[1..])
  }

  // ------------------------------------- instrumenting keeps the common form

  lemma {:induction false} StripConcat(a: seq<Stmt>, b: seq<Stmt>)
    ensures StripList(a + b) == StripList(a) + StripList(b)
  {
    hide Strip;
    if a == [] {
      assert a + b == b;
    } else {
      StripConcat(a[1..], b);
      assert (a + b)[1..] == a[1..] + b;
    }
  }

  lemma {:induction false} StripWeave(start: Option<Pos>, blockEnd: Pos, list: seq<Stmt>, extend: bool)
    ensures StripList(Weave(start, blockEnd, list, extend)) == StripList(list)
    decreases |list|
  {
    if list != [] {
      var ahead := Ahead(start, blockEnd, list, extend);
      var rest := Weave(NextStart(list), blockEnd, list[1..], extend && !EndsBasicBlock(list[0]));
      StripConcat(ahead + [list[0]], rest);
      StripConcat(ahead, [list[0]]);
      StripWeave(NextStart(list), blockEnd, list[1..], extend && !EndsBasicBlock(list[0]));
      assert [list[0]] + list[1..] == list;
      StripConcat([list[0]], list[1..]);
    }
  }

  lemma StripWithCounters(pos: Pos, blockEnd: Pos, list: seq<Stmt>, extend: bool)
    ensures StripList(WithCounters(pos, blockEnd, list, extend)) == StripList(list)
  {
    StripWeave(Some(pos), blockEnd, list, extend);
  }

  lemma {:induction false} StripInstr(s: Stmt)
    ensures Strip(Instr(s)) == Strip(s)
    decreases s, 1
  {
    match s
    case Plain(_, _, x) => StripInstrExpr(x);
    case Panic(_, _, x) => StripInstrExpr(x);
    case Return(_, _, x) => StripInstrExpr(x);
    case Block(lbrace, rbrace, list) => StripInstrList(lbrace, rbrace + 1, list, true);
    case If(_, _, _, _, _, _, _) => StripInstrIf(s);
    case For(_, _, _, _, _, _, _) => StripInstrFor(s);
    case Switch(_, _, _, _, _, _, _) => StripInstrSwitch(s);
    case Labeled(_, _, stmt) => StripInstr(stmt);
    case _ =>
  }

  lemma {:induction false} StripInstrIf(s: Stmt)
    requires s.If?
    ensures Strip(Instr(s)) == Strip(s)
    decreases s, 0
  {
    hide WithCounters, InstrList, InstrElse, StripList, StripElse;
    StripInstrList(s.lbrace, s.rbrace + 1, s.list, true);
    StripInstrElse(s.rbrace + 1, s.els);
  }

  lemma {:induction false} StripInstrFor(s: Stmt)
    requires s.For?
    ensures Strip(Instr(s)) == Strip(s)
    decreases s, 0
  {
    StripInstrOpt(s.init);
    StripInstrOpt(s.test);
    StripInstrOpt(s.post);
    StripInstrList(s.lbrace, s.rbrace + 1, s.list, true);
  }

  lemma {:induction false} StripInstrSwitch(s: Stmt)
    requires s.Switch?
    ensures Strip(Instr(s)) == Strip(s)
    decreases s, 0
  {
    StripInstrOpt(s.init);
    StripInstrOpt(s.tag);
    StripInstrClauses(s.clauses);
  }

  lemma {:induction false} StripInstrElse(start: Pos, els: Else)
    ensures StripElse(start, InstrElse(start, els)) == StripElse(start, els)
    decreases els, 0
  {
    match els
    case NoElse =>
    case ElseIf(s) =>
      StripInstr(s);
      InstrKeepsShape(s);
      StripWithCounters(start, EndOf(s) + 1, [Instr(s)], true);
    case ElseBlock(_, rbrace, list) => StripInstrList(start, rbrace + 1, list, true);
  }

  lemma {:induction false} StripInstrStmts(list: seq<Stmt>)
    ensures StripList(InstrList(list)) == StripList(list)
    decreases list, 0
  {
    if list != [] {
      StripInstr(list[0]);
      InstrKeepsShape(list[0]);
      StripInstrStmts(list[1..]);
      assert InstrList(list)[1..] == InstrList(list[1..]);
    }
  }

  lemma StripInstrList(pos: Pos, blockEnd: Pos, list: seq<Stmt>, extend: bool)
    ensures StripList(WithCounters(pos, blockEnd, InstrList(list), extend)) == StripList(list)
    decreases list, 1
  {
    StripWithCounters(pos, blockEnd, InstrList(list), extend);
    StripInstrStmts(list);
  }

  lemma {:induction false} StripInstrExpr(x: Expr)
    ensures StripExpr(InstrExpr(x)) == StripExpr(x)
    decreases x, 1
  {
    StripInstrLits(x.lits);
  }

  lemma StripInstrOpt(x: Option<Expr>)
    ensures StripOpt(InstrOpt(x)) == StripOpt(x)
    decreases x, 2
  {
    if x.Some? {
      StripInstrExpr(x.value);
    }
  }

  lemma {:induction false} StripInstrLits(lits: seq<FuncLit>)
    ensures StripLits(InstrLits(lits)) == StripLits(lits)
    decreases lits, 0
  {
    forall i | 0 <= i < |lits| ensures StripLits(InstrLits(lits))[i] == StripLits(lits)[i] {
      StripInstrList(lits[i].lbrace, lits[i].rbrace + 1, lits[i].body, true);
    }
  }

  lemma {:induction false} StripInstrClauses(clauses: seq<Clause>)
    ensures StripClauses(InstrClauses(clauses)) == StripClauses(clauses)
    decreases clauses, 0
  {
    if clauses != [] {
      var c := clauses[0];
      StripInstrExpr(c.guard);
      StripInstrList(c.pos, c.end, c.body, false);
      StripInstrClauses(clauses[1..]);
      assert InstrClauses(clauses)[1..] == InstrClauses(clauses[1..]);
    }
  }

  // ------------------------------------ a tree means what its common form means

  /** Same outcome, and the same observable trace. */
  predicate Same(r: Result, q: Result) {
    r.out == q.out && Erase(r.trace) == Erase(q.trace)
  }

  lemma EraseAppend(t: Trace, e: Event)
    ensures Erase(t + [e]) == if e.Report? then Erase(t) else Erase(t) + [e]
  {
    assert (t + [e])[..|t|] == t;
  }

  lemma StripKeepsLiterals(x: Option<Expr>)
    ensures LiteralInOpt(StripOpt(x)) == LiteralInOpt(x)
  {
  }

  lemma {:induction false} StripKeepsShape(s: Stmt)
    ensures SameShape(Strip(s), s)
  {
    match s
    case If(_, init, cond, _, _, _, _) =>
      StripKeepsLiterals(init);
      StripKeepsLiterals(Some(cond));
    case For(_, init, test, post, _, _, _) =>
      StripKeepsLiterals(init);
      StripKeepsLiterals(test);
      StripKeepsLiterals(post);
    case Switch(_, _, init, tag, _, _, _) =>
      StripKeepsLiterals(init);
      StripKeepsLiterals(tag);
    case Labeled(_, _, stmt) => StripKeepsShape(stmt);
    case _ =>
  }

  lemma {:induction false} SameExpr(env: Env, fuel: nat, x: Expr, t: Trace, u: Trace)
    requires Erase(t) == Erase(u)
    ensures Same(EvalExpr(env, fuel, x, t), EvalExpr(env, fuel, StripExpr(x), u))
    decreases fuel, x, 1
  {
    EraseAppend(t, Eval(x.id));
    EraseAppend(u, Eval(x.id));
    SameLits(env, fuel, x.id, x.lits, t + [Eval(x.id)], u + [Eval(x.id)]);
  }

  lemma SameOpt(env: Env, fuel: nat, x: Option<Expr>, t: Trace, u: Trace)
    requires Erase(t) == Erase(u)
    ensures Same(EvalOpt(env, fuel, x, t), EvalOpt(env, fuel, StripOpt(x), u))
    decreases fuel, x, 2
  {
    if x.Some? {
      SameExpr(env, fuel, x.value, t, u);
    }
  }

  lemma {:induction false} SameLits(env: Env, fuel: nat, id: nat, lits: seq<FuncLit>, t: Trace, u: Trace)
    requires Erase(t) == Erase(u)
    ensures Same(CallLits(env, fuel, id, lits, t), CallLits(env, fuel, id, StripLits(lits), u))
    decreases fuel, lits, 0
  {
    hide Erase, ExecList, StripList;
    var choice := env(id, Erase(t));
    if lits != [] && choice != 0 && fuel != 0 {
      var k := choice % |lits|;
      EraseAppend(t, Call(id, k));
      EraseAppend(u, Call(id, k));
      SameList(env, fuel - 1, lits[k].body, First, t + [Call(id, k)], u + [Call(id, k)]);
      var r := ExecList(env, fuel - 1, lits[k].body, First, t + [Call(id, k)]);
      var q := ExecList(env, fuel - 1, StripList(lits[k].body), First, u + [Call(id, k)]);
      SameLits(env, fuel - 1, id, lits, r.trace, q.trace);
    }
  }

  lemma {:induction false} SameList(env: Env, fuel: nat, list: seq<Stmt>, lead: Lead, t: Trace, u: Trace)
    requires Erase(t) == Erase(u)
    ensures Same(ExecList(env, fuel, list, lead, t), ExecList(env, fuel, StripList(list), lead, u))
    decreases fuel, list, 0
  {
    if list != [] {
      var s := list[0];
      var r := ExecOne(env, fuel, s, lead, t);
      if s.Counter? {
        EraseAppend(t, Report(s.block));
        assert StripList(list) == StripList(list[1..]);
        SameList(env, fuel, list[1..], lead, r.trace, u);
      } else {
        var q := ExecOne(env, fuel, Strip(s), lead, u);
        SameOne(env, fuel, s, lead, t, u);
        StripKeepsShape(s);
        assert StripList(list)[0] == Strip(s) && StripList(list)[1..] == StripList(list[1..]);
        SameList(env, fuel, list[1..], LeadAfter(lead, s), r.trace, q.trace);
      }
    }
  }

  lemma {:induction false} SameOne(env: Env, fuel: nat, s: Stmt, lead: Lead, t: Trace, u: Trace)
    requires Erase(t) == Erase(u)
    ensures Same(ExecOne(env, fuel, s, lead, t), ExecOne(env, fuel, Strip(s), lead, u))
    decreases fuel, s, 4
  {
    StripKeepsShape(s);
    var e := if s.Counter? then Report(s.block) else Enter(StartOf(s), Heads(s, lead));
    EraseAppend(t, e);
    EraseAppend(u, e);
    if !s.Counter? {
      SameStmt(env, fuel, s, None, t + [e], u + [e]);
    }
  }

  lemma {:induction false} SameStmt(env: Env, fuel: nat, s: Stmt, own: Option<Label>, t: Trace, u: Trace)
    requires Erase(t) == Erase(u)
    ensures Same(Exec(env, fuel, s, own, t), Exec(env, fuel, Strip(s), own, u))
    decreases fuel, s, 3
  {
    match s
    case Plain(_, _, x) => SameExpr(env, fuel, x, t, u);
    case Panic(_, _, x) => SameExpr(env, fuel, x, t, u);
    case Return(_, _, x) => SameExpr(env, fuel, x, t, u);
    case Branch(_, _, _, _) =>
    case Block(_, _, list) => SameList(env, fuel, list, First, t, u);
    case If(_, _, _, _, _, _, _) => SameIf(env, fuel, s, t, u);
    case For(_, init, _, _, _, _, _) =>
      SameOpt(env, fuel, init, t, u);
      SameLoop(env, fuel, s, own, EvalOpt(env, fuel, init, t).trace, EvalOpt(env, fuel, StripOpt(init), u).trace);
    case Switch(_, _, _, _, _, _, _) => SameSwitch(env, fuel, s, own, t, u);
    case Labeled(_, name, stmt) => SameStmt(env, fuel, stmt, Some(name), t, u);
    case Counter(b) =>
      EraseAppend(t, Report(b));
      EraseAppend(u, Report(b));
  }

  lemma {:induction false} SameIf(env: Env, fuel: nat, s: Stmt, t: Trace, u: Trace)
    requires s.If? && Erase(t) == Erase(u)
    ensures Same(Exec(env, fuel, s, None, t), Exec(env, fuel, Strip(s), None, u))
    decreases fuel, s, 2
  {
    var r, q := EvalOpt(env, fuel, s.init, t), EvalOpt(env, fuel, StripOpt(s.init), u);
    SameOpt(env, fuel, s.init, t, u);
    if r.out == Normal {
      SameExpr(env, fuel, s.cond, r.trace, q.trace);
      var c, d := EvalExpr(env, fuel, s.cond, r.trace), EvalExpr(env, fuel, StripExpr(s.cond), q.trace);
      SameList(env, fuel, s.list, First, c.trace, d.trace);
      SameElse(env, fuel, s.rbrace + 1, s.els, c.trace, d.trace);
    }
  }

  lemma RunSingle(env: Env, fuel: nat, s: Stmt, t: Trace)
    ensures ExecList(env, fuel, [s], First, t) == ExecOne(env, fuel, s, First, t)
  {
    var r := ExecOne(env, fuel, s, First, t);
    assert [s][1..] == [];
    assert ExecList(env, fuel, [], LeadAfter(First, s), r.trace) == Result(r.trace, Normal);
  }

  lemma {:induction false} SameElse(env: Env, fuel: nat, start: Pos, els: Else, t: Trace, u: Trace)
    requires Erase(t) == Erase(u)
    ensures Same(ExecElse(env, fuel, els, t), ExecElse(env, fuel, StripElse(start, els), u))
    decreases fuel, els, 0
  {
    hide Erase, Exec, Strip, StripList;
    match els
    case NoElse =>
    case ElseIf(s) =>
      if s.Counter? {
        EraseAppend(t, Report(s.block));
      } else {
        SameOne(env, fuel, s, First, t, u);
        RunSingle(env, fuel, Strip(s), u);
      }
    case ElseBlock(_, _, list) => SameList(env, fuel, list, First, t, u);
  }

  lemma {:induction false} SameLoop(env: Env, fuel: nat, s: Stmt, own: Option<Label>, t: Trace, u: Trace)
    requires s.For? && Erase(t) == Erase(u)
    ensures Same(Loop(env, fuel, s, own, t), Loop(env, fuel, Strip(s), own, u))
    decreases fuel, s, 2
  {
    var s' := Strip(s);
    assert s' == For(s.pos, StripOpt(s.init), StripOpt(s.test), StripOpt(s.post),
                     s.lbrace, s.rbrace, StripList(s.list));
    var c, d := EvalOpt(env, fuel, s.test, t), EvalOpt(env, fuel, s'.test, u);
    SameOpt(env, fuel, s.test, t, u);
    if s.test.Some? {
      assert s'.test == Some(StripExpr(s.test.value));
    }
    if c.out == Normal && !(s.test.Some? && env(s.test.value.id + 1, Erase(c.trace)) == 0) {
      var r, q := ExecList(env, fuel, s.list, First, c.trace), ExecList(env, fuel, s'.list, First, d.trace);
      SameList(env, fuel, s.list, First, c.trace, d.trace);
      if r.out == Normal || (r.out.Continued? && Targets(r.out.target, own)) {
        var p, o := EvalOpt(env, fuel, s.post, r.trace), EvalOpt(env, fuel, s'.post, q.trace);
        SameOpt(env, fuel, s.post, r.trace, q.trace);
        if p.out == Normal && fuel > 0 {
          SameLoop(env, fuel - 1, s, own, p.trace, o.trace);
        }
      }
    }
  }

  lemma {:induction false} SameSwitch(env: Env, fuel: nat, s: Stmt, own: Option<Label>, t: Trace, u: Trace)
    requires s.Switch? && Erase(t) == Erase(u)
    ensures Same(Exec(env, fuel, s, own, t), Exec(env, fuel, Strip(s), own, u))
    decreases fuel, s, 2
  {
    var r, q := EvalOpt(env, fuel, s.init, t), EvalOpt(env, fuel, StripOpt(s.init), u);
    SameOpt(env, fuel, s.init, t, u);
    if r.out == Normal {
      SameOpt(env, fuel, s.tag, r.trace, q.trace);
      var g, h := EvalOpt(env, fuel, s.tag, r.trace), EvalOpt(env, fuel, StripOpt(s.tag), q.trace);
      SameSelected(s.clauses, StripClauses(s.clauses), env(0, Erase(g.trace)));
      var k := Selected(s.clauses, env(0, Erase(g.trace)));
      if k < |s.clauses| {
        StripClausesFrom(s.clauses, k);
        SameClauses(env, fuel, s.clauses[k..], true, g.trace, h.trace);
      }
    }
  }

  lemma {:induction false} StripClausesFrom(clauses: seq<Clause>, k: nat)
    requires k <= |clauses|
    ensures StripClauses(clauses)[k..] == StripClauses(clauses[k..])
  {
    if k > 0 {
      StripClausesFrom(clauses[1..], k - 1);
      assert clauses[1..][k - 1..] == clauses[k..];
      assert StripClauses(clauses)[1..] == StripClauses(clauses[1..]);
    }
  }

  lemma {:induction false} SameClauses(env: Env, fuel: nat, clauses: seq<Clause>, chosen: bool, t: Trace, u: Trace)
    requires clauses != [] && Erase(t) == Erase(u)
    ensures Same(ExecClauses(env, fuel, clauses, chosen, t), ExecClauses(env, fuel, StripClauses(clauses), chosen, u))
    decreases fuel, clauses, 0
  {
    var c := clauses[0];
    if chosen {
      SameExpr(env, fuel, c.guard, t, u);
    }
    var g := if chosen then EvalExpr(env, fuel, c.guard, t) else Result(t, Normal);
    var h := if chosen then EvalExpr(env, fuel, StripExpr(c.guard), u) else Result(u, Normal);
    if g.out == Normal {
      SameList(env, fuel, c.body, First, g.trace, h.trace);
      var r, q := ExecList(env, fuel, c.body, First, g.trace), ExecList(env, fuel, StripList(c.body), First, h.trace);
      if |clauses| > 1 {
        assert StripClauses(clauses)[1..] == StripClauses(clauses[1..]);
        SameClauses(env, fuel, clauses[1..], false, r.trace, q.trace);
      }
    }
  }

  // ----------------------------------------------------------------- theorems

  /** For every environment, fuel and starting trace, the instrumented statement has the
      outcome of the original one, and the same trace once reports are erased. */
  lemma InstrumentationPreservesMeaning(env: Env, fuel: nat, s: Stmt, own: Option<Label>, t: Trace)
    ensures Exec(env, fuel, Instr(s), own, t).out == Exec(env, fuel, s, own, t).out
    ensures Erase(Exec(env, fuel, Instr(s), own, t).trace) == Erase(Exec(env, fuel, s, own, t).trace)
  {
    StripInstr(s);
    SameStmt(env, fuel, s, own, t, t);
    SameStmt(env, fuel, Instr(s), own, t, t);
  }

  /** The same for the body of a function. */
  lemma InstrumentedBodyPreservesMeaning(env: Env, fuel: nat, lbrace: Pos, rbrace: Pos, body: seq<Stmt>, t: Trace)
    ensures var body' := WithCounters(lbrace, rbrace + 1, InstrList(body), true);
            Same(ExecList(env, fuel, body', First, t), ExecList(env, fuel, body, First, t))
  {
    StripInstrList(lbrace, rbrace + 1, body, true);
    SameList(env, fuel, body, First, t, t);
    SameList(env, fuel, WithCounters(lbrace, rbrace + 1, InstrList(body), true), First, t, t);
  }
}
