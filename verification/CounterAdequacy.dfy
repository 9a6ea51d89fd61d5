/**
 Counters are adequate: in every run of an instrumented tree, a segment is reported exactly
 once each time its first statement is entered, right before it, unless the segment lies in
 a function literal that the walk does not reach; such a segment is never reported.
 */
module CounterAdequacy {
  import opened Basics
  import opened GoSyntax
  import opened GoSemantics
  import opened Instrumenter
  import opened InstrumentedMeaning

  // ------------------------------------------------------- counted traces

  /** The report of the counter for the segment that starts at p. */
  predicate Reported(e: Event, p: Pos) {
    e.Report? && e.block.head == Some(p)
  }

  /** At position i of a trace: a report for p is followed at once by the statement at p, and
      the statement at p, when it starts a segment, comes right after its report. */
  predicate TidyAt(t: Trace, i: nat, p: Pos)
    requires i < |t|
  {
    && (Reported(t[i], p) ==> i + 1 < |t| && t[i + 1] == Enter(p, true))
    && (t[i] == Enter(p, true) ==> i > 0 && Reported(t[i - 1], p))
  }

  /** Reports for p and entries of the segment at p come in pairs; or, when silent is asked
      for, there is no report for p at all. */
  ghost predicate Tidy(t: Trace, p: Pos, silent: bool) {
    forall i :: 0 <= i < |t| ==> if silent then !Reported(t[i], p) else TidyAt(t, i, p)
  }

  predicate Neutral(e: Event, p: Pos, silent: bool) {
    !Reported(e, p) && (silent || e != Enter(p, true))
  }

  lemma TidyNeutral(t: Trace, e: Event, p: Pos, silent: bool)
    requires Tidy(t, p, silent) && Neutral(e, p, silent)
    ensures Tidy(t + [e], p, silent)
  {
    if !silent {
      forall i | 0 <= i < |t| + 1 ensures TidyAt(t + [e], i, p) {
        assert i < |t| ==> TidyAt(t, i, p);
      }
    }
  }

  lemma TidyPair(t: Trace, b: BlockInfo, p: Pos)
    requires Tidy(t, p, false) && b.head == Some(p)
    ensures Tidy(t + [Report(b)] + [Enter(p, true)], p, false)
  {
    forall i | 0 <= i < |t| + 2 ensures TidyAt(t + [Report(b)] + [Enter(p, true)], i, p) {
      assert i < |t| ==> TidyAt(t, i, p);
    }
  }

  // ------------------------------------------------------ source positions

  /** The positions of a parsed list: they ascend, inside the brackets of the list. */
  ghost predicate PlacedList(pos: Pos, blockEnd: Pos, list: seq<Stmt>)
    decreases list, 1
  {
    && pos < blockEnd
    && (list != [] ==> pos < StartOf(list[0]) && Placed(list[0]) && PlacedTail(list))
  }

  ghost predicate PlacedTail(list: seq<Stmt>)
    requires list != []
    decreases list, 0
  {
    |list| > 1 ==> StartOf(list[0]) < StartOf(list[1]) && Placed(list[1]) && PlacedTail(list[1..])
  }

  /** Positions as the parser sets them, and no counter yet. */
  ghost predicate Placed(s: Stmt)
    decreases s, 2
  {
    && (if s.Block? then true else StartOf(s) < StatementBoundary(s))
    && match s
       case Plain(_, _, x) => PlacedExpr(x)
       case Panic(_, _, x) => PlacedExpr(x)
       case Return(_, _, x) => PlacedExpr(x)
       case Branch(_, _, _, _) => true
       case Block(lbrace, rbrace, list) => PlacedList(lbrace, rbrace + 1, list)
       case If(_, init, cond, lbrace, rbrace, list, els) =>
         && PlacedOpt(init) && PlacedExpr(cond)
         && PlacedList(lbrace, rbrace + 1, list) && PlacedElse(rbrace + 1, els)
       case For(_, init, test, post, lbrace, rbrace, list) =>
         && PlacedOpt(init) && PlacedOpt(test) && PlacedOpt(post)
         && PlacedList(lbrace, rbrace + 1, list)
       case Switch(_, _, init, tag, _, _, clauses) =>
         && PlacedOpt(init) && PlacedOpt(tag) && PlacedClauses(clauses)
       case Labeled(_, _, stmt) => Placed(stmt)
       case Counter(_) => false
  }

  ghost predicate PlacedElse(start: Pos, els: Else)
    decreases els, 0
  {
    match els
    case NoElse => true
    case ElseIf(s) => s.If? && start < StartOf(s) && start < EndOf(s) && Placed(s)
    case ElseBlock(_, rbrace, list) => PlacedList(start, rbrace + 1, list)
  }

  ghost predicate PlacedClauses(clauses: seq<Clause>)
    decreases clauses, 0
  {
    clauses == [] ||
    (PlacedExpr(clauses[0].guard) && PlacedList(clauses[0].pos, clauses[0].end, clauses[0].body)
     && PlacedClauses(clauses[1..]))
  }

  ghost predicate PlacedExpr(x: Expr)
    decreases x, 1
  {
    PlacedLits(x.lits)
  }

  ghost predicate PlacedOpt(x: Option<Expr>)
    decreases x, 2
  {
    x.Some? ==> PlacedExpr(x.value)
  }

  ghost predicate PlacedLits(lits: seq<FuncLit>)
    decreases lits, 0
  {
    forall i :: 0 <= i < |lits| ==> PlacedList(lits[i].lbrace, lits[i].rbrace + 1, lits[i].body)
  }

  // -------------------------------------------------- what the walk reaches

  /** Does a statement listed somewhere in s start at p, one that the walk reaches (walked) or
      one that it does not?  The walk reaches s itself or not, as reached says.  It never goes
      into the header of an if, or of a switch without clauses. */
  predicate Starts(s: Stmt, p: Pos, reached: bool, walked: bool)
    decreases s, 2
  {
    match s
    case Plain(_, _, x) => ExprStarts(x, p, reached, walked)
    case Panic(_, _, x) => ExprStarts(x, p, reached, walked)
    case Return(_, _, x) => ExprStarts(x, p, reached, walked)
    case Branch(_, _, _, _) => false
    case Block(_, _, list) => ListStarts(list, p, reached, walked)
    case If(_, init, cond, _, _, list, els) =>
      || OptStarts(init, p, false, walked) || ExprStarts(cond, p, false, walked)
      || ListStarts(list, p, reached, walked) || ElseStarts(els, p, reached, walked)
    case For(_, init, test, post, _, _, list) =>
      || OptStarts(init, p, reached, walked) || OptStarts(test, p, reached, walked)
      || OptStarts(post, p, reached, walked)
      || ListStarts(list, p, reached, walked)
    case Switch(_, _, init, tag, _, _, clauses) =>
      var inside := reached && clauses != [];
      || OptStarts(init, p, inside, walked) || OptStarts(tag, p, inside, walked)
      || ClausesStart(clauses, p, reached, walked)
    case Labeled(_, _, stmt) => Starts(stmt, p, reached, walked)
    case Counter(_) => false
  }

  predicate ListStarts(list: seq<Stmt>, p: Pos, reached: bool, walked: bool)
    decreases list, 0
  {
    list != [] &&
    ((StartOf(list[0]) == p && reached == walked)
     || Starts(list[0], p, reached, walked) || ListStarts(list[1..], p, reached, walked))
  }

  predicate ElseStarts(els: Else, p: Pos, reached: bool, walked: bool)
    decreases els, 0
  {
    match els
    case NoElse => false
    case ElseIf(s) => (StartOf(s) == p && reached == walked) || Starts(s, p, reached, walked)
    case ElseBlock(_, _, list) => ListStarts(list, p, reached, walked)
  }

  predicate ClausesStart(clauses: seq<Clause>, p: Pos, reached: bool, walked: bool)
    decreases clauses, 0
  {
    clauses != [] &&
    (ExprStarts(clauses[0].guard, p, reached, walked) || ListStarts(clauses[0].body, p, reached, walked)
     || ClausesStart(clauses[1..], p, reached, walked))
  }

  predicate ExprStarts(x: Expr, p: Pos, reached: bool, walked: bool)
    decreases x, 1
  {
    LitsStart(x.lits, p, reached, walked)
  }

  predicate OptStarts(x: Option<Expr>, p: Pos, reached: bool, walked: bool)
    decreases x, 2
  {
    x.Some? && ExprStarts(x.value, p, reached, walked)
  }

  predicate LitsStart(lits: seq<FuncLit>, p: Pos, reached: bool, walked: bool)
    decreases lits, 0
  {
    exists i :: 0 <= i < |lits| && ListStarts(lits[i].body, p, reached, walked)
  }

  // --------------------------------------------- code that the walk does not reach

  lemma {:induction false} RawExpr(env: Env, fuel: nat, x: Expr, t: Trace, p: Pos, silent: bool)
    requires Tidy(t, p, silent) && PlacedExpr(x) && !ExprStarts(x, p, false, silent)
    ensures Tidy(EvalExpr(env, fuel, x, t).trace, p, silent)
    decreases fuel, x, 1
  {
    hide Tidy;
    TidyNeutral(t, Eval(x.id), p, silent);
    RawLits(env, fuel, x.id, x.lits, t + [Eval(x.id)], p, silent);
  }

  lemma RawOpt(env: Env, fuel: nat, x: Option<Expr>, t: Trace, p: Pos, silent: bool)
    requires Tidy(t, p, silent) && PlacedOpt(x) && !OptStarts(x, p, false, silent)
    ensures Tidy(EvalOpt(env, fuel, x, t).trace, p, silent)
    decreases fuel, x, 2
  {
    hide Tidy;
    if x.Some? {
      RawExpr(env, fuel, x.value, t, p, silent);
    }
  }

  lemma {:induction false} RawLits(env: Env, fuel: nat, id: nat, lits: seq<FuncLit>, t: Trace, p: Pos, silent: bool)
    requires Tidy(t, p, silent) && PlacedLits(lits) && !LitsStart(lits, p, false, silent)
    ensures Tidy(CallLits(env, fuel, id, lits, t).trace, p, silent)
    decreases fuel, lits, 0
  {
    hide Tidy, Erase, ExecList;
    var choice := env(id, Erase(t));
    if lits != [] && choice != 0 && fuel != 0 {
      var k := choice % |lits|;
      var u := t + [Call(id, k)];
      TidyNeutral(t, Call(id, k), p, silent);
      assert PlacedList(lits[k].lbrace, lits[k].rbrace + 1, lits[k].body);
      RawList(env, fuel - 1, lits[k].body, First, u, p, silent);
      RawLits(env, fuel - 1, id, lits, ExecList(env, fuel - 1, lits[k].body, First, u).trace, p, silent);
    }
  }

  lemma {:induction false} RawList(env: Env, fuel: nat, list: seq<Stmt>, lead: Lead, t: Trace, p: Pos, silent: bool)
    requires Tidy(t, p, silent) && !ListStarts(list, p, false, silent)
    requires list != [] ==> Placed(list[0]) && PlacedTail(list)
    ensures Tidy(ExecList(env, fuel, list, lead, t).trace, p, silent)
    decreases fuel, list, 0
  {
    hide Tidy;
    if list != [] {
      RawOne(env, fuel, list[0], lead, t, p, silent);
      var r := ExecOne(env, fuel, list[0], lead, t);
      if r.out == Normal {
        RawList(env, fuel, list[1..], LeadAfter(lead, list[0]), r.trace, p, silent);
      }
    }
  }

  lemma {:induction false} RawOne(env: Env, fuel: nat, s: Stmt, lead: Lead, t: Trace, p: Pos, silent: bool)
    requires Tidy(t, p, silent) && Placed(s) && !Starts(s, p, false, silent) && (StartOf(s) == p ==> silent)
    ensures Tidy(ExecOne(env, fuel, s, lead, t).trace, p, silent)
    decreases fuel, s, 4
  {
    hide Tidy;
    TidyNeutral(t, Enter(StartOf(s), Heads(s, lead)), p, silent);
    RawStmt(env, fuel, s, None, t + [Enter(StartOf(s), Heads(s, lead))], p, silent);
  }

  lemma {:induction false} RawStmt(env: Env, fuel: nat, s: Stmt, own: Option<Label>, t: Trace, p: Pos, silent: bool)
    requires Tidy(t, p, silent) && Placed(s) && !Starts(s, p, false, silent)
    ensures Tidy(Exec(env, fuel, s, own, t).trace, p, silent)
    decreases fuel, s, 3
  {
    hide Tidy;
    match s
    case Plain(_, _, x) => RawExpr(env, fuel, x, t, p, silent);
    case Panic(_, _, x) => RawExpr(env, fuel, x, t, p, silent);
    case Return(_, _, x) => RawExpr(env, fuel, x, t, p, silent);
    case Branch(_, _, _, _) =>
    case Block(_, _, list) => RawList(env, fuel, list, First, t, p, silent);
    case If(_, init, cond, _, _, list, els) =>
      RawOpt(env, fuel, init, t, p, silent);
      var r := EvalOpt(env, fuel, init, t);
      RawExpr(env, fuel, cond, r.trace, p, silent);
      var c := EvalExpr(env, fuel, cond, r.trace);
      RawList(env, fuel, list, First, c.trace, p, silent);
      RawElse(env, fuel, s.rbrace + 1, els, c.trace, p, silent);
    case For(_, init, _, _, _, _, _) =>
      RawOpt(env, fuel, init, t, p, silent);
      RawLoop(env, fuel, s, own, EvalOpt(env, fuel, init, t).trace, p, silent);
    case Switch(_, _, init, tag, _, _, clauses) =>
      RawOpt(env, fuel, init, t, p, silent);
      var r := EvalOpt(env, fuel, init, t);
      RawOpt(env, fuel, tag, r.trace, p, silent);
      var g := EvalOpt(env, fuel, tag, r.trace);
      var k := Selected(clauses, env(0, Erase(g.trace)));
      if k < |clauses| {
        RawClauses(env, fuel, clauses, k, true, g.trace, p, silent);
      }
    case Labeled(_, name, stmt) => RawStmt(env, fuel, stmt, Some(name), t, p, silent);
  }

  lemma {:induction false} RawElse(env: Env, fuel: nat, start: Pos, els: Else, t: Trace, p: Pos, silent: bool)
    requires Tidy(t, p, silent) && PlacedElse(start, els) && !ElseStarts(els, p, false, silent)
    ensures Tidy(ExecElse(env, fuel, els, t).trace, p, silent)
    decreases fuel, els, 0
  {
    hide Tidy;
    match els
    case NoElse =>
    case ElseIf(s) => RawOne(env, fuel, s, First, t, p, silent);
    case ElseBlock(_, _, list) => RawList(env, fuel, list, First, t, p, silent);
  }

  lemma {:induction false} RawLoop(env: Env, fuel: nat, s: Stmt, own: Option<Label>, t: Trace, p: Pos, silent: bool)
    requires s.For? && Tidy(t, p, silent) && Placed(s) && !Starts(s, p, false, silent)
    ensures Tidy(Loop(env, fuel, s, own, t).trace, p, silent)
    decreases fuel, s, 2
  {
    hide Tidy;
    RawOpt(env, fuel, s.test, t, p, silent);
    var c := EvalOpt(env, fuel, s.test, t);
    RawList(env, fuel, s.list, First, c.trace, p, silent);
    var r := ExecList(env, fuel, s.list, First, c.trace);
    RawOpt(env, fuel, s.post, r.trace, p, silent);
    if fuel > 0 {
      RawLoop(env, fuel - 1, s, own, EvalOpt(env, fuel, s.post, r.trace).trace, p, silent);
    }
  }

  lemma {:induction false} RawClauses(env: Env, fuel: nat, clauses: seq<Clause>, k: nat, chosen: bool, t: Trace, p: Pos,
                                      silent: bool)
    requires k < |clauses| && Tidy(t, p, silent) && PlacedClauses(clauses) && !ClausesStart(clauses, p, false, silent)
    ensures Tidy(ExecClauses(env, fuel, clauses[k..], chosen, t).trace, p, silent)
    decreases fuel, clauses, 0
  {
    hide Tidy;
    if k > 0 {
      assert clauses[k..] == clauses[1..][k - 1..];
      RawClauses(env, fuel, clauses[1..], k - 1, chosen, t, p, silent);
    } else {
      var c := clauses[0];
      assert clauses[0..] == clauses;
      if chosen {
        RawExpr(env, fuel, c.guard, t, p, silent);
      }
      var g := if chosen then EvalExpr(env, fuel, c.guard, t) else Result(t, Normal);
      RawList(env, fuel, c.body, First, g.trace, p, silent);
      if |clauses| > 1 {
        assert clauses[1..][0..] == clauses[1..];
        RawClauses(env, fuel, clauses[1..], 0, false, ExecList(env, fuel, c.body, First, g.trace).trace, p, silent);
      }
    }
  }

  // ------------------------------------------------ where counters are present

  /** The position from which the block starting at a list is counted. */
  function StartFor(lead: Lead, pos: Pos, list: seq<Stmt>): Option<Pos>
    requires list != []
  {
    match lead
    case First => Some(pos)
    case Next => Some(StartOf(list[0]))
    case Inner => None
  }

  lemma {:induction false} BoundaryOfBlock(list: seq<Stmt>, n: nat)
    requires list != [] && Placed(list[0]) && PlacedTail(list)
    requires n < |list|
    ensures StartOf(list[0]) <= StatementBoundary(list[n])
    ensures n > 0 || !list[0].Block? ==> StartOf(list[0]) < StatementBoundary(list[n])
  {
    if n > 0 {
      BoundaryOfBlock(list[1..], n - 1);
    }
  }

  /** In a parsed list, a counter stands before a statement exactly when it heads a segment. */
  lemma CounterPresent(lead: Lead, pos: Pos, blockEnd: Pos, list: seq<Stmt>, extend: bool)
    requires list != [] && Placed(list[0]) && PlacedTail(list)
    requires lead == First ==> pos < StartOf(list[0]) && pos < blockEnd
    requires lead == Next ==> !extend
    ensures var ahead := Ahead(StartFor(lead, pos, list), blockEnd, list, extend);
            if Heads(list[0], lead) then
              |ahead| == 1 && ahead[0].Counter? && ahead[0].block.head == Some(StartOf(list[0]))
            else ahead == []
  {
    BoundaryOfBlock(list, BlockLength(list) - 1);
  }

  /** The premises under which a woven list has its counters where the segments start. */
  ghost predicate PlacedWeave(start: Option<Pos>, lead: Lead, pos: Pos, blockEnd: Pos, list: seq<Stmt>, extend: bool) {
    list != [] ==>
      && Placed(list[0]) && PlacedTail(list)
      && start == StartFor(lead, pos, list)
      && (lead == First ==> pos < StartOf(list[0]) && pos < blockEnd)
      && (lead == Next ==> !extend)
  }

  /** Instrumented lists are woven like the original ones. */
  lemma WeaveOfInstr(start: Option<Pos>, blockEnd: Pos, list: seq<Stmt>, extend: bool)
    requires list != []
    ensures Weave(start, blockEnd, InstrList(list), extend) ==
            Ahead(start, blockEnd, list, extend) + [Instr(list[0])]
            + Weave(NextStart(list), blockEnd, InstrList(list[1..]), extend && !EndsBasicBlock(list[0]))
  {
    InstrListKeepsShapes(list);
    ShapesFixCounters(start, blockEnd, InstrList(list), list, extend);
    assert SameShape(InstrList(list)[0], list[0]);
    assert InstrList(list)[1..] == InstrList(list[1..]);
  }

  lemma RunCons(env: Env, fuel: nat, s: Stmt, rest: seq<Stmt>, lead: Lead, t: Trace)
    ensures ExecList(env, fuel, [s] + rest, lead, t) ==
            var r := ExecOne(env, fuel, s, lead, t);
            if r.out != Normal then r else ExecList(env, fuel, rest, LeadAfter(lead, s), r.trace)
  {
    assert ([s] + rest)[1..] == rest;
  }

  /** Running the counter ahead of a statement, if there is one, and then the statement. */
  lemma RunAhead(env: Env, fuel: nat, ahead: seq<Stmt>, s: Stmt, rest: seq<Stmt>, lead: Lead, t: Trace)
    requires ahead == [] || (|ahead| == 1 && ahead[0].Counter?)
    ensures ExecList(env, fuel, ahead + [s] + rest, lead, t) ==
            ExecList(env, fuel, [s] + rest, lead, if ahead == [] then t else t + [Report(ahead[0].block)])
  {
    if ahead == [] {
      assert ahead + [s] + rest == [s] + rest;
    } else {
      assert ahead + [s] + rest == [ahead[0]] + ([s] + rest);
      RunCons(env, fuel, ahead[0], [s] + rest, lead, t);
    }
  }

  /** One statement of a woven list, and what is left. */
  lemma RunWoven(env: Env, fuel: nat, start: Option<Pos>, lead: Lead, blockEnd: Pos, list: seq<Stmt>, extend: bool,
                 t: Trace)
    requires list != [] && !list[0].Counter?
    requires var ahead := Ahead(start, blockEnd, list, extend);
             ahead == [] || (|ahead| == 1 && ahead[0].Counter?)
    ensures ExecList(env, fuel, Weave(start, blockEnd, InstrList(list), extend), lead, t) ==
            var ahead := Ahead(start, blockEnd, list, extend);
            var u := if ahead == [] then t else t + [Report(ahead[0].block)];
            var s := list[0];
            var r := Exec(env, fuel, Instr(s), None, u + [Enter(StartOf(s), Heads(s, lead))]);
            if r.out != Normal then r
            else ExecList(env, fuel,
                          Weave(NextStart(list), blockEnd, InstrList(list[1..]), extend && !EndsBasicBlock(s)),
                          LeadAfter(lead, s), r.trace)
  {
    var s := list[0];
    var ahead := Ahead(start, blockEnd, list, extend);
    var rest := Weave(NextStart(list), blockEnd, InstrList(list[1..]), extend && !EndsBasicBlock(s));
    WeaveOfInstr(start, blockEnd, list, extend);
    RunAhead(env, fuel, ahead, Instr(s), rest, lead, t);
    InstrKeepsShape(s);
    RunCons(env, fuel, Instr(s), rest, lead, if ahead == [] then t else t + [Report(ahead[0].block)]);
  }

  // ------------------------------------------------------- runs stay tidy

  lemma {:induction false} TidyExpr(env: Env, fuel: nat, x: Expr, t: Trace, p: Pos, silent: bool)
    requires Tidy(t, p, silent) && PlacedExpr(x) && !ExprStarts(x, p, true, silent)
    ensures Tidy(EvalExpr(env, fuel, InstrExpr(x), t).trace, p, silent)
    decreases fuel, x, 1
  {
    hide Tidy;
    TidyNeutral(t, Eval(x.id), p, silent);
    TidyLits(env, fuel, x.id, x.lits, t + [Eval(x.id)], p, silent);
  }

  lemma TidyOpt(env: Env, fuel: nat, x: Option<Expr>, t: Trace, p: Pos, silent: bool)
    requires Tidy(t, p, silent) && PlacedOpt(x) && !OptStarts(x, p, true, silent)
    ensures Tidy(EvalOpt(env, fuel, InstrOpt(x), t).trace, p, silent)
    decreases fuel, x, 2
  {
    hide Tidy;
    if x.Some? {
      TidyExpr(env, fuel, x.value, t, p, silent);
    }
  }

  lemma {:induction false} TidyLits(env: Env, fuel: nat, id: nat, lits: seq<FuncLit>, t: Trace, p: Pos, silent: bool)
    requires Tidy(t, p, silent) && PlacedLits(lits) && !LitsStart(lits, p, true, silent)
    ensures Tidy(CallLits(env, fuel, id, InstrLits(lits), t).trace, p, silent)
    decreases fuel, lits, 0
  {
    hide Tidy, Erase, ExecList, PlacedLits, LitsStart, InstrLits;
    var choice := env(id, Erase(t));
    if lits != [] && choice != 0 && fuel != 0 {
      var k := choice % |lits|;
      var u := t + [Call(id, k)];
      TidyNeutral(t, Call(id, k), p, silent);
      TidyLit(env, fuel - 1, lits, k, u, p, silent);
      TidyLits(env, fuel - 1, id, lits, ExecList(env, fuel - 1, InstrLits(lits)[k].body, First, u).trace, p, silent);
    }
  }

  lemma {:induction false} TidyLit(env: Env, fuel: nat, lits: seq<FuncLit>, k: nat, t: Trace, p: Pos, silent: bool)
    requires k < |lits| && Tidy(t, p, silent) && PlacedLits(lits) && !LitsStart(lits, p, true, silent)
    ensures Tidy(ExecList(env, fuel, InstrLits(lits)[k].body, First, t).trace, p, silent)
    decreases fuel, lits, 0
  {
    hide Tidy;
    TidyList(env, fuel, lits[k].lbrace, lits[k].rbrace + 1, lits[k].body, true, t, p, silent);
  }

  lemma {:induction false} TidyList(env: Env, fuel: nat, pos: Pos, blockEnd: Pos, list: seq<Stmt>, extend: bool,
                                    t: Trace, p: Pos, silent: bool)
    requires Tidy(t, p, silent) && PlacedList(pos, blockEnd, list) && !ListStarts(list, p, true, silent)
    ensures Tidy(ExecList(env, fuel, WithCounters(pos, blockEnd, InstrList(list), extend), First, t).trace, p, silent)
    decreases fuel, list, 2
  {
    hide Tidy;
    if list == [] {
      var b := BlockInfo(pos, blockEnd, 0, None);
      TidyNeutral(t, Report(b), p, silent);
      RunCons(env, fuel, Counter(b), [], First, t);
      assert [Counter(b)] + [] == [Counter(b)];
    } else {
      TidyWeave(env, fuel, First, pos, blockEnd, list, extend, t, p, silent);
    }
  }

  /** The trace when the first statement of a woven list is entered, past its counter. */
  function Entered(lead: Lead, pos: Pos, blockEnd: Pos, list: seq<Stmt>, extend: bool, t: Trace): Trace
    requires list != []
  {
    var ahead := Ahead(StartFor(lead, pos, list), blockEnd, list, extend);
    (if ahead != [] && ahead[0].Counter? then t + [Report(ahead[0].block)] else t)
    + [Enter(StartOf(list[0]), Heads(list[0], lead))]
  }

  lemma TidyEnter(lead: Lead, pos: Pos, blockEnd: Pos, list: seq<Stmt>, extend: bool, t: Trace, p: Pos, silent: bool)
    requires list != [] && Tidy(t, p, silent) && !ListStarts(list, p, true, silent)
    requires PlacedWeave(StartFor(lead, pos, list), lead, pos, blockEnd, list, extend)
    ensures Tidy(Entered(lead, pos, blockEnd, list, extend, t), p, silent)
  {
    CounterPresent(lead, pos, blockEnd, list, extend);
    var ahead := Ahead(StartFor(lead, pos, list), blockEnd, list, extend);
    var e := Enter(StartOf(list[0]), Heads(list[0], lead));
    hide Tidy, Placed, PlacedTail, Starts, Ahead;
    if ahead == [] {
      TidyNeutral(t, e, p, silent);
    } else if StartOf(list[0]) == p {
      TidyPair(t, ahead[0].block, p);
    } else {
      TidyNeutral(t, Report(ahead[0].block), p, silent);
      TidyNeutral(t + [Report(ahead[0].block)], e, p, silent);
    }
  }

  /** The run of a woven list, one statement at a time. */
  lemma RunEntered(env: Env, fuel: nat, lead: Lead, pos: Pos, blockEnd: Pos, list: seq<Stmt>, extend: bool, t: Trace)
    requires list != []
    requires PlacedWeave(StartFor(lead, pos, list), lead, pos, blockEnd, list, extend)
    ensures ExecList(env, fuel, Weave(StartFor(lead, pos, list), blockEnd, InstrList(list), extend), lead, t) ==
            var r := Exec(env, fuel, Instr(list[0]), None, Entered(lead, pos, blockEnd, list, extend, t));
            if r.out != Normal then r
            else ExecList(env, fuel,
                          Weave(NextStart(list), blockEnd, InstrList(list[1..]), extend && !EndsBasicBlock(list[0])),
                          LeadAfter(lead, list[0]), r.trace)
  {
    CounterPresent(lead, pos, blockEnd, list, extend);
    assert !list[0].Counter?;
    hide Exec, Instr, Placed;
    RunWoven(env, fuel, StartFor(lead, pos, list), lead, blockEnd, list, extend, t);
  }

  /** The premises carry over to the rest of a woven list. */
  lemma PlacedRest(lead: Lead, pos: Pos, blockEnd: Pos, list: seq<Stmt>, extend: bool)
    requires |list| > 1 && PlacedWeave(StartFor(lead, pos, list), lead, pos, blockEnd, list, extend)
    ensures var after := LeadAfter(lead, list[0]);
            && NextStart(list) == StartFor(after, pos, list[1..])
            && PlacedWeave(StartFor(after, pos, list[1..]), after, pos, blockEnd, list[1..],
                           extend && !EndsBasicBlock(list[0]))
  {
    assert !list[0].Counter?;
  }

  lemma {:induction false} TidyWeave(env: Env, fuel: nat, lead: Lead, pos: Pos, blockEnd: Pos, list: seq<Stmt>,
                                     extend: bool, t: Trace, p: Pos, silent: bool)
    requires list != [] && Tidy(t, p, silent) && !ListStarts(list, p, true, silent)
    requires PlacedWeave(StartFor(lead, pos, list), lead, pos, blockEnd, list, extend)
    ensures var woven := Weave(StartFor(lead, pos, list), blockEnd, InstrList(list), extend);
            Tidy(ExecList(env, fuel, woven, lead, t).trace, p, silent)
    decreases fuel, list, 1
  {
    var s, u := list[0], Entered(lead, pos, blockEnd, list, extend, t);
    assert Placed(s);
    TidyEnter(lead, pos, blockEnd, list, extend, t, p, silent);
    RunEntered(env, fuel, lead, pos, blockEnd, list, extend, t);
    TidyStmt(env, fuel, s, None, u, p, silent);
    if |list| > 1 {
      PlacedRest(lead, pos, blockEnd, list, extend);
      assert !ListStarts(list[1..], p, true, silent);
      hide Tidy, Exec, Instr, Placed, PlacedWeave, Entered, Starts, ListStarts, Ahead, Weave, StartFor, NextStart;
      var r := Exec(env, fuel, Instr(s), None, u);
      if r.out == Normal {
        var more := extend && !EndsBasicBlock(s);
        TidyWeave(env, fuel, LeadAfter(lead, s), pos, blockEnd, list[1..], more, r.trace, p, silent);
      }
    } else {
      assert InstrList(list[1..]) == [];
    }
  }

  lemma {:induction false} TidyStmt(env: Env, fuel: nat, s: Stmt, own: Option<Label>, t: Trace, p: Pos, silent: bool)
    requires Tidy(t, p, silent) && Placed(s) && !Starts(s, p, true, silent)
    ensures Tidy(Exec(env, fuel, Instr(s), own, t).trace, p, silent)
    decreases fuel, s, 3
  {
    hide Tidy;
    match s
    case Plain(_, _, x) => TidyExpr(env, fuel, x, t, p, silent);
    case Panic(_, _, x) => TidyExpr(env, fuel, x, t, p, silent);
    case Return(_, _, x) => TidyExpr(env, fuel, x, t, p, silent);
    case Branch(_, _, _, _) =>
    case Block(lbrace, rbrace, list) => TidyList(env, fuel, lbrace, rbrace + 1, list, true, t, p, silent);
    case If(_, _, _, _, _, _, _) => TidyIf(env, fuel, s, t, p, silent);
    case For(_, init, _, _, _, _, _) =>
      TidyOpt(env, fuel, init, t, p, silent);
      TidyLoop(env, fuel, s, own, EvalOpt(env, fuel, InstrOpt(init), t).trace, p, silent);
    case Switch(_, _, _, _, _, _, _) => TidySwitch(env, fuel, s, own, t, p, silent);
    case Labeled(_, name, stmt) => TidyStmt(env, fuel, stmt, Some(name), t, p, silent);
  }

  /** The header of an if is left as it is. */
  lemma {:induction false} TidyIf(env: Env, fuel: nat, s: Stmt, t: Trace, p: Pos, silent: bool)
    requires s.If? && Tidy(t, p, silent) && Placed(s) && !Starts(s, p, true, silent)
    ensures Tidy(Exec(env, fuel, Instr(s), None, t).trace, p, silent)
    decreases fuel, s, 2
  {
    hide Tidy;
    var r := EvalOpt(env, fuel, s.init, t);
    RawOpt(env, fuel, s.init, t, p, silent);
    if r.out == Normal {
      RawExpr(env, fuel, s.cond, r.trace, p, silent);
      var c := EvalExpr(env, fuel, s.cond, r.trace);
      TidyList(env, fuel, s.lbrace, s.rbrace + 1, s.list, true, c.trace, p, silent);
      TidyElse(env, fuel, s.rbrace + 1, s.els, c.trace, p, silent);
    }
  }

  lemma HiddenBlockPlaced(start: Pos, s: Stmt, p: Pos, silent: bool)
    requires PlacedElse(start, ElseIf(s)) && !ElseStarts(ElseIf(s), p, true, silent)
    ensures InstrList([s]) == [Instr(s)] && !ListStarts([s], p, true, silent)
    ensures PlacedWeave(Some(start), First, start, EndOf(s) + 1, [s], true)
  {
    assert [s][1..] == [];
  }

  /** The hidden block: its only statement is the nested if. */
  lemma {:induction false} TidyElseIf(env: Env, fuel: nat, start: Pos, s: Stmt, t: Trace, p: Pos, silent: bool)
    requires Tidy(t, p, silent) && PlacedElse(start, ElseIf(s)) && !ElseStarts(ElseIf(s), p, true, silent)
    ensures Tidy(ExecElse(env, fuel, InstrElse(start, ElseIf(s)), t).trace, p, silent)
    decreases fuel, s, 4
  {
    assert Placed(s) && !Starts(s, p, true, silent);
    HiddenBlockPlaced(start, s, p, silent);
    hide Tidy, Instr, Exec, Placed, Starts, ListStarts, PlacedWeave, Ahead, NextStart, Entered;
    TidyEnter(First, start, EndOf(s) + 1, [s], true, t, p, silent);
    RunEntered(env, fuel, First, start, EndOf(s) + 1, [s], true, t);
    TidyStmt(env, fuel, s, None, Entered(First, start, EndOf(s) + 1, [s], true, t), p, silent);
    assert [s][1..] == [] && InstrList([]) == [];
  }

  lemma {:induction false} TidyElse(env: Env, fuel: nat, start: Pos, els: Else, t: Trace, p: Pos, silent: bool)
    requires Tidy(t, p, silent) && PlacedElse(start, els) && !ElseStarts(els, p, true, silent)
    ensures Tidy(ExecElse(env, fuel, InstrElse(start, els), t).trace, p, silent)
    decreases fuel, els, 0
  {
    hide Tidy;
    match els
    case NoElse =>
    case ElseIf(s) => TidyElseIf(env, fuel, start, s, t, p, silent);
    case ElseBlock(_, rbrace, list) => TidyList(env, fuel, start, rbrace + 1, list, true, t, p, silent);
  }

  lemma {:induction false} TidyLoop(env: Env, fuel: nat, s: Stmt, own: Option<Label>, t: Trace, p: Pos, silent: bool)
    requires s.For? && Tidy(t, p, silent) && Placed(s) && !Starts(s, p, true, silent)
    ensures Tidy(Loop(env, fuel, Instr(s), own, t).trace, p, silent)
    decreases fuel, s, 2
  {
    hide Tidy;
    var s' := Instr(s);
    var c := EvalOpt(env, fuel, s'.test, t);
    TidyOpt(env, fuel, s.test, t, p, silent);
    TidyList(env, fuel, s.lbrace, s.rbrace + 1, s.list, true, c.trace, p, silent);
    var r := ExecList(env, fuel, s'.list, First, c.trace);
    TidyOpt(env, fuel, s.post, r.trace, p, silent);
    if fuel > 0 {
      TidyLoop(env, fuel - 1, s, own, EvalOpt(env, fuel, s'.post, r.trace).trace, p, silent);
    }
  }

  lemma {:induction false} TidySwitch(env: Env, fuel: nat, s: Stmt, own: Option<Label>, t: Trace, p: Pos, silent: bool)
    requires s.Switch? && Tidy(t, p, silent) && Placed(s) && !Starts(s, p, true, silent)
    ensures Tidy(Exec(env, fuel, Instr(s), own, t).trace, p, silent)
    decreases fuel, s, 2
  {
    hide Tidy;
    if s.clauses == [] {
      RawOpt(env, fuel, s.init, t, p, silent);
      RawOpt(env, fuel, s.tag, EvalOpt(env, fuel, s.init, t).trace, p, silent);
    } else {
      var r := EvalOpt(env, fuel, InstrOpt(s.init), t);
      TidyOpt(env, fuel, s.init, t, p, silent);
      var g := EvalOpt(env, fuel, InstrOpt(s.tag), r.trace);
      TidyOpt(env, fuel, s.tag, r.trace, p, silent);
      SameSelected(InstrClauses(s.clauses), s.clauses, env(0, Erase(g.trace)));
      var k := Selected(s.clauses, env(0, Erase(g.trace)));
      if k < |s.clauses| {
        TidyClauses(env, fuel, s.clauses, k, true, g.trace, p, silent);
      }
    }
  }

  lemma {:induction false} TidyClauses(env: Env, fuel: nat, clauses: seq<Clause>, k: nat, chosen: bool,
                                       t: Trace, p: Pos, silent: bool)
    requires k < |clauses| && Tidy(t, p, silent) && PlacedClauses(clauses) && !ClausesStart(clauses, p, true, silent)
    ensures Tidy(ExecClauses(env, fuel, InstrClauses(clauses)[k..], chosen, t).trace, p, silent)
    decreases fuel, clauses, 0
  {
    hide Tidy;
    var cs := InstrClauses(clauses);
    assert cs[1..] == InstrClauses(clauses[1..]);
    if k > 0 {
      assert cs[k..] == cs[1..][k - 1..];
      TidyClauses(env, fuel, clauses[1..], k - 1, chosen, t, p, silent);
    } else {
      var c := clauses[0];
      assert cs[0..] == cs;
      if chosen {
        TidyExpr(env, fuel, c.guard, t, p, silent);
      }
      var g := if chosen then EvalExpr(env, fuel, InstrExpr(c.guard), t) else Result(t, Normal);
      TidyList(env, fuel, c.pos, c.end, c.body, false, g.trace, p, silent);
      if |clauses| > 1 {
        assert cs[1..][0..] == cs[1..];
        var r := ExecList(env, fuel, cs[0].body, First, g.trace);
        TidyClauses(env, fuel, clauses[1..], 0, false, r.trace, p, silent);
      }
    }
  }

  // ----------------------------------------------------------------- counting

  /** How often a counter for the statement at p has been reported. */
  function Reports(t: Trace, p: Pos): nat {
    if t == [] then 0
    else
      var e := t[|t| - 1];
      Reports(t[..|t| - 1], p) + if Reported(e, p) then 1 else 0
  }

  /** How often the statement at p has been entered at the head of a counted segment. */
  function Entries(t: Trace, p: Pos): nat {
    if t == [] then 0
    else Entries(t[..|t| - 1], p) + if t[|t| - 1] == Enter(p, true) then 1 else 0
  }

  lemma CountsAppend(t: Trace, e: Event, p: Pos)
    ensures Entries(t + [e], p) == Entries(t, p) + if e == Enter(p, true) then 1 else 0
    ensures Reports(t + [e], p) == Reports(t, p) + if Reported(e, p) then 1 else 0
  {
    assert (t + [e])[..|t|] == t;
  }

  lemma {:induction false} TidyCounts(t: Trace, p: Pos)
    requires Tidy(t, p, false)
    ensures Reports(t, p) == Entries(t, p)
    decreases |t|
  {
    if t != [] {
      var n := |t| - 1;
      assert TidyAt(t, n, p);
      if t[n] == Enter(p, true) {
        assert t[..n][..n - 1] == t[..n - 1];
        TidyFront(t, n - 1, p);
        TidyCounts(t[..n - 1], p);
        assert TidyAt(t, n - 1, p);
      } else {
        TidyFront(t, n, p);
        TidyCounts(t[..n], p);
      }
    }
  }

  /** A trace can be cut anywhere but between a report and its statement. */
  lemma TidyFront(t: Trace, n: nat, p: Pos)
    requires Tidy(t, p, false) && n < |t| && (n > 0 ==> !Reported(t[n - 1], p))
    ensures Tidy(t[..n], p, false)
  {
    forall i | 0 <= i < n ensures TidyAt(t[..n], i, p) {
      assert TidyAt(t, i, p);
    }
  }

  lemma {:induction false} SilentCounts(t: Trace, p: Pos)
    requires Tidy(t, p, true)
    ensures Reports(t, p) == 0
  {
    if t != [] {
      SilentCounts(t[..|t| - 1], p);
    }
  }

  lemma {:induction false} EntriesObservable(t: Trace, p: Pos)
    ensures Entries(Erase(t), p) == Entries(t, p)
  {
    if t != [] {
      var front := t[..|t| - 1];
      EntriesObservable(front, p);
      if !t[|t| - 1].Report? {
        assert Erase(t)[..|Erase(t)| - 1] == Erase(front);
      }
    }
  }

  // ----------------------------------------------------------------- theorems

  /** Some statement at p is one that the walk over a function body reaches. */
  predicate Walked(body: seq<Stmt>, p: Pos) {
    ListStarts(body, p, true, true)
  }

  /** Some statement at p lies in a function literal that the walk does not reach. */
  predicate Unwalked(body: seq<Stmt>, p: Pos) {
    ListStarts(body, p, true, false)
  }

  function OriginalRun(env: Env, fuel: nat, body: seq<Stmt>): Trace {
    ExecList(env, fuel, body, First, []).trace
  }

  function InstrumentedRun(env: Env, fuel: nat, lbrace: Pos, rbrace: Pos, body: seq<Stmt>): Trace {
    ExecList(env, fuel, WithCounters(lbrace, rbrace + 1, InstrList(body), true), First, []).trace
  }

  /** In every run of an instrumented function body, reports and the segments they stand
      for come in pairs, one right after the other, outside of literals the walk misses. */
  lemma ReportsPairWithEntries(env: Env, fuel: nat, lbrace: Pos, rbrace: Pos, body: seq<Stmt>, p: Pos)
    requires PlacedList(lbrace, rbrace + 1, body) && !Unwalked(body, p)
    ensures Tidy(InstrumentedRun(env, fuel, lbrace, rbrace, body), p, false)
  {
    TidyList(env, fuel, lbrace, rbrace + 1, body, true, [], p, false);
  }

  /** In every run, the instrumented function body reports the counter of a segment exactly
      as often as the original body enters the first statement of that segment, if the walk
      reaches it; a segment that only lies in literals the walk misses is never reported. */
  lemma CountersAreExact(env: Env, fuel: nat, lbrace: Pos, rbrace: Pos, body: seq<Stmt>, p: Pos)
    requires PlacedList(lbrace, rbrace + 1, body)
    ensures !Unwalked(body, p) ==>
              Reports(InstrumentedRun(env, fuel, lbrace, rbrace, body), p) == Entries(OriginalRun(env, fuel, body), p)
    ensures !Walked(body, p) ==> Reports(InstrumentedRun(env, fuel, lbrace, rbrace, body), p) == 0
  {
    var t, o := InstrumentedRun(env, fuel, lbrace, rbrace, body), OriginalRun(env, fuel, body);
    if !Unwalked(body, p) {
      ReportsPairWithEntries(env, fuel, lbrace, rbrace, body, p);
      TidyCounts(t, p);
      InstrumentedBodyPreservesMeaning(env, fuel, lbrace, rbrace, body, []);
      EntriesObservable(t, p);
      EntriesObservable(o, p);
    }
    if !Walked(body, p) {
      TidyList(env, fuel, lbrace, rbrace + 1, body, true, [], p, true);
      SilentCounts(t, p);
    }
  }

  /** So in a run, a position that belongs to one statement is counted right if and only if
      the walk reaches that statement, or the run never enters it. */
  lemma ExactWhenWalked(env: Env, fuel: nat, lbrace: Pos, rbrace: Pos, body: seq<Stmt>, p: Pos)
    requires PlacedList(lbrace, rbrace + 1, body) && !(Walked(body, p) && Unwalked(body, p))
    ensures var entries := Entries(OriginalRun(env, fuel, body), p);
            Reports(InstrumentedRun(env, fuel, lbrace, rbrace, body), p) == entries <==>
            !Unwalked(body, p) || entries == 0
  {
    CountersAreExact(env, fuel, lbrace, rbrace, body, p);
  }

  /** A condition that calls a function literal: `if func() bool { x() }() { }`. */
  const Callee := [Plain(3, 4, Expr(7, []))]
  const HeaderLiteral := If(1, None, Expr(0, [FuncLit(2, 5, Callee)]), 8, 9, [], NoElse)

  /** An environment that calls the literal once. */
  const CallOnce: Env := (id: nat, t: Trace) => if id == 0 && |t| == 2 then 1 else 0

  lemma CalleeRuns(t: Trace)
    ensures ExecList(CallOnce, 0, Callee, First, t) == Result(t + [Enter(3, true)] + [Eval(7)], Normal)
  {
    var u := t + [Enter(3, true)] + [Eval(7)];
    assert CallLits(CallOnce, 0, 7, [], u) == Result(u, Normal);
    assert EvalExpr(CallOnce, 0, Expr(7, []), t + [Enter(3, true)]) == Result(u, Normal);
    assert Callee[1..] == [];
    assert ExecList(CallOnce, 0, [], Inner, u) == Result(u, Normal);
  }

  lemma HeaderRuns(t: Trace)
    requires |Erase(t)| == 1
    ensures EvalExpr(CallOnce, 1, HeaderLiteral.cond, t) ==
            Result(t + [Eval(0)] + [Call(0, 0)] + [Enter(3, true)] + [Eval(7)], Normal)
  {
    var u := t + [Eval(0)];
    var v := u + [Call(0, 0)];
    var w := v + [Enter(3, true)] + [Eval(7)];
    EraseAppend(t, Eval(0));
    EraseAppend(u, Call(0, 0));
    EraseAppend(v, Enter(3, true));
    EraseAppend(v + [Enter(3, true)], Eval(7));
    CalleeRuns(v);
    assert |Erase(w)| == 5;
    assert CallLits(CallOnce, 0, 0, HeaderLiteral.cond.lits, w) == Result(w, Normal);
    assert CallLits(CallOnce, 1, 0, HeaderLiteral.cond.lits, u) == Result(w, Normal);
  }

  lemma CalleeStarts(walked: bool)
    ensures ListStarts(Callee, 3, false, walked) <==> !walked
  {
    assert Callee[1..] == [] && !LitsStart([], 3, false, walked);
    assert !Starts(Callee[0], 3, false, walked);
  }

  lemma HeaderStarts(walked: bool)
    ensures ListStarts([HeaderLiteral], 3, true, walked) <==> !walked
  {
    var lits := HeaderLiteral.cond.lits;
    CalleeStarts(walked);
    assert lits[0].body == Callee;
    assert LitsStart(lits, 3, false, walked) <==> !walked;
    assert ExprStarts(HeaderLiteral.cond, 3, false, walked) <==> !walked;
    assert !ListStarts([], 3, true, walked) && !ElseStarts(NoElse, 3, true, walked);
    assert !OptStarts(None, 3, false, walked);
    assert Starts(HeaderLiteral, 3, true, walked) <==> !walked;
    assert [HeaderLiteral][1..] == [];
  }

  lemma HeaderPlaced()
    ensures PlacedList(0, 10, [HeaderLiteral])
  {
    var lits := HeaderLiteral.cond.lits;
    assert PlacedLits([]) && Placed(Callee[0]) && PlacedTail(Callee) && PlacedList(2, 6, Callee);
    assert PlacedLits(lits) && PlacedExpr(HeaderLiteral.cond) && PlacedOpt(None);
    assert LiteralIn(HeaderLiteral.cond) == Some(2) && LiteralInOpt(None) == None;
    assert StartOf(HeaderLiteral) < StatementBoundary(HeaderLiteral);
    assert PlacedList(8, 10, []) && PlacedElse(10, NoElse);
    assert Placed(HeaderLiteral);
  }

  /** The walk goes on to the branches of an if only, so a literal in its header runs without
      being counted. */
  lemma HeaderLiteralIsNotCounted()
    ensures PlacedList(0, 10, [HeaderLiteral]) && Unwalked([HeaderLiteral], 3) && !Walked([HeaderLiteral], 3)
    ensures Entries(Exec(CallOnce, 1, HeaderLiteral, None, [Enter(1, true)]).trace, 3) == 1
    ensures Reports(Exec(CallOnce, 1, Instr(HeaderLiteral), None, [Enter(1, true)]).trace, 3) == 0
  {
    HeaderPlaced();
    HeaderStarts(false);
    HeaderStarts(true);
    var t := [Enter(1, true)];
    EraseAppend([], Enter(1, true));
    assert [] + [Enter(1, true)] == t;
    HeaderRuns(t);
    var w := t + [Eval(0)] + [Call(0, 0)] + [Enter(3, true)] + [Eval(7)];
    assert Exec(CallOnce, 1, HeaderLiteral, None, t).trace == w;
    assert Exec(CallOnce, 1, Instr(HeaderLiteral), None, t).trace == w;
    CountsAppend([], Enter(1, true), 3);
    CountsAppend(t, Eval(0), 3);
    CountsAppend(t + [Eval(0)], Call(0, 0), 3);
    CountsAppend(t + [Eval(0)] + [Call(0, 0)], Enter(3, true), 3);
    CountsAppend(t + [Eval(0)] + [Call(0, 0)] + [Enter(3, true)], Eval(7), 3);
  }
}
