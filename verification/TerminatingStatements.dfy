/**
 Counters never take the last place of a list.  So the instrumented program still meets
 two rules of the Go Programming Language Specification: a function with results ends
 in a terminating statement ("Terminating statements"), and fallthrough is the last
 statement of its clause ("Fallthrough statements").
 */
module TerminatingStatements {
  import opened Basics
  import opened GoSyntax
  import opened Instrumenter

  // ----------------------------------------------------------------- the rules

  /** Does s hold a break that refers to an enclosing statement labelled own?  Breaks
      without label count unless an inner statement takes them. */
  predicate Breaks(s: Stmt, own: Option<Label>, inner: bool)
    decreases s, 1
  {
    match s
    case Branch(_, _, kind, target) => kind == Break && if target == None then !inner else target == own
    case Block(_, _, list) => ListBreaks(list, own, inner)
    case If(_, _, _, _, _, list, els) => ListBreaks(list, own, inner) || ElseBreaks(els, own, inner)
    case For(_, _, _, _, _, _, list) => ListBreaks(list, own, true)
    case Switch(_, _, _, _, _, _, clauses) => ClausesBreak(clauses, own, true)
    case Labeled(_, _, stmt) => Breaks(stmt, own, inner)
    case _ => false
  }

  predicate ListBreaks(list: seq<Stmt>, own: Option<Label>, inner: bool)
    decreases list, 0
  {
    exists i :: 0 <= i < |list| && Breaks(list[i], own, inner)
  }

  predicate ElseBreaks(els: Else, own: Option<Label>, inner: bool)
    decreases els, 0
  {
    match els
    case NoElse => false
    case ElseIf(s) => Breaks(s, own, inner)
    case ElseBlock(_, _, list) => ListBreaks(list, own, inner)
  }

  predicate ClausesBreak(clauses: seq<Clause>, own: Option<Label>, inner: bool)
    decreases clauses, 0
  {
    exists i :: 0 <= i < |clauses| && ListBreaks(clauses[i].body, own, inner)
  }

  predicate Terminating(s: Stmt, own: Option<Label>)
    decreases s, 1
  {
    match s
    case Return(_, _, _) => true
    case Panic(_, _, _) => true
    case Block(_, _, list) => ListTerminating(list)
    case If(_, _, _, _, _, list, els) => ListTerminating(list) && ElseTerminating(els)
    case For(_, _, test, _, _, _, list) => test == None && !ListBreaks(list, own, false)
    case Switch(_, kind, _, _, _, _, clauses) =>
      && !ClausesBreak(clauses, own, false)
      && (kind == Select || exists i :: 0 <= i < |clauses| && clauses[i].isDefault)
      && forall i :: 0 <= i < |clauses| ==>
           ListTerminating(clauses[i].body) || (kind != Select && EndsInFallthrough(clauses[i].body))
    case Labeled(_, name, stmt) => Terminating(stmt, Some(name))
    case _ => false
  }

  predicate ListTerminating(list: seq<Stmt>)
    decreases list, 0
  {
    list != [] && Terminating(list[|list| - 1], None)
  }

  predicate ElseTerminating(els: Else)
    decreases els, 0
  {
    match els
    case NoElse => false
    case ElseIf(s) => Terminating(s, None)
    case ElseBlock(_, _, list) => ListTerminating(list)
  }

  /** The last statement is a fallthrough, possibly labelled. */
  predicate EndsInFallthrough(list: seq<Stmt>) {
    list != [] && IsFallthrough(list[|list| - 1])
  }

  predicate IsFallthrough(s: Stmt) {
    match s
    case Branch(_, _, kind, _) => kind == Fallthrough
    case Labeled(_, _, stmt) => IsFallthrough(stmt)
    case _ => false
  }

  // ------------------------------------------------------- what counters change

  /** Counters only: the statements of a woven list are those of the list, the last one last. */
  lemma {:induction false} WeaveKeepsLast(start: Option<Pos>, blockEnd: Pos, list: seq<Stmt>, extend: bool)
    requires list != []
    ensures var w := Weave(start, blockEnd, list, extend); w != [] && w[|w| - 1] == list[|list| - 1]
    decreases |list|
  {
    if |list| > 1 {
      WeaveKeepsLast(NextStart(list), blockEnd, list[1..], extend && !EndsBasicBlock(list[0]));
    }
  }

  lemma {:induction false} WeaveBreaks(start: Option<Pos>, blockEnd: Pos, list: seq<Stmt>, extend: bool,
                                       own: Option<Label>, inner: bool)
    ensures ListBreaks(Weave(start, blockEnd, list, extend), own, inner) == ListBreaks(list, own, inner)
    decreases |list|
  {
    if list != [] {
      var ahead := Ahead(start, blockEnd, list, extend);
      var rest := Weave(NextStart(list), blockEnd, list[1..], extend && !EndsBasicBlock(list[0]));
      CountersDoNotBreak(start, blockEnd, list, extend, own, inner);
      WeaveBreaks(NextStart(list), blockEnd, list[1..], extend && !EndsBasicBlock(list[0]), own, inner);
      BreaksInThree(ahead, [list[0]], rest, own, inner);
      BreaksInThree([], [list[0]], list[1..], own, inner);
      assert [] + [list[0]] + list[1..] == list;
    }
  }

  lemma CountersDoNotBreak(start: Option<Pos>, blockEnd: Pos, list: seq<Stmt>, extend: bool, own: Option<Label>,
                           inner: bool)
    requires list != []
    ensures !ListBreaks(Ahead(start, blockEnd, list, extend), own, inner)
  {
  }

  lemma BreaksInThree(a: seq<Stmt>, b: seq<Stmt>, c: seq<Stmt>, own: Option<Label>, inner: bool)
    ensures ListBreaks(a + b + c, own, inner) ==
            (ListBreaks(a, own, inner) || ListBreaks(b, own, inner) || ListBreaks(c, own, inner))
  {
    BreaksConcat(a, b, own, inner);
    BreaksConcat(a + b, c, own, inner);
  }

  lemma BreaksConcat(a: seq<Stmt>, b: seq<Stmt>, own: Option<Label>, inner: bool)
    ensures ListBreaks(a + b, own, inner) == (ListBreaks(a, own, inner) || ListBreaks(b, own, inner))
  {
    if ListBreaks(a, own, inner) {
      var i :| 0 <= i < |a| && Breaks(a[i], own, inner);
      assert (a + b)[i] == a[i];
    }
    if ListBreaks(b, own, inner) {
      var i :| 0 <= i < |b| && Breaks(b[i], own, inner);
      assert (a + b)[|a| + i] == b[i];
    }
  }

  lemma BodyBreaks(pos: Pos, blockEnd: Pos, list: seq<Stmt>, extend: bool, own: Option<Label>, inner: bool)
    ensures ListBreaks(WithCounters(pos, blockEnd, InstrList(list), extend), own, inner) == ListBreaks(list, own, inner)
    decreases list, 2
  {
    WeaveBreaks(Some(pos), blockEnd, InstrList(list), extend, own, inner);
    forall i | 0 <= i < |list| ensures Breaks(InstrList(list)[i], own, inner) == Breaks(list[i], own, inner) {
      InstrKeepsBreaks(list[i], own, inner);
    }
    if ListBreaks(list, own, inner) {
      var i :| 0 <= i < |list| && Breaks(list[i], own, inner);
      assert Breaks(InstrList(list)[i], own, inner);
    }
  }

  lemma {:induction false} InstrKeepsBreaks(s: Stmt, own: Option<Label>, inner: bool)
    ensures Breaks(Instr(s), own, inner) == Breaks(s, own, inner)
    decreases s, 1
  {
    hide WithCounters, InstrList, ListBreaks, ElseBreaks, InstrElse, ClausesBreak, InstrClauses;
    match s
    case Block(lbrace, rbrace, list) => BodyBreaks(lbrace, rbrace + 1, list, true, own, inner);
    case If(_, _, _, lbrace, rbrace, list, els) =>
      BodyBreaks(lbrace, rbrace + 1, list, true, own, inner);
      ElseKeepsBreaks(rbrace + 1, els, own, inner);
    case For(_, _, _, _, lbrace, rbrace, list) => BodyBreaks(lbrace, rbrace + 1, list, true, own, true);
    case Switch(_, _, _, _, _, _, clauses) => ClausesKeepBreaks(clauses, own, true);
    case Labeled(_, _, stmt) => InstrKeepsBreaks(stmt, own, inner);
    case _ =>
  }

  lemma {:induction false} ElseKeepsBreaks(start: Pos, els: Else, own: Option<Label>, inner: bool)
    ensures ElseBreaks(InstrElse(start, els), own, inner) == ElseBreaks(els, own, inner)
    decreases els, 0
  {
    match els
    case NoElse =>
    case ElseIf(s) =>
      WeaveBreaks(Some(start), EndOf(s) + 1, [Instr(s)], true, own, inner);
      InstrKeepsBreaks(s, own, inner);
      assert Breaks([Instr(s)][0], own, inner) == ListBreaks([Instr(s)], own, inner);
    case ElseBlock(_, rbrace, list) => BodyBreaks(start, rbrace + 1, list, true, own, inner);
  }

  lemma {:induction false} ClausesKeepBreaks(clauses: seq<Clause>, own: Option<Label>, inner: bool)
    ensures ClausesBreak(InstrClauses(clauses), own, inner) == ClausesBreak(clauses, own, inner)
    decreases clauses, 0
  {
    var cs := InstrClauses(clauses);
    forall i | 0 <= i < |clauses|
      ensures ListBreaks(cs[i].body, own, inner) == ListBreaks(clauses[i].body, own, inner)
    {
      BodyBreaks(clauses[i].pos, clauses[i].end, clauses[i].body, false, own, inner);
    }
    if ClausesBreak(clauses, own, inner) {
      var i :| 0 <= i < |clauses| && ListBreaks(clauses[i].body, own, inner);
      assert ListBreaks(cs[i].body, own, inner);
    }
  }

  // ----------------------------------------------------------------- theorems

  lemma {:induction false} InstrKeepsFallthrough(s: Stmt)
    ensures IsFallthrough(Instr(s)) == IsFallthrough(s)
  {
    if s.Labeled? {
      InstrKeepsFallthrough(s.stmt);
    }
  }

  /** A list in braces or of a clause keeps its last statement, and what that is good for. */
  lemma BodyKeepsEnd(pos: Pos, blockEnd: Pos, list: seq<Stmt>, extend: bool)
    ensures ListTerminating(WithCounters(pos, blockEnd, InstrList(list), extend)) == ListTerminating(list)
    ensures EndsInFallthrough(WithCounters(pos, blockEnd, InstrList(list), extend)) == EndsInFallthrough(list)
    decreases list, 2
  {
    if list != [] {
      WeaveKeepsLast(Some(pos), blockEnd, InstrList(list), extend);
      InstrKeepsTerminating(list[|list| - 1], None);
      InstrKeepsFallthrough(list[|list| - 1]);
    }
  }

  /** Instrumenting neither makes nor breaks a terminating statement. */
  lemma {:induction false} InstrKeepsTerminating(s: Stmt, own: Option<Label>)
    ensures Terminating(Instr(s), own) == Terminating(s, own)
    decreases s, 1
  {
    hide WithCounters, InstrList, ListTerminating, ElseTerminating;
    match s
    case Block(lbrace, rbrace, list) => BodyKeepsEnd(lbrace, rbrace + 1, list, true);
    case If(_, _, _, lbrace, rbrace, list, els) =>
      BodyKeepsEnd(lbrace, rbrace + 1, list, true);
      ElseKeepsTerminating(rbrace + 1, els);
    case For(_, _, _, _, lbrace, rbrace, list) => BodyBreaks(lbrace, rbrace + 1, list, true, own, false);
    case Switch(_, _, _, _, _, _, _) => SwitchKeepsTerminating(s, own);
    case Labeled(_, name, stmt) => InstrKeepsTerminating(stmt, Some(name));
    case _ =>
  }

  lemma {:induction false} ElseKeepsTerminating(start: Pos, els: Else)
    ensures ElseTerminating(InstrElse(start, els)) == ElseTerminating(els)
    decreases els, 0
  {
    match els
    case NoElse =>
    case ElseIf(s) =>
      WeaveKeepsLast(Some(start), EndOf(s) + 1, [Instr(s)], true);
      InstrKeepsTerminating(s, None);
    case ElseBlock(_, rbrace, list) => BodyKeepsEnd(start, rbrace + 1, list, true);
  }

  lemma {:induction false} SwitchKeepsTerminating(s: Stmt, own: Option<Label>)
    requires s.Switch?
    ensures Terminating(Instr(s), own) == Terminating(s, own)
    decreases s, 0
  {
    var cs := InstrClauses(s.clauses);
    ClausesKeepBreaks(s.clauses, own, false);
    forall i | 0 <= i < |s.clauses|
      ensures cs[i].isDefault == s.clauses[i].isDefault
      ensures ListTerminating(cs[i].body) == ListTerminating(s.clauses[i].body)
      ensures EndsInFallthrough(cs[i].body) == EndsInFallthrough(s.clauses[i].body)
    {
      BodyKeepsEnd(s.clauses[i].pos, s.clauses[i].end, s.clauses[i].body, false);
    }
  }
}
