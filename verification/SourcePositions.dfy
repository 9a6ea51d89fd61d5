/**
 Where the pieces of a parsed program stand: each statement within its list, each function
 literal within its expression, one after the other.
 */
module SourcePositions {
  import opened Basics
  import opened GoSyntax

  /** Just past the last function literal of an expression that starts at lo. */
  function After(x: Expr, lo: Pos): Pos {
    if x.lits == [] then lo else x.lits[|x.lits| - 1].rbrace + 1
  }

  function AfterOpt(x: Option<Expr>, lo: Pos): Pos {
    if x.Some? then After(x.value, lo) else lo
  }

  /** The statements of a list stand between lo and hi, in order. */
  ghost predicate ListIn(list: seq<Stmt>, lo: Pos, hi: Pos)
    decreases list, 0
  {
    if list == [] then lo <= hi
    else lo <= StartOf(list[0]) && WellPlaced(list[0]) && ListIn(list[1..], EndOf(list[0]), hi)
  }

  ghost predicate WellPlaced(s: Stmt)
    decreases s, 1
  {
    match s
    case Plain(pos, end, x) => ExprIn(x, pos + 1, end)
    case Panic(pos, end, x) => ExprIn(x, pos + 1, end)
    case Return(pos, end, x) => ExprIn(x, pos + 1, end)
    case Branch(pos, end, _, _) => pos < end
    case Block(lbrace, rbrace, list) => ListIn(list, lbrace + 1, rbrace)
    case If(pos, init, cond, lbrace, rbrace, list, els) =>
      && OptIn(init, pos + 1, lbrace) && ExprIn(cond, AfterOpt(init, pos + 1), lbrace)
      && ListIn(list, lbrace + 1, rbrace) && ElseIn(els, rbrace + 1)
    case For(pos, init, test, post, lbrace, rbrace, list) =>
      && OptIn(init, pos + 1, lbrace) && OptIn(test, AfterOpt(init, pos + 1), lbrace)
      && OptIn(post, AfterOpt(test, AfterOpt(init, pos + 1)), lbrace)
      && ListIn(list, lbrace + 1, rbrace)
    case Switch(pos, _, init, tag, lbrace, rbrace, clauses) =>
      && OptIn(init, pos + 1, lbrace) && OptIn(tag, AfterOpt(init, pos + 1), lbrace)
      && ClausesIn(clauses, lbrace + 1, rbrace)
    case Labeled(pos, _, stmt) => pos < StartOf(stmt) && WellPlaced(stmt)
    case Counter(_) => false
  }

  ghost predicate ElseIn(els: Else, start: Pos)
    decreases els, 0
  {
    match els
    case NoElse => true
    case ElseIf(s) => s.If? && start < StartOf(s) && WellPlaced(s)
    case ElseBlock(_, rbrace, list) => ListIn(list, start + 1, rbrace)
  }

  ghost predicate ClausesIn(clauses: seq<Clause>, lo: Pos, hi: Pos)
    decreases clauses, 0
  {
    if clauses == [] then lo <= hi
    else
      var c := clauses[0];
      && lo <= c.pos && ExprIn(c.guard, c.pos + 1, c.end)
      && ListIn(c.body, After(c.guard, c.pos + 1), c.end)
      && ClausesIn(clauses[1..], c.end, hi)
  }

  ghost predicate ExprIn(x: Expr, lo: Pos, hi: Pos)
    decreases x, 1
  {
    LitsIn(x.lits, lo, hi)
  }

  ghost predicate OptIn(x: Option<Expr>, lo: Pos, hi: Pos)
    decreases x, 2
  {
    if x.Some? then ExprIn(x.value, lo, hi) else lo <= hi
  }

  ghost predicate LitsIn(lits: seq<FuncLit>, lo: Pos, hi: Pos)
    decreases lits, 0
  {
    if lits == [] then lo <= hi
    else
      && lo <= lits[0].lbrace && ListIn(lits[0].body, lits[0].lbrace + 1, lits[0].rbrace)
      && LitsIn(lits[1..], lits[0].rbrace + 1, hi)
  }

  // ------------------------------------------------------------------ order

  lemma {:induction false} ListOrder(list: seq<Stmt>, lo: Pos, hi: Pos)
    requires ListIn(list, lo, hi)
    ensures lo <= hi
    decreases list, 0
  {
    if list != [] {
      StmtOrder(list[0]);
      ListOrder(list[1..], EndOf(list[0]), hi);
    }
  }

  lemma {:induction false} LitsOrder(lits: seq<FuncLit>, lo: Pos, hi: Pos)
    requires LitsIn(lits, lo, hi)
    ensures lo <= After(Expr(0, lits), lo) <= hi
    ensures lits != [] ==> lo <= lits[0].lbrace < After(Expr(0, lits), lo)
    decreases lits, 0
  {
    if lits != [] {
      ListOrder(lits[0].body, lits[0].lbrace + 1, lits[0].rbrace);
      LitsOrder(lits[1..], lits[0].rbrace + 1, hi);
    }
  }

  lemma ExprOrder(x: Expr, lo: Pos, hi: Pos)
    requires ExprIn(x, lo, hi)
    ensures lo <= After(x, lo) <= hi
    ensures LiteralIn(x).Some? ==> lo <= LiteralIn(x).value < After(x, lo)
    decreases x, 1
  {
    LitsOrder(x.lits, lo, hi);
  }

  lemma OptOrder(x: Option<Expr>, lo: Pos, hi: Pos)
    requires OptIn(x, lo, hi)
    ensures lo <= AfterOpt(x, lo) <= hi
    ensures LiteralInOpt(x).Some? ==> lo <= LiteralInOpt(x).value < AfterOpt(x, lo)
    decreases x, 2
  {
    if x.Some? {
      ExprOrder(x.value, lo, hi);
    }
  }

  lemma {:induction false} ClausesOrder(clauses: seq<Clause>, lo: Pos, hi: Pos)
    requires ClausesIn(clauses, lo, hi)
    ensures lo <= hi
    decreases clauses, 0
  {
    if clauses != [] {
      ExprOrder(clauses[0].guard, clauses[0].pos + 1, clauses[0].end);
      ClausesOrder(clauses[1..], clauses[0].end, hi);
    }
  }

  /** The boundary of a statement lies within it, and past its start unless it is a bare block. */
  lemma {:induction false} StmtOrder(s: Stmt)
    requires WellPlaced(s)
    ensures StartOf(s) <= StatementBoundary(s) <= EndOf(s) && StartOf(s) < EndOf(s)
    ensures StartOf(s) < StatementBoundary(s) <==> !s.Block?
    decreases s, 1
  {
    match s
    case Plain(pos, end, x) => ExprOrder(x, pos + 1, end);
    case Panic(pos, end, x) => ExprOrder(x, pos + 1, end);
    case Return(pos, end, x) => ExprOrder(x, pos + 1, end);
    case Branch(_, _, _, _) =>
    case Block(lbrace, rbrace, list) => ListOrder(list, lbrace + 1, rbrace);
    case If(pos, init, cond, lbrace, rbrace, list, els) =>
      OptOrder(init, pos + 1, lbrace);
      ExprOrder(cond, AfterOpt(init, pos + 1), lbrace);
      ListOrder(list, lbrace + 1, rbrace);
      ElseOrder(els, rbrace + 1);
    case For(pos, init, test, post, lbrace, rbrace, list) =>
      OptOrder(init, pos + 1, lbrace);
      OptOrder(test, AfterOpt(init, pos + 1), lbrace);
      OptOrder(post, AfterOpt(test, AfterOpt(init, pos + 1)), lbrace);
      ListOrder(list, lbrace + 1, rbrace);
    case Switch(pos, _, init, tag, lbrace, rbrace, clauses) =>
      OptOrder(init, pos + 1, lbrace);
      OptOrder(tag, AfterOpt(init, pos + 1), lbrace);
      ClausesOrder(clauses, lbrace + 1, rbrace);
    case Labeled(_, _, stmt) => StmtOrder(stmt);
  }

  /** Where an else ends. */
  function ElseEnd(els: Else, start: Pos): Pos {
    match els
    case NoElse => start
    case ElseIf(s) => EndOf(s)
    case ElseBlock(_, rbrace, _) => rbrace + 1
  }

  lemma {:induction false} ElseOrder(els: Else, start: Pos)
    requires ElseIn(els, start)
    ensures start <= ElseEnd(els, start)
    decreases els, 0
  {
    match els
    case NoElse =>
    case ElseIf(s) => StmtOrder(s);
    case ElseBlock(_, rbrace, list) => ListOrder(list, start + 1, rbrace);
  }

  /** In a placed list, a statement stops before the next one starts. */
  lemma {:induction false} StatementsAscend(list: seq<Stmt>, lo: Pos, hi: Pos, i: nat, j: nat)
    requires ListIn(list, lo, hi) && i <= j < |list|
    ensures WellPlaced(list[i]) && WellPlaced(list[j]) && lo <= StartOf(list[i]) && EndOf(list[j]) <= hi
    ensures StartOf(list[i]) <= StartOf(list[j])
    ensures i < j ==> EndOf(list[i]) <= StartOf(list[j])
    decreases j
  {
    StmtOrder(list[0]);
    ListOrder(list[1..], EndOf(list[0]), hi);
    if i > 0 {
      StatementsAscend(list[1..], EndOf(list[0]), hi, i - 1, j - 1);
    } else if j > 0 {
      StatementsAscend(list[1..], EndOf(list[0]), hi, 0, j - 1);
      StmtOrder(list[1]);
    }
  }
}
