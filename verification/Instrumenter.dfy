/**
 The coverage instrumenter: where counters go, and how the tree walk places them.
 */
module Instrumenter {
  import opened Basics
  import opened GoSyntax

  // ------------------------------------------------------- where counters go

  /** The number of statements of the basic block a list starts with. */
  function BlockLength(list: seq<Stmt>): (n: nat)
    requires list != []
    ensures 1 <= n <= |list|
    ensures n < |list| ==> EndsBasicBlock(list[n - 1])
    ensures forall i :: 0 <= i < n - 1 ==> !EndsBasicBlock(list[i])
  {
    if |list| == 1 || EndsBasicBlock(list[0]) then 1 else 1 + BlockLength(list[1..])
  }

  /** Where the basic block a list starts with ends: at the closing brace when nothing
      breaks the list up. */
  function BlockEnd(blockEnd: Pos, list: seq<Stmt>, extend: bool): Pos
    requires list != []
  {
    var last := list[BlockLength(list) - 1];
    if extend && !EndsBasicBlock(last) then blockEnd else StatementBoundary(last)
  }

  /** The counter for the basic block a list starts with; none if there is no source to cover. */
  function CounterFor(pos: Pos, blockEnd: Pos, list: seq<Stmt>, extend: bool): seq<Stmt>
    requires list != []
  {
    var end := BlockEnd(blockEnd, list, extend);
    if pos == end then []
    else [Counter(BlockInfo(pos, end, BlockLength(list), Some(StartOf(list[0]))))]
  }

  /** The counter in front of a list, when a block that is counted from start begins there. */
  function Ahead(start: Option<Pos>, blockEnd: Pos, list: seq<Stmt>, extend: bool): seq<Stmt>
    requires list != []
  {
    if start.Some? then CounterFor(start.value, blockEnd, list, extend) else []
  }

  /** Where the next block is counted from, if the first statement of a list ends one. */
  function NextStart(list: seq<Stmt>): Option<Pos>
    requires list != []
  {
    if EndsBasicBlock(list[0]) && |list| > 1 then Some(StartOf(list[1])) else None
  }

  /** A list with counters put in front of its basic blocks. */
  function Weave(start: Option<Pos>, blockEnd: Pos, list: seq<Stmt>, extend: bool): seq<Stmt>
    decreases |list|
  {
    if list == [] then []
    else
      Ahead(start, blockEnd, list, extend) + [list[0]]
      + Weave(NextStart(list), blockEnd, list[1..], extend && !EndsBasicBlock(list[0]))
  }

  function WithCounters(pos: Pos, blockEnd: Pos, list: seq<Stmt>, extend: bool): seq<Stmt> {
    if list == [] then [Counter(BlockInfo(pos, blockEnd, 0, None))]
    else Weave(Some(pos), blockEnd, list, extend)
  }

  // ------------------------------------------------------ the whole tree

  function Instr(s: Stmt): Stmt
    decreases s, 1
  {
    match s
    case Plain(pos, end, x) => Plain(pos, end, InstrExpr(x))
    case Panic(pos, end, x) => Panic(pos, end, InstrExpr(x))
    case Return(pos, end, x) => Return(pos, end, InstrExpr(x))
    case Branch(_, _, _, _) => s
    case Block(lbrace, rbrace, list) =>
      Block(lbrace, rbrace, WithCounters(lbrace, rbrace + 1, InstrList(list), true))
    case If(pos, init, cond, lbrace, rbrace, list, els) =>
      // The walk goes on to the two branches only.
      If(pos, init, cond, lbrace, rbrace,
         WithCounters(lbrace, rbrace + 1, InstrList(list), true), InstrElse(rbrace + 1, els))
    case For(pos, init, test, post, lbrace, rbrace, list) =>
      For(pos, InstrOpt(init), InstrOpt(test), InstrOpt(post), lbrace, rbrace,
          WithCounters(lbrace, rbrace + 1, InstrList(list), true))
    case Switch(pos, kind, init, tag, lbrace, rbrace, clauses) =>
      // A switch or select without clauses is left alone.
      if clauses == [] then s
      else Switch(pos, kind, InstrOpt(init), InstrOpt(tag), lbrace, rbrace, InstrClauses(clauses))
    case Labeled(pos, name, stmt) => Labeled(pos, name, Instr(stmt))
    case Counter(_) => s
  }

  /** The else branch starts where the if branch ended; an else-if becomes a block of its own. */
  function InstrElse(start: Pos, els: Else): Else
    decreases els, 0
  {
    match els
    case NoElse => NoElse
    case ElseIf(s) =>
      ElseBlock(start, EndOf(s), WithCounters(start, EndOf(s) + 1, [Instr(s)], true))
    case ElseBlock(_, rbrace, list) =>
      ElseBlock(start, rbrace, WithCounters(start, rbrace + 1, InstrList(list), true))
  }

  function InstrList(list: seq<Stmt>): (r: seq<Stmt>)
    ensures |r| == |list|
    ensures forall i :: 0 <= i < |list| ==> r[i] == Instr(list[i])
    decreases list, 0
  {
    if list == [] then [] else [Instr(list[0])] + InstrList(list[1..])
  }

  function InstrExpr(x: Expr): Expr
    decreases x, 1
  {
    Expr(x.id, InstrLits(x.lits))
  }

  function InstrOpt(x: Option<Expr>): Option<Expr>
    decreases x, 2
  {
    match x
    case None => None
    case Some(e) => Some(InstrExpr(e))
  }

  function InstrLits(lits: seq<FuncLit>): (r: seq<FuncLit>)
    ensures |r| == |lits|
    ensures forall i :: 0 <= i < |lits| ==>
              r[i] == FuncLit(lits[i].lbrace, lits[i].rbrace,
                              WithCounters(lits[i].lbrace, lits[i].rbrace + 1, InstrList(lits[i].body), true))
    decreases lits, 0
  {
    if lits == [] then []
    else
      var lit := lits[0];
      [FuncLit(lit.lbrace, lit.rbrace, WithCounters(lit.lbrace, lit.rbrace + 1, InstrList(lit.body), true))]
      + InstrLits(lits[1..])
  }

  function InstrClauses(clauses: seq<Clause>): (r: seq<Clause>)
    ensures |r| == |clauses|
    ensures forall i :: 0 <= i < |clauses| ==> r[i] == InstrClause(clauses[i])
    decreases clauses, 0
  {
    if clauses == [] then [] else [InstrClause(clauses[0])] + InstrClauses(clauses[1..])
  }

  function InstrClause(c: Clause): Clause
    decreases c, 2
  {
    c.(guard := InstrExpr(c.guard), body := WithCounters(c.pos, c.end, InstrList(c.body), false))
  }

  // ------------------------------------------ the walk keeps what it looks at

  lemma InstrKeepsLiterals(x: Option<Expr>)
    ensures LiteralInOpt(InstrOpt(x)) == LiteralInOpt(x)
  {
  }

  /** All that the placing of counters looks at. */
  ghost predicate SameShape(a: Stmt, b: Stmt) {
    && StartOf(a) == StartOf(b)
    && EndsBasicBlock(a) == EndsBasicBlock(b)
    && StatementBoundary(a) == StatementBoundary(b)
    && a.Block? == b.Block? && a.Counter? == b.Counter?
  }

  ghost predicate SameShapes(a: seq<Stmt>, b: seq<Stmt>) {
    |a| == |b| && forall i :: 0 <= i < |a| ==> SameShape(a[i], b[i])
  }

  /** Instrumenting a statement changes neither its place nor what it does to basic blocks. */
  lemma {:induction false} InstrKeepsShape(s: Stmt)
    ensures SameShape(Instr(s), s)
  {
    match s
    case For(_, init, test, post, _, _, _) =>
      InstrKeepsLiterals(init);
      InstrKeepsLiterals(test);
      InstrKeepsLiterals(post);
    case Switch(_, _, init, tag, _, _, _) =>
      InstrKeepsLiterals(init);
      InstrKeepsLiterals(tag);
    case Labeled(_, _, stmt) => InstrKeepsShape(stmt);
    case _ =>
  }

  lemma InstrListKeepsShapes(list: seq<Stmt>)
    ensures SameShapes(InstrList(list), list)
  {
    forall i | 0 <= i < |list| ensures SameShape(InstrList(list)[i], list[i]) {
      InstrKeepsShape(list[i]);
    }
  }

  lemma {:induction false} ShapesFixLength(a: seq<Stmt>, b: seq<Stmt>)
    requires SameShapes(a, b) && a != []
    ensures BlockLength(a) == BlockLength(b)
  {
    assert SameShape(a[0], b[0]);
    if |a| > 1 && !EndsBasicBlock(a[0]) {
      ShapesFixLength(a[1..], b[1..]);
    }
  }

  /** The counters placed in front of a list depend on the shapes of its statements only. */
  lemma ShapesFixCounters(start: Option<Pos>, blockEnd: Pos, a: seq<Stmt>, b: seq<Stmt>, extend: bool)
    requires SameShapes(a, b) && a != []
    ensures Ahead(start, blockEnd, a, extend) == Ahead(start, blockEnd, b, extend)
    ensures NextStart(a) == NextStart(b)
  {
    ShapesFixLength(a, b);
    var n := BlockLength(a);
    assert SameShape(a[0], b[0]) && SameShape(a[n - 1], b[n - 1]);
  }

  lemma InstrListConcat(a: seq<Stmt>, b: seq<Stmt>)
    ensures InstrList(a + b) == InstrList(a) + InstrList(b)
  {
    hide Instr, InstrList;
  }

  lemma CountersStay(start: Option<Pos>, blockEnd: Pos, list: seq<Stmt>, extend: bool)
    requires list != []
    ensures InstrList(Ahead(start, blockEnd, list, extend)) == Ahead(start, blockEnd, list, extend)
  {
  }

  /** So counters can be placed before or after the statements themselves are walked. */
  lemma {:induction false} WeaveCommutes(start: Option<Pos>, blockEnd: Pos, list: seq<Stmt>, extend: bool)
    ensures InstrList(Weave(start, blockEnd, list, extend)) == Weave(start, blockEnd, InstrList(list), extend)
    decreases |list|
  {
    if list != [] {
      var ext := extend && !EndsBasicBlock(list[0]);
      var ahead := Ahead(start, blockEnd, list, extend);
      var rest := Weave(NextStart(list), blockEnd, list[1..], ext);
      InstrListKeepsShapes(list);
      ShapesFixCounters(start, blockEnd, InstrList(list), list, extend);
      assert SameShape(InstrList(list)[0], list[0]);
      CountersStay(start, blockEnd, list, extend);
      InstrListAround(ahead, list[0], rest);
      WeaveCommutes(NextStart(list), blockEnd, list[1..], ext);
      assert InstrList(list)[1..] == InstrList(list[1..]);
    }
  }

  lemma InstrListAround(a: seq<Stmt>, s: Stmt, b: seq<Stmt>)
    ensures InstrList(a + [s] + b) == InstrList(a) + [Instr(s)] + InstrList(b)
  {
    hide Instr, InstrList;
  }
}
