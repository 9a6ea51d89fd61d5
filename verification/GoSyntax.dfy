/**
 Statement trees of the Go-like language that the coverage instrumenter rewrites.

 Expressions are opaque but for the function literals they contain.  A range
 statement is the For whose init evaluates the range expression and whose condition
 asks for the next element.  Goto is not part of the language.
 */
module GoSyntax {
  import opened Basics

  type Pos = int

  type Label = string

  datatype FuncLit = FuncLit(lbrace: Pos, rbrace: Pos, body: seq<Stmt>)

  datatype Expr = Expr(id: nat, lits: seq<FuncLit>)

  datatype BranchKind = Break | Continue | Fallthrough

  datatype SwitchKind = ExprSwitch | TypeSwitch | Select

  /** A case clause, or a communication clause of a select. */
  datatype Clause = Clause(pos: Pos, end: Pos, guard: Expr, isDefault: bool, body: seq<Stmt>)

  datatype Else =
    | NoElse
    | ElseIf(stmt: Stmt)
    | ElseBlock(lbrace: Pos, rbrace: Pos, list: seq<Stmt>)

  /** One counted block.  The head is the position of the first statement the counter
      stands for; it is a note of this model, to say which statement that is. */
  datatype BlockInfo = BlockInfo(start: Pos, end: Pos, numStmt: nat, head: Option<Pos>)

  datatype Stmt =
    | Plain(pos: Pos, end: Pos, x: Expr)
    | Panic(pos: Pos, end: Pos, x: Expr)
    | Return(pos: Pos, end: Pos, x: Expr)
    | Branch(pos: Pos, end: Pos, kind: BranchKind, target: Option<Label>)
    | Block(lbrace: Pos, rbrace: Pos, list: seq<Stmt>)
    | If(pos: Pos, init: Option<Expr>, cond: Expr, lbrace: Pos, rbrace: Pos, list: seq<Stmt>, els: Else)
    | For(pos: Pos, init: Option<Expr>, test: Option<Expr>, post: Option<Expr>,
          lbrace: Pos, rbrace: Pos, list: seq<Stmt>)
    | Switch(pos: Pos, skind: SwitchKind, init: Option<Expr>, tag: Option<Expr>,
             lbrace: Pos, rbrace: Pos, clauses: seq<Clause>)
    | Labeled(pos: Pos, name: Label, stmt: Stmt)
    | Counter(block: BlockInfo)

  /** The position of the first character of a statement. */
  function StartOf(s: Stmt): Pos {
    match s
    case Block(lbrace, _, _) => lbrace
    case Counter(b) => b.start
    case _ => s.pos
  }

  /** The position just past a statement. */
  function EndOf(s: Stmt): Pos {
    match s
    case Plain(_, end, _) => end
    case Panic(_, end, _) => end
    case Return(_, end, _) => end
    case Branch(_, end, _, _) => end
    case Block(_, rbrace, _) => rbrace + 1
    case If(_, _, _, _, rbrace, _, els) =>
      (match els
       case NoElse => rbrace + 1
       case ElseIf(t) => EndOf(t)
       case ElseBlock(_, r, _) => r + 1)
    case For(_, _, _, _, _, rbrace, _) => rbrace + 1
    case Switch(_, _, _, _, _, rbrace, _) => rbrace + 1
    case Labeled(_, _, t) => EndOf(t)
    case Counter(b) => b.start
  }

  /** The body brace of the first function literal of an expression, if there is one. */
  function LiteralIn(e: Expr): Option<Pos> {
    if e.lits == [] then None else Some(e.lits[0].lbrace)
  }

  function LiteralInOpt(e: Option<Expr>): Option<Pos> {
    match e
    case None => None
    case Some(x) => LiteralIn(x)
  }

  function FirstOf(a: Option<Pos>, b: Option<Pos>): Option<Pos> {
    if a.Some? then a else b
  }

  function OrElse(a: Option<Pos>, b: Pos): Pos {
    if a.Some? then a.value else b
  }

  /** Where the basic block that a statement belongs to stops in the source. */
  function StatementBoundary(s: Stmt): Pos {
    match s
    case Block(lbrace, _, _) => lbrace
    case If(_, init, cond, lbrace, _, _, _) =>
      OrElse(FirstOf(LiteralInOpt(init), LiteralIn(cond)), lbrace)
    case For(_, init, test, post, lbrace, _, _) =>
      OrElse(FirstOf(LiteralInOpt(init), FirstOf(LiteralInOpt(test), LiteralInOpt(post))), lbrace)
    case Labeled(_, _, t) => StatementBoundary(t)
    case Switch(_, kind, init, tag, lbrace, _, _) =>
      (match kind
       case ExprSwitch => OrElse(FirstOf(LiteralInOpt(init), LiteralInOpt(tag)), lbrace)
       case TypeSwitch => OrElse(LiteralInOpt(init), lbrace)
       case Select => lbrace)
    case Plain(_, end, x) => OrElse(LiteralIn(x), end)
    case Panic(_, end, x) => OrElse(LiteralIn(x), end)
    case Return(_, end, x) => OrElse(LiteralIn(x), end)
    case Branch(_, end, _, _) => end
    case Counter(b) => b.start
  }

  /** Does the statement end its basic block? */
  predicate EndsBasicBlock(s: Stmt) {
    match s
    case Block(_, _, _) => true
    case Branch(_, _, _, _) => true
    case For(_, _, _, _, _, _, _) => true
    case If(_, _, _, _, _, _, _) => true
    case Switch(_, _, _, _, _, _, _) => true
    case Panic(_, _, _) => true
    case Labeled(_, _, t) => EndsBasicBlock(t)
    case Plain(_, _, x) => x.lits != []
    case Return(_, _, x) => x.lits != []
    case Counter(_) => false
  }
}
