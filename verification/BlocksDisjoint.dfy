/**
 The blocks recorded for a whole program never share source, as the instrumenter wants it,
 if and only if no function literal stands where a clause or the header of a type switch
 already counts: in the guard of a clause, or in the guard of a type switch whose init
 statement holds none.
 */
module BlocksDisjoint {
  import opened Basics
  import opened GoSyntax
  import opened Instrumenter
  import opened InstrumenterFile
  import opened SourcePositions

  // -------------------------------------------------------- sets of blocks

  ghost predicate Within(ms: multiset<BlockInfo>, lo: Pos, hi: Pos) {
    forall b :: b in ms ==> lo <= b.start < b.end <= hi
  }

  predicate Apart(a: BlockInfo, b: BlockInfo) {
    a.end <= b.start || b.end <= a.start
  }

  /** No two of the blocks share source. */
  ghost predicate Disjoint(ms: multiset<BlockInfo>) {
    && (forall b :: b in ms ==> ms[b] == 1)
    && (forall a, b :: a in ms && b in ms && a != b ==> Apart(a, b))
  }

  lemma PartsDisjoint(a: multiset<BlockInfo>, b: multiset<BlockInfo>)
    requires Disjoint(a + b)
    ensures Disjoint(a) && Disjoint(b)
  {
    forall x | x in a ensures a[x] == 1 {
      assert x in a + b && (a + b)[x] == a[x] + b[x];
    }
    forall x | x in b ensures b[x] == 1 {
      assert x in a + b && (a + b)[x] == a[x] + b[x];
    }
  }

  /** Blocks on two sides of a position. */
  lemma UnionDisjoint(a: multiset<BlockInfo>, b: multiset<BlockInfo>, lo: Pos, m: Pos, hi: Pos)
    requires Within(a, lo, m) && Within(b, m, hi) && lo <= m <= hi
    ensures Within(a + b, lo, hi) && (Disjoint(a + b) <==> Disjoint(a) && Disjoint(b))
  {
    if Disjoint(a + b) {
      PartsDisjoint(a, b);
    }
    if Disjoint(a) && Disjoint(b) {
      forall x | x in a + b ensures (a + b)[x] == 1 {
        assert (a + b)[x] == a[x] + b[x];
      }
    }
  }

  lemma OverlapIsNotDisjoint(a: multiset<BlockInfo>, b: multiset<BlockInfo>, x: BlockInfo, y: BlockInfo)
    requires x in a && y in b && !Apart(x, y)
    ensures !Disjoint(a + b)
  {
    assert x in a + b && y in a + b;
    if x == y {
      assert (a + b)[x] == a[x] + b[x];
    }
  }

  lemma NoneDisjoint(lo: Pos, hi: Pos)
    ensures Within(multiset{}, lo, hi) && Disjoint(multiset{})
  {
  }

  // ------------------------------------------- where literals are in the way

  /** No literal that the walk reaches stands before the boundary of the statement. */
  predicate HeaderClean(s: Stmt) {
    match s
    case Labeled(_, _, stmt) => HeaderClean(stmt)
    case Switch(_, kind, init, tag, _, _, clauses) =>
      || clauses == []
      || (match kind
          case ExprSwitch => true
          case TypeSwitch => LiteralInOpt(init).Some? || LiteralInOpt(tag).None?
          case Select => LiteralInOpt(init).None? && LiteralInOpt(tag).None?)
    case _ => true
  }

  predicate Clean(s: Stmt)
    decreases s, 1
  {
    match s
    case Plain(_, _, x) => CleanExpr(x)
    case Panic(_, _, x) => CleanExpr(x)
    case Return(_, _, x) => CleanExpr(x)
    case Branch(_, _, _, _) => true
    case Block(_, _, list) => CleanList(list)
    case If(_, _, _, _, _, list, els) => CleanList(list) && CleanElse(els)
    case For(_, init, test, post, _, _, list) => CleanOpt(init) && CleanOpt(test) && CleanOpt(post) && CleanList(list)
    case Switch(_, _, init, tag, _, _, clauses) =>
      clauses == [] || (CleanOpt(init) && CleanOpt(tag) && CleanClauses(clauses))
    case Labeled(_, _, stmt) => Clean(stmt)
    case Counter(_) => true
  }

  predicate CleanElse(els: Else)
    decreases els, 0
  {
    match els
    case NoElse => true
    case ElseIf(s) => Clean(s)
    case ElseBlock(_, _, list) => CleanList(list)
  }

  predicate CleanList(list: seq<Stmt>)
    decreases list, 0
  {
    list == [] || (HeaderClean(list[0]) && Clean(list[0]) && CleanList(list[1..]))
  }

  predicate CleanClauses(clauses: seq<Clause>)
    decreases clauses, 0
  {
    clauses == [] || (clauses[0].guard.lits == [] && CleanList(clauses[0].body) && CleanClauses(clauses[1..]))
  }

  predicate CleanExpr(x: Expr)
    decreases x, 1
  {
    CleanLits(x.lits)
  }

  predicate CleanOpt(x: Option<Expr>)
    decreases x, 2
  {
    x.Some? ==> CleanExpr(x.value)
  }

  predicate CleanLits(lits: seq<FuncLit>)
    decreases lits, 0
  {
    lits == [] || (CleanList(lits[0].body) && CleanLits(lits[1..]))
  }

  // ------------------------------------------------------ no counters at first

  lemma {:induction false} PlacedIsPlain(s: Stmt)
    requires WellPlaced(s)
    ensures Counters(s) == multiset{} && !s.Counter?
    decreases s, 1
  {
    match s
    case Plain(pos, end, x) => ExprIsPlain(x, pos + 1, end);
    case Panic(pos, end, x) => ExprIsPlain(x, pos + 1, end);
    case Return(pos, end, x) => ExprIsPlain(x, pos + 1, end);
    case Branch(_, _, _, _) =>
    case Block(lbrace, rbrace, list) => ListIsPlain(list, lbrace + 1, rbrace);
    case If(pos, init, cond, lbrace, rbrace, list, els) =>
      OptIsPlain(init, pos + 1, lbrace);
      ExprIsPlain(cond, AfterOpt(init, pos + 1), lbrace);
      ListIsPlain(list, lbrace + 1, rbrace);
      ElseIsPlain(els, rbrace + 1);
    case For(pos, init, test, post, lbrace, rbrace, list) =>
      OptIsPlain(init, pos + 1, lbrace);
      OptIsPlain(test, AfterOpt(init, pos + 1), lbrace);
      OptIsPlain(post, AfterOpt(test, AfterOpt(init, pos + 1)), lbrace);
      ListIsPlain(list, lbrace + 1, rbrace);
    case Switch(pos, _, init, tag, lbrace, rbrace, clauses) =>
      OptIsPlain(init, pos + 1, lbrace);
      OptIsPlain(tag, AfterOpt(init, pos + 1), lbrace);
      ClausesArePlain(clauses, lbrace + 1, rbrace);
    case Labeled(_, _, stmt) => PlacedIsPlain(stmt);
  }

  lemma {:induction false} ElseIsPlain(els: Else, start: Pos)
    requires ElseIn(els, start)
    ensures ElseCounters(els) == multiset{}
    decreases els, 0
  {
    match els
    case NoElse =>
    case ElseIf(s) => PlacedIsPlain(s);
    case ElseBlock(_, rbrace, list) => ListIsPlain(list, start + 1, rbrace);
  }

  lemma {:induction false} ListIsPlain(list: seq<Stmt>, lo: Pos, hi: Pos)
    requires ListIn(list, lo, hi)
    ensures ListCounters(list) == multiset{}
    decreases list, 0
  {
    if list != [] {
      PlacedIsPlain(list[0]);
      ListIsPlain(list[1..], EndOf(list[0]), hi);
    }
  }

  lemma {:induction false} ClausesArePlain(clauses: seq<Clause>, lo: Pos, hi: Pos)
    requires ClausesIn(clauses, lo, hi)
    ensures ClauseCounters(clauses) == multiset{}
    decreases clauses, 0
  {
    if clauses != [] {
      var c := clauses[0];
      ExprIsPlain(c.guard, c.pos + 1, c.end);
      ListIsPlain(c.body, After(c.guard, c.pos + 1), c.end);
      ClausesArePlain(clauses[1..], c.end, hi);
    }
  }

  lemma ExprIsPlain(x: Expr, lo: Pos, hi: Pos)
    requires ExprIn(x, lo, hi)
    ensures ExprCounters(x) == multiset{}
    decreases x, 1
  {
    LitsArePlain(x.lits, lo, hi);
  }

  lemma OptIsPlain(x: Option<Expr>, lo: Pos, hi: Pos)
    requires OptIn(x, lo, hi)
    ensures OptCounters(x) == multiset{}
    decreases x, 2
  {
    if x.Some? {
      ExprIsPlain(x.value, lo, hi);
    }
  }

  lemma {:induction false} LitsArePlain(lits: seq<FuncLit>, lo: Pos, hi: Pos)
    requires LitsIn(lits, lo, hi)
    ensures LitCounters(lits) == multiset{}
    decreases lits, 0
  {
    if lits != [] {
      ListIsPlain(lits[0].body, lits[0].lbrace + 1, lits[0].rbrace);
      LitsArePlain(lits[1..], lits[0].rbrace + 1, hi);
    }
  }

  // ----------------------------------------------------------- one statement

  /** What is shown of the blocks recorded in a statement. */
  ghost predicate Fits(s: Stmt, ms: multiset<BlockInfo>) {
    && Within(ms, StartOf(s), EndOf(s))
    && (HeaderClean(s) ==> Within(ms, StatementBoundary(s), EndOf(s)))
    && (!HeaderClean(s) ==> exists b :: b in ms && StartOf(s) < b.start < StatementBoundary(s))
    && (Disjoint(ms) <==> Clean(s))
    && (!EndsBasicBlock(s) ==> ms == multiset{} && HeaderClean(s) && Clean(s))
  }

  /** The blocks recorded in an expression: from its first literal on. */
  ghost predicate FitsExpr(lit: Option<Pos>, ms: multiset<BlockInfo>, hi: Pos, clean: bool) {
    && (lit.None? ==> ms == multiset{})
    && (lit.Some? ==> Within(ms, lit.value, hi) && exists b :: b in ms && b.start == lit.value)
    && (Disjoint(ms) <==> clean)
  }

  /** The blocks recorded in a list: the first one starts with it, and holds all before its first
      statement. */
  ghost predicate FitsList(list: seq<Stmt>, ms: multiset<BlockInfo>, pos: Pos, hi: Pos, blockEnd: Pos, extend: bool) {
    && Within(ms, pos, blockEnd)
    && (list != [] && (!extend || EndsBasicBlock(list[|list| - 1])) ==> Within(ms, pos, hi))
    && (exists b :: b in ms && b.start == pos && b.end >= if list == [] then blockEnd else StartOf(list[0]))
    && (Disjoint(ms) <==> CleanList(list))
  }

  /** The last statement of a basic block, the counter of the block, and what comes after. */
  lemma SegmentFits(ahead: multiset<BlockInfo>, inner: multiset<BlockInfo>, rest: multiset<BlockInfo>, s: Stmt,
                    info: BlockInfo, m: Pos, hi: Pos)
    requires WellPlaced(s) && Fits(s, inner) && info.start <= StartOf(s) && info.end == StatementBoundary(s)
    requires ahead == if info.start == info.end then multiset{} else multiset{info}
    requires EndOf(s) <= m <= hi && Within(rest, m, hi)
    ensures Within(ahead + inner + rest, info.start, hi)
    ensures Disjoint(ahead + inner + rest) <==> HeaderClean(s) && Clean(s) && Disjoint(rest)
  {
    StmtOrder(s);
    var pos, e := info.start, info.end;
    hide WellPlaced, Clean, Disjoint;
    UnionDisjoint(inner, rest, StartOf(s), m, hi);
    assert ahead + inner + rest == ahead + (inner + rest);
    AheadAlone(ahead, info);
    if HeaderClean(s) {
      UnionDisjoint(ahead, inner, pos, e, m);
      UnionDisjoint(ahead + inner, rest, pos, m, hi);
    } else {
      var b :| b in inner && StartOf(s) < b.start < e;
      OverlapIsNotDisjoint(ahead, inner + rest, info, b);
    }
  }

  lemma AheadAlone(ahead: multiset<BlockInfo>, info: BlockInfo)
    requires ahead == (if info.start == info.end then multiset{} else multiset{info}) && info.start <= info.end
    ensures Within(ahead, info.start, info.end) && Disjoint(ahead)
  {
  }

  // -------------------------------------------------------------- one list

  lemma {:induction false} Quiet(s: Stmt)
    requires WellPlaced(s) && !EndsBasicBlock(s)
    ensures Counters(Instr(s)) == multiset{} && HeaderClean(s) && Clean(s)
    decreases s
  {
    match s
    case Plain(_, _, x) => NoLiterals(x);
    case Return(_, _, x) => NoLiterals(x);
    case Labeled(_, _, stmt) => Quiet(stmt);
  }

  lemma NoLiterals(x: Expr)
    requires x.lits == []
    ensures ExprCounters(InstrExpr(x)) == multiset{} && CleanExpr(x)
  {
  }

  lemma {:induction false} ListInFrom(list: seq<Stmt>, lo: Pos, hi: Pos, n: nat)
    requires ListIn(list, lo, hi) && 0 < n <= |list|
    ensures ListIn(list[n..], EndOf(list[n - 1]), hi) && EndOf(list[n - 1]) <= hi
    ensures forall i :: 0 <= i < n ==> WellPlaced(list[i])
  {
    if n == 1 {
      ListOrder(list[1..], EndOf(list[0]), hi);
    } else {
      ListInFrom(list[1..], EndOf(list[0]), hi, n - 1);
      assert list[1..][n - 1..] == list[n..];
    }
  }

  /** Up to the last statement of its first basic block, a list records nothing, and nothing is
      in the way. */
  lemma {:induction false} QuietFront(list: seq<Stmt>, n: nat)
    requires 0 < n <= |list|
    requires forall i :: 0 <= i < n ==> WellPlaced(list[i]) && (i < n - 1 ==> !EndsBasicBlock(list[i]))
    ensures ListCounters(InstrList(list)[..n]) == Counters(Instr(list[n - 1]))
    ensures CleanList(list) <==> HeaderClean(list[n - 1]) && Clean(list[n - 1]) && CleanList(list[n..])
  {
    hide Instr, WellPlaced, HeaderClean, Clean;
    var instr := InstrList(list);
    assert instr[..n][0] == Instr(list[0]) && instr[..n][1..] == InstrList(list[1..])[..n - 1];
    if n == 1 {
      assert instr[..1][1..] == [];
    } else {
      Quiet(list[0]);
      QuietFront(list[1..], n - 1);
      assert list[1..][n - 1..] == list[n..];
    }
  }

  /** What a woven list records, by basic blocks. */
  lemma WovenCounters(pos: Pos, blockEnd: Pos, list: seq<Stmt>, extend: bool, n: nat)
    requires list != [] && n == BlockLength(list)
    ensures ListCounters(Weave(Some(pos), blockEnd, InstrList(list), extend)) ==
            ListCounters(Ahead(Some(pos), blockEnd, list, extend)) + ListCounters(InstrList(list)[..n])
            + if n == |list| then multiset{}
              else ListCounters(Weave(Some(StartOf(list[n])), blockEnd, InstrList(list[n..]), false))
  {
    hide Weave, Ahead, Instr, InstrList, ListCounters, Remainder, BlockLength, SameShape;
    var instr := InstrList(list);
    InstrListKeepsShapes(list);
    ShapesFixLength(instr, list);
    ShapesFixCounters(Some(pos), blockEnd, instr, list, extend);
    WeaveFromStart(pos, blockEnd, instr, extend);
    WeaveOneBlock(blockEnd, instr, extend);
    var ahead := Ahead(Some(pos), blockEnd, list, extend);
    ListCountersConcat(ahead, instr[..n] + Remainder(blockEnd, instr, n));
    ListCountersConcat(instr[..n], Remainder(blockEnd, instr, n));
    RemainderOfInstr(blockEnd, list, n);
    var rest := Remainder(blockEnd, instr, n);
    assert ahead + (instr[..n] + rest) == ahead + instr[..n] + rest;
  }

  lemma RemainderOfInstr(blockEnd: Pos, list: seq<Stmt>, n: nat)
    requires 0 < n <= |list|
    ensures ListCounters(Remainder(blockEnd, InstrList(list), n)) ==
            if n == |list| then multiset{}
            else ListCounters(Weave(Some(StartOf(list[n])), blockEnd, InstrList(list[n..]), false))
  {
    hide Weave, Instr;
    var instr := InstrList(list);
    InstrListKeepsShapes(list);
    if n < |list| {
      assert SameShape(instr[n], list[n]);
      InstrListConcat(list[..n], list[n..]);
      assert list[..n] + list[n..] == list && |InstrList(list[..n])| == n;
      assert instr[n..] == InstrList(list[n..]);
    }
  }

  /** What the counter ahead of a list records. */
  lemma AheadRecords(pos: Pos, blockEnd: Pos, list: seq<Stmt>, extend: bool, n: nat)
    requires list != [] && n == BlockLength(list)
    ensures var end := if extend && !EndsBasicBlock(list[n - 1]) then blockEnd else StatementBoundary(list[n - 1]);
            ListCounters(Ahead(Some(pos), blockEnd, list, extend)) ==
            if pos == end then multiset{} else multiset{BlockInfo(pos, end, n, Some(StartOf(list[0])))}
  {
    var ahead := Ahead(Some(pos), blockEnd, list, extend);
    if ahead != [] {
      CountersOfOne(ahead[0]);
      assert ahead == [ahead[0]];
    }
  }

  /** The list, from a basic block on, as far as its statements have been dealt with. */
  lemma {:induction false} BlocksFit(pos: Pos, blockEnd: Pos, list: seq<Stmt>, extend: bool, lo: Pos, hi: Pos)
    requires list != [] && ListIn(list, lo, hi) && pos <= StartOf(list[0]) && hi <= blockEnd
    ensures var ms := ListCounters(Weave(Some(pos), blockEnd, InstrList(list), extend));
            && Within(ms, pos, blockEnd)
            && (!extend || EndsBasicBlock(list[|list| - 1]) ==> Within(ms, pos, hi))
            && (pos < StartOf(list[0]) ==> exists b :: b in ms && b.start == pos && b.end >= StartOf(list[0]))
            && (Disjoint(ms) <==> CleanList(list))
    decreases list, 2
  {
    hide WellPlaced, Clean, HeaderClean, Disjoint, Within, Weave, Ahead, Counters, ListCounters, ListIn, CleanList;
    hide Instr, InstrList, StatementBoundary, EndOf, StartOf, EndsBasicBlock, Fits, BlockLength;
    var n := BlockLength(list);
    var s := list[n - 1];
    var inner := Counters(Instr(s));
    ListInFrom(list, lo, hi, n);
    QuietFront(list, n);
    WovenCounters(pos, blockEnd, list, extend, n);
    AheadRecords(pos, blockEnd, list, extend, n);
    StatementsAscend(list, lo, hi, 0, n - 1);
    StmtOrder(s);
    if !EndsBasicBlock(s) {
      Quiet(s);
      BareBlockEnds(s);
      var end := if extend then blockEnd else StatementBoundary(s);
      UnbrokenFits(pos, end, n, StartOf(list[0]));
      WithinMore(pos, end, if extend then blockEnd else hi);
      WithinMore(pos, end, blockEnd);
      assert list[n..] == [];
      NothingLeft();
    } else {
      StmtFits(s);
      var info := BlockInfo(pos, StatementBoundary(s), n, Some(StartOf(list[0])));
      var rest := if n == |list| then multiset{}
                  else ListCounters(Weave(Some(StartOf(list[n])), blockEnd, InstrList(list[n..]), false));
      RestFits(blockEnd, list, n, lo, hi);
      var m := if n == |list| then hi else StartOf(list[n]);
      SegmentFits(if pos == info.end then multiset{} else multiset{info}, inner, rest, s, info, m, hi);
      FirstOfMany(pos, info, inner, rest);
      WithinMore(pos, hi, blockEnd);
      assert n < |list| || list[|list| - 1] == s;
    }
  }

  lemma BareBlockEnds(s: Stmt)
    ensures s.Block? ==> EndsBasicBlock(s)
  {
  }

  lemma NothingLeft()
    ensures CleanList([])
    ensures forall ms: multiset<BlockInfo> :: ms + multiset{} + multiset{} == ms
  {
  }

  lemma FirstOfMany(pos: Pos, info: BlockInfo, inner: multiset<BlockInfo>, rest: multiset<BlockInfo>)
    ensures pos != info.end ==> info in multiset{info} + inner + rest
  {
  }

  lemma WithinMore(lo: Pos, hi: Pos, more: Pos)
    requires hi <= more
    ensures forall ms :: Within(ms, lo, hi) ==> Within(ms, lo, more)
  {
  }

  /** What is recorded after the first basic block. */
  lemma RestFits(blockEnd: Pos, list: seq<Stmt>, n: nat, lo: Pos, hi: Pos)
    requires 0 < n <= |list| && ListIn(list, lo, hi) && hi <= blockEnd && ListIn(list[n..], EndOf(list[n - 1]), hi)
    ensures EndOf(list[n - 1]) <= (if n == |list| then hi else StartOf(list[n])) <= hi
    ensures var rest := if n == |list| then multiset{}
                        else ListCounters(Weave(Some(StartOf(list[n])), blockEnd, InstrList(list[n..]), false));
            && Within(rest, if n == |list| then hi else StartOf(list[n]), hi)
            && (Disjoint(rest) <==> CleanList(list[n..]))
    decreases list, 1
  {
    hide WellPlaced, Clean, HeaderClean, Disjoint, Within, Weave, ListCounters, InstrList, StatementBoundary;
    hide EndOf, StartOf;
    if n == |list| {
      assert list[n..] == [];
      NoneDisjoint(hi, hi);
    } else {
      StatementsAscend(list, lo, hi, n, n);
      StatementsAscend(list, lo, hi, n - 1, n);
      StmtOrder(list[n]);
      BlocksFit(StartOf(list[n]), blockEnd, list[n..], false, EndOf(list[n - 1]), hi);
    }
  }

  lemma UnbrokenFits(pos: Pos, end: Pos, n: nat, first: Pos)
    requires pos <= first < end
    ensures var ahead := multiset{BlockInfo(pos, end, n, Some(first))};
            && Within(ahead, pos, end) && Disjoint(ahead)
            && exists b :: b in ahead && b.start == pos && b.end >= first
  {
    assert BlockInfo(pos, end, n, Some(first)) in multiset{BlockInfo(pos, end, n, Some(first))};
  }

  lemma {:induction false} ListFits(list: seq<Stmt>, lo: Pos, hi: Pos, pos: Pos, blockEnd: Pos, extend: bool)
    requires ListIn(list, lo, hi) && pos < lo && hi <= blockEnd
    ensures var ms := ListCounters(WithCounters(pos, blockEnd, InstrList(list), extend));
            FitsList(list, ms, pos, hi, blockEnd, extend)
    decreases list, 3
  {
    ListOrder(list, lo, hi);
    if list == [] {
      var b := BlockInfo(pos, blockEnd, 0, None);
      CountersOfOne(Counter(b));
      assert b in multiset{b};
    } else {
      BlocksFit(pos, blockEnd, list, extend, lo, hi);
    }
  }

  // ------------------------------------------------------------ expressions

  /** Where an expression cannot record anything else. */
  lemma ExprWithin(lit: Option<Pos>, ms: multiset<BlockInfo>, lo: Pos, hi: Pos, clean: bool)
    requires FitsExpr(lit, ms, hi, clean) && (lit.Some? ==> lo <= lit.value)
    ensures Within(ms, lo, hi)
  {
  }

  lemma LitParts(lits: seq<FuncLit>)
    ensures lits == [] ==> LitCounters(InstrLits(lits)) == multiset{}
    ensures lits != [] ==>
              LitCounters(InstrLits(lits)) ==
              ListCounters(WithCounters(lits[0].lbrace, lits[0].rbrace + 1, InstrList(lits[0].body), true))
              + LitCounters(InstrLits(lits[1..]))
  {
    if lits != [] {
      assert InstrLits(lits)[1..] == InstrLits(lits[1..]);
    }
  }

  lemma {:induction false} LitsFit(lits: seq<FuncLit>, lo: Pos, hi: Pos)
    requires LitsIn(lits, lo, hi)
    ensures FitsExpr(LiteralIn(Expr(0, lits)), LitCounters(InstrLits(lits)), After(Expr(0, lits), lo), CleanLits(lits))
    decreases lits, 0
  {
    hide Within, Disjoint, ListIn, WithCounters, ListCounters, InstrList, CleanList, LitCounters, InstrLits;
    LitParts(lits);
    if lits == [] {
      NoneDisjoint(lo, lo);
    } else {
      var l, rest := lits[0], lits[1..];
      var first := ListCounters(WithCounters(l.lbrace, l.rbrace + 1, InstrList(l.body), true));
      ListOrder(l.body, l.lbrace + 1, l.rbrace);
      ListFits(l.body, l.lbrace + 1, l.rbrace, l.lbrace, l.rbrace + 1, true);
      LitsFit(rest, l.rbrace + 1, hi);
      LitsOrder(rest, l.rbrace + 1, hi);
      var more, end := LitCounters(InstrLits(rest)), After(Expr(0, lits), lo);
      ExprWithin(LiteralIn(Expr(0, rest)), more, l.rbrace + 1, end, CleanLits(rest));
      UnionDisjoint(first, more, l.lbrace, l.rbrace + 1, end);
    }
  }

  lemma ExprFits(x: Expr, lo: Pos, hi: Pos)
    requires ExprIn(x, lo, hi)
    ensures FitsExpr(LiteralIn(x), ExprCounters(InstrExpr(x)), After(x, lo), CleanExpr(x))
    ensures Within(ExprCounters(InstrExpr(x)), lo, After(x, lo))
    decreases x, 1
  {
    hide Within, Disjoint;
    LitsFit(x.lits, lo, hi);
    ExprOrder(x, lo, hi);
    ExprWithin(LiteralIn(x), ExprCounters(InstrExpr(x)), lo, After(x, lo), CleanExpr(x));
  }

  lemma OptFits(x: Option<Expr>, lo: Pos, hi: Pos)
    requires OptIn(x, lo, hi)
    ensures FitsExpr(LiteralInOpt(x), OptCounters(InstrOpt(x)), AfterOpt(x, lo), CleanOpt(x))
    ensures Within(OptCounters(InstrOpt(x)), lo, AfterOpt(x, lo))
    decreases x, 2
  {
    hide Within, Disjoint;
    if x.Some? {
      ExprFits(x.value, lo, hi);
    } else {
      NoneDisjoint(lo, lo);
    }
  }

  // -------------------------------------------------------------- statements

  lemma {:induction false} StmtFits(s: Stmt)
    requires WellPlaced(s)
    ensures Fits(s, Counters(Instr(s)))
    decreases s, 1
  {
    hide FitsExpr, FitsList, Within, Disjoint;
    if !EndsBasicBlock(s) {
      Quiet(s);
      NoneDisjoint(StartOf(s), EndOf(s));
      NoneDisjoint(StatementBoundary(s), EndOf(s));
    } else {
      match s
      case Plain(pos, end, x) => SimpleFits(s, x);
      case Panic(pos, end, x) => SimpleFits(s, x);
      case Return(pos, end, x) => SimpleFits(s, x);
      case Branch(pos, end, _, _) =>
        NoneDisjoint(pos, end);
        NoneDisjoint(end, end);
      case Block(lbrace, rbrace, list) =>
        ListOrder(list, lbrace + 1, rbrace);
        ListFits(list, lbrace + 1, rbrace, lbrace, rbrace + 1, true);
        BraceFits(list, Counters(Instr(s)), lbrace, rbrace);
      case If(_, _, _, _, _, _, _) => IfFits(s);
      case For(_, _, _, _, _, _, _) => ForFits(s);
      case Switch(_, _, _, _, _, _, _) => SwitchFits(s);
      case Labeled(_, _, stmt) =>
        StmtFits(stmt);
        LabelFits(s, Counters(Instr(stmt)));
    }
  }

  lemma BraceFits(list: seq<Stmt>, ms: multiset<BlockInfo>, lbrace: Pos, rbrace: Pos)
    requires FitsList(list, ms, lbrace, rbrace, rbrace + 1, true)
    ensures Within(ms, lbrace, rbrace + 1) && (Disjoint(ms) <==> CleanList(list))
  {
  }

  lemma LabelFits(s: Stmt, ms: multiset<BlockInfo>)
    requires s.Labeled? && s.pos < StartOf(s.stmt) && EndsBasicBlock(s) && Fits(s.stmt, ms)
    ensures Fits(s, ms)
  {
    hide Disjoint, Within;
    forall lo, hi | Within(ms, lo, hi) ensures Within(ms, lo - 1, hi) {
      WithinMore3(ms, lo, lo - 1, lo - 1, hi);
    }
    WithinMore3(ms, StartOf(s.stmt), s.pos, s.pos, EndOf(s));
  }

  /** A statement that may hold literals. */
  lemma SimpleFits(s: Stmt, x: Expr)
    requires WellPlaced(s) && EndsBasicBlock(s)
    requires (s.Plain? && s.x == x) || (s.Panic? && s.x == x) || (s.Return? && s.x == x)
    ensures Fits(s, Counters(Instr(s)))
    decreases x, 3
  {
    SimpleParts(s, x);
    hide Disjoint, Counters, Instr, Clean, HeaderClean, WellPlaced, ExprCounters, InstrExpr, CleanExpr;
    hide EndsBasicBlock, StatementBoundary, StartOf, EndOf, LiteralIn;
    ExprFits(x, s.pos + 1, s.end);
    ExprOrder(x, s.pos + 1, s.end);
  }

  lemma SimpleParts(s: Stmt, x: Expr)
    requires WellPlaced(s)
    requires (s.Plain? && s.x == x) || (s.Panic? && s.x == x) || (s.Return? && s.x == x)
    ensures Counters(Instr(s)) == ExprCounters(InstrExpr(x)) && (Clean(s) <==> CleanExpr(x)) && HeaderClean(s)
    ensures StartOf(s) == s.pos && EndOf(s) == s.end && StatementBoundary(s) == OrElse(LiteralIn(x), s.end)
    ensures ExprIn(x, s.pos + 1, s.end)
  {
  }

  lemma IfFits(s: Stmt)
    requires s.If? && WellPlaced(s)
    ensures Fits(s, Counters(Instr(s)))
    decreases s, 0
  {
    hide Within, Disjoint, ListIn, ElseIn, ExprIn, OptIn, WithCounters, InstrList, InstrElse, ListCounters;
    hide ElseCounters, OptCounters, ExprCounters, CleanList, CleanElse;
    var start, list := s.rbrace + 1, s.list;
    StmtOrder(s);
    OptOrder(s.init, s.pos + 1, s.lbrace);
    ExprOrder(s.cond, AfterOpt(s.init, s.pos + 1), s.lbrace);
    OptIsPlain(s.init, s.pos + 1, s.lbrace);
    ExprIsPlain(s.cond, AfterOpt(s.init, s.pos + 1), s.lbrace);
    ListOrder(list, s.lbrace + 1, s.rbrace);
    ListFits(list, s.lbrace + 1, s.rbrace, s.lbrace, start, true);
    ElseFits(s.els, start);
    ElseOrder(s.els, start);
    var main := ListCounters(WithCounters(s.lbrace, start, InstrList(list), true));
    var other := ElseCounters(InstrElse(start, s.els));
    BraceFits(list, main, s.lbrace, s.rbrace);
    UnionDisjoint(main, other, s.lbrace, start, ElseEnd(s.els, start));
    assert multiset{} + multiset{} + main + other == main + other;
    WithinMore3(main + other, s.lbrace, StatementBoundary(s), StartOf(s), EndOf(s));
  }

  lemma WithinMore3(ms: multiset<BlockInfo>, lo: Pos, less: Pos, least: Pos, hi: Pos)
    requires Within(ms, lo, hi) && least <= less <= lo
    ensures Within(ms, less, hi) && Within(ms, least, hi)
  {
  }

  lemma {:induction false} ElseFits(els: Else, start: Pos)
    requires ElseIn(els, start)
    ensures var ms := ElseCounters(InstrElse(start, els));
            Within(ms, start, ElseEnd(els, start)) && (Disjoint(ms) <==> CleanElse(els))
    decreases els, 0
  {
    hide Within, Disjoint, Fits, FitsList, WellPlaced, ListIn, WithCounters, InstrList, ListCounters, CleanList, Clean;
    match els
    case NoElse => NoneDisjoint(start, start);
    case ElseIf(s) =>
      StmtFits(s);
      HiddenFits(s, start);
    case ElseBlock(_, rbrace, list) =>
      ListOrder(list, start + 1, rbrace);
      ListFits(list, start + 1, rbrace, start, rbrace + 1, true);
      BraceFits(list, ListCounters(WithCounters(start, rbrace + 1, InstrList(list), true)), start, rbrace);
  }

  /** The hidden block of an else-if. */
  lemma HiddenFits(s: Stmt, start: Pos)
    requires s.If? && start < StartOf(s) && WellPlaced(s) && Fits(s, Counters(Instr(s)))
    ensures var ms := ListCounters(WithCounters(start, EndOf(s) + 1, [Instr(s)], true));
            Within(ms, start, EndOf(s)) && (Disjoint(ms) <==> Clean(s))
  {
    hide WellPlaced, Within, Disjoint, Clean, Instr, WithCounters, ListCounters, Fits;
    PlacedIsPlain(s);
    HiddenBlock(start, s);
    AheadRecords(start, EndOf(s) + 1, [s], true, 1);
    StmtOrder(s);
    var info := BlockInfo(start, StatementBoundary(s), 1, Some(StartOf(s)));
    var ahead, inner := ListCounters(Ahead(Some(start), EndOf(s) + 1, [s], true)), Counters(Instr(s));
    ListCountersConcat(Ahead(Some(start), EndOf(s) + 1, [s], true), [Instr(s)]);
    CountersOfOne(Instr(s));
    NoneDisjoint(EndOf(s), EndOf(s));
    SegmentFits(ahead, inner, multiset{}, s, info, EndOf(s), EndOf(s));
    assert ahead + inner + multiset{} == ahead + inner;
  }

  lemma ForParts(s: Stmt)
    requires s.For? && WellPlaced(s)
    ensures var a1 := AfterOpt(s.init, s.pos + 1);
            && OptIn(s.init, s.pos + 1, s.lbrace) && OptIn(s.test, a1, s.lbrace)
            && OptIn(s.post, AfterOpt(s.test, a1), s.lbrace) && ListIn(s.list, s.lbrace + 1, s.rbrace)
    ensures Counters(Instr(s)) == OptCounters(InstrOpt(s.init)) + OptCounters(InstrOpt(s.test))
                                  + OptCounters(InstrOpt(s.post))
                                  + ListCounters(WithCounters(s.lbrace, s.rbrace + 1, InstrList(s.list), true))
    ensures Clean(s) <==> CleanOpt(s.init) && CleanOpt(s.test) && CleanOpt(s.post) && CleanList(s.list)
    ensures HeaderClean(s) && EndsBasicBlock(s) && StartOf(s) == s.pos && EndOf(s) == s.rbrace + 1
    ensures var lit := FirstOf(LiteralInOpt(s.init), FirstOf(LiteralInOpt(s.test), LiteralInOpt(s.post)));
            StatementBoundary(s) == OrElse(lit, s.lbrace)
  {
    hide ListIn, OptIn, WithCounters, InstrList, InstrOpt, ListCounters, OptCounters, CleanList, CleanOpt, AfterOpt;
    hide LiteralInOpt;
  }

  lemma ForFits(s: Stmt)
    requires s.For? && WellPlaced(s)
    ensures Fits(s, Counters(Instr(s)))
    decreases s, 0
  {
    hide Within, Disjoint, ListIn, OptIn, WithCounters, InstrList, InstrOpt, ListCounters, OptCounters, CleanList;
    hide CleanOpt, WellPlaced, Counters, Instr, Clean, HeaderClean, EndsBasicBlock, StatementBoundary, StartOf, EndOf;
    hide FitsList, AfterOpt, LiteralInOpt;
    ForParts(s);
    var a1 := AfterOpt(s.init, s.pos + 1);
    var a2 := AfterOpt(s.test, a1);
    StmtOrder(s);
    OptOrder(s.init, s.pos + 1, s.lbrace);
    OptOrder(s.test, a1, s.lbrace);
    OptOrder(s.post, a2, s.lbrace);
    OptFits(s.init, s.pos + 1, s.lbrace);
    OptFits(s.test, a1, s.lbrace);
    OptFits(s.post, a2, s.lbrace);
    ListOrder(s.list, s.lbrace + 1, s.rbrace);
    ListFits(s.list, s.lbrace + 1, s.rbrace, s.lbrace, s.rbrace + 1, true);
    var i, t, q := OptCounters(InstrOpt(s.init)), OptCounters(InstrOpt(s.test)), OptCounters(InstrOpt(s.post));
    var body := ListCounters(WithCounters(s.lbrace, s.rbrace + 1, InstrList(s.list), true));
    BraceFits(s.list, body, s.lbrace, s.rbrace);
    UnionDisjoint(i, t, s.pos + 1, a1, a2);
    UnionDisjoint(i + t, q, s.pos + 1, a2, AfterOpt(s.post, a2));
    WithinMore(s.pos + 1, AfterOpt(s.post, a2), s.lbrace);
    UnionDisjoint(i + t + q, body, s.pos + 1, s.lbrace, s.rbrace + 1);
    AfterBoundary(s, i, LiteralInOpt(s.init), a1, CleanOpt(s.init));
    AfterBoundary(s, t, LiteralInOpt(s.test), a2, CleanOpt(s.test));
    AfterBoundary(s, q, LiteralInOpt(s.post), AfterOpt(s.post, a2), CleanOpt(s.post));
    WithinMore3(body, s.lbrace, StatementBoundary(s), StartOf(s), EndOf(s));
    WithinMore3(i + t + q + body, s.pos + 1, s.pos, s.pos, EndOf(s));
    WithinParts(s, i, t, q, body);
  }

  /** What is recorded in an expression whose literals stand past the boundary. */
  lemma AfterBoundary(s: Stmt, ms: multiset<BlockInfo>, lit: Option<Pos>, hi: Pos, clean: bool)
    requires FitsExpr(lit, ms, hi, clean) && hi <= EndOf(s) && (lit.Some? ==> StatementBoundary(s) <= lit.value)
    ensures Within(ms, StatementBoundary(s), EndOf(s))
  {
  }

  lemma WithinParts(s: Stmt, a: multiset<BlockInfo>, b: multiset<BlockInfo>, c: multiset<BlockInfo>,
                    d: multiset<BlockInfo>)
    requires Within(a, StatementBoundary(s), EndOf(s)) && Within(b, StatementBoundary(s), EndOf(s))
    requires Within(c, StatementBoundary(s), EndOf(s)) && Within(d, StatementBoundary(s), EndOf(s))
    ensures Within(a + b + c + d, StatementBoundary(s), EndOf(s))
  {
  }

  lemma SwitchParts(s: Stmt)
    requires s.Switch? && s.clauses != [] && WellPlaced(s)
    ensures OptIn(s.init, s.pos + 1, s.lbrace) && OptIn(s.tag, AfterOpt(s.init, s.pos + 1), s.lbrace)
    ensures ClausesIn(s.clauses, s.lbrace + 1, s.rbrace)
    ensures Counters(Instr(s)) == OptCounters(InstrOpt(s.init)) + OptCounters(InstrOpt(s.tag))
                                  + ClauseCounters(InstrClauses(s.clauses))
    ensures Clean(s) <==> CleanOpt(s.init) && CleanOpt(s.tag) && CleanClauses(s.clauses)
    ensures EndsBasicBlock(s) && StartOf(s) == s.pos && EndOf(s) == s.rbrace + 1 && StatementBoundary(s) <= s.lbrace
    ensures HeaderClean(s) && LiteralInOpt(s.init).Some? ==> StatementBoundary(s) <= LiteralInOpt(s.init).value
    ensures HeaderClean(s) && LiteralInOpt(s.tag).Some? ==> StatementBoundary(s) <= LiteralInOpt(s.tag).value
  {
    hide ClausesIn, OptIn, InstrOpt, InstrClauses, OptCounters, ClauseCounters, CleanOpt, CleanClauses, AfterOpt;
    OptOrder(s.init, s.pos + 1, s.lbrace);
    OptOrder(s.tag, AfterOpt(s.init, s.pos + 1), s.lbrace);
  }

  lemma EmptySwitchFits(s: Stmt)
    requires s.Switch? && s.clauses == [] && WellPlaced(s)
    ensures Fits(s, Counters(Instr(s)))
  {
    PlacedIsPlain(s);
    NoneDisjoint(StartOf(s), EndOf(s));
    NoneDisjoint(StatementBoundary(s), EndOf(s));
    assert Instr(s) == s;
  }

  lemma SwitchFits(s: Stmt)
    requires s.Switch? && WellPlaced(s)
    ensures Fits(s, Counters(Instr(s)))
    decreases s, 0
  {
    hide Within, Disjoint, OptIn, ClausesIn, InstrOpt, InstrClauses, OptCounters, ClauseCounters, CleanOpt;
    hide CleanClauses, WellPlaced, Counters, Instr, Clean, HeaderClean, EndsBasicBlock, StatementBoundary, StartOf;
    hide EndOf;
    hide AfterOpt, LiteralInOpt, After, ExprIn, LitsIn;
    StmtOrder(s);
    if s.clauses == [] {
      EmptySwitchFits(s);
    } else {
      SwitchParts(s);
      var a1 := AfterOpt(s.init, s.pos + 1);
      OptOrder(s.init, s.pos + 1, s.lbrace);
      OptOrder(s.tag, a1, s.lbrace);
      OptFits(s.init, s.pos + 1, s.lbrace);
      OptFits(s.tag, a1, s.lbrace);
      ClausesFit(s.clauses, s.lbrace + 1, s.rbrace);
      ClausesOrder(s.clauses, s.lbrace + 1, s.rbrace);
      var i, g := OptCounters(InstrOpt(s.init)), OptCounters(InstrOpt(s.tag));
      var c := ClauseCounters(InstrClauses(s.clauses));
      UnionDisjoint(i, g, s.pos + 1, a1, AfterOpt(s.tag, a1));
      WithinMore(s.pos + 1, AfterOpt(s.tag, a1), s.lbrace + 1);
      UnionDisjoint(i + g, c, s.pos + 1, s.lbrace + 1, s.rbrace);
      WithinMore(s.pos + 1, s.rbrace, EndOf(s));
      WithinMore3(i + g + c, s.pos + 1, s.pos, s.pos, EndOf(s));
      WithinMore(s.lbrace + 1, s.rbrace, EndOf(s));
      WithinMore3(c, s.lbrace + 1, StatementBoundary(s), StatementBoundary(s), EndOf(s));
      if HeaderClean(s) {
        AfterBoundary(s, i, LiteralInOpt(s.init), a1, CleanOpt(s.init));
        AfterBoundary(s, g, LiteralInOpt(s.tag), AfterOpt(s.tag, a1), CleanOpt(s.tag));
        NoneDisjoint(StatementBoundary(s), EndOf(s));
        WithinParts(s, multiset{}, i, g, c);
        assert multiset{} + i + g + c == i + g + c;
      } else {
        LiteralInTheWay(s, i, g, c);
      }
    }
  }

  lemma LiteralInTheWay(s: Stmt, i: multiset<BlockInfo>, g: multiset<BlockInfo>, c: multiset<BlockInfo>)
    requires s.Switch? && WellPlaced(s) && !HeaderClean(s)
    requires LiteralInOpt(s.init).Some? ==> exists b :: b in i && b.start == LiteralInOpt(s.init).value
    requires LiteralInOpt(s.tag).Some? ==> exists b :: b in g && b.start == LiteralInOpt(s.tag).value
    ensures exists b :: b in i + g + c && StartOf(s) < b.start < StatementBoundary(s)
  {
    hide ClausesIn, Clean;
    OptOrder(s.init, s.pos + 1, s.lbrace);
    OptOrder(s.tag, AfterOpt(s.init, s.pos + 1), s.lbrace);
    if LiteralInOpt(s.tag).Some? {
      var b :| b in g && b.start == LiteralInOpt(s.tag).value;
      assert b in i + g + c;
    } else {
      var b :| b in i && b.start == LiteralInOpt(s.init).value;
      assert b in i + g + c;
    }
  }

  lemma {:induction false} ClausesFit(clauses: seq<Clause>, lo: Pos, hi: Pos)
    requires ClausesIn(clauses, lo, hi)
    ensures var ms := ClauseCounters(InstrClauses(clauses));
            Within(ms, lo, hi) && (Disjoint(ms) <==> CleanClauses(clauses))
    decreases clauses, 0
  {
    hide Within, Disjoint, ListIn, ExprIn, WithCounters, InstrList, InstrExpr, ListCounters, ExprCounters, CleanList;
    hide FitsExpr, FitsList;
    if clauses == [] {
      NoneDisjoint(lo, hi);
    } else {
      var c := clauses[0];
      ExprFits(c.guard, c.pos + 1, c.end);
      ExprOrder(c.guard, c.pos + 1, c.end);
      ListFits(c.body, After(c.guard, c.pos + 1), c.end, c.pos, c.end, false);
      ClausesFit(clauses[1..], c.end, hi);
      ClausesOrder(clauses[1..], c.end, hi);
      var g := ExprCounters(InstrExpr(c.guard));
      var body := ListCounters(WithCounters(c.pos, c.end, InstrList(c.body), false));
      ClauseFits(c, g, body);
      var rest := ClauseCounters(InstrClauses(clauses[1..]));
      UnionDisjoint(g + body, rest, c.pos, c.end, hi);
      assert InstrClauses(clauses)[1..] == InstrClauses(clauses[1..]);
      WithinMore3(g + body + rest, c.pos, lo, lo, hi);
    }
  }

  /** One clause: a literal in its guard is counted twice. */
  lemma ClauseFits(c: Clause, g: multiset<BlockInfo>, body: multiset<BlockInfo>)
    requires ExprIn(c.guard, c.pos + 1, c.end) && ListIn(c.body, After(c.guard, c.pos + 1), c.end)
    requires FitsExpr(LiteralIn(c.guard), g, After(c.guard, c.pos + 1), CleanExpr(c.guard))
    requires FitsList(c.body, body, c.pos, c.end, c.end, false)
    ensures Within(g + body, c.pos, c.end)
    ensures Disjoint(g + body) <==> c.guard.lits == [] && CleanList(c.body)
  {
    hide ListIn, ExprIn, CleanList, CleanExpr, Disjoint;
    ExprOrder(c.guard, c.pos + 1, c.end);
    if c.guard.lits == [] {
      assert g + body == body;
    } else {
      var lit := c.guard.lits[0].lbrace;
      var a :| a in g && a.start == lit;
      var b :| b in body && b.start == c.pos && b.end >= if c.body == [] then c.end else StartOf(c.body[0]);
      ListStarts(c.body, After(c.guard, c.pos + 1), c.end);
      OverlapIsNotDisjoint(g, body, a, b);
    }
  }

  lemma ListStarts(list: seq<Stmt>, lo: Pos, hi: Pos)
    requires ListIn(list, lo, hi)
    ensures list != [] ==> lo <= StartOf(list[0])
  {
  }

  // ----------------------------------------------------------------- theorem

  /** The blocks recorded for a function body never share source, if and only if no literal in it
      stands in the guard of a clause, or in the guard of a type switch whose init statement
      holds none. */
  lemma BlocksAreDisjoint(lbrace: Pos, rbrace: Pos, body: seq<Stmt>)
    requires ListIn(body, lbrace + 1, rbrace)
    ensures Disjoint(ListCounters(WithCounters(lbrace, rbrace + 1, InstrList(body), true))) <==> CleanList(body)
  {
    ListFits(body, lbrace + 1, rbrace, lbrace, rbrace + 1, true);
  }

  // ----------------------------------------------------------------- overlaps

  const Literal := FuncLit(16, 20, [Plain(17, 19, Expr(2, []))])

  /** switch x { case func() int { y() }(): z() } */
  const GuardLiteral :=
    Switch(2, ExprSwitch, None, Some(Expr(0, [])), 8, 40,
           [Clause(10, 39, Expr(1, [Literal]), false, [Plain(25, 30, Expr(3, []))])])

  /** switch func() any { y() }().(type) { default: } */
  const TypeLiteral :=
    Switch(2, TypeSwitch, None, Some(Expr(1, [Literal])), 24, 40, [Clause(26, 36, Expr(0, []), true, [])])

  lemma LiteralPlaced()
    ensures LitsIn([Literal], 11, 39) && LitsIn([Literal], 3, 24)
  {
    var x := Plain(17, 19, Expr(2, []));
    assert LitsIn([], 18, 19) && WellPlaced(x) && [x][1..] == [];
    assert ListIn([], 19, 20) && ListIn([x], 17, 20);
    assert [Literal][1..] == [] && LitsIn([], 21, 39) && LitsIn([], 21, 24);
  }

  /** A literal in the guard of a clause is counted twice: by its own block and by that of the clause. */
  lemma GuardLiteralOverlaps()
    ensures ListIn([GuardLiteral], 1, 41)
    ensures !Disjoint(ListCounters(WithCounters(0, 42, InstrList([GuardLiteral]), true)))
  {
    LiteralPlaced();
    var c, body := GuardLiteral.clauses[0], Plain(25, 30, Expr(3, []));
    assert LitsIn([], 26, 30) && WellPlaced(body) && [body][1..] == [] && ListIn([], 30, 39) && ListIn([body], 21, 39);
    assert ClausesIn([], 39, 40) && [c][1..] == [] && ClausesIn([c], 9, 40);
    assert LitsIn([], 3, 8) && ExprIn(Expr(0, []), 3, 8) && OptIn(None, 3, 8) && OptIn(Some(Expr(0, [])), 3, 8);
    assert WellPlaced(GuardLiteral);
    assert [GuardLiteral][1..] == [] && ListIn([], 41, 41) && ListIn([GuardLiteral], 1, 41);
    assert !CleanClauses([c]) && !Clean(GuardLiteral) && !CleanList([GuardLiteral]);
    hide WellPlaced;
    BlocksAreDisjoint(0, 41, [GuardLiteral]);
  }

  /** So is one in the guard of a type switch. */
  lemma TypeLiteralOverlaps()
    ensures ListIn([TypeLiteral], 1, 41)
    ensures !Disjoint(ListCounters(WithCounters(0, 42, InstrList([TypeLiteral]), true)))
  {
    LiteralPlaced();
    var c := TypeLiteral.clauses[0];
    assert LitsIn([], 27, 36) && ExprIn(c.guard, 27, 36) && ListIn([], 27, 36);
    assert ClausesIn([], 36, 40) && [c][1..] == [] && ClausesIn([c], 25, 40);
    assert ExprIn(Expr(1, [Literal]), 3, 24) && OptIn(None, 3, 24) && OptIn(Some(Expr(1, [Literal])), 3, 24);
    assert WellPlaced(TypeLiteral);
    assert [TypeLiteral][1..] == [] && ListIn([], 41, 41) && ListIn([TypeLiteral], 1, 41);
    assert !HeaderClean(TypeLiteral) && !CleanList([TypeLiteral]);
    hide WellPlaced;
    BlocksAreDisjoint(0, 41, [TypeLiteral]);
  }
}
