/**
 The instrumenter at work: the walk over the tree, with the list of blocks it records.

 The walk rebuilds the tree it is given instead of assigning to its nodes.
 */
module InstrumenterFile {
  import opened Basics
  import opened GoSyntax
  import opened Instrumenter

  // ------------------------------------------------------ counters in a tree

  function Counters(s: Stmt): multiset<BlockInfo>
    decreases s, 1
  {
    match s
    case Plain(_, _, x) => ExprCounters(x)
    case Panic(_, _, x) => ExprCounters(x)
    case Return(_, _, x) => ExprCounters(x)
    case Branch(_, _, _, _) => multiset{}
    case Block(_, _, list) => ListCounters(list)
    case If(_, init, cond, _, _, list, els) =>
      OptCounters(init) + ExprCounters(cond) + ListCounters(list) + ElseCounters(els)
    case For(_, init, test, post, _, _, list) =>
      OptCounters(init) + OptCounters(test) + OptCounters(post) + ListCounters(list)
    case Switch(_, _, init, tag, _, _, clauses) =>
      OptCounters(init) + OptCounters(tag) + ClauseCounters(clauses)
    case Labeled(_, _, stmt) => Counters(stmt)
    case Counter(b) => multiset{b}
  }

  function ListCounters(list: seq<Stmt>): multiset<BlockInfo>
    decreases list, 0
  {
    if list == [] then multiset{} else Counters(list[0]) + ListCounters(list[1..])
  }

  function ElseCounters(els: Else): multiset<BlockInfo>
    decreases els, 0
  {
    match els
    case NoElse => multiset{}
    case ElseIf(s) => Counters(s)
    case ElseBlock(_, _, list) => ListCounters(list)
  }

  function ExprCounters(x: Expr): multiset<BlockInfo>
    decreases x, 1
  {
    LitCounters(x.lits)
  }

  function OptCounters(x: Option<Expr>): multiset<BlockInfo>
    decreases x, 2
  {
    match x
    case None => multiset{}
    case Some(e) => ExprCounters(e)
  }

  function LitCounters(lits: seq<FuncLit>): multiset<BlockInfo>
    decreases lits, 0
  {
    if lits == [] then multiset{} else ListCounters(lits[0].body) + LitCounters(lits[1..])
  }

  function ClauseCounters(clauses: seq<Clause>): multiset<BlockInfo>
    decreases clauses, 0
  {
    if clauses == [] then multiset{}
    else ExprCounters(clauses[0].guard) + ListCounters(clauses[0].body) + ClauseCounters(clauses[1..])
  }

  lemma {:induction false} ListCountersConcat(a: seq<Stmt>, b: seq<Stmt>)
    ensures ListCounters(a + b) == ListCounters(a) + ListCounters(b)
  {
    if a == [] {
      assert a + b == b;
    } else {
      ListCountersConcat(a[1..], b);
      assert (a + b)[1..] == a[1..] + b;
    }
  }

  lemma {:induction false} LitCountersConcat(a: seq<FuncLit>, b: seq<FuncLit>)
    ensures LitCounters(a + b) == LitCounters(a) + LitCounters(b)
  {
    if a == [] {
      assert a + b == b;
    } else {
      LitCountersConcat(a[1..], b);
      assert (a + b)[1..] == a[1..] + b;
    }
  }

  lemma {:induction false} ClauseCountersConcat(a: seq<Clause>, b: seq<Clause>)
    ensures ClauseCounters(a + b) == ClauseCounters(a) + ClauseCounters(b)
  {
    if a == [] {
      assert a + b == b;
    } else {
      ClauseCountersConcat(a[1..], b);
      assert (a + b)[1..] == a[1..] + b;
    }
  }

  // ------------------------------------------------------ one block at a time

  /** What the weaving makes of the list after its first n statements, when they are one
      basic block. */
  function Remainder(blockEnd: Pos, list: seq<Stmt>, n: nat): seq<Stmt>
    requires n <= |list|
  {
    if n < |list| then Weave(Some(StartOf(list[n])), blockEnd, list[n..], false) else []
  }

  lemma RemainderOfTail(blockEnd: Pos, list: seq<Stmt>, n: nat)
    requires 0 < n <= |list|
    ensures Remainder(blockEnd, list, n) == Remainder(blockEnd, list[1..], n - 1)
  {
    if n < |list| {
      assert list[1..][n - 1] == list[n] && list[1..][n - 1..] == list[n..];
    }
  }

  lemma WeaveAfterHead(blockEnd: Pos, list: seq<Stmt>, extend: bool)
    requires list != []
    ensures Weave(None, blockEnd, list, extend) ==
            [list[0]] + if EndsBasicBlock(list[0]) || |list| == 1 then Remainder(blockEnd, list, 1)
                        else Weave(None, blockEnd, list[1..], extend)
  {
  }

  lemma Prepend(list: seq<Stmt>, n: nat, rest: seq<Stmt>)
    requires 0 < n <= |list|
    ensures [list[0]] + (list[1..][..n - 1] + rest) == list[..n] + rest
  {
  }

  lemma {:induction false} WeaveOneBlock(blockEnd: Pos, list: seq<Stmt>, extend: bool)
    requires list != []
    ensures var n := BlockLength(list);
            Weave(None, blockEnd, list, extend) == list[..n] + Remainder(blockEnd, list, n)
    decreases |list|
  {
    var n := BlockLength(list);
    var tail := list[1..];
    WeaveAfterHead(blockEnd, list, extend);
    if EndsBasicBlock(list[0]) || |list| == 1 {
      assert n == 1 && list[..1] == [list[0]];
    } else {
      WeaveOneBlock(blockEnd, tail, extend);
      RemainderOfTail(blockEnd, list, n);
      Prepend(list, n, Remainder(blockEnd, list, n));
    }
  }

  lemma WeaveFromStart(pos: Pos, blockEnd: Pos, list: seq<Stmt>, extend: bool)
    requires list != []
    ensures Weave(Some(pos), blockEnd, list, extend) ==
            Ahead(Some(pos), blockEnd, list, extend) + Weave(None, blockEnd, list, extend)
  {
    assert Ahead(None, blockEnd, list, extend) == [];
  }

  lemma Regroup(a: seq<Stmt>, b: seq<Stmt>, c: seq<Stmt>, d: seq<Stmt>)
    ensures a + (b + (c + d)) == a + (b + c) + d
  {
  }

  /** Moving one basic block from what is left of a list to what has been built. */
  lemma MoveBlock(built: seq<Stmt>, pos: Pos, blockEnd: Pos, list: seq<Stmt>, extend: bool, n: nat)
    requires list != [] && n == BlockLength(list)
    ensures built + Weave(Some(pos), blockEnd, list, extend) ==
            built + (Ahead(Some(pos), blockEnd, list, extend) + list[..n])
            + Weave(Some(if n < |list| then StartOf(list[n]) else pos), blockEnd, list[n..], false)
  {
    WeaveFromStart(pos, blockEnd, list, extend);
    WeaveOneBlock(blockEnd, list, extend);
    Regroup(built, Ahead(Some(pos), blockEnd, list, extend), list[..n], Remainder(blockEnd, list, n));
  }

  /** The counters standing in a list itself, in order. */
  function TopInfos(list: seq<Stmt>): seq<BlockInfo> {
    if list == [] then []
    else (if list[0].Counter? then [list[0].block] else []) + TopInfos(list[1..])
  }

  lemma {:induction false} TopInfosConcat(a: seq<Stmt>, b: seq<Stmt>)
    ensures TopInfos(a + b) == TopInfos(a) + TopInfos(b)
  {
    if a == [] {
      assert a + b == b;
    } else {
      TopInfosConcat(a[1..], b);
      assert (a + b)[1..] == a[1..] + b;
    }
  }

  lemma MoveInfos(built: seq<Stmt>, ahead: seq<Stmt>, list: seq<Stmt>, n: nat)
    requires n <= |list| && TopInfos(list) == []
    ensures TopInfos(built + (ahead + list[..n])) == TopInfos(built) + TopInfos(ahead)
    ensures TopInfos(list[n..]) == []
  {
    assert list[..n] + list[n..] == list;
    TopInfosConcat(list[..n], list[n..]);
    TopInfosConcat(built, ahead + list[..n]);
    TopInfosConcat(ahead, list[..n]);
  }

  /** A woven list holds the statements of the original list, and counters. */
  lemma {:induction false} WeaveMembers(start: Option<Pos>, blockEnd: Pos, list: seq<Stmt>, extend: bool, s: Stmt)
    requires s in Weave(start, blockEnd, list, extend)
    ensures s in list || s.Counter?
    decreases |list|
  {
    var rest := Weave(NextStart(list), blockEnd, list[1..], extend && !EndsBasicBlock(list[0]));
    if s in rest {
      WeaveMembers(NextStart(list), blockEnd, list[1..], extend && !EndsBasicBlock(list[0]), s);
    }
  }

  /** Source lists come without counters, and so do their statements. */
  lemma {:induction false} PlainMember(list: seq<Stmt>, s: Stmt)
    requires ListCounters(list) == multiset{} && s in list
    ensures Counters(s) == multiset{}
  {
    if s != list[0] {
      assert s in list[1..];
      PlainMember(list[1..], s);
    }
  }

  lemma CounterCounts(s: Stmt)
    ensures s.Counter? ==> s.block in Counters(s)
  {
  }

  lemma {:induction false} PlainTop(list: seq<Stmt>)
    requires ListCounters(list) == multiset{}
    ensures TopInfos(list) == []
  {
    if list != [] {
      CounterCounts(list[0]);
      PlainTop(list[1..]);
    }
  }

  lemma WithCountersMembers(pos: Pos, blockEnd: Pos, list: seq<Stmt>, extend: bool)
    ensures forall s :: s in WithCounters(pos, blockEnd, list, extend) ==> s in list || s.Counter?
  {
    forall s | s in WithCounters(pos, blockEnd, list, extend) ensures s in list || s.Counter? {
      if list != [] {
        WeaveMembers(Some(pos), blockEnd, list, extend, s);
      }
    }
  }

  lemma WithCountersCommutes(pos: Pos, blockEnd: Pos, list: seq<Stmt>, extend: bool)
    ensures InstrList(WithCounters(pos, blockEnd, list, extend)) == WithCounters(pos, blockEnd, InstrList(list), extend)
  {
    if list == [] {
      assert [Counter(BlockInfo(pos, blockEnd, 0, None))][1..] == [];
    } else {
      WeaveCommutes(Some(pos), blockEnd, list, extend);
    }
  }

  /** One more statement walked. */
  lemma WalkOne(walked: seq<Stmt>, s: Stmt, list: seq<Stmt>, i: nat)
    requires i < |list| && walked == InstrList(list[..i]) && s == Instr(list[i])
    ensures walked + [s] == InstrList(list[..i + 1])
    ensures ListCounters(walked + [s]) == ListCounters(walked) + Counters(s)
    ensures multiset(TopInfos(list[i..])) ==
            (if list[i].Counter? then Counters(s) else multiset{}) + multiset(TopInfos(list[i + 1..]))
  {
    assert list[..i + 1] == list[..i] + [list[i]];
    InstrListConcat(list[..i], [list[i]]);
    InstrListOne(list[i]);
    ListCountersConcat(walked, [s]);
    CountersOfOne(s);
    TopInfosFrom(list, i);
  }

  lemma InstrListOne(s: Stmt)
    ensures InstrList([s]) == [Instr(s)]
  {
  }

  lemma TopInfosFrom(list: seq<Stmt>, i: nat)
    requires i < |list|
    ensures TopInfos(list[i..]) == (if list[i].Counter? then [list[i].block] else []) + TopInfos(list[i + 1..])
  {
    assert list[i..][1..] == list[i + 1..];
  }

  class File {
    var blocks: seq<BlockInfo>

    constructor ()
      ensures blocks == []
    {
      blocks := [];
    }

    method NewCounter(start: Pos, end: Pos, numStmt: nat, head: Option<Pos>) returns (counter: Stmt)
      modifies this`blocks
      ensures counter == Counter(BlockInfo(start, end, numStmt, head))
      ensures blocks == old(blocks) + [BlockInfo(start, end, numStmt, head)]
    {
      blocks := blocks + [BlockInfo(start, end, numStmt, head)];
      counter := Counter(BlockInfo(start, end, numStmt, head));
    }

    /** Splits a list into basic blocks and puts a counter in front of each. */
    method AddCounters(pos0: Pos, blockEnd: Pos, list0: seq<Stmt>, extend0: bool) returns (newList: seq<Stmt>)
      requires TopInfos(list0) == []
      modifies this`blocks
      ensures newList == WithCounters(pos0, blockEnd, list0, extend0)
      ensures blocks == old(blocks) + TopInfos(newList)
    {
      if |list0| == 0 {
        var counter := NewCounter(pos0, blockEnd, 0, None);
        assert [counter][1..] == [];
        return [counter];
      }
      newList := AddBlocks(pos0, blockEnd, list0, extend0);
    }

    /** The same for a list that is not empty, block by block. */
    method AddBlocks(pos0: Pos, blockEnd: Pos, list0: seq<Stmt>, extend0: bool) returns (newList: seq<Stmt>)
      requires TopInfos(list0) == []
      modifies this`blocks
      ensures newList == Weave(Some(pos0), blockEnd, list0, extend0)
      ensures blocks == old(blocks) + TopInfos(newList)
    {
      var pos, list, extend := pos0, list0, extend0;
      newList := [];
      ghost var goal := Weave(Some(pos0), blockEnd, list0, extend0);
      while list != []
        invariant goal == newList + Weave(Some(pos), blockEnd, list, extend)
        invariant blocks == old(blocks) + TopInfos(newList) && TopInfos(list) == []
        decreases |list|
      {
        var last, block := AddBlock(pos, blockEnd, list, extend);
        MoveBlock(newList, pos, blockEnd, list, extend, last);
        MoveInfos(newList, Ahead(Some(pos), blockEnd, list, extend), list, last);
        newList := newList + block;
        // From here on the block is broken up.
        extend := false;
        if last < |list| {
          pos := StartOf(list[last]);
        }
        list := list[last..];
      }
    }

    /** The first basic block of a list, with its counter. */
    method AddBlock(pos: Pos, blockEnd: Pos, list: seq<Stmt>, extend: bool) returns (last: nat, block: seq<Stmt>)
      requires list != []
      modifies this`blocks
      ensures last == BlockLength(list)
      ensures block == Ahead(Some(pos), blockEnd, list, extend) + list[..last]
      ensures blocks == old(blocks) + TopInfos(Ahead(Some(pos), blockEnd, list, extend))
    {
      var end;
      last, end := FirstBlock(list, blockEnd, extend);
      if pos != end {
        var counter := NewCounter(pos, end, last, Some(StartOf(list[0])));
        assert [counter][1..] == [];
        block := [counter] + list[..last];
      } else {
        block := list[..last];
      }
    }

    /** The walk over one statement. */
    method Visit(s: Stmt) returns (s': Stmt)
      requires Counters(s) == multiset{}
      modifies this`blocks
      ensures s' == Instr(s)
      ensures multiset(blocks) == multiset(old(blocks)) + Counters(s')
      decreases s, 3
    {
      match s
      case Plain(pos, end, x) =>
        var x' := VisitExpr(x);
        s' := Plain(pos, end, x');
      case Panic(pos, end, x) =>
        var x' := VisitExpr(x);
        s' := Panic(pos, end, x');
      case Return(pos, end, x) =>
        var x' := VisitExpr(x);
        s' := Return(pos, end, x');
      case Branch(_, _, _, _) =>
        s' := s;
      case Block(lbrace, rbrace, list) =>
        var list' := VisitBody(lbrace, rbrace + 1, list, true);
        s' := Block(lbrace, rbrace, list');
      case If(_, _, _, _, _, _, _) =>
        s' := VisitIf(s);
      case For(_, _, _, _, _, _, _) =>
        s' := VisitFor(s);
      case Switch(_, _, _, _, _, _, _) =>
        s' := VisitSwitch(s);
      case Labeled(pos, name, stmt) =>
        var stmt' := Visit(stmt);
        s' := Labeled(pos, name, stmt');
    }

    method VisitIf(s: Stmt) returns (s': Stmt)
      requires s.If? && Counters(s) == multiset{}
      modifies this`blocks
      ensures s' == Instr(s)
      ensures multiset(blocks) == multiset(old(blocks)) + Counters(s')
      decreases s, 2
    {
      var list := VisitBody(s.lbrace, s.rbrace + 1, s.list, true);
      var els := VisitElse(s.rbrace + 1, s.els);
      s' := If(s.pos, s.init, s.cond, s.lbrace, s.rbrace, list, els);
    }

    method VisitFor(s: Stmt) returns (s': Stmt)
      requires s.For? && Counters(s) == multiset{}
      modifies this`blocks
      ensures s' == Instr(s)
      ensures multiset(blocks) == multiset(old(blocks)) + Counters(s')
      decreases s, 2
    {
      hide WithCounters, ListCounters, OptCounters, InstrOpt, InstrList;
      var init := VisitOpt(s.init);
      var test := VisitOpt(s.test);
      var post := VisitOpt(s.post);
      var list := VisitBody(s.lbrace, s.rbrace + 1, s.list, true);
      s' := For(s.pos, init, test, post, s.lbrace, s.rbrace, list);
    }

    /** A switch or select without clauses is left alone. */
    method VisitSwitch(s: Stmt) returns (s': Stmt)
      requires s.Switch? && Counters(s) == multiset{}
      modifies this`blocks
      ensures s' == Instr(s)
      ensures multiset(blocks) == multiset(old(blocks)) + Counters(s')
      decreases s, 2
    {
      if s.clauses == [] {
        return s;
      }
      var init := VisitOpt(s.init);
      var tag := VisitOpt(s.tag);
      var clauses := VisitClauses(s.clauses);
      s' := Switch(s.pos, s.skind, init, tag, s.lbrace, s.rbrace, clauses);
    }

    method VisitElse(start: Pos, els: Else) returns (els': Else)
      requires ElseCounters(els) == multiset{}
      modifies this`blocks
      ensures els' == InstrElse(start, els)
      ensures multiset(blocks) == multiset(old(blocks)) + ElseCounters(els')
      decreases els, 0
    {
      match els
      case NoElse =>
        els' := NoElse;
      case ElseIf(s) =>
        var list := VisitElseIf(start, s);
        els' := ElseBlock(start, EndOf(s), list);
      case ElseBlock(_, rbrace, list) =>
        var list' := VisitBody(start, rbrace + 1, list, true);
        els' := ElseBlock(start, rbrace, list');
    }

    /** The hidden block of an else-if: its counter, and the nested if. */
    method VisitElseIf(start: Pos, s: Stmt) returns (list: seq<Stmt>)
      requires Counters(s) == multiset{}
      modifies this`blocks
      ensures list == WithCounters(start, EndOf(s) + 1, [Instr(s)], true)
      ensures multiset(blocks) == multiset(old(blocks)) + ListCounters(list)
      decreases s, 4
    {
      hide Instr, Counters, WithCounters, Ahead, TopInfos, ListCounters;
      HiddenBlock(start, s);
      ghost var ahead := Ahead(Some(start), EndOf(s) + 1, [s], true);
      var counted := AddCounters(start, EndOf(s) + 1, [s], true);
      assert counted == ahead + [s];
      var nested := Visit(s);
      list := counted[..|counted| - 1] + [nested];
      assert list == ahead + [nested];
      ListCountersConcat(ahead, [nested]);
      CountersOfOne(nested);
    }

    /** A list in braces or of a clause: first the counters, then the statements themselves. */
    method VisitBody(pos: Pos, blockEnd: Pos, list: seq<Stmt>, extend: bool) returns (walked: seq<Stmt>)
      requires ListCounters(list) == multiset{}
      modifies this`blocks
      ensures walked == WithCounters(pos, blockEnd, InstrList(list), extend)
      ensures multiset(blocks) == multiset(old(blocks)) + ListCounters(walked)
      decreases list, 2
    {
      PlainTop(list);
      var counted := AddCounters(pos, blockEnd, list, extend);
      WithCountersMembers(pos, blockEnd, list, extend);
      WithCountersCommutes(pos, blockEnd, list, extend);
      walked := Walk(counted, list, multiset(old(blocks)));
    }

    /** Walks a list that already has its counters. */
    method Walk(counted: seq<Stmt>, ghost list: seq<Stmt>,
                ghost before: multiset<BlockInfo>) returns (walked: seq<Stmt>)
      requires ListCounters(list) == multiset{}
      requires forall s :: s in counted ==> s in list || s.Counter?
      requires multiset(blocks) == before + multiset(TopInfos(counted))
      modifies this`blocks
      ensures walked == InstrList(counted)
      ensures multiset(blocks) == before + ListCounters(walked)
      decreases list, 1
    {
      hide Instr, Counters;
      walked := [];
      var i := 0;
      assert counted[0..] == counted;
      while i < |counted|
        invariant i <= |counted|
        invariant walked == InstrList(counted[..i])
        invariant multiset(blocks) == before + ListCounters(walked) + multiset(TopInfos(counted[i..]))
      {
        assert counted[i] in counted;
        var s := WalkStmt(counted[i], list);
        WalkOne(walked, s, counted, i);
        walked := walked + [s];
        i := i + 1;
      }
      assert counted[..i] == counted && counted[i..] == [];
    }

    /** Walking on from a counter does nothing. */
    method WalkStmt(s: Stmt, ghost list: seq<Stmt>) returns (s': Stmt)
      requires ListCounters(list) == multiset{} && (s in list || s.Counter?)
      modifies this`blocks
      ensures s' == Instr(s)
      ensures multiset(blocks) == multiset(old(blocks)) + if s.Counter? then multiset{} else Counters(s')
      decreases list, 0
    {
      if s.Counter? {
        return s;
      }
      PlainMember(list, s);
      s' := Visit(s);
    }

    method VisitExpr(x: Expr) returns (x': Expr)
      requires ExprCounters(x) == multiset{}
      modifies this`blocks
      ensures x' == InstrExpr(x)
      ensures multiset(blocks) == multiset(old(blocks)) + ExprCounters(x')
      decreases x, 1
    {
      var lits := VisitLits(x.lits);
      x' := Expr(x.id, lits);
    }

    method VisitOpt(x: Option<Expr>) returns (x': Option<Expr>)
      requires OptCounters(x) == multiset{}
      modifies this`blocks
      ensures x' == InstrOpt(x)
      ensures multiset(blocks) == multiset(old(blocks)) + OptCounters(x')
      decreases x, 2
    {
      match x
      case None =>
        x' := None;
      case Some(e) =>
        var e' := VisitExpr(e);
        x' := Some(e');
    }

    method VisitLits(lits: seq<FuncLit>) returns (lits': seq<FuncLit>)
      requires LitCounters(lits) == multiset{}
      modifies this`blocks
      ensures lits' == InstrLits(lits)
      ensures multiset(blocks) == multiset(old(blocks)) + LitCounters(lits')
      decreases lits, 0
    {
      if lits == [] {
        return [];
      }
      var body := VisitBody(lits[0].lbrace, lits[0].rbrace + 1, lits[0].body, true);
      var rest := VisitLits(lits[1..]);
      lits' := [FuncLit(lits[0].lbrace, lits[0].rbrace, body)] + rest;
      assert lits'[1..] == rest;
    }

    method VisitClauses(clauses: seq<Clause>) returns (clauses': seq<Clause>)
      requires ClauseCounters(clauses) == multiset{}
      modifies this`blocks
      ensures clauses' == InstrClauses(clauses)
      ensures multiset(blocks) == multiset(old(blocks)) + ClauseCounters(clauses')
      decreases clauses, 0
    {
      if clauses == [] {
        return [];
      }
      var c := clauses[0];
      var guard := VisitExpr(c.guard);
      var body := VisitBody(c.pos, c.end, c.body, false);
      var rest := VisitClauses(clauses[1..]);
      clauses' := [c.(guard := guard, body := body)] + rest;
      assert clauses'[1..] == rest;
    }

    /** Finds the statement that ends the first basic block of a list, and its end in the source. */
    method FirstBlock(list: seq<Stmt>, blockEnd: Pos, extend: bool) returns (last: nat, end: Pos)
      requires list != []
      ensures last == BlockLength(list) && end == BlockEnd(blockEnd, list, extend)
    {
      var extendToClosingBrace := extend;
      last, end := 0, blockEnd;
      while last < |list|
        invariant last <= |list|
        invariant extendToClosingBrace == extend
        invariant last > 0 ==> end == StatementBoundary(list[last - 1])
        invariant forall i :: 0 <= i < last ==> !EndsBasicBlock(list[i])
      {
        end := StatementBoundary(list[last]);
        last := last + 1;
        if EndsBasicBlock(list[last - 1]) {
          extendToClosingBrace := false;
          break;
        }
      }
      BlockLengthIs(list, last);
      if extendToClosingBrace {
        end := blockEnd;
      }
    }
  }

  lemma CountersOfOne(s: Stmt)
    ensures ListCounters([s]) == Counters(s)
  {
    assert [s][1..] == [];
  }

  lemma {:induction false} BlockLengthIs(list: seq<Stmt>, n: nat)
    requires 1 <= n <= |list|
    requires forall i :: 0 <= i < n - 1 ==> !EndsBasicBlock(list[i])
    requires n < |list| ==> EndsBasicBlock(list[n - 1])
    ensures BlockLength(list) == n
  {
    if n > 1 {
      BlockLengthIs(list[1..], n - 1);
    }
  }

  /** The hidden block of an else-if holds at most a counter besides the nested if. */
  lemma HiddenBlock(start: Pos, s: Stmt)
    requires Counters(s) == multiset{}
    ensures TopInfos([s]) == []
    ensures var ahead := Ahead(Some(start), EndOf(s) + 1, [s], true);
            && WithCounters(start, EndOf(s) + 1, [s], true) == ahead + [s]
            && WithCounters(start, EndOf(s) + 1, [Instr(s)], true) == ahead + [Instr(s)]
            && TopInfos(ahead + [s]) == TopInfos(ahead)
            && ListCounters(ahead) == multiset(TopInfos(ahead))
  {
    hide Instr, WithCounters, BlockLength, SameShape;
    CountersOfOne(s);
    PlainTop([s]);
    var ahead := Ahead(Some(start), EndOf(s) + 1, [s], true);
    InstrKeepsShape(s);
    assert SameShapes([Instr(s)], [s]);
    ShapesFixCounters(Some(start), EndOf(s) + 1, [Instr(s)], [s], true);
    WovenAlone(start, EndOf(s) + 1, s);
    WovenAlone(start, EndOf(s) + 1, Instr(s));
    TopInfosConcat(ahead, [s]);
    if ahead != [] {
      assert ahead[1..] == [];
    }
  }

  lemma WovenAlone(pos: Pos, blockEnd: Pos, s: Stmt)
    ensures WithCounters(pos, blockEnd, [s], true) == Ahead(Some(pos), blockEnd, [s], true) + [s]
  {
    assert [s][1..] == [];
    assert Weave(NextStart([s]), blockEnd, [], !EndsBasicBlock(s)) == [];
  }
}
