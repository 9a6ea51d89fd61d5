/**
 Which source the counters of one list stand for: each recorded block runs from where its
 first statement starts to the boundary of its last one, or to the closing brace of a list
 that nothing breaks up.
 */
module RecordedBlocks {
  import opened Basics
  import opened GoSyntax
  import opened Instrumenter
  import opened InstrumenterFile
  import opened SourcePositions

  /** Statements h to l make up a basic block of a list; first says whether one begins with the
      list. */
  ghost predicate IsSegment(list: seq<Stmt>, first: bool, h: nat, l: nat) {
    && h <= l < |list|
    && (if h == 0 then first else EndsBasicBlock(list[h - 1]))
    && (l == |list| - 1 || EndsBasicBlock(list[l]))
    && forall k :: h <= k < l ==> !EndsBasicBlock(list[k])
  }

  /** b stands for the statements h to l of a list that opens at pos and closes before blockEnd. */
  ghost predicate StandsFor(b: BlockInfo, pos: Pos, blockEnd: Pos, list: seq<Stmt>, extend: bool, h: nat, l: nat)
    requires h <= l < |list|
  {
    && b.start == (if h == 0 then pos else StartOf(list[h]))
    && b.end == (if extend && forall k :: 0 <= k <= l ==> !EndsBasicBlock(list[k]) then blockEnd
                 else StatementBoundary(list[l]))
    && b.numStmt == l - h + 1 && b.head == Some(StartOf(list[h]))
  }

  /** The block of some segment, if there is source to cover. */
  ghost predicate Expected(b: BlockInfo, pos: Option<Pos>, blockEnd: Pos, list: seq<Stmt>, extend: bool) {
    b.start != b.end &&
    exists h: nat, l: nat ::
      IsSegment(list, pos.Some?, h, l) && StandsFor(b, if pos.Some? then pos.value else 0, blockEnd, list, extend, h, l)
  }

  lemma FirstSegment(list: seq<Stmt>, l: nat)
    requires list != [] && IsSegment(list, true, 0, l)
    ensures l == BlockLength(list) - 1
  {
  }

  /** The block that the counter ahead of a list records. */
  lemma AheadExpected(b: BlockInfo, pos: Pos, blockEnd: Pos, list: seq<Stmt>, extend: bool)
    requires list != []
    ensures b in TopInfos(Ahead(Some(pos), blockEnd, list, extend)) <==>
            && b.start != b.end
            && exists l: nat :: IsSegment(list, true, 0, l) && StandsFor(b, pos, blockEnd, list, extend, 0, l)
  {
    var n, ahead := BlockLength(list), Ahead(Some(pos), blockEnd, list, extend);
    assert IsSegment(list, true, 0, n - 1);
    if ahead != [] {
      assert ahead[1..] == [] && TopInfos(ahead) == [ahead[0].block];
    }
    if b in TopInfos(ahead) {
      assert StandsFor(b, pos, blockEnd, list, extend, 0, n - 1);
    }
    if l: nat :| IsSegment(list, true, 0, l) && StandsFor(b, pos, blockEnd, list, extend, 0, l) {
      FirstSegment(list, l);
    }
  }

  /** The other segments are those of the rest of the list. */
  lemma RestExpected(b: BlockInfo, pos: Option<Pos>, blockEnd: Pos, list: seq<Stmt>, extend: bool)
    requires list != []
    ensures Expected(b, pos, blockEnd, list, extend) <==>
            || Expected(b, NextStart(list), blockEnd, list[1..], extend && !EndsBasicBlock(list[0]))
            || (pos.Some? && b.start != b.end && exists l: nat ::
                  IsSegment(list, true, 0, l) && StandsFor(b, pos.value, blockEnd, list, extend, 0, l))
  {
    var tail, ext, next := list[1..], extend && !EndsBasicBlock(list[0]), NextStart(list);
    var p, q := if pos.Some? then pos.value else 0, if next.Some? then next.value else 0;
    assert forall k :: 0 <= k < |tail| ==> tail[k] == list[k + 1];
    if h: nat, l: nat :|
      b.start != b.end && IsSegment(list, pos.Some?, h, l) && StandsFor(b, p, blockEnd, list, extend, h, l)
    {
      if h > 0 {
        SegmentOfTail(b, p, q, blockEnd, list, pos.Some?, extend, h, l);
        assert Expected(b, next, blockEnd, tail, ext);
      }
    }
    if h: nat, l: nat :|
      b.start != b.end && IsSegment(tail, next.Some?, h, l) && StandsFor(b, q, blockEnd, tail, ext, h, l)
    {
      SegmentOfTail(b, p, q, blockEnd, list, pos.Some?, extend, h + 1, l + 1);
      assert Expected(b, pos, blockEnd, list, extend);
    }
  }

  lemma SegmentOfTail(b: BlockInfo, p: Pos, q: Pos, blockEnd: Pos, list: seq<Stmt>, first: bool, extend: bool,
                      h: nat, l: nat)
    requires 0 < h <= l < |list| && (NextStart(list).Some? ==> q == NextStart(list).value)
    ensures var tail, ext := list[1..], extend && !EndsBasicBlock(list[0]);
            && (IsSegment(list, first, h, l) <==> IsSegment(tail, NextStart(list).Some?, h - 1, l - 1))
            && (IsSegment(list, first, h, l) ==>
                  (StandsFor(b, p, blockEnd, list, extend, h, l) <==>
                   StandsFor(b, q, blockEnd, tail, ext, h - 1, l - 1)))
  {
    var tail := list[1..];
    assert forall k :: 0 <= k < |tail| ==> tail[k] == list[k + 1];
    assert forall k :: 0 < k < |list| ==> list[k] == tail[k - 1];
  }

  lemma {:induction false} WovenExpected(b: BlockInfo, pos: Option<Pos>, blockEnd: Pos, list: seq<Stmt>, extend: bool)
    requires TopInfos(list) == []
    ensures b in TopInfos(Weave(pos, blockEnd, list, extend)) <==> Expected(b, pos, blockEnd, list, extend)
    decreases |list|
  {
    hide BlockEnd, StandsFor, IsSegment, Expected, CounterFor;
    if list == [] {
      NothingExpected(b, pos, blockEnd, extend);
    } else {
      var ext, next := extend && !EndsBasicBlock(list[0]), NextStart(list);
      WovenExpected(b, next, blockEnd, list[1..], ext);
      RestExpected(b, pos, blockEnd, list, extend);
      var ahead := Ahead(pos, blockEnd, list, extend);
      if pos.Some? {
        AheadExpected(b, pos.value, blockEnd, list, extend);
      }
      TopInfosConcat(ahead + [list[0]], Weave(next, blockEnd, list[1..], ext));
      TopInfosConcat(ahead, [list[0]]);
      assert [list[0]][1..] == [];
    }
  }

  lemma NothingExpected(b: BlockInfo, pos: Option<Pos>, blockEnd: Pos, extend: bool)
    ensures !Expected(b, pos, blockEnd, [], extend)
  {
  }

  /** The blocks recorded for a list are those of its segments, each with its source and its number
      of statements; an empty list gets one block, and a segment without source none. */
  lemma BlocksOfList(b: BlockInfo, pos: Pos, blockEnd: Pos, list: seq<Stmt>, extend: bool)
    requires TopInfos(list) == []
    ensures b in TopInfos(WithCounters(pos, blockEnd, list, extend)) <==>
            if list == [] then b == BlockInfo(pos, blockEnd, 0, None)
            else b.start != b.end && exists h: nat, l: nat ::
                   IsSegment(list, true, h, l) && StandsFor(b, pos, blockEnd, list, extend, h, l)
  {
    if list == [] {
      var infos := WithCounters(pos, blockEnd, [], extend);
      assert infos[1..] == [] && TopInfos(infos) == [infos[0].block];
    } else {
      WovenExpected(b, Some(pos), blockEnd, list, extend);
    }
  }

  /** A list in braces that nothing breaks up has one block, from the opening position to just past
      the closing brace, with all its statements. */
  lemma UnbrokenBlock(pos: Pos, blockEnd: Pos, list: seq<Stmt>, b: BlockInfo)
    requires TopInfos(list) == [] && pos != blockEnd && forall k :: 0 <= k < |list| ==> !EndsBasicBlock(list[k])
    ensures b in TopInfos(WithCounters(pos, blockEnd, list, true)) <==>
            b == BlockInfo(pos, blockEnd, |list|, if list == [] then None else Some(StartOf(list[0])))
  {
    BlocksOfList(b, pos, blockEnd, list, true);
    if list != [] {
      var n := |list|;
      assert IsSegment(list, true, 0, n - 1);
      assert StandsFor(BlockInfo(pos, blockEnd, n, Some(StartOf(list[0]))), pos, blockEnd, list, true, 0, n - 1);
    }
  }

  // ------------------------------------------------ every statement has a block

  lemma {:induction false} SegmentAround(list: seq<Stmt>, i: nat) returns (h: nat, l: nat)
    requires i < |list|
    ensures IsSegment(list, true, h, l) && h <= i <= l
  {
    h, l := i, i;
    while h > 0 && !EndsBasicBlock(list[h - 1])
      invariant h <= i && forall k :: h <= k < i ==> !EndsBasicBlock(list[k])
    {
      h := h - 1;
    }
    while l < |list| - 1 && !EndsBasicBlock(list[l])
      invariant i <= l < |list| && forall k :: i <= k < l ==> !EndsBasicBlock(list[k])
    {
      l := l + 1;
    }
  }

  /** The half-open block holds a position. */
  predicate Holds(b: BlockInfo, p: Pos) {
    b.start <= p < b.end
  }

  lemma SegmentHolds(b: BlockInfo, pos: Pos, blockEnd: Pos, list: seq<Stmt>, extend: bool, h: nat, l: nat, i: nat)
    requires ListIn(list, pos + 1, blockEnd - 1) && i < |list|
    requires IsSegment(list, true, h, l) && StandsFor(b, pos, blockEnd, list, extend, h, l)
    ensures Holds(b, StartOf(list[i])) <==> h <= i <= l && !list[i].Block?
  {
    StatementsAscend(list, pos + 1, blockEnd - 1, h, l);
    StatementsAscend(list, pos + 1, blockEnd - 1, i, i);
    StmtOrder(list[l]);
    StmtOrder(list[i]);
    if i <= l {
      StatementsAscend(list, pos + 1, blockEnd - 1, i, l);
    } else {
      StatementsAscend(list, pos + 1, blockEnd - 1, l, i);
    }
    if h <= i {
      StatementsAscend(list, pos + 1, blockEnd - 1, h, i);
    } else {
      StatementsAscend(list, pos + 1, blockEnd - 1, i, h);
      StmtOrder(list[h]);
    }
    if h <= i <= l && list[i].Block? {
      assert i == l;
    }
    if l < i && extend {
      assert IsSegment(list, true, h, l) && EndsBasicBlock(list[l]);
    }
  }

  ghost predicate SegmentBlock(b: BlockInfo, pos: Pos, blockEnd: Pos, list: seq<Stmt>, extend: bool, h: nat, l: nat) {
    IsSegment(list, true, h, l) && StandsFor(b, pos, blockEnd, list, extend, h, l)
  }

  lemma SegmentsMeet(list: seq<Stmt>, i: nat, h: nat, l: nat, h': nat, l': nat)
    requires IsSegment(list, true, h, l) && IsSegment(list, true, h', l') && h <= i <= l && h' <= i <= l'
    ensures h == h' && l == l'
  {
  }

  lemma HeldBySegment(b: BlockInfo, pos: Pos, blockEnd: Pos, list: seq<Stmt>, extend: bool, i: nat)
    returns (h: nat, l: nat)
    requires ListIn(list, pos + 1, blockEnd - 1) && TopInfos(list) == [] && i < |list|
    requires b in TopInfos(WithCounters(pos, blockEnd, list, extend)) && Holds(b, StartOf(list[i]))
    ensures !list[i].Block? && h <= i <= l && SegmentBlock(b, pos, blockEnd, list, extend, h, l)
  {
    hide WithCounters, ListIn;
    BlocksOfList(b, pos, blockEnd, list, extend);
    h, l :| IsSegment(list, true, h, l) && StandsFor(b, pos, blockEnd, list, extend, h, l);
    SegmentHolds(b, pos, blockEnd, list, extend, h, l, i);
  }

  lemma HolderOfStart(pos: Pos, blockEnd: Pos, list: seq<Stmt>, extend: bool, i: nat) returns (b: BlockInfo)
    requires ListIn(list, pos + 1, blockEnd - 1) && TopInfos(list) == [] && i < |list| && !list[i].Block?
    ensures b in TopInfos(WithCounters(pos, blockEnd, list, extend)) && Holds(b, StartOf(list[i]))
  {
    hide WithCounters, ListIn;
    var h, l := SegmentAround(list, i);
    var end := if extend && forall k :: 0 <= k <= l ==> !EndsBasicBlock(list[k]) then blockEnd
               else StatementBoundary(list[l]);
    b := BlockInfo(if h == 0 then pos else StartOf(list[h]), end, l - h + 1, Some(StartOf(list[h])));
    assert StandsFor(b, pos, blockEnd, list, extend, h, l);
    SegmentHolds(b, pos, blockEnd, list, extend, h, l, i);
    BlocksOfList(b, pos, blockEnd, list, extend);
  }

  /** The start of a statement of a placed list lies in exactly one of the recorded blocks of the list;
      only the start of a bare block lies in none, since its own list records it. */
  lemma StartInOneBlock(pos: Pos, blockEnd: Pos, list: seq<Stmt>, extend: bool, i: nat)
    requires ListIn(list, pos + 1, blockEnd - 1) && TopInfos(list) == [] && i < |list|
    ensures var infos, p := TopInfos(WithCounters(pos, blockEnd, list, extend)), StartOf(list[i]);
            && (!list[i].Block? <==> exists b :: b in infos && Holds(b, p))
            && (forall a, b :: a in infos && b in infos && Holds(a, p) && Holds(b, p) ==> a == b)
  {
    hide WithCounters, ListIn, TopInfos, IsSegment, StandsFor;
    var infos, p := TopInfos(WithCounters(pos, blockEnd, list, extend)), StartOf(list[i]);
    if !list[i].Block? {
      var b := HolderOfStart(pos, blockEnd, list, extend, i);
    }
    if a :| a in infos && Holds(a, p) {
      var h, l := HeldBySegment(a, pos, blockEnd, list, extend, i);
    }
    forall a, b | a in infos && b in infos && Holds(a, p) && Holds(b, p) ensures a == b {
      var h, l := HeldBySegment(a, pos, blockEnd, list, extend, i);
      var h', l' := HeldBySegment(b, pos, blockEnd, list, extend, i);
      SameSegment(a, b, pos, blockEnd, list, extend, i, h, l, h', l');
    }
  }

  lemma SameSegment(a: BlockInfo, b: BlockInfo, pos: Pos, blockEnd: Pos, list: seq<Stmt>, extend: bool, i: nat,
                    h: nat, l: nat, h': nat, l': nat)
    requires SegmentBlock(a, pos, blockEnd, list, extend, h, l) && h <= i <= l
    requires SegmentBlock(b, pos, blockEnd, list, extend, h', l') && h' <= i <= l'
    ensures a == b
  {
    SegmentsMeet(list, i, h, l, h', l');
  }

  // ------------------------------------------- where a statement stops

  function LitsOf(x: Option<Expr>): seq<FuncLit> {
    if x.Some? then x.value.lits else []
  }

  /** The function literals that can cut a statement short. */
  function HeaderLits(s: Stmt): seq<FuncLit> {
    match s
    case Plain(_, _, x) => x.lits
    case Panic(_, _, x) => x.lits
    case Return(_, _, x) => x.lits
    case If(_, init, cond, _, _, _, _) => LitsOf(init) + cond.lits
    case For(_, init, test, post, _, _, _) => LitsOf(init) + LitsOf(test) + LitsOf(post)
    case Switch(_, kind, init, tag, _, _, _) =>
      if kind == Select then [] else if kind == TypeSwitch then LitsOf(init) else LitsOf(init) + LitsOf(tag)
    case Labeled(_, _, stmt) => HeaderLits(stmt)
    case _ => []
  }

  /** Where the body of a statement opens, or, without a body, where it ends. */
  function Opening(s: Stmt): Pos {
    match s
    case Block(lbrace, _, _) => lbrace
    case If(_, _, _, lbrace, _, _, _) => lbrace
    case For(_, _, _, _, lbrace, _, _) => lbrace
    case Switch(_, _, _, _, lbrace, _, _) => lbrace
    case Labeled(_, _, stmt) => Opening(stmt)
    case _ => EndOf(s)
  }

  lemma {:induction false} LitsAscend(lits: seq<FuncLit>, lo: Pos, hi: Pos)
    requires LitsIn(lits, lo, hi)
    ensures forall l :: l in lits ==> lo <= l.lbrace < After(Expr(0, lits), lo) && lits[0].lbrace <= l.lbrace
    decreases lits
  {
    LitsOrder(lits, lo, hi);
    if lits != [] {
      ListOrder(lits[0].body, lits[0].lbrace + 1, lits[0].rbrace);
      LitsAscend(lits[1..], lits[0].rbrace + 1, hi);
      assert forall l :: l in lits ==> l == lits[0] || l in lits[1..];
    }
  }

  lemma OptAscend(x: Option<Expr>, lo: Pos, hi: Pos)
    requires OptIn(x, lo, hi)
    ensures forall l :: l in LitsOf(x) ==> lo <= l.lbrace < AfterOpt(x, lo) && LitsOf(x)[0].lbrace <= l.lbrace
    ensures AfterOpt(x, lo) <= hi && lo <= AfterOpt(x, lo)
    ensures LiteralInOpt(x) == if LitsOf(x) == [] then None else Some(LitsOf(x)[0].lbrace)
  {
    OptOrder(x, lo, hi);
    if x.Some? {
      LitsAscend(x.value.lits, lo, hi);
    }
  }

  /** b is the first position among the literals of a header, or the opening when there are none. */
  ghost predicate IsFirst(b: Pos, lits: seq<FuncLit>, opening: Pos) {
    if lits == [] then b == opening
    else (exists l :: l in lits && l.lbrace == b) && forall l :: l in lits ==> b <= l.lbrace
  }

  lemma FirstOfTwo(a: seq<FuncLit>, b: seq<FuncLit>, m: Pos, opening: Pos)
    requires forall l :: l in a ==> l.lbrace < m && a[0].lbrace <= l.lbrace
    requires forall l :: l in b ==> m <= l.lbrace && b[0].lbrace <= l.lbrace
    ensures var first := FirstOf(if a == [] then None else Some(a[0].lbrace),
                                 if b == [] then None else Some(b[0].lbrace));
            IsFirst(OrElse(first, opening), a + b, opening)
    ensures forall l :: l in a + b ==> l in a || l in b
    ensures a + b != [] ==> (a + b)[0] == if a != [] then a[0] else b[0]
  {
    if a != [] {
      assert a[0] in a + b;
    } else if b != [] {
      assert b[0] in a + b;
    }
  }

  /** The boundary of a statement is the body brace of the first function literal of its header, or of
      the statement when it has no body; without a literal, where its body opens or where it ends. */
  lemma {:induction false} BoundaryIsFirstLiteral(s: Stmt)
    requires WellPlaced(s)
    ensures IsFirst(StatementBoundary(s), HeaderLits(s), Opening(s))
    decreases s
  {
    hide ListIn, ClausesIn, ElseIn, LitsIn, After, IsFirst;
    match s
    case Plain(pos, end, x) => OnlyLits(x, pos + 1, end);
    case Panic(pos, end, x) => OnlyLits(x, pos + 1, end);
    case Return(pos, end, x) => OnlyLits(x, pos + 1, end);
    case Branch(_, end, _, _) => NoLits(end);
    case Block(lbrace, _, _) => NoLits(lbrace);
    case If(pos, init, cond, lbrace, _, _, _) =>
      OptAscend(init, pos + 1, lbrace);
      OptAscend(Some(cond), AfterOpt(init, pos + 1), lbrace);
      FirstOfTwo(LitsOf(init), cond.lits, AfterOpt(init, pos + 1), lbrace);
    case For(pos, init, test, post, lbrace, _, _) =>
      var a1 := AfterOpt(init, pos + 1);
      OptAscend(init, pos + 1, lbrace);
      OptAscend(test, a1, lbrace);
      OptAscend(post, AfterOpt(test, a1), lbrace);
      FirstOfTwo(LitsOf(init), LitsOf(test), a1, lbrace);
      FirstOfTwo(LitsOf(init) + LitsOf(test), LitsOf(post), AfterOpt(test, a1), lbrace);
    case Switch(_, _, _, _, _, _, _) => SwitchBoundary(s);
    case Labeled(_, _, stmt) => BoundaryIsFirstLiteral(stmt);
  }

  lemma SwitchBoundary(s: Stmt)
    requires s.Switch? && WellPlaced(s)
    ensures IsFirst(StatementBoundary(s), HeaderLits(s), Opening(s))
  {
    hide ClausesIn, LitsIn, After, ExprIn, IsFirst;
    var pos, init, tag, lbrace := s.pos, s.init, s.tag, s.lbrace;
    OptAscend(init, pos + 1, lbrace);
    OptAscend(tag, AfterOpt(init, pos + 1), lbrace);
    NoLits(lbrace);
    FirstOfTwo(LitsOf(init), LitsOf(tag), AfterOpt(init, pos + 1), lbrace);
    FirstOfTwo(LitsOf(init), [], AfterOpt(init, pos + 1), lbrace);
    assert LitsOf(init) + [] == LitsOf(init);
  }

  lemma NoLits(opening: Pos)
    ensures IsFirst(opening, [], opening)
  {
  }

  lemma OnlyLits(x: Expr, lo: Pos, end: Pos)
    requires ExprIn(x, lo, end)
    ensures IsFirst(OrElse(LiteralIn(x), end), x.lits, end)
  {
    LitsAscend(x.lits, lo, end);
    if x.lits != [] {
      assert x.lits[0] in x.lits;
    }
  }
}
