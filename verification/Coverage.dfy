/**
 Coverage tables and their scores.  Counts are unbounded, and scores are exact rationals
 where the program uses floating point.  Maps are traversed in no particular order.
 */
module Coverage {
  import opened Sums

  /** How often a block was reached: a block is listed only once it has been. */
  type Frequency = x: int | 0 < x witness 1

  type CovStats = map<string, Frequency>

  /** The tables of all processes. */
  type AllCoverage = map<int, CovStats>

  datatype BlockInfo = BlockInfo(numNodes: nat, frequency: nat)

  datatype Objective = UNIQUE | FREQUENCY | NODE_FREQUENCY

  function CountOf(cov: CovStats, block: string): nat {
    if block in cov then cov[block] else 0
  }

  function Union(cov1: CovStats, cov2: CovStats): CovStats {
    map block | block in cov1.Keys + cov2.Keys :: CountOf(cov1, block) + CountOf(cov2, block)
  }

  ghost predicate Leq(cov1: CovStats, cov2: CovStats) {
    forall block :: CountOf(cov1, block) <= CountOf(cov2, block)
  }

  /** merged holds cov1 and those blocks of cov2 that are not in rest. */
  ghost predicate UnionBut(cov1: CovStats, cov2: CovStats, rest: set<string>, merged: CovStats) {
    && (forall block :: block in merged <==> block in cov1 || (block in cov2 && block !in rest))
    && (forall block :: block in merged ==>
          merged[block] == CountOf(cov1, block) + if block in rest then 0 else CountOf(cov2, block))
  }

  lemma UnionStep(cov1: CovStats, cov2: CovStats, rest: set<string>, merged: CovStats, block: string)
    requires UnionBut(cov1, cov2, rest, merged) && block in rest && block in cov2
    ensures UnionBut(cov1, cov2, rest - {block}, merged[block := CountOf(merged, block) + cov2[block]])
  {
  }

  method CoverageUnion(cov1: CovStats, cov2: CovStats) returns (merged: CovStats)
    ensures merged == Union(cov1, cov2)
  {
    merged := cov1;
    var rest := cov2.Keys;
    while rest != {}
      invariant rest <= cov2.Keys
      invariant UnionBut(cov1, cov2, rest, merged)
      decreases |rest|
    {
      var block :| block in rest;
      UnionStep(cov1, cov2, rest, merged, block);
      rest := rest - {block};
      if block in merged {
        merged := merged[block := merged[block] + cov2[block]];
      } else {
        merged := merged[block := cov2[block]];
      }
    }
    UnionDone(cov1, cov2, merged);
  }

  lemma UnionDone(cov1: CovStats, cov2: CovStats, merged: CovStats)
    requires UnionBut(cov1, cov2, {}, merged)
    ensures merged == Union(cov1, cov2)
  {
  }

  // ------------------------------------------------------------------ merging

  /** The processes among procs that have covered a block. */
  function Nodes(all: AllCoverage, procs: set<int>, block: string): set<int> {
    set p | p in procs && p in all && block in all[p]
  }

  function CountAt(all: AllCoverage, p: int, block: string): nat {
    if p in all then CountOf(all[p], block) else 0
  }

  /** How often the processes among procs have covered a block together. */
  ghost function Total(all: AllCoverage, procs: set<int>, block: string): nat {
    Count(procs, p => CountAt(all, p, block))
  }

  /** m holds, for every block that some process among procs has covered, the number of
      those processes and the sum of their counts. */
  ghost predicate IsMerged(all: AllCoverage, procs: set<int>, m: map<string, BlockInfo>) {
    && (forall block :: block in m <==> Nodes(all, procs, block) != {})
    && (forall block :: block in m ==>
          m[block] == BlockInfo(|Nodes(all, procs, block)|, Total(all, procs, block)))
  }

  /** One more process brings its own blocks. */
  lemma OneMore(all: AllCoverage, procs: set<int>, p: int, block: string)
    requires p in all && p !in procs
    ensures Nodes(all, procs + {p}, block) == Nodes(all, procs, block) + if block in all[p] then {p} else {}
    ensures Total(all, procs + {p}, block) == Total(all, procs, block) + CountOf(all[p], block)
  {
    CountTake(procs + {p}, q => CountAt(all, q, block), p);
    assert procs + {p} - {p} == procs;
  }

  method MergeCoverage(all: AllCoverage) returns (merged: map<string, BlockInfo>)
    ensures IsMerged(all, all.Keys, merged)
  {
    merged := map[];
    var rest := all.Keys;
    while rest != {}
      invariant rest <= all.Keys
      invariant IsMerged(all, all.Keys - rest, merged)
      decreases |rest|
    {
      ghost var some := SomeElement(rest);
      var p :| p in rest;
      ghost var before := merged;
      merged := MergeStats(merged, all[p]);
      StatsMerged(all, all.Keys - rest, p, before, merged);
      assert all.Keys - (rest - {p}) == all.Keys - rest + {p};
      rest := rest - {p};
    }
    assert all.Keys - rest == all.Keys;
  }

  /** What is known of a block after one more process has covered it. */
  function OneMoreNode(m: map<string, BlockInfo>, block: string, frequency: Frequency): BlockInfo {
    if block in m then BlockInfo(m[block].numNodes + 1, m[block].frequency + frequency) else BlockInfo(1, frequency)
  }

  /** merged is before, with one more process for each block of stats that is not in rest. */
  ghost predicate StatsMergedBut(before: map<string, BlockInfo>, stats: CovStats, rest: set<string>,
                                 merged: map<string, BlockInfo>) {
    && (forall block :: block in merged <==> block in before || (block in stats && block !in rest))
    && (forall block :: block in merged ==>
          merged[block] == if block in stats && block !in rest then OneMoreNode(before, block, stats[block])
                           else before[block])
  }

  lemma MergeStep(before: map<string, BlockInfo>, stats: CovStats, rest: set<string>, merged: map<string, BlockInfo>,
                  block: string)
    requires StatsMergedBut(before, stats, rest, merged) && block in rest && block in stats
    ensures StatsMergedBut(before, stats, rest - {block}, merged[block := OneMoreNode(merged, block, stats[block])])
  {
  }

  /** The inner loop: the blocks of one process. */
  method MergeStats(before: map<string, BlockInfo>, stats: CovStats) returns (merged: map<string, BlockInfo>)
    ensures StatsMergedBut(before, stats, {}, merged)
  {
    merged := before;
    var rest := stats.Keys;
    while rest != {}
      invariant rest <= stats.Keys
      invariant StatsMergedBut(before, stats, rest, merged)
      decreases |rest|
    {
      var block :| block in rest;
      MergeStep(before, stats, rest, merged, block);
      rest := rest - {block};
      var frequency := stats[block];
      if block in merged {
        var info := merged[block];
        merged := merged[block := BlockInfo(info.numNodes + 1, info.frequency + frequency)];
      } else {
        merged := merged[block := BlockInfo(1, frequency)];
      }
    }
  }

  lemma StatsMerged(all: AllCoverage, procs: set<int>, p: int, before: map<string, BlockInfo>,
                    merged: map<string, BlockInfo>)
    requires p in all && p !in procs && IsMerged(all, procs, before)
    requires StatsMergedBut(before, all[p], {}, merged)
    ensures IsMerged(all, procs + {p}, merged)
  {
    forall block
      ensures block in merged <==> Nodes(all, procs + {p}, block) != {}
      ensures block in merged ==>
                merged[block] == BlockInfo(|Nodes(all, procs + {p}, block)|, Total(all, procs + {p}, block))
    {
      BlockMerged(all, procs, p, before, merged, block);
    }
  }

  lemma BlockMerged(all: AllCoverage, procs: set<int>, p: int, before: map<string, BlockInfo>,
                    merged: map<string, BlockInfo>, block: string)
    requires p in all && p !in procs && IsMerged(all, procs, before)
    requires StatsMergedBut(before, all[p], {}, merged)
    ensures block in merged <==> Nodes(all, procs + {p}, block) != {}
    ensures block in merged ==>
              merged[block] == BlockInfo(|Nodes(all, procs + {p}, block)|, Total(all, procs + {p}, block))
  {
    hide Total, CountOf;
    OneMore(all, procs, p, block);
    OneMoreSize(Nodes(all, procs, block), p);
    assert p !in Nodes(all, procs, block);
    hide Nodes;
    if block !in before {
      NothingCounted(all, procs, block);
      assert Nodes(all, procs, block) == {};
    }
    CountOfListed(all[p], block);
  }

  lemma CountOfListed(cov: CovStats, block: string)
    ensures CountOf(cov, block) == if block in cov then cov[block] else 0
  {
  }

  lemma OneMoreSize(nodes: set<int>, p: int)
    ensures p !in nodes ==> |nodes + {p}| == |nodes| + 1 && nodes + {p} != {}
    ensures nodes + {} == nodes
  {
  }

  lemma {:induction false} NothingCounted(all: AllCoverage, procs: set<int>, block: string)
    requires Nodes(all, procs, block) == {}
    ensures Total(all, procs, block) == 0
    decreases |procs|
  {
    if procs != {} {
      var p := SomeElement(procs);
      CountTake(procs, q => CountAt(all, q, block), p);
      assert p !in Nodes(all, procs, block);
      assert Nodes(all, procs - {p}, block) <= Nodes(all, procs, block);
      NothingCounted(all, procs - {p}, block);
    }
  }

  // ------------------------------------------------------------------ scores

  function Blocks(all: AllCoverage): set<string> {
    set p, block | p in all && block in all[p] :: block
  }

  /** What one block, covered so often by so many processes, adds to the score. */
  function Worth(obj: Objective, info: BlockInfo): real {
    if info.frequency == 0 then 0.0
    else match obj
      case UNIQUE => 1.0
      case FREQUENCY => 1.0 / info.frequency as real
      case NODE_FREQUENCY => 1.0 / info.frequency as real * info.numNodes as real
  }

  ghost function Info(all: AllCoverage, block: string): BlockInfo {
    BlockInfo(|Nodes(all, all.Keys, block)|, Total(all, all.Keys, block))
  }

  ghost function Worths(all: AllCoverage, obj: Objective): string -> real {
    block => Worth(obj, Info(all, block))
  }

  /** The score of the tables of all processes. */
  ghost function Score(all: AllCoverage, obj: Objective): real {
    Sum(Blocks(all), Worths(all, obj))
  }

  lemma InfoIsPositive(all: AllCoverage, block: string)
    requires block in Blocks(all)
    ensures 1 <= Info(all, block).numNodes <= Info(all, block).frequency
  {
    var p :| p in all && block in all[p];
    var nodes := Nodes(all, all.Keys, block);
    assert p in nodes;
    NodesCounted(all, all.Keys, block);
  }

  lemma {:induction false} NodesCounted(all: AllCoverage, procs: set<int>, block: string)
    requires procs <= all.Keys
    ensures |Nodes(all, procs, block)| <= Total(all, procs, block)
    decreases |procs|
  {
    if procs != {} {
      var p := SomeElement(procs);
      NodesCounted(all, procs - {p}, block);
      OneMore(all, procs - {p}, p, block);
      assert procs - {p} + {p} == procs;
    }
  }

  lemma UniqueScore(merged: map<string, BlockInfo>)
    requires forall block :: block in merged ==> merged[block].frequency > 0
    ensures Sum(merged.Keys, MergedWorths(merged, UNIQUE)) == |merged| as real
  {
    SumEqual(merged.Keys, MergedWorths(merged, UNIQUE), (block: string) => 1.0);
    SumOfOnes(merged.Keys);
  }

  lemma ScoreStep(merged: map<string, BlockInfo>, obj: Objective, rest: set<string>, block: string)
    requires block in rest && rest <= merged.Keys
    ensures Sum(merged.Keys - (rest - {block}), MergedWorths(merged, obj))
         == Sum(merged.Keys - rest, MergedWorths(merged, obj)) + Worth(obj, merged[block])
  {
    SumTake(merged.Keys - (rest - {block}), MergedWorths(merged, obj), block);
    assert merged.Keys - (rest - {block}) - {block} == merged.Keys - rest;
  }

  method CalcScore(merged: map<string, BlockInfo>, obj: Objective) returns (score: real)
    requires forall block :: block in merged ==> merged[block].frequency > 0
    ensures score == Sum(merged.Keys, MergedWorths(merged, obj))
  {
    match obj
    case UNIQUE =>
      UniqueScore(merged);
      score := |merged| as real;
    case _ =>
      score := 0.0;
      var rest := merged.Keys;
      while rest != {}
        invariant rest <= merged.Keys
        invariant score == Sum(merged.Keys - rest, MergedWorths(merged, obj))
        decreases |rest|
      {
        var block :| block in rest;
        ScoreStep(merged, obj, rest, block);
        rest := rest - {block};
        score := score + Worth(obj, merged[block]);
      }
      assert merged.Keys - rest == merged.Keys;
  }

  ghost function MergedWorths(merged: map<string, BlockInfo>, obj: Objective): string -> real {
    block => if block in merged then Worth(obj, merged[block]) else 0.0
  }

  method CalcFullCoverageScore(all: AllCoverage, obj: Objective) returns (score: real)
    ensures score == Score(all, obj)
  {
    var merged := MergeCoverage(all);
    forall block ensures block in merged <==> block in Blocks(all) {
      if block in Blocks(all) {
        var p :| p in all && block in all[p];
        assert p in Nodes(all, all.Keys, block);
      }
      if block in merged {
        var p := SomeElement(Nodes(all, all.Keys, block));
        assert p in all && block in all[p];
      }
    }
    assert merged.Keys == Blocks(all);
    forall block | block in merged ensures merged[block].frequency > 0 {
      InfoIsPositive(all, block);
    }
    score := CalcScore(merged, obj);
    SumEqual(merged.Keys, MergedWorths(merged, obj), Worths(all, obj));
  }

  /** The tables once process p has covered new as well. */
  function Estimated(all: AllCoverage, added: CovStats, p: int): AllCoverage {
    all[p := Union(if p in all then all[p] else map[], added)]
  }

  /** The estimate stays in the table: that is how the program computes it. */
  method GetCoverageEstimate(all: AllCoverage, added: CovStats, p: int, obj: Objective)
    returns (estimate: real, all': AllCoverage)
    ensures all' == Estimated(all, added, p)
    ensures estimate == Score(all', obj)
  {
    var known := map[];
    if p in all {
      known := all[p];
    }
    known := CoverageUnion(known, added);
    all' := all[p := known];
    estimate := CalcFullCoverageScore(all', obj);
  }

  // ------------------------------------------------------------------ bounds

  /** Of the three scores of any tables, the one by frequency is the smallest and the number
      of blocks the largest. */
  lemma ScoresAreOrdered(all: AllCoverage)
    ensures Score(all, FREQUENCY) <= Score(all, NODE_FREQUENCY) <= Score(all, UNIQUE) == |Blocks(all)| as real
  {
    forall block | block in Blocks(all)
      ensures Worths(all, FREQUENCY)(block) <= Worths(all, NODE_FREQUENCY)(block) <= Worths(all, UNIQUE)(block) == 1.0
    {
      InfoIsPositive(all, block);
      WorthsAreOrdered(Info(all, block));
    }
    SumMonotone(Blocks(all), Worths(all, FREQUENCY), Worths(all, NODE_FREQUENCY));
    SumMonotone(Blocks(all), Worths(all, NODE_FREQUENCY), Worths(all, UNIQUE));
    SumEqual(Blocks(all), Worths(all, UNIQUE), (block: string) => 1.0);
    SumOfOnes(Blocks(all));
  }

  lemma WorthsAreOrdered(info: BlockInfo)
    requires 1 <= info.numNodes <= info.frequency
    ensures Worth(FREQUENCY, info) <= Worth(NODE_FREQUENCY, info) <= Worth(UNIQUE, info) == 1.0
  {
    var f, n := info.frequency as real, info.numNodes as real;
    var r := 1.0 / f;
    assert f * r == 1.0 && r > 0.0;
    assert r * 1.0 <= r * n <= r * f;
  }

  /** The blocks of new that no process has covered. */
  function Uncovered(all: AllCoverage, added: CovStats): set<string> {
    added.Keys - Blocks(all)
  }

  lemma AllKnown(all: AllCoverage, added: CovStats)
    ensures Uncovered(all, added) == {} <==> added.Keys <= Blocks(all)
  {
    forall block | block in added && Uncovered(all, added) == {} ensures block in Blocks(all) {
      assert block !in Uncovered(all, added);
    }
    assert Uncovered(all, added) == added.Keys - Blocks(all);
    if added.Keys <= Blocks(all) {
      assert forall block :: block !in Uncovered(all, added);
    }
  }

  lemma EstimatedBlocks(all: AllCoverage, added: CovStats, p: int)
    ensures Blocks(Estimated(all, added, p)) == Blocks(all) + added.Keys
  {
    var all' := Estimated(all, added, p);
    forall block | block in Blocks(all) + added.Keys ensures block in Blocks(all') {
      if block in added {
        assert block in all'[p];
      } else {
        var q :| q in all && block in all[q];
        assert block in all'[q];
      }
    }
  }

  /** Counting blocks, an estimate beats the current score exactly when the action would
      reach a block that no process has covered. */
  lemma UniqueEstimateFindsNewBlocks(all: AllCoverage, added: CovStats, p: int)
    ensures Score(Estimated(all, added, p), UNIQUE) > Score(all, UNIQUE) <==> Uncovered(all, added) != {}
  {
    EstimatedBlocks(all, added, p);
    ScoresAreOrdered(all);
    ScoresAreOrdered(Estimated(all, added, p));
    NewElements(Blocks(all), added.Keys);
  }

  lemma NewElements<T>(a: set<T>, b: set<T>)
    ensures |a + b| == |a| + |b - a|
  {
    assert a + b == a + (b - a);
    assert a !! b - a;
  }

  lemma {:induction false} TotalGrows(all: AllCoverage, all': AllCoverage, procs: set<int>, block: string)
    requires forall q :: q in procs ==> CountAt(all, q, block) <= CountAt(all', q, block)
    ensures Total(all, procs, block) <= Total(all', procs, block)
    decreases |procs|
  {
    if procs != {} {
      var q := SomeElement(procs);
      CountTake(procs, r => CountAt(all, r, block), q);
      CountTake(procs, r => CountAt(all', r, block), q);
      TotalGrows(all, all', procs - {q}, block);
    }
  }

  /** One process more never lowers a count. */
  lemma EstimateRaisesFrequency(all: AllCoverage, added: CovStats, p: int, block: string)
    ensures Info(all, block).frequency <= Info(Estimated(all, added, p), block).frequency
  {
    var all' := Estimated(all, added, p);
    TotalGrows(all, all', all.Keys, block);
    if p !in all {
      CountTake(all'.Keys, q => CountAt(all', q, block), p);
      assert all'.Keys - {p} == all.Keys;
    } else {
      assert all'.Keys == all.Keys;
    }
  }

  lemma KnownBlockLosesWorth(all: AllCoverage, added: CovStats, p: int, block: string)
    requires block in Blocks(all)
    ensures Worth(FREQUENCY, Info(Estimated(all, added, p), block)) <= Worth(FREQUENCY, Info(all, block))
  {
    InfoIsPositive(all, block);
    EstimateRaisesFrequency(all, added, p, block);
    ReciprocalFalls(Info(all, block).frequency as real, Info(Estimated(all, added, p), block).frequency as real);
  }

  /** By frequency, an estimate beats the current score only if the action would reach a block
      that no process has covered: counting a known block again only lowers the score. */
  lemma FrequencyEstimateFindsNewBlocks(all: AllCoverage, added: CovStats, p: int)
    requires Score(Estimated(all, added, p), FREQUENCY) > Score(all, FREQUENCY)
    ensures Uncovered(all, added) != {}
  {
    AllKnown(all, added);
    hide Score, Estimated, Blocks, Uncovered;
    if Uncovered(all, added) == {} {
      NoGainFromKnownBlocks(all, added, p, Estimated(all, added, p));
    }
  }

  lemma NoGainFromKnownBlocks(all: AllCoverage, added: CovStats, p: int, all': AllCoverage)
    requires added.Keys <= Blocks(all) && all' == Estimated(all, added, p)
    ensures Score(all', FREQUENCY) <= Score(all, FREQUENCY)
  {
    EstimatedBlocks(all, added, p);
    assert Blocks(all) + added.Keys == Blocks(all);
    forall block | block in Blocks(all) ensures Worths(all', FREQUENCY)(block) <= Worths(all, FREQUENCY)(block) {
      KnownBlockLosesWorth(all, added, p, block);
    }
    SumMonotone(Blocks(all), Worths(all', FREQUENCY), Worths(all, FREQUENCY));
  }

  lemma ReciprocalFalls(x: real, y: real)
    requires 0.0 < x <= y
    ensures 1.0 / y <= 1.0 / x
  {
    var r, q := 1.0 / x, 1.0 / y;
    assert x * r == 1.0 && y * q == 1.0 && q > 0.0;
    assert x * q <= y * q;
    if q > r {
      TimesIsStrict(x, r, q);
    }
  }

  lemma TimesIsStrict(x: real, r: real, q: real)
    requires 0.0 < x && r < q
    ensures x * r < x * q
  {
  }

  /** A block that process p would reach for the first time, so rarely that its share grows:
      its count so far is above the number of its processes times the new count. */
  ghost predicate Rewarded(all: AllCoverage, added: CovStats, p: int, block: string) {
    && block in added && p !in Nodes(all, all.Keys, block)
    && Info(all, block).frequency > Info(all, block).numNodes * added[block]
  }

  /** What is known of a block once process p has covered added as well. */
  lemma InfoAfter(all: AllCoverage, added: CovStats, p: int, block: string)
    ensures var n := if block in added && p !in Nodes(all, all.Keys, block) then 1 else 0;
            Info(Estimated(all, added, p), block) ==
            BlockInfo(Info(all, block).numNodes + n, Info(all, block).frequency + CountOf(added, block))
  {
    var all' := Estimated(all, added, p);
    hide Nodes, Total, CountAt, CountOf, Estimated;
    NodesAfter(all, all', added, p, block);
    CountsAfter(all, added, p, block);
    TotalAfter(all, all', p, block, CountOf(added, block));
  }

  lemma CountsAfter(all: AllCoverage, added: CovStats, p: int, block: string)
    ensures var all' := Estimated(all, added, p);
            && all'.Keys == all.Keys + {p}
            && forall q :: CountAt(all', q, block) ==
                           CountAt(all, q, block) + if q == p then CountOf(added, block) else 0
  {
  }

  lemma TotalAfter(all: AllCoverage, all': AllCoverage, p: int, block: string, more: nat)
    requires all'.Keys == all.Keys + {p}
    requires forall q :: CountAt(all', q, block) == CountAt(all, q, block) + if q == p then more else 0
    ensures Total(all', all'.Keys, block) == Total(all, all.Keys, block) + more
  {
    CountTake(all'.Keys, q => CountAt(all', q, block), p);
    CountEqual(all'.Keys - {p}, q => CountAt(all', q, block), q => CountAt(all, q, block));
    assert all'.Keys - {p} == all.Keys - {p};
    if p in all {
      CountTake(all.Keys, q => CountAt(all, q, block), p);
    } else {
      assert all.Keys - {p} == all.Keys;
    }
  }

  lemma NodesAfter(all: AllCoverage, all': AllCoverage, added: CovStats, p: int, block: string)
    requires all' == Estimated(all, added, p)
    ensures |Nodes(all', all'.Keys, block)|
         == |Nodes(all, all.Keys, block)| + if block in added && p !in Nodes(all, all.Keys, block) then 1 else 0
  {
    var nodes := Nodes(all, all.Keys, block);
    if block in added {
      assert Nodes(all', all'.Keys, block) == nodes + {p};
    } else {
      assert Nodes(all', all'.Keys, block) == nodes;
    }
  }

  /** The worth of a known block by nodes and frequency grows exactly when it is rewarded. */
  lemma WorthGrowsWhenRewarded(all: AllCoverage, added: CovStats, p: int, block: string)
    requires block in Blocks(all)
    ensures Worth(NODE_FREQUENCY, Info(Estimated(all, added, p), block)) > Worth(NODE_FREQUENCY, Info(all, block))
       <==> Rewarded(all, added, p, block)
  {
    InfoAfter(all, added, p, block);
    InfoIsPositive(all, block);
    if block in added {
      var i, j := Info(all, block), Info(Estimated(all, added, p), block);
      hide Info, Estimated, Nodes;
      WorthsCompared(i, j);
      ProductsCompared(i.numNodes, i.frequency, added[block]);
    }
  }

  lemma ProductsCompared(n: nat, f: nat, a: nat)
    requires a > 0 && n > 0
    ensures (n + 1) * f > n * (f + a) <==> f > n * a
    ensures !(n * f > n * (f + a))
  {
    assert (n + 1) * f == n * f + f && n * (f + a) == n * f + n * a && n * a > 0;
  }

  lemma WorthsCompared(i: BlockInfo, j: BlockInfo)
    requires i.frequency > 0 && j.frequency > 0
    ensures Worth(NODE_FREQUENCY, j) > Worth(NODE_FREQUENCY, i) <==> j.numNodes * i.frequency > i.numNodes * j.frequency
  {
    var f, g := i.frequency as real, j.frequency as real;
    var r, q := 1.0 / f, 1.0 / g;
    assert f * r == 1.0 && g * q == 1.0;
    CrossMultiplied(f, g, r, q, i.numNodes as real, j.numNodes as real);
    assert (j.numNodes * i.frequency) as real == j.numNodes as real * f;
    assert (i.numNodes * j.frequency) as real == i.numNodes as real * g;
  }

  lemma CrossMultiplied(f: real, g: real, r: real, q: real, n: real, m: real)
    requires f > 0.0 && g > 0.0 && f * r == 1.0 && g * q == 1.0
    ensures q * m > r * n <==> m * f > n * g
  {
    var a, b, k := q * m, r * n, f * g;
    assert k > 0.0;
    assert k * a == (g * q) * (m * f) == m * f;
    assert k * b == (f * r) * (n * g) == n * g;
    if a > b {
      TimesIsStrict(k, b, a);
    } else if a < b {
      TimesIsStrict(k, a, b);
    }
  }

  /** By nodes and frequency, an estimate beats the current score only if the action would reach
      a block that no process has covered, or one that is rewarded. */
  lemma NodeFrequencyEstimateFindsRewards(all: AllCoverage, added: CovStats, p: int)
    requires Score(Estimated(all, added, p), NODE_FREQUENCY) > Score(all, NODE_FREQUENCY)
    ensures Uncovered(all, added) != {} || exists block :: block in added && Rewarded(all, added, p, block)
  {
    AllKnown(all, added);
    hide Score, Estimated, Blocks, Uncovered;
    if Uncovered(all, added) == {} && forall block :: block in added ==> !Rewarded(all, added, p, block) {
      NoGainWithoutRewards(all, added, p, Estimated(all, added, p));
    }
  }

  lemma NoGainWithoutRewards(all: AllCoverage, added: CovStats, p: int, all': AllCoverage)
    requires added.Keys <= Blocks(all) && all' == Estimated(all, added, p)
    requires forall block :: block in added ==> !Rewarded(all, added, p, block)
    ensures Score(all', NODE_FREQUENCY) <= Score(all, NODE_FREQUENCY)
  {
    EstimatedBlocks(all, added, p);
    assert Blocks(all) + added.Keys == Blocks(all);
    forall block | block in Blocks(all)
      ensures Worths(all', NODE_FREQUENCY)(block) <= Worths(all, NODE_FREQUENCY)(block)
    {
      WorthGrowsWhenRewarded(all, added, p, block);
    }
    SumMonotone(Blocks(all), Worths(all', NODE_FREQUENCY), Worths(all, NODE_FREQUENCY));
  }

  /** For an action that reaches a single block, and a known one, this is exact. */
  lemma SingleKnownBlockRewarded(all: AllCoverage, added: CovStats, p: int, block: string)
    requires added.Keys == {block} && block in Blocks(all)
    ensures Score(Estimated(all, added, p), NODE_FREQUENCY) > Score(all, NODE_FREQUENCY) <==>
            Rewarded(all, added, p, block)
  {
    EstimatedBlocks(all, added, p);
    assert Blocks(all) + added.Keys == Blocks(all);
    WorthGrowsWhenRewarded(all, added, p, block);
    OnlyThisBlockChanges(all, Estimated(all, added, p), added, p, block, NODE_FREQUENCY);
  }

  lemma OnlyThisBlockChanges(all: AllCoverage, all': AllCoverage, added: CovStats, p: int, block: string,
                             obj: Objective)
    requires all' == Estimated(all, added, p) && Blocks(all') == Blocks(all)
    requires added.Keys == {block} && block in Blocks(all)
    ensures Score(all', obj) - Score(all, obj)
         == Worth(obj, Info(all', block)) - Worth(obj, Info(all, block))
  {
    var others := Blocks(all) - {block};
    forall b | b in others ensures Worths(all', obj)(b) == Worths(all, obj)(b) {
      InfoAfter(all, added, p, b);
    }
    hide Info;
    SumEqual(others, Worths(all', obj), Worths(all, obj));
    SumTake(Blocks(all), Worths(all, obj), block);
    SumTake(Blocks(all), Worths(all', obj), block);
  }

  /** For example, a second process that reaches a known block once raises the score of the
      block from 1/2 to 2/3. */
  lemma NodeFrequencyRewardsKnownBlocks(block: string)
    ensures var all := map[1 := map[block := 2 as Frequency]];
            var added := map[block := 1 as Frequency];
            && Uncovered(all, added) == {}
            && Score(Estimated(all, added, 2), NODE_FREQUENCY) > Score(all, NODE_FREQUENCY)
  {
    var all := map[1 := map[block := 2 as Frequency]];
    var added := map[block := 1 as Frequency];
    assert Union(map[], added) == added;
    assert Estimated(all, added, 2) == map[1 := map[block := 2 as Frequency], 2 := added];
    KnownBlockOnce(all, block);
    KnownBlockTwice(Estimated(all, added, 2), block);
    assert block in all[1];
  }

  lemma KnownBlockOnce(all: AllCoverage, block: string)
    requires all.Keys == {1} && all[1].Keys == {block} && all[1][block] == 2
    ensures Score(all, NODE_FREQUENCY) == 1.0 / 2.0
  {
    OneKnownBlock(all, {}, 1, block);
    assert {} + {1} == all.Keys;
    assert 1 in all && block in all[1];
    ScoreOfOneBlock(all, NODE_FREQUENCY, block);
  }

  lemma KnownBlockTwice(all: AllCoverage, block: string)
    requires all.Keys == {1, 2} && all[1].Keys == all[2].Keys == {block}
    requires all[1][block] == 2 && all[2][block] == 1
    ensures Score(all, NODE_FREQUENCY) == 2.0 / 3.0
  {
    OneKnownBlock(all, {}, 1, block);
    OneKnownBlock(all, {1}, 2, block);
    assert {} + {1} == {1} && {1} + {2} == all.Keys;
    assert 1 in all && block in all[1];
    ScoreOfOneBlock(all, NODE_FREQUENCY, block);
  }

  lemma OneKnownBlock(all: AllCoverage, procs: set<int>, p: int, block: string)
    requires p in all && p !in procs && block in all[p]
    ensures procs == {} ==> Nodes(all, procs, block) == {} && Total(all, procs, block) == 0
    ensures |Nodes(all, procs + {p}, block)| == |Nodes(all, procs, block)| + 1
    ensures Total(all, procs + {p}, block) == Total(all, procs, block) + all[p][block]
  {
    OneMore(all, procs, p, block);
  }

  lemma ScoreOfOneBlock(all: AllCoverage, obj: Objective, block: string)
    requires exists p :: p in all && block in all[p]
    requires forall p :: p in all ==> all[p].Keys <= {block}
    ensures Score(all, obj) == Worth(obj, Info(all, block))
  {
    assert Blocks(all) == {block};
    SumTake(Blocks(all), Worths(all, obj), block);
    assert Blocks(all) - {block} == {};
  }

  // ------------------------------------------------------------- exact gains

  /** What the added coverage scores on its own. */
  ghost function Alone(added: CovStats, p: int, obj: Objective): real {
    Score(map[p := added], obj)
  }

  lemma NothingKnown(all: AllCoverage, block: string)
    requires block !in Blocks(all)
    ensures Info(all, block) == BlockInfo(0, 0) && Nodes(all, all.Keys, block) == {}
  {
    if Nodes(all, all.Keys, block) != {} {
      var p := SomeElement(Nodes(all, all.Keys, block));
      assert false;
    }
    NothingCounted(all, all.Keys, block);
  }

  /** Of a block that no process has covered, only the new coverage is known afterwards. */
  lemma NewBlockInfo(all: AllCoverage, added: CovStats, p: int, block: string)
    requires block in added && block !in Blocks(all)
    ensures Info(Estimated(all, added, p), block) == BlockInfo(1, added[block])
  {
    NothingKnown(all, block);
    InfoAfter(all, added, p, block);
  }

  lemma AloneInfo(added: CovStats, p: int, block: string)
    requires block in added
    ensures Info(map[p := added], block) == BlockInfo(1, added[block])
  {
    assert Union(map[], added) == added;
    assert Estimated(map[], added, p) == map[p := added];
    NewBlockInfo(map[], added, p, block);
  }

  /** Coverage of blocks that no process has covered adds to any score what it scores alone. */
  lemma NewBlocksAddTheirScore(all: AllCoverage, added: CovStats, p: int, obj: Objective)
    requires added.Keys !! Blocks(all)
    ensures Score(Estimated(all, added, p), obj) == Score(all, obj) + Alone(added, p, obj)
  {
    var all', alone: AllCoverage := Estimated(all, added, p), map[p := added];
    EstimatedBlocks(all, added, p);
    assert Blocks(alone) == added.Keys by {
      forall block | block in added ensures block in Blocks(alone) {
        assert p in alone && block in alone[p];
      }
    }
    forall block | block in Blocks(all) ensures Worths(all', obj)(block) == Worths(all, obj)(block) {
      assert block !in added;
      InfoAfter(all, added, p, block);
    }
    forall block | block in added ensures Worths(all', obj)(block) == Worths(alone, obj)(block) {
      NewBlockInfo(all, added, p, block);
      AloneInfo(added, p, block);
    }
    hide Worths, Blocks, Estimated;
    SumUnion(Blocks(all), added.Keys, Worths(all', obj));
    SumEqual(Blocks(all), Worths(all', obj), Worths(all, obj));
    SumEqual(added.Keys, Worths(all', obj), Worths(alone, obj));
  }

  lemma ReciprocalIsPositive(x: real)
    requires x > 0.0
    ensures 1.0 / x > 0.0
  {
  }

  /** One block covered c times by one process scores 1 by number, and the reciprocal of c
      otherwise. */
  lemma OneBlockAlone(p: int, block: string, c: Frequency, obj: Objective)
    ensures Alone(map[block := c], p, obj) == (if obj == UNIQUE then 1.0 else 1.0 / c as real) > 0.0
  {
    var all: AllCoverage := map[p := map[block := c]];
    assert p in all && block in all[p];
    ScoreOfOneBlock(all, obj, block);
    AloneInfo(map[block := c], p, block);
    ReciprocalIsPositive(c as real);
  }

  /** Reaching one uncovered block, c times, raises the score by the reciprocal of c by frequency,
      with or without nodes, and by 1 by number. */
  lemma NewBlockRaises(all: AllCoverage, p: int, block: string, c: Frequency, obj: Objective)
    requires block !in Blocks(all)
    ensures Score(Estimated(all, map[block := c], p), obj) ==
            Score(all, obj) + if obj == UNIQUE then 1.0 else 1.0 / c as real
  {
    NewBlocksAddTheirScore(all, map[block := c], p, obj);
    OneBlockAlone(p, block, c, obj);
  }

  /** Reaching a known block once more, c times, lowers the score by frequency from the reciprocal
      of its total count to that of the new total. */
  lemma KnownBlockLowers(all: AllCoverage, p: int, block: string, c: Frequency)
    requires block in Blocks(all)
    ensures var f := Total(all, all.Keys, block);
            f > 0 && Score(Estimated(all, map[block := c], p), FREQUENCY) ==
                     Score(all, FREQUENCY) - 1.0 / f as real + 1.0 / (f + c) as real
  {
    hide Score, Blocks, Estimated, Info, Total, Worth;
    var added: CovStats := map[block := c];
    KnownBlockInfo(all, added, p, block);
    OnlyThisBlockChanges(all, Estimated(all, added, p), added, p, block, FREQUENCY);
    WorthByFrequency(Info(all, block));
    WorthByFrequency(Info(Estimated(all, added, p), block));
  }

  lemma KnownBlockInfo(all: AllCoverage, added: CovStats, p: int, block: string)
    requires added.Keys == {block} && block in Blocks(all)
    ensures Blocks(Estimated(all, added, p)) == Blocks(all) && Info(all, block).frequency > 0
    ensures Info(all, block).frequency == Total(all, all.Keys, block)
    ensures Info(Estimated(all, added, p), block).frequency == Total(all, all.Keys, block) + added[block]
  {
    EstimatedBlocks(all, added, p);
    assert Blocks(all) + added.Keys == Blocks(all);
    InfoIsPositive(all, block);
    InfoAfter(all, added, p, block);
  }

  lemma WorthByFrequency(info: BlockInfo)
    requires info.frequency > 0
    ensures Worth(FREQUENCY, info) == 1.0 / info.frequency as real
  {
  }

  /** So new blocks always make an improving action, under every objective: the converse for
      actions that reach no known block. */
  lemma NewBlocksImprove(all: AllCoverage, added: CovStats, p: int, obj: Objective)
    requires added.Keys !! Blocks(all)
    ensures Score(Estimated(all, added, p), obj) > Score(all, obj) <==> added.Keys != {}
  {
    NewBlocksAddTheirScore(all, added, p, obj);
    if added.Keys != {} {
      var block :| block in added;
      AloneAtLeast(added, p, block, obj);
    } else {
      assert Blocks(map[p := added]) == {};
    }
  }

  lemma AloneAtLeast(added: CovStats, p: int, block: string, obj: Objective)
    requires block in added
    ensures Alone(added, p, obj) > 0.0
  {
    var all: AllCoverage, one: CovStats := map[p := added - {block}], map[block := added[block]];
    assert Union(added - {block}, one) == added;
    assert Estimated(all, one, p) == map[p := added];
    assert block !in Blocks(all);
    NewBlockRaises(all, p, block, added[block], obj);
    assert one == map[block := added[block]];
    OneBlockAlone(p, block, added[block], obj);
    ScoreNotNegative(all, obj);
  }

  lemma WorthNotNegative(obj: Objective, info: BlockInfo)
    ensures Worth(obj, info) >= 0.0
  {
    if info.frequency > 0 {
      var r := 1.0 / info.frequency as real;
      ReciprocalIsPositive(info.frequency as real);
      assert r * info.numNodes as real >= 0.0;
    }
  }

  lemma ScoreNotNegative(all: AllCoverage, obj: Objective)
    ensures Score(all, obj) >= 0.0
  {
    hide Worth, Info, Blocks;
    forall block | block in Blocks(all) ensures Worths(all, obj)(block) >= 0.0 {
      WorthNotNegative(obj, Info(all, block));
    }
    SumMonotone(Blocks(all), (block: string) => 0.0, Worths(all, obj));
    SumOfZeros(Blocks(all));
  }

  lemma {:induction false} SumOfZeros(blocks: set<string>)
    ensures Sum(blocks, (block: string) => 0.0) == 0.0
    decreases |blocks|
  {
    if blocks != {} {
      var block :| block in blocks;
      SumTake(blocks, (b: string) => 0.0, block);
      SumOfZeros(blocks - {block});
    }
  }

  /** As long as no block is covered by two processes, nodes make no difference. */
  lemma OneNodeEach(all: AllCoverage)
    requires forall p, q, block :: p in all && q in all && block in all[p] && block in all[q] ==> p == q
    ensures Score(all, NODE_FREQUENCY) == Score(all, FREQUENCY)
  {
    forall block | block in Blocks(all) ensures Worths(all, NODE_FREQUENCY)(block) == Worths(all, FREQUENCY)(block) {
      OneNode(all, block);
      SameByNodes(Info(all, block));
    }
    SumEqual(Blocks(all), Worths(all, NODE_FREQUENCY), Worths(all, FREQUENCY));
  }

  lemma OneNode(all: AllCoverage, block: string)
    requires block in Blocks(all)
    requires forall p, q :: p in all && q in all && block in all[p] && block in all[q] ==> p == q
    ensures Info(all, block).numNodes == 1
  {
    var p :| p in all && block in all[p];
    var nodes := Nodes(all, all.Keys, block);
    assert p in nodes;
    forall q | q in nodes ensures q == p {
      assert q in all && block in all[q];
    }
    Single(nodes, p);
  }

  lemma SameByNodes(info: BlockInfo)
    requires info.numNodes == 1
    ensures Worth(NODE_FREQUENCY, info) == Worth(FREQUENCY, info)
  {
  }
}
