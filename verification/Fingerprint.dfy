/**
 The printed fingerprint by which the explorer recognises a state: the coverage tables of all
 processes, blocks in order.
 */
module Fingerprint {
  import opened Basics
  import opened Coverage
  import opened Printing

  // ------------------------------------------------------------------ sorting

  /** The order of sort.Strings. */
  predicate AtMost(a: string, b: string) {
    a == "" || (b != "" && (a[0] < b[0] || (a[0] == b[0] && AtMost(a[1..], b[1..]))))
  }

  lemma {:induction false} AtMostIsTotal(a: string, b: string)
    ensures AtMost(a, b) || AtMost(b, a)
  {
    if a != "" && b != "" && a[0] == b[0] {
      AtMostIsTotal(a[1..], b[1..]);
    }
  }

  lemma {:induction false} AtMostIsAntisymmetric(a: string, b: string)
    requires AtMost(a, b) && AtMost(b, a)
    ensures a == b
  {
    if a != "" && b != "" {
      AtMostIsAntisymmetric(a[1..], b[1..]);
      assert a == [a[0]] + a[1..] && b == [b[0]] + b[1..];
    }
  }

  lemma {:induction false} AtMostIsTransitive(a: string, b: string, c: string)
    requires AtMost(a, b) && AtMost(b, c)
    ensures AtMost(a, c)
  {
    if a != "" && a[0] == b[0] && b[0] == c[0] {
      AtMostIsTransitive(a[1..], b[1..], c[1..]);
    }
  }

  predicate IsLeast(keys: set<string>, least: string) {
    least in keys && forall k :: k in keys ==> AtMost(least, k)
  }

  lemma {:induction false} LeastExists(keys: set<string>) returns (least: string)
    requires keys != {}
    ensures IsLeast(keys, least)
    decreases |keys|
  {
    var k :| k in keys;
    AtMostIsTotal(k, k);
    least := k;
    if keys != {k} {
      assert keys - {k} != {} by {
        assert keys == {k} + (keys - {k});
      }
      var other := LeastExists(keys - {k});
      AtMostIsTotal(k, other);
      if AtMost(k, other) {
        forall x | x in keys ensures AtMost(k, x) {
          if x != k {
            AtMostIsTransitive(k, other, x);
          }
        }
      } else {
        least := other;
      }
    }
  }

  lemma LeastIsUnique(keys: set<string>)
    ensures forall a, b :: IsLeast(keys, a) && IsLeast(keys, b) ==> a == b
    ensures keys != {} ==> exists a :: IsLeast(keys, a)
  {
    forall a, b | IsLeast(keys, a) && IsLeast(keys, b) ensures a == b {
      AtMostIsAntisymmetric(a, b);
    }
    if keys != {} {
      var least := LeastExists(keys);
    }
  }

  /** Each string comes before all later ones, and none comes twice. */
  ghost predicate Ascending(s: seq<string>) {
    forall j, k :: 0 <= j < k < |s| ==> s[j] != s[k] && AtMost(s[j], s[k])
  }

  /** The keys of a map, sorted. */
  function SortedKeys(keys: set<string>): (sorted: seq<string>)
    ensures forall k :: k in sorted <==> k in keys
    ensures |sorted| == |keys| && Ascending(sorted)
    decreases |keys|
  {
    if keys == {} then []
    else
      LeastIsUnique(keys);
      var least :| IsLeast(keys, least);
      [least] + SortedKeys(keys - {least})
  }

  /** There is only one way to sort them. */
  lemma {:induction false} SortedOneWay(s: seq<string>, keys: set<string>)
    requires Ascending(s) && forall k :: k in s <==> k in keys
    ensures s == SortedKeys(keys)
    decreases |s|
  {
    if s == [] {
      assert keys == {};
    } else {
      var rest := s[1..];
      assert s == [s[0]] + rest;
      AtMostIsTotal(s[0], s[0]);
      assert s[0] in keys && IsLeast(keys, s[0]);
      LeastIsUnique(keys);
      forall k ensures k in rest <==> k in keys - {s[0]} {
        assert k in s <==> k == s[0] || k in rest;
      }
      SortedOneWay(rest, keys - {s[0]});
    }
  }

  /** Where a new key goes in a sorted list. */
  method Place(sorted: seq<string>, key: string) returns (at: nat)
    requires Ascending(sorted) && key !in sorted
    ensures at <= |sorted| && Ascending(sorted[..at] + [key] + sorted[at..])
  {
    at := 0;
    while at < |sorted| && AtMost(sorted[at], key)
      invariant at <= |sorted|
      invariant forall j :: 0 <= j < at ==> AtMost(sorted[j], key)
    {
      at := at + 1;
    }
    forall k | at <= k < |sorted| ensures AtMost(key, sorted[k]) {
      AtMostIsTotal(key, sorted[at]);
      if at < k {
        AtMostIsTransitive(key, sorted[at], sorted[k]);
      }
    }
    Inserted(sorted, key, at);
  }

  lemma Inserted(sorted: seq<string>, key: string, at: nat)
    requires Ascending(sorted) && key !in sorted && at <= |sorted|
    requires forall j :: 0 <= j < at ==> AtMost(sorted[j], key)
    requires forall k :: at <= k < |sorted| ==> AtMost(key, sorted[k])
    ensures Ascending(sorted[..at] + [key] + sorted[at..])
  {
    var s := sorted[..at] + [key] + sorted[at..];
    assert forall k :: 0 <= k < |s| ==> s[k] == if k < at then sorted[k] else if k == at then key else sorted[k - 1];
  }

  /** sort.Strings, on a list without duplicates. */
  method SortStrings(keys: seq<string>) returns (sorted: seq<string>)
    requires forall j, k :: 0 <= j < k < |keys| ==> keys[j] != keys[k]
    ensures Ascending(sorted) && forall k :: k in sorted <==> k in keys
  {
    sorted := [];
    for i := 0 to |keys|
      invariant Ascending(sorted) && forall k :: k in sorted <==> k in keys[..i]
    {
      assert keys[i] !in keys[..i];
      assert keys[..i + 1] == keys[..i] + [keys[i]];
      var at := Place(sorted, keys[i]);
      assert sorted == sorted[..at] + sorted[at..];
      sorted := sorted[..at] + [keys[i]] + sorted[at..];
    }
    assert keys[..|keys|] == keys;
  }

  /** The keys of a map, in whatever order the map is traversed. */
  method CollectKeys(cov: CovStats) returns (keys: seq<string>)
    ensures forall j, k :: 0 <= j < k < |keys| ==> keys[j] != keys[k]
    ensures forall k :: k in keys <==> k in cov
  {
    keys := [];
    var rest := cov.Keys;
    while rest != {}
      invariant rest <= cov.Keys
      invariant forall j, k :: 0 <= j < k < |keys| ==> keys[j] != keys[k]
      invariant forall k :: k in keys <==> k in cov && k !in rest
      decreases |rest|
    {
      var k :| k in rest;
      rest := rest - {k};
      keys := keys + [k];
    }
  }

  // --------------------------------------------------------------- the fingerprint

  function Entry(key: string, frequency: Frequency): string {
    key + ":" + Digits(frequency, 10)
  }

  function Entries(keys: seq<string>, cov: CovStats): (entries: seq<string>)
    requires forall k :: k in keys ==> k in cov
    ensures |entries| == |keys|
    ensures forall j :: 0 <= j < |keys| ==> entries[j] == Entry(keys[j], cov[keys[j]])
  {
    if keys == [] then [] else Entries(keys[..|keys| - 1], cov) + [Entry(keys[|keys| - 1], cov[keys[|keys| - 1]])]
  }

  function ProcState(i: nat, cov: CovStats): string {
    "P" + Itoa(i) + "," + Join(Entries(SortedKeys(cov.Keys), cov))
  }

  /** The tables of processes 1 to n. */
  function Tables(all: AllCoverage, n: nat): (tables: seq<CovStats>)
    requires forall i :: 1 <= i <= n ==> i in all
    ensures |tables| == n
  {
    seq(n, i requires 0 <= i < n => all[i + 1])
  }

  function ProcStates(tables: seq<CovStats>): seq<string> {
    if tables == [] then []
    else ProcStates(tables[..|tables| - 1]) + [ProcState(|tables|, tables[|tables| - 1])]
  }

  function StateOf(tables: seq<CovStats>): string {
    Join(ProcStates(tables))
  }

  method PrintProcState(i: nat, cov: CovStats) returns (procState: string)
    ensures procState == ProcState(i, cov)
  {
    hide SortedKeys, Ascending, Digits, Itoa, Join;
    var keys := CollectKeys(cov);
    keys := SortStrings(keys);
    SortedOneWay(keys, cov.Keys);
    var coverageStrings: seq<string> := [];
    for j := 0 to |keys|
      invariant coverageStrings == Entries(keys[..j], cov)
    {
      assert keys[..j + 1][..j] == keys[..j];
      coverageStrings := coverageStrings + [keys[j] + ":" + Digits(cov[keys[j]], 10)];
    }
    assert keys[..|keys|] == keys;
    procState := "P" + Itoa(i) + "," + Join(coverageStrings);
  }

  lemma OneMoreProc(tables: seq<CovStats>, i: nat)
    requires 1 <= i <= |tables|
    ensures ProcStates(tables[..i]) == ProcStates(tables[..i - 1]) + [ProcState(i, tables[i - 1])]
  {
    assert tables[..i] == tables[..i - 1] + [tables[i - 1]];
    PartsAfter(tables[..i - 1], tables[i - 1]);
  }

  lemma TablesOfProcs(all: AllCoverage, n: nat)
    requires forall i :: 1 <= i <= n ==> i in all
    ensures forall i :: 1 <= i <= n ==> Tables(all, n)[i - 1] == all[i]
  {
  }

  lemma NoProcs(tables: seq<CovStats>)
    ensures tables == [] ==> ProcStates(tables) == []
  {
  }

  method PrintState(all: AllCoverage, n: nat) returns (state: string)
    requires forall i :: 1 <= i <= n ==> i in all
    ensures state == StateOf(Tables(all, n))
  {
    hide ProcState, ProcStates, Tables, SortedKeys, Join;
    ghost var tables := Tables(all, n);
    TablesOfProcs(all, n);
    NoProcs(tables[..0]);
    var procStates: seq<string> := [];
    var i := 1;
    while i <= n
      invariant 1 <= i <= n + 1
      invariant procStates == ProcStates(tables[..i - 1])
    {
      OneMoreProc(tables, i);
      var procState := PrintProcState(i, all[i]);
      procStates := procStates + [procState];
      i := i + 1;
    }
    assert tables[..n] == tables;
    state := Join(procStates);
  }

  // ------------------------------------------------------------------ injectivity

  /** What stands between the commas for one process. */
  function Body(cov: CovStats): seq<string> {
    if cov.Keys == {} then [""] else Entries(SortedKeys(cov.Keys), cov)
  }

  function Header(i: nat): string {
    "P" + Itoa(i)
  }

  function Parts(tables: seq<CovStats>): seq<string> {
    if tables == [] then []
    else Parts(tables[..|tables| - 1]) + ([Header(|tables|)] + Body(tables[|tables| - 1]))
  }

  /** No block id contains a comma. */
  ghost predicate PlainTable(cov: CovStats) {
    forall k :: k in cov ==> ',' !in k
  }

  ghost predicate PlainTables(tables: seq<CovStats>) {
    forall i :: 0 <= i < |tables| ==> PlainTable(tables[i])
  }

  lemma PlainDigits(n: nat)
    ensures ',' !in Digits(n, 10) && ':' !in Digits(n, 10)
    ensures ',' !in Itoa(n) && ':' !in Itoa(n)
  {
  }

  lemma EntryParts(key: string, frequency: Frequency)
    requires ',' !in key
    ensures ',' !in Entry(key, frequency) && ':' in Entry(key, frequency)
  {
    PlainDigits(frequency);
    assert Entry(key, frequency)[|key|] == ':';
  }

  predicate IsHeader(part: string) {
    part != "" && ':' !in part
  }

  lemma BodyParts(cov: CovStats)
    requires PlainTable(cov)
    ensures Body(cov) != [] && NoCommas(Body(cov))
    ensures forall j :: 0 <= j < |Body(cov)| ==> !IsHeader(Body(cov)[j])
  {
    var keys := SortedKeys(cov.Keys);
    forall j | 0 <= j < |keys| ensures ',' !in Entry(keys[j], cov[keys[j]]) && ':' in Entry(keys[j], cov[keys[j]]) {
      assert keys[j] in keys;
      EntryParts(keys[j], cov[keys[j]]);
    }
  }

  lemma JoinedProcState(i: nat, cov: CovStats)
    ensures ProcState(i, cov) == Join([Header(i)] + Body(cov))
  {
    JoinConcat([Header(i)], Body(cov));
  }

  lemma PartsAfter(before: seq<CovStats>, last: CovStats)
    ensures ProcStates(before + [last]) == ProcStates(before) + [ProcState(|before| + 1, last)]
    ensures Parts(before + [last]) == Parts(before) + ([Header(|before| + 1)] + Body(last))
  {
    assert (before + [last])[..|before|] == before;
  }

  lemma {:induction false} JoinedParts(tables: seq<CovStats>)
    requires tables != []
    ensures Parts(tables) != [] && ProcStates(tables) != [] && StateOf(tables) == Join(Parts(tables))
    decreases |tables|, 1
  {
    LastSplit(tables);
    JoinedPartsAfter(tables[..|tables| - 1], tables[|tables| - 1]);
  }

  lemma {:induction false} JoinedPartsAfter(before: seq<CovStats>, last: CovStats)
    ensures Parts(before + [last]) != [] && ProcStates(before + [last]) != []
    ensures StateOf(before + [last]) == Join(Parts(before + [last]))
    decreases |before| + 1, 0
  {
    PartsAfter(before, last);
    JoinedProcState(|before| + 1, last);
    SomethingPrinted(before);
    if before != [] {
      JoinedParts(before);
    }
    JoinMore(ProcStates(before), ProcState(|before| + 1, last), Parts(before), [Header(|before| + 1)] + Body(last));
  }

  lemma SomethingPrinted(tables: seq<CovStats>)
    ensures (ProcStates(tables) == []) == (Parts(tables) == []) == (tables == [])
  {
  }

  lemma JoinMore(a: seq<string>, x: string, b: seq<string>, y: seq<string>)
    requires (a == []) == (b == []) && (a != [] ==> Join(a) == Join(b)) && y != [] && x == Join(y)
    ensures Join(a + [x]) == Join(b + y)
  {
    if a == [] {
      assert a + [x] == [x] && b + y == y;
    } else {
      JoinConcat(a, [x]);
      JoinConcat(b, y);
    }
  }

  lemma {:induction false} PartsHaveNoCommas(tables: seq<CovStats>)
    requires PlainTables(tables)
    ensures NoCommas(Parts(tables))
  {
    if tables != [] {
      var n := |tables|;
      PartsHaveNoCommas(tables[..n - 1]);
      BodyParts(tables[n - 1]);
      PlainDigits(n);
      NoCommasMore(Parts(tables[..n - 1]), Header(n), Body(tables[n - 1]));
    }
  }

  lemma NoCommasMore(a: seq<string>, h: string, b: seq<string>)
    requires NoCommas(a) && ',' !in h && NoCommas(b)
    ensures NoCommas(a + ([h] + b))
  {
  }

  /** A list can be cut at the last header. */
  lemma CutAtLastHeader(a: seq<string>, b: seq<string>, h: string, x: seq<string>, y: seq<string>)
    requires IsHeader(h)
    requires forall j :: 0 <= j < |x| ==> !IsHeader(x[j])
    requires forall j :: 0 <= j < |y| ==> !IsHeader(y[j])
    requires a + ([h] + x) == b + ([h] + y)
    ensures a == b && x == y
  {
    var s := a + ([h] + x);
    assert s[|a|] == h && s[|b|] == h;
    assert forall k :: |a| < k < |s| ==> s[k] == x[k - |a| - 1];
    assert forall k :: |b| < k < |s| ==> s[k] == y[k - |b| - 1];
    assert a == s[..|a|] && b == s[..|b|];
    assert x == s[|a| + 1..] && y == s[|b| + 1..];
  }

  lemma EntryInjective(k: string, f: Frequency, l: string, g: Frequency)
    requires Entry(k, f) == Entry(l, g)
    ensures k == l && f == g
  {
    PlainDigits(f);
    PlainDigits(g);
    CutAtLastMark(k, l, ':', Digits(f, 10), Digits(g, 10));
    DigitsRoundTrip(f, 10);
    DigitsRoundTrip(g, 10);
  }

  lemma {:induction false} EntriesInjective(ka: seq<string>, a: CovStats, kb: seq<string>, b: CovStats)
    requires (forall k :: k in ka ==> k in a) && (forall k :: k in kb ==> k in b)
    requires Entries(ka, a) == Entries(kb, b)
    ensures ka == kb && forall k :: k in ka ==> a[k] == b[k]
  {
    forall j | 0 <= j < |ka| ensures ka[j] == kb[j] && a[ka[j]] == b[kb[j]] {
      assert Entries(ka, a)[j] == Entries(kb, b)[j];
      EntryInjective(ka[j], a[ka[j]], kb[j], b[kb[j]]);
    }
  }

  lemma BodyInjective(a: CovStats, b: CovStats)
    requires Body(a) == Body(b)
    ensures a == b
  {
    hide SortedKeys, Ascending, Entries;
    EmptyBody(a);
    EmptyBody(b);
    if a.Keys != {} {
      EntriesInjective(SortedKeys(a.Keys), a, SortedKeys(b.Keys), b);
      SameKeys(a.Keys, b.Keys);
    }
  }

  lemma SameKeys(a: set<string>, b: set<string>)
    requires SortedKeys(a) == SortedKeys(b)
    ensures a == b
  {
    forall k ensures k in a <==> k in b {
      assert k in SortedKeys(a) <==> k in SortedKeys(b);
    }
  }

  lemma EmptyBody(cov: CovStats)
    ensures Body(cov) == [""] <==> cov.Keys == {}
  {
    var keys := SortedKeys(cov.Keys);
    if keys != [] {
      assert keys[0] in keys;
      assert ':' in Entry(keys[0], cov[keys[0]]) by {
        assert Entry(keys[0], cov[keys[0]])[|keys[0]|] == ':';
      }
    }
  }

  lemma {:induction false} PartsInjective(a: seq<CovStats>, b: seq<CovStats>)
    requires |a| == |b| && PlainTables(a) && PlainTables(b)
    requires Parts(a) == Parts(b)
    ensures a == b
    decreases |a|, 1
  {
    if a != [] {
      var n := |a| - 1;
      LastSplit(a);
      LastSplit(b);
      PartsInjectiveAfter(a[..n], a[n], b[..n], b[n]);
    }
  }

  lemma {:induction false} PartsInjectiveAfter(a: seq<CovStats>, x: CovStats, b: seq<CovStats>, y: CovStats)
    requires |a| == |b| && PlainTables(a) && PlainTables(b) && PlainTable(x) && PlainTable(y)
    requires Parts(a + [x]) == Parts(b + [y])
    ensures a == b && x == y
    decreases |a| + 1, 0
  {
    PartsAfter(a, x);
    PartsAfter(b, y);
    LastTable(Parts(a), x, Parts(b), y, |a| + 1);
    PartsInjective(a, b);
  }

  lemma LastTable(before: seq<string>, a: CovStats, before': seq<string>, b: CovStats, n: nat)
    requires PlainTable(a) && PlainTable(b)
    requires before + ([Header(n)] + Body(a)) == before' + ([Header(n)] + Body(b))
    ensures before == before' && a == b
  {
    BodyParts(a);
    BodyParts(b);
    PlainDigits(n);
    CutAtLastHeader(before, before', Header(n), Body(a), Body(b));
    BodyInjective(a, b);
  }

  /** If no block id contains a comma, two states of as many processes have the same
      fingerprint exactly when every process has the same coverage table in both. */
  lemma FingerprintExact(a: seq<CovStats>, b: seq<CovStats>)
    requires |a| == |b| && PlainTables(a) && PlainTables(b)
    ensures StateOf(a) == StateOf(b) <==> a == b
  {
    if a != [] && StateOf(a) == StateOf(b) {
      JoinedParts(a);
      JoinedParts(b);
      PartsHaveNoCommas(a);
      PartsHaveNoCommas(b);
      JoinInjective(Parts(a), Parts(b));
      PartsInjective(a, b);
    }
  }

  /** With a comma, one block can look like two: the tables differ, the fingerprints do not. */
  lemma CommasCollide()
    ensures var a, b := map["a:1,b" := 2 as Frequency], map["a" := 1 as Frequency, "b" := 2 as Frequency];
            a != b && StateOf([a]) == StateOf([b])
  {
    var a, b := map["a:1,b" := 2 as Frequency], map["a" := 1 as Frequency, "b" := 2 as Frequency];
    SortedOne("a:1,b");
    SortedTwo();
    OneEntry("a:1,b", a);
    EntriesOfTwo(b);
    TwoEntries();
    assert a.Keys == {"a:1,b"} && b.Keys == {"a", "b"};
    hide StateOf, SortedKeys, Entries, Entry, Join, Itoa;
    OneProc(a);
    OneProc(b);
  }

  lemma EntriesOfTwo(b: CovStats)
    requires "a" in b && "b" in b
    ensures Entries(["a", "b"], b) == [Entry("a", b["a"]), Entry("b", b["b"])]
  {
  }

  lemma TwoEntries()
    ensures Join([Entry("a:1,b", 2)]) == "a:1,b:2" == Join([Entry("a", 1), Entry("b", 2)])
  {
    assert Digits(1, 10) == "1" && Digits(2, 10) == "2";
  }

  lemma OneProc(cov: CovStats)
    ensures StateOf([cov]) == ProcState(1, cov)
  {
    assert [cov][..0] == [];
    assert ProcStates([cov]) == [ProcState(1, cov)];
  }

  lemma OneEntry(key: string, cov: CovStats)
    requires key in cov
    ensures Entries([key], cov) == [Entry(key, cov[key])]
  {
  }

  lemma SortedOne(key: string)
    ensures SortedKeys({key}) == [key]
  {
    var sorted := SortedKeys({key});
    assert sorted[0] in sorted;
  }

  lemma SortedTwo()
    ensures SortedKeys({"a", "b"}) == ["a", "b"]
  {
    var keys := {"a", "b"};
    var sorted := SortedKeys(keys);
    assert "a"[0] != "b"[0];
    assert AtMost("a", "b") && !AtMost("b", "a") && AtMost("a", "a");
    LeastIsUnique(keys);
    assert IsLeast(keys, "a");
    assert sorted[0] == "a" && sorted[1..] == SortedKeys(keys - {"a"});
    assert keys - {"a"} == {"b"};
    SortedOne("b");
  }
}
