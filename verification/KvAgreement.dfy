/**
 Agreement between replicas.  Replicas never talk to each other: they agree because
 each applies, at every moment, a prefix of the sorted sequence of all requests it
 will ever receive, and the puts they receive are the same.
 */
module KvAgreement {
  import opened KvService
  import opened KvProtocol

  /** The puts of a log, in the order they were applied. */
  function PutLog(log: seq<Entry>): (puts: seq<Request>)
    ensures forall p :: p in puts ==> p.op.Put?
  {
    if log == [] then []
    else
      var rest := PutLog(log[..|log| - 1]);
      var last := log[|log| - 1].req;
      if last.op.Put? then rest + [last] else rest
  }

  /** The store a sequence of puts produces. */
  function Replay(puts: seq<Request>): Store
    requires forall p :: p in puts ==> p.op.Put?
  {
    if puts == [] then map[]
    else
      var last := puts[|puts| - 1];
      Replay(puts[..|puts| - 1])[last.op.key := last.op.val]
  }

  ghost predicate StrictlySorted(s: seq<Request>) {
    forall j, k :: 0 <= j < k < |s| ==> Before(s[j], s[k])
  }

  /** s lists exactly the requests of a set, sorted by stamp. */
  ghost predicate Listing(s: seq<Request>, requests: set<Request>) {
    StrictlySorted(s) && forall q :: q in s <==> q in requests
  }

  /** The puts among a set of requests. */
  function Puts(requests: set<Request>): set<Request> {
    set q | q in requests && q.op.Put?
  }

  // -------------------------------------------------------- sorted sequences

  lemma InFront(s: seq<Request>, x: Request, n: nat)
    requires StrictlySorted(s) && n < |s| && x in s && Before(x, s[n])
    ensures x in s[..n]
  {
    var j :| 0 <= j < |s| && s[j] == x;
    assert j < n;
    assert s[..n][j] == x;
  }

  lemma NotInFront(s: seq<Request>, n: nat, k: nat)
    requires StrictlySorted(s) && k <= n < |s|
    ensures s[n] !in s[..k]
  {
    assert forall j :: 0 <= j < k ==> Before(s[j], s[n]);
  }

  /** Two sorted sequences agree up to the shorter length when each holds every element
      of the other that lies before one of its own. */
  lemma {:induction false} SortedPrefixesAgree(a: seq<Request>, b: seq<Request>, n: nat)
    requires StrictlySorted(a) && StrictlySorted(b)
    requires n <= |a| && n <= |b|
    requires forall p, q :: p in a && q in b && !Before(p, q) && !Before(q, p) ==> p == q
    requires forall p, q :: p in a && q in b && Before(q, p) ==> q in a
    requires forall p, q :: p in b && q in a && Before(q, p) ==> q in b
    ensures a[..n] == b[..n]
  {
    if n > 0 {
      SortedPrefixesAgree(a, b, n - 1);
      var x, y := a[n - 1], b[n - 1];
      assert x in a && y in b;
      NotInFront(a, n - 1, n - 1);
      NotInFront(b, n - 1, n - 1);
      if Before(x, y) {
        InFront(b, x, n - 1);
      } else if Before(y, x) {
        InFront(a, y, n - 1);
      }
      assert a[..n] == a[..n - 1] + [x] && b[..n] == b[..n - 1] + [y];
    }
  }

  lemma {:induction false} PutLogMembers(log: seq<Entry>, q: Request)
    ensures q in PutLog(log) <==> q.op.Put? && exists k :: 0 <= k < |log| && log[k].req == q
  {
    if log != [] {
      var front := log[..|log| - 1];
      PutLogMembers(front, q);
      if exists k :: 0 <= k < |log| && log[k].req == q {
        var k :| 0 <= k < |log| && log[k].req == q;
        if k < |front| {
          assert front[k].req == q;
        }
      }
    }
  }

  lemma {:induction false} PutLogSorted(log: seq<Entry>)
    requires forall j, k :: 0 <= j < k < |log| ==> Before(log[j].req, log[k].req)
    ensures StrictlySorted(PutLog(log))
  {
    if log != [] {
      var front, last := log[..|log| - 1], log[|log| - 1].req;
      PutLogSorted(front);
      forall q | q in PutLog(front) ensures Before(q, last) {
        PutLogMembers(front, q);
      }
    }
  }

  // ------------------------------------------------------------------- runs

  /** The history of a run only grows. */
  lemma {:induction false} HistoryGrows(cfg: Config, es: seq<Event>, i: nat, k: nat)
    requires Feasible(cfg, es) && i <= k <= |es|
    ensures At(cfg, es, i).log <= At(cfg, es, k).log
    ensures At(cfg, es, i).arrived <= At(cfg, es, k).arrived
  {
    if i < k {
      HistoryGrows(cfg, es, i, k - 1);
      AtStep(cfg, es, k - 1);
    }
  }

  /** At every moment i of a run, the log holds every request of the whole run that
      precedes one of its entries, also those arriving after i. */
  lemma LogClosedUnderEarlier(cfg: Config, es: seq<Event>, i: nat, k: nat, q: Request)
    requires TimelyRun(cfg, es) && i <= |es|
    requires k < |At(cfg, es, i).log|
    requires q in After(cfg, es).arrived
    requires Before(q, At(cfg, es, i).log[k].req)
    ensures exists j :: 0 <= j < k && At(cfg, es, i).log[j].req == q
  {
    HistoryGrows(cfg, es, i, |es|);
    OrderHolds(cfg, es, |es|);
    EarlierIsLogged(cfg, After(cfg, es), k, q, At(cfg, es, i).log);
  }

  /** An arrived request that precedes entry k stands before it in the log. */
  lemma EarlierIsLogged(cfg: Config, s: Replica, k: nat, q: Request, now: seq<Entry>)
    requires OrderInv(cfg, s) && now <= s.log && k < |now|
    requires q in s.arrived && Before(q, now[k].req)
    ensures exists j :: 0 <= j < k && now[j].req == q
  {
    assert s.log[k] == now[k] && s.log[k].req in s.done && Closed(s, s.log[k].req);
    var j :| 0 <= j < |s.log| && s.log[j].req == q;
    assert j < k;
    assert now[j] == s.log[j];
  }

  /** The put log of a moment of a run: sorted, made of arrived puts, and closed under
      earlier puts of the whole run. */
  lemma PutLogAtMoment(cfg: Config, es: seq<Event>, i: nat)
    requires TimelyRun(cfg, es) && i <= |es|
    ensures StrictlySorted(PutLog(At(cfg, es, i).log))
    ensures forall p :: p in PutLog(At(cfg, es, i).log) ==> p in Puts(After(cfg, es).arrived)
    ensures forall p, q :: p in PutLog(At(cfg, es, i).log) && q in Puts(After(cfg, es).arrived) && Before(q, p) ==>
                             q in PutLog(At(cfg, es, i).log)
  {
    HistoryGrows(cfg, es, i, |es|);
    OrderHolds(cfg, es, i);
    var now := At(cfg, es, i);
    PutLogSorted(now.log);
    hide Feasible, At, Timely, ClosedInv, CallsInv;
    forall p | p in PutLog(now.log) ensures p in Puts(After(cfg, es).arrived) {
      PutLogMembers(now.log, p);
    }
    forall p, q | p in PutLog(now.log) && q in Puts(After(cfg, es).arrived) && Before(q, p)
      ensures q in PutLog(now.log)
    {
      PutLogMembers(now.log, p);
      var k :| 0 <= k < |now.log| && now.log[k].req == p;
      LogClosedUnderEarlier(cfg, es, i, k, q);
      PutLogMembers(now.log, q);
    }
  }

  /** Two arrived requests of one run with the same stamp are the same request. */
  lemma StampsIdentify(cfg: Config, es: seq<Event>)
    requires Feasible(cfg, es)
    ensures var arrived := After(cfg, es).arrived;
            forall p, q :: p in arrived && q in arrived && !Before(p, q) && !Before(q, p) ==> p == q
  {
    BookHolds(cfg, es, |es|);
  }

  // ----------------------------------------------------------------- theorems

  /** At every moment of every run, the put log is a prefix of the sorted listing of all
      puts the replica receives over the whole run. */
  lemma PutLogIsPrefixOfListing(cfg: Config, es: seq<Event>, i: nat, listing: seq<Request>)
    requires TimelyRun(cfg, es) && i <= |es|
    requires Listing(listing, Puts(After(cfg, es).arrived))
    ensures PutLog(At(cfg, es, i).log) <= listing
  {
    PutLogAtMoment(cfg, es, i);
    StampsIdentify(cfg, es);
    var a := PutLog(At(cfg, es, i).log);
    SortedSubsetIsPrefix(a, listing);
  }

  lemma SortedSubsetIsPrefix(a: seq<Request>, b: seq<Request>)
    requires StrictlySorted(a) && StrictlySorted(b)
    requires forall p, q :: p in a && q in b && !Before(p, q) && !Before(q, p) ==> p == q
    requires forall p, q :: p in a && q in b && Before(q, p) ==> q in a
    requires forall p :: p in a ==> p in b
    ensures a <= b
  {
    var n := if |a| <= |b| then |a| else |b|;
    assert a[..|a|] == a && b[..|b|] == b;
    if n < |a| {
      NotInFront(a, n, n);
    }
    SortedPrefixesAgree(a, b, n);
  }

  /** Replica agreement.  Take a moment of one replica's run and a moment of another's.
      If every put applied by then at one replica is eventually delivered to the other,
      one put log is a prefix of the other. */
  lemma ReplicasAgree(cfg1: Config, es1: seq<Event>, i1: nat, cfg2: Config, es2: seq<Event>, i2: nat)
    requires TimelyRun(cfg1, es1) && i1 <= |es1|
    requires TimelyRun(cfg2, es2) && i2 <= |es2|
    requires forall p :: p in PutLog(At(cfg1, es1, i1).log) ==> p in After(cfg2, es2).arrived
    requires forall p :: p in PutLog(At(cfg2, es2, i2).log) ==> p in After(cfg1, es1).arrived
    ensures var a, b := PutLog(At(cfg1, es1, i1).log), PutLog(At(cfg2, es2, i2).log);
            a <= b || b <= a
  {
    PutLogAtMoment(cfg1, es1, i1);
    PutLogAtMoment(cfg2, es2, i2);
    StampsIdentify(cfg2, es2);
    var a, b := PutLog(At(cfg1, es1, i1).log), PutLog(At(cfg2, es2, i2).log);
    forall p, q | p in a && q in b && Before(q, p) ensures q in a {
      assert q in Puts(After(cfg1, es1).arrived);
    }
    forall p, q | p in b && q in a && Before(q, p) ensures q in b {
      assert q in Puts(After(cfg2, es2).arrived);
    }
    var n := if |a| <= |b| then |a| else |b|;
    SortedPrefixesAgree(a, b, n);
    assert a[..|a|] == a && b[..|b|] == b;
  }

  /** The store of a replica is what its put log produces. */
  lemma {:induction false} StoreIsReplay(cfg: Config, es: seq<Event>, i: nat)
    requires Feasible(cfg, es) && i <= |es|
    ensures At(cfg, es, i).store == Replay(PutLog(At(cfg, es, i).log))
  {
    if i == 0 {
      AtStart(cfg, es);
    } else {
      StoreIsReplay(cfg, es, i - 1);
      AtStep(cfg, es, i - 1);
      StepKeepsReplay(cfg, At(cfg, es, i - 1), es[i - 1]);
    }
  }

  lemma StepKeepsReplay(cfg: Config, s: Replica, e: Event)
    requires HandlerOrder(s, e) && s.store == Replay(PutLog(s.log))
    ensures Step(cfg, s, e).store == Replay(PutLog(Step(cfg, s, e).log))
  {
    if e.Apply? {
      ReplayAfter(s.log, s.calls[e.id].req, Access(s.store, s.calls[e.id].req.op).1);
    }
    hide PutLog, Replay, Stable;
  }

  lemma ReplayAfter(log: seq<Entry>, req: Request, reply: string)
    ensures Replay(PutLog(log + [Entry(req, reply)])) == Access(Replay(PutLog(log)), req.op).0
  {
    var log', puts := log + [Entry(req, reply)], PutLog(log);
    assert log'[..|log|] == log;
    if req.op.Put? {
      assert PutLog(log') == puts + [req] && (puts + [req])[..|puts|] == puts;
    }
  }

  /** Replicas that have applied equally many puts hold equal stores. */
  lemma EqualLengthEqualStores(cfg1: Config, es1: seq<Event>, i1: nat, cfg2: Config, es2: seq<Event>, i2: nat)
    requires TimelyRun(cfg1, es1) && i1 <= |es1|
    requires TimelyRun(cfg2, es2) && i2 <= |es2|
    requires forall p :: p in PutLog(At(cfg1, es1, i1).log) ==> p in After(cfg2, es2).arrived
    requires forall p :: p in PutLog(At(cfg2, es2, i2).log) ==> p in After(cfg1, es1).arrived
    requires |PutLog(At(cfg1, es1, i1).log)| == |PutLog(At(cfg2, es2, i2).log)|
    ensures At(cfg1, es1, i1).store == At(cfg2, es2, i2).store
  {
    ReplicasAgree(cfg1, es1, i1, cfg2, es2, i2);
    StoreIsReplay(cfg1, es1, i1);
    StoreIsReplay(cfg2, es2, i2);
    assert PutLog(At(cfg1, es1, i1).log) == PutLog(At(cfg2, es2, i2).log);
  }

  /** The value of the last put on a key that precedes a request; empty if there is none. */
  ghost function LastPutBefore(listing: seq<Request>, key: string, g: Request): string
    requires forall p :: p in listing ==> p.op.Put?
  {
    if listing == [] then ""
    else
      var last := listing[|listing| - 1];
      if last.op.key == key && Before(last, g) then last.op.val
      else LastPutBefore(listing[..|listing| - 1], key, g)
  }

  /** Every reply recorded in the log is the answer of the store built by the entries before it. */
  lemma {:induction false} RepliesFromStore(cfg: Config, es: seq<Event>, i: nat, k: nat)
    requires Feasible(cfg, es) && i <= |es| && k < |At(cfg, es, i).log|
    ensures At(cfg, es, i).log[k].reply ==
            Access(Replay(PutLog(At(cfg, es, i).log[..k])), At(cfg, es, i).log[k].req.op).1
  {
    AtStart(cfg, es);
    if i > 0 {
      hide Feasible, At, Replay, PutLog;
      AtStep(cfg, es, i - 1);
      var s, s' := At(cfg, es, i - 1), At(cfg, es, i);
      if k < |s.log| {
        RepliesFromStore(cfg, es, i - 1, k);
        assert s'.log[..k] == s.log[..k] && s'.log[k] == s.log[k];
      } else {
        assert s'.log[..k] == s.log;
        StoreIsReplay(cfg, es, i - 1);
      }
    }
  }

  lemma {:induction false} LookupIsLastPut(puts: seq<Request>, key: string, g: Request)
    requires forall p :: p in puts ==> p.op.Put? && Before(p, g)
    ensures Lookup(Replay(puts), key) == LastPutBefore(puts, key, g)
  {
    if puts != [] {
      LookupIsLastPut(puts[..|puts| - 1], key, g);
    }
  }

  /** Puts that do not precede g do not count. */
  lemma {:induction false} LaterPutsIgnored(puts: seq<Request>, later: seq<Request>, key: string, g: Request)
    requires forall p :: p in puts + later ==> p.op.Put?
    requires forall p :: p in later ==> !Before(p, g)
    ensures LastPutBefore(puts + later, key, g) == LastPutBefore(puts, key, g)
  {
    if later == [] {
      assert puts + later == puts;
    } else {
      var front := later[..|later| - 1];
      var last := later[|later| - 1];
      assert last in later;
      assert (puts + later)[..|puts + later| - 1] == puts + front;
      LaterPutsIgnored(puts, front, key, g);
    }
  }

  /** The elements of a listing below g form a prefix of it. */
  lemma PrefixBelow(puts: seq<Request>, listing: seq<Request>, g: Request)
    requires StrictlySorted(puts) && StrictlySorted(listing)
    requires forall p :: p in puts <==> p in listing && Before(p, g)
    requires forall p, q :: p in listing && q in listing && !Before(p, q) && !Before(q, p) ==> p == q
    ensures puts <= listing
    ensures forall p :: p in listing[|puts|..] ==> !Before(p, g)
  {
    SortedSubsetIsPrefix(puts, listing);
    assert listing[..|puts|] == puts;
    forall m | |puts| <= m < |listing| ensures !Before(listing[m], g) {
      NotInFront(listing, m, |puts|);
    }
  }

  /** The puts applied before entry k are exactly the arrived puts with a smaller stamp. */
  lemma PutsBeforeEntry(cfg: Config, s: Replica, k: nat, p: Request)
    requires OrderInv(cfg, s) && k < |s.log|
    ensures p in PutLog(s.log[..k]) <==> p in Puts(s.arrived) && Before(p, s.log[k].req)
  {
    var before := s.log[..k];
    PutLogMembers(before, p);
    assert s.log[k].req in s.done;
    if p in s.arrived && Before(p, s.log[k].req) {
      EarlierIsLogged(cfg, s, k, p, s.log);
      var j :| 0 <= j < k && s.log[j].req == p;
      assert before[j].req == p;
    }
    hide CallsInv, ClosedInv, Exclusive, PutLog;
  }

  /** A Get returns the value of the last put on its key with a smaller stamp, among all
      puts that ever arrive at the replica. */
  lemma GetReadsLastPut(cfg: Config, es: seq<Event>, k: nat, listing: seq<Request>)
    requires TimelyRun(cfg, es)
    requires k < |After(cfg, es).log| && After(cfg, es).log[k].req.op.Get?
    requires Listing(listing, Puts(After(cfg, es).arrived))
    ensures var e := After(cfg, es).log[k];
            e.reply == LastPutBefore(listing, e.req.op.key, e.req)
  {
    var log := After(cfg, es).log;
    var g, puts := log[k].req, PutLog(log[..k]);
    OrderHolds(cfg, es, |es|);
    forall p ensures p in puts <==> p in listing && Before(p, g) {
      PutsBeforeEntry(cfg, After(cfg, es), k, p);
    }
    PutLogSorted(log[..k]);
    StampsIdentify(cfg, es);
    RepliesFromStore(cfg, es, |es|, k);
    LastPutOf(puts, listing, g);
  }

  lemma LastPutOf(puts: seq<Request>, listing: seq<Request>, g: Request)
    requires StrictlySorted(puts) && StrictlySorted(listing) && g.op.Get?
    requires forall p :: p in puts ==> p.op.Put?
    requires forall p :: p in listing ==> p.op.Put?
    requires forall p :: p in puts <==> p in listing && Before(p, g)
    requires forall p, q :: p in listing && q in listing && !Before(p, q) && !Before(q, p) ==> p == q
    ensures Lookup(Replay(puts), g.op.key) == LastPutBefore(listing, g.op.key, g)
  {
    PrefixBelow(puts, listing, g);
    assert puts + listing[|puts|..] == listing;
    LookupIsLastPut(puts, g.op.key, g);
    LaterPutsIgnored(puts, listing[|puts|..], g.op.key, g);
  }

  // ------------------------------------------------- why delivery order matters

  /** One more step of a feasible run. */
  lemma Extend(cfg: Config, es: seq<Event>, e: Event, s: Replica)
    requires Feasible(cfg, es) && After(cfg, es) == s
    requires HandlerOrder(s, e) && ClientsBehave(cfg, s, e)
    ensures Feasible(cfg, es + [e]) && After(cfg, es + [e]) == Step(cfg, s, e)
  {
    assert DropLast(es + [e]) == es;
  }

  const Pair := Config({1, 2}, 2)
  const First := Request(1, 1, Put("x", "a"))
  const Second := Request(2, 2, Put("x", "b"))

  /** Client 1's put is still being served by another replica while its clock updates,
      and client 2's put, already reach this one. */
  const SecondWaits := [] + [Update(1, 3)] + [Arrive(Second)]

  const Waiting2 := Replica(
    map[1 := ClientInfo(3, true, 0), 2 := ClientInfo(2, true, 2)], map[],
    map[2 := Call(Second, Waiting)], [], {Second}, {}, {})

  const Served2 := Replica(
    Waiting2.clients, map["x" := "b"],
    map[2 := Call(Second, Applied)], [Entry(Second, "")], {Second}, {Second}, {})

  const Served1 := Replica(
    map[1 := ClientInfo(1, true, 1), 2 := ClientInfo(2, true, 2)], map["x" := "a"],
    map[1 := Call(First, Applied), 2 := Call(Second, Applied)],
    [Entry(Second, ""), Entry(First, "")], {First, Second}, {First, Second}, {})

  const Overtaken := SecondWaits + [Poll(2)] + [Apply(2)] + [Arrive(First)] + [Poll(1)] + [Apply(1)]

  lemma SecondIsWaiting()
    ensures Feasible(Pair, SecondWaits) && After(Pair, SecondWaits) == Waiting2
  {
    Extend(Pair, [], Update(1, 3), Init);
    Extend(Pair, [] + [Update(1, 3)], Arrive(Second), Step(Pair, Init, Update(1, 3)));
  }

  lemma SecondIsServed()
    ensures var es := SecondWaits + [Poll(2)] + [Apply(2)];
            Feasible(Pair, es) && After(Pair, es) == Served2
  {
    SecondIsWaiting();
    hide Feasible, After;
    assert Stable(Waiting2.clients, 2, 2, 2);
    var s := Waiting2.(calls := map[2 := Call(Second, Accepted)]);
    Extend(Pair, SecondWaits, Poll(2), Waiting2);
    assert Step(Pair, Waiting2, Poll(2)) == s;
    Extend(Pair, SecondWaits + [Poll(2)], Apply(2), s);
    assert Step(Pair, s, Apply(2)) == Served2;
  }

  const Waiting1 := Served2.(clients := Served1.clients, arrived := {First, Second},
                             calls := map[1 := Call(First, Waiting), 2 := Call(Second, Applied)])

  lemma FirstIsWaiting()
    ensures var es := SecondWaits + [Poll(2)] + [Apply(2)] + [Arrive(First)];
            Feasible(Pair, es) && After(Pair, es) == Waiting1
  {
    SecondIsServed();
    hide Feasible, After;
    Extend(Pair, SecondWaits + [Poll(2)] + [Apply(2)], Arrive(First), Served2);
    assert Step(Pair, Served2, Arrive(First)) == Waiting1;
  }

  lemma FirstIsServed()
    ensures Feasible(Pair, Overtaken) && After(Pair, Overtaken) == Served1
  {
    FirstIsWaiting();
    hide Feasible, After;
    assert Stable(Waiting1.clients, 2, 1, 1);
    var es := SecondWaits + [Poll(2)] + [Apply(2)] + [Arrive(First)];
    Extend(Pair, es, Poll(1), Waiting1);
    var s := Waiting1.(calls := map[1 := Call(First, Accepted), 2 := Call(Second, Applied)]);
    assert Step(Pair, Waiting1, Poll(1)) == s;
    Extend(Pair, es + [Poll(1)], Apply(1), s);
    assert Step(Pair, s, Apply(1)) == Served1;
  }

  lemma AtOfMore(cfg: Config, es: seq<Event>, e: Event, i: nat)
    requires Feasible(cfg, es + [e]) && i <= |es|
    ensures Feasible(cfg, es) && At(cfg, es + [e], i) == At(cfg, es, i)
  {
    assert DropLast(es + [e]) == es;
  }

  lemma AtEnd(cfg: Config, es: seq<Event>)
    requires Feasible(cfg, es)
    ensures At(cfg, es, |es|) == After(cfg, es)
  {
  }

  /** The guard is needed.  Everything assumed of the clients holds in this run, but the last
      request to arrive precedes one already applied; the replica applies the later put first,
      and lets both requests past check_stability at once. */
  lemma OvertakenPut()
    ensures Feasible(Pair, Overtaken) && !Timely(At(Pair, Overtaken, 4), Overtaken[4])
    ensures PutLog(After(Pair, Overtaken).log) == [Second, First] && Before(First, Second)
    ensures Critical(After(Pair, Overtaken), 1) && Critical(After(Pair, Overtaken), 2)
  {
    FirstIsServed();
    SecondIsServed();
    FirstIsWaiting();
    var log := Served1.log;
    assert PutLog(log[..1]) == [Second];
    hide Feasible, After, At;
    var es := SecondWaits + [Poll(2)] + [Apply(2)];
    AtEnd(Pair, es);
    AtOfMore(Pair, es, Arrive(First), 4);
    AtOfMore(Pair, es + [Arrive(First)], Poll(1), 4);
    AtOfMore(Pair, es + [Arrive(First)] + [Poll(1)], Apply(1), 4);
    assert At(Pair, Overtaken, 4) == Served2;
  }
}
