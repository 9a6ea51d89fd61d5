/**
 Runs of one replica.  A run interleaves the lock sections of the handlers in
 any order; the history it builds up (requests arrived, requests applied with
 their replies, clients gone) is what the ordering theorems speak about.
 */
module KvProtocol {
  import opened KvService

  datatype Op = Get(key: string) | Put(key: string, val: string)

  datatype Request = Request(client: ClientId, clock: nat, op: Op)

  /** Where a handler stands: before check_stability accepts, between acceptance and
      the store access, or between the store access and clearing LastReq. */
  datatype Phase = Waiting | Accepted | Applied

  datatype Call = Call(req: Request, phase: Phase)

  datatype Entry = Entry(req: Request, reply: string)

  datatype Replica = Replica(
    clients: ClientTable, store: Store, calls: map<ClientId, Call>,
    log: seq<Entry>, arrived: set<Request>, done: set<Request>, gone: set<ClientId>)

  datatype Event =
    | Arrive(req: Request)
    | Poll(id: ClientId)
    | Apply(id: ClientId)
    | Clear(id: ClientId)
    | Update(id: ClientId, clock: nat)
    | Disconnect(id: ClientId)

  /** The deployment: the clients that exist, and the number each replica was told to expect. */
  datatype Config = Config(ids: set<ClientId>, numClients: ClientCount)

  predicate ValidConfig(cfg: Config) {
    |cfg.ids| <= cfg.numClients
  }

  const Init := Replica(map[], map[], map[], [], {}, {}, {})

  /** Requests are ordered by clock, ties by client id. */
  predicate Before(a: Request, b: Request) {
    a.clock < b.clock || (a.clock == b.clock && a.client < b.client)
  }

  function Access(store: Store, op: Op): (Store, string) {
    match op
    case Get(key) => (store, Lookup(store, key))
    case Put(key, val) => (store[key := val], "")
  }

  /** What the program text fixes: the phases of one handler come in order. */
  predicate HandlerOrder(s: Replica, e: Event) {
    match e
    case Poll(id) => id in s.calls && s.calls[id].phase == Waiting
    case Apply(id) => id in s.calls && s.calls[id].phase == Accepted
    case Clear(id) => id in s.calls && s.calls[id].phase == Applied
    case _ => true
  }

  /** What is assumed of the clients: known ids, one outstanding request each, stamps
      from 1 up and never used twice, nothing but clock updates after a disconnect. */
  predicate ClientsBehave(cfg: Config, s: Replica, e: Event) {
    match e
    case Arrive(req) =>
      && req.client in cfg.ids && req.client !in s.gone
      && req.client !in s.calls
      && req.clock >= 1
      && forall q :: q in s.arrived ==> q.client != req.client || q.clock != req.clock
    case Update(id, _) => id in cfg.ids
    case Disconnect(id) => id in cfg.ids && id !in s.calls
    case _ => true
  }

  predicate Permitted(cfg: Config, s: Replica, e: Event) {
    HandlerOrder(s, e) && ClientsBehave(cfg, s, e)
  }

  /** What delivery gives when the messages of one client arrive in nondecreasing clock order. */
  predicate InOrder(s: Replica, e: Event) {
    match e
    case Arrive(req) => req.client in s.clients ==> s.clients[req.client].clock <= req.clock
    case Update(id, clock) => id in s.clients ==> s.clients[id].clock <= clock
    case _ => true
  }

  function Step(cfg: Config, s: Replica, e: Event): Replica
    requires HandlerOrder(s, e)
  {
    match e
    case Arrive(req) =>
      s.(clients := WithRequest(WithClock(s.clients, req.client, req.clock), req.client, req.clock),
         calls := s.calls[req.client := Call(req, Waiting)],
         arrived := s.arrived + {req})
    case Poll(id) =>
      if Stable(s.clients, cfg.numClients, id, s.calls[id].req.clock) then
        s.(calls := s.calls[id := s.calls[id].(phase := Accepted)])
      else
        s
    case Apply(id) =>
      var req := s.calls[id].req;
      var (store, reply) := Access(s.store, req.op);
      s.(store := store, log := s.log + [Entry(req, reply)], done := s.done + {req},
         calls := s.calls[id := Call(req, Applied)])
    case Clear(id) =>
      s.(clients := WithRequest(s.clients, id, 0), calls := s.calls - {id})
    case Update(id, clock) =>
      s.(clients := WithClock(s.clients, id, clock))
    case Disconnect(id) =>
      s.(clients := WithoutClient(s.clients, id), gone := s.gone + {id})
  }

  function DropLast(es: seq<Event>): seq<Event>
    requires es != []
  {
    es[..|es| - 1]
  }

  function Last(es: seq<Event>): Event
    requires es != []
  {
    es[|es| - 1]
  }

  /** A run that only respects the program text and the clients' behaviour. */
  ghost predicate Feasible(cfg: Config, es: seq<Event>)
    decreases |es|, 0
  {
    es == [] ||
    (Feasible(cfg, DropLast(es))
     && HandlerOrder(After(cfg, DropLast(es)), Last(es))
     && ClientsBehave(cfg, After(cfg, DropLast(es)), Last(es)))
  }

  /** The state a feasible run ends in. */
  ghost function After(cfg: Config, es: seq<Event>): Replica
    requires Feasible(cfg, es)
    decreases |es|, 1
  {
    if es == [] then Init else Step(cfg, After(cfg, DropLast(es)), Last(es))
  }

  /** The state of a run at moment i, after its first i events. */
  ghost function At(cfg: Config, es: seq<Event>, i: nat): Replica
    requires Feasible(cfg, es) && i <= |es|
  {
    if i == |es| then After(cfg, es) else At(cfg, DropLast(es), i)
  }

  lemma {:induction false} AtStep(cfg: Config, es: seq<Event>, i: nat)
    requires Feasible(cfg, es) && i < |es|
    ensures Permitted(cfg, At(cfg, es, i), es[i])
    ensures At(cfg, es, i + 1) == Step(cfg, At(cfg, es, i), es[i])
  {
    if i + 1 < |es| {
      AtStep(cfg, DropLast(es), i);
    }
  }

  lemma {:induction false} AtStart(cfg: Config, es: seq<Event>)
    requires Feasible(cfg, es)
    ensures At(cfg, es, 0) == Init
  {
    if es != [] {
      AtStart(cfg, DropLast(es));
    }
  }

  /** A run in which delivery is in order. */
  ghost predicate InOrderRun(cfg: Config, es: seq<Event>) {
    Feasible(cfg, es) && forall i :: 0 <= i < |es| ==> InOrder(At(cfg, es, i), es[i])
  }

  /** A run in which no request arrives too late. */
  ghost predicate TimelyRun(cfg: Config, es: seq<Event>) {
    Feasible(cfg, es) && forall i :: 0 <= i < |es| ==> Timely(At(cfg, es, i), es[i])
  }

  // ------------------------------------------------------------- bookkeeping

  predicate Critical(s: Replica, id: ClientId) {
    id in s.calls && s.calls[id].phase != Waiting
  }

  /** The guard of the ordering theorems: an arriving request does not precede any that has
      been applied, or is between acceptance and clearing. */
  predicate Timely(s: Replica, e: Event) {
    e.Arrive? ==>
      && (forall p :: p in s.done ==> !Before(e.req, p))
      && (forall id :: id in s.calls && Critical(s, id) ==> !Before(e.req, s.calls[id].req))
  }

  /** The bookkeeping of calls agrees with the client table. */
  ghost predicate CallsInv(cfg: Config, s: Replica) {
    && s.clients.Keys <= cfg.ids
    && (forall id :: id in s.calls ==>
          && s.calls[id].req.client == id
          && s.calls[id].req in s.arrived
          && id in s.clients && s.clients[id].alive && id !in s.gone
          && s.clients[id].lastReq == s.calls[id].req.clock
          && (s.calls[id].phase == Applied <==> s.calls[id].req in s.done))
    && (forall id :: id in s.clients && id !in s.calls ==> s.clients[id].lastReq == 0)
    && (forall id :: id in s.clients && !s.clients[id].alive ==> id in s.gone)
  }

  /** Each request that has arrived is applied or still pending, and known by its stamp. */
  ghost predicate ArrivalInv(s: Replica) {
    && s.done <= s.arrived
    && (forall q :: q in s.arrived ==>
          && q.clock >= 1 && q.client in s.clients
          && (q in s.done || (q.client in s.calls && s.calls[q.client].req == q)))
    && (forall p, q :: p in s.arrived && q in s.arrived && p.client == q.client && p.clock == q.clock ==> p == q)
  }

  /** The log lists the applied requests. */
  ghost predicate LogInv(s: Replica) {
    && (forall k :: 0 <= k < |s.log| ==> s.log[k].req in s.done)
    && (forall q :: q in s.done ==> exists k :: 0 <= k < |s.log| && s.log[k].req == q)
  }

  ghost predicate BookInv(cfg: Config, s: Replica) {
    CallsInv(cfg, s) && ArrivalInv(s) && LogInv(s)
  }

  lemma ArriveKeepsCalls(cfg: Config, s: Replica, req: Request)
    requires CallsInv(cfg, s) && ArrivalInv(s) && Permitted(cfg, s, Arrive(req))
    ensures CallsInv(cfg, Step(cfg, s, Arrive(req)))
  {
    assert req !in s.done;
    hide ArrivalInv, Stable, Access;
  }

  lemma ApplyKeepsCalls(cfg: Config, s: Replica, id: ClientId)
    requires CallsInv(cfg, s) && ArrivalInv(s) && HandlerOrder(s, Apply(id))
    ensures CallsInv(cfg, Step(cfg, s, Apply(id)))
  {
    hide Stable, Access;
  }

  lemma StepKeepsCalls(cfg: Config, s: Replica, e: Event)
    requires CallsInv(cfg, s) && ArrivalInv(s) && Permitted(cfg, s, e)
    ensures CallsInv(cfg, Step(cfg, s, e))
  {
    if e.Arrive? {
      ArriveKeepsCalls(cfg, s, e.req);
    } else if e.Apply? {
      ApplyKeepsCalls(cfg, s, e.id);
    } else {
      OthersKeepCalls(cfg, s, e);
    }
    hide CallsInv, ArrivalInv, Step;
  }

  lemma OthersKeepCalls(cfg: Config, s: Replica, e: Event)
    requires CallsInv(cfg, s) && ArrivalInv(s) && Permitted(cfg, s, e) && !e.Arrive? && !e.Apply?
    ensures CallsInv(cfg, Step(cfg, s, e))
  {
    hide Stable;
  }

  lemma StepKeepsArrivals(cfg: Config, s: Replica, e: Event)
    requires CallsInv(cfg, s) && ArrivalInv(s) && Permitted(cfg, s, e)
    ensures ArrivalInv(Step(cfg, s, e))
  {
    hide Stable, Access;
    if !e.Arrive? && !e.Apply? {
      hide ClientsBehave, HandlerOrder;
    }
  }

  lemma ApplyKeepsLog(cfg: Config, s: Replica, id: ClientId)
    requires LogInv(s) && HandlerOrder(s, Apply(id))
    ensures LogInv(Step(cfg, s, Apply(id)))
  {
    var s' := Step(cfg, s, Apply(id));
    forall q | q in s'.done ensures exists k :: 0 <= k < |s'.log| && s'.log[k].req == q {
      if q == s.calls[id].req {
        assert s'.log[|s.log|].req == q;
      } else {
        var k :| 0 <= k < |s.log| && s.log[k].req == q;
        assert s'.log[k].req == q;
      }
    }
  }

  lemma StepKeepsBook(cfg: Config, s: Replica, e: Event)
    requires BookInv(cfg, s) && Permitted(cfg, s, e)
    ensures BookInv(cfg, Step(cfg, s, e))
  {
    hide CallsInv, ArrivalInv, LogInv;
    StepKeepsCalls(cfg, s, e);
    StepKeepsArrivals(cfg, s, e);
    if e.Apply? {
      ApplyKeepsLog(cfg, s, e.id);
    } else {
      SameLog(s, Step(cfg, s, e));
    }
  }

  lemma SameLog(s: Replica, s': Replica)
    requires LogInv(s) && s'.log == s.log && s'.done == s.done
    ensures LogInv(s')
  {
  }

  lemma {:induction false} BookHolds(cfg: Config, es: seq<Event>, i: nat)
    requires Feasible(cfg, es) && i <= |es|
    ensures BookInv(cfg, At(cfg, es, i))
  {
    if i == 0 {
      AtStart(cfg, es);
    } else {
      BookHolds(cfg, es, i - 1);
      AtStep(cfg, es, i - 1);
      StepKeepsBook(cfg, At(cfg, es, i - 1), es[i - 1]);
    }
  }

  // ------------------------------------------------------------ total order

  /** Every earlier request that has arrived has been applied. */
  ghost predicate Closed(s: Replica, p: Request) {
    forall q :: q in s.arrived && Before(q, p) ==> q in s.done
  }

  ghost predicate ClosedInv(s: Replica) {
    && (forall p :: p in s.done ==> Closed(s, p))
    && (forall id :: id in s.calls && Critical(s, id) ==> Closed(s, s.calls[id].req))
  }

  /** At most one request is between acceptance and clearing. */
  ghost predicate Exclusive(s: Replica) {
    forall a, b :: a in s.calls && b in s.calls && Critical(s, a) && Critical(s, b) ==> a == b
  }

  ghost predicate Sorted(s: Replica) {
    forall j, k :: 0 <= j < k < |s.log| ==> Before(s.log[j].req, s.log[k].req)
  }

  ghost predicate Ordered(s: Replica) {
    Sorted(s) && Exclusive(s)
  }

  /** A run whose every moment is in order. */
  ghost predicate AlwaysOrdered(cfg: Config, es: seq<Event>)
    requires Feasible(cfg, es)
  {
    forall i :: 0 <= i <= |es| ==> Ordered(At(cfg, es, i))
  }

  ghost predicate OrderInv(cfg: Config, s: Replica) {
    BookInv(cfg, s) && ClosedInv(s) && Ordered(s)
  }

  /** When a request is stable, all earlier ones that have arrived have been applied. */
  lemma AcceptedIsClosed(cfg: Config, s: Replica, id: ClientId)
    requires BookInv(cfg, s) && id in s.calls
    requires Stable(s.clients, cfg.numClients, id, s.calls[id].req.clock)
    ensures Closed(s, s.calls[id].req)
  {
    forall q | q in s.arrived && Before(q, s.calls[id].req) ensures q in s.done {
      assert !Blocks(s.clients[q.client], q.client, id, s.calls[id].req.clock);
    }
  }

  /** A stable request comes before every other pending one. */
  lemma AcceptedIsLeast(cfg: Config, s: Replica, id: ClientId)
    requires CallsInv(cfg, s) && (forall q :: q in s.arrived ==> q.clock >= 1) && id in s.calls
    requires Stable(s.clients, cfg.numClients, id, s.calls[id].req.clock)
    ensures forall other :: other in s.calls && other != id ==> Before(s.calls[id].req, s.calls[other].req)
  {
    forall other | other in s.calls && other != id ensures Before(s.calls[id].req, s.calls[other].req) {
      assert !Blocks(s.clients[other], other, id, s.calls[id].req.clock);
    }
  }

  lemma PollKeepsClosed(cfg: Config, s: Replica, id: ClientId)
    requires BookInv(cfg, s) && ClosedInv(s) && HandlerOrder(s, Poll(id))
    ensures ClosedInv(Step(cfg, s, Poll(id)))
  {
    if Stable(s.clients, cfg.numClients, id, s.calls[id].req.clock) {
      AcceptedIsClosed(cfg, s, id);
    }
  }

  lemma PollKeepsExclusive(cfg: Config, s: Replica, id: ClientId)
    requires BookInv(cfg, s) && ClosedInv(s) && Exclusive(s) && HandlerOrder(s, Poll(id))
    ensures Exclusive(Step(cfg, s, Poll(id)))
  {
    if Stable(s.clients, cfg.numClients, id, s.calls[id].req.clock) {
      AcceptedIsLeast(cfg, s, id);
      assert s.calls[id].req in s.arrived && s.calls[id].req !in s.done;
      forall other | other in s.calls && other != id ensures !Critical(s, other) {
        assert !Closed(s, s.calls[other].req);
      }
    }
  }

  lemma StepKeepsClosed(cfg: Config, s: Replica, e: Event)
    requires BookInv(cfg, s) && ClosedInv(s) && Permitted(cfg, s, e) && Timely(s, e) && !e.Poll?
    ensures ClosedInv(Step(cfg, s, e))
  {
    hide LogInv, Stable, WithClock, WithRequest, WithoutClient, Access;
  }

  lemma ApplyKeepsSorted(cfg: Config, s: Replica, id: ClientId)
    requires BookInv(cfg, s) && ClosedInv(s) && Sorted(s) && HandlerOrder(s, Apply(id))
    ensures Sorted(Step(cfg, s, Apply(id)))
  {
    var req := s.calls[id].req;
    assert req in s.arrived && req !in s.done;
    forall k | 0 <= k < |s.log| ensures Before(s.log[k].req, req) {
      assert s.log[k].req in s.done && Closed(s, s.log[k].req);
    }
  }

  lemma StepKeepsExclusive(cfg: Config, s: Replica, e: Event)
    requires Exclusive(s) && HandlerOrder(s, e) && !e.Poll?
    ensures Exclusive(Step(cfg, s, e))
  {
  }

  lemma StepKeepsOrder(cfg: Config, s: Replica, e: Event)
    requires OrderInv(cfg, s) && Permitted(cfg, s, e) && Timely(s, e)
    ensures OrderInv(cfg, Step(cfg, s, e))
  {
    assert HandlerOrder(s, e);
    hide BookInv, ClosedInv, Exclusive, Timely, Permitted, HandlerOrder;
    StepKeepsBook(cfg, s, e);
    if e.Poll? {
      PollKeepsClosed(cfg, s, e.id);
      PollKeepsExclusive(cfg, s, e.id);
    } else {
      StepKeepsClosed(cfg, s, e);
      StepKeepsExclusive(cfg, s, e);
    }
    if e.Apply? {
      ApplyKeepsSorted(cfg, s, e.id);
    }
  }

  lemma {:induction false} OrderHolds(cfg: Config, es: seq<Event>, i: nat)
    requires TimelyRun(cfg, es) && i <= |es|
    ensures OrderInv(cfg, At(cfg, es, i))
  {
    if i == 0 {
      AtStart(cfg, es);
    } else {
      OrderHolds(cfg, es, i - 1);
      AtStep(cfg, es, i - 1);
      StepKeepsOrder(cfg, At(cfg, es, i - 1), es[i - 1]);
    }
  }

  /** On every run in which no request arrives too late, at every moment, the requests applied
      so far have been applied in strictly increasing order, and at most one request is between
      passing check_stability and clearing its LastReq. */
  lemma TotalOrder(cfg: Config, es: seq<Event>, i: nat)
    requires TimelyRun(cfg, es) && i <= |es|
    ensures var s := At(cfg, es, i);
            && (forall j, k :: 0 <= j < k < |s.log| ==> Before(s.log[j].req, s.log[k].req))
            && (forall a, b :: a in s.calls && b in s.calls && Critical(s, a) && Critical(s, b) ==> a == b)
  {
    OrderHolds(cfg, es, i);
  }

  // ---------------------------------------------------- the guard is needed

  ghost predicate InLog(log: seq<Entry>, p: Request, r: Request) {
    exists a, b :: 0 <= a < b < |log| && log[a].req == p && log[b].req == r
  }

  /** r has arrived after p was accepted: r is not applied yet, while p is or is about to be;
      or both are in the log, p first. */
  ghost predicate Overtaken(s: Replica, p: Request, r: Request) {
    || InLog(s.log, p, r)
    || (r in s.arrived && r !in s.done
        && (p in s.done || (p.client in s.calls && s.calls[p.client] == Call(p, Accepted) && p.client != r.client)))
  }

  lemma InLogGrows(s: Replica, p: Request, r: Request, entry: Entry)
    ensures InLog(s.log, p, r) ==> InLog(s.log + [entry], p, r)
    ensures LogInv(s) && p in s.done && entry.req == r ==> InLog(s.log + [entry], p, r)
  {
    var log := s.log + [entry];
    assert log[|s.log|] == entry;
    if InLog(s.log, p, r) {
      var a, b :| 0 <= a < b < |s.log| && s.log[a].req == p && s.log[b].req == r;
      assert log[a].req == p && log[b].req == r;
    }
    if LogInv(s) && p in s.done && entry.req == r {
      var a :| 0 <= a < |s.log| && s.log[a].req == p;
      assert log[a].req == p && log[|s.log|].req == r;
    }
  }

  lemma StepKeepsOvertaken(cfg: Config, s: Replica, e: Event, p: Request, r: Request)
    requires BookInv(cfg, s) && Exclusive(s) && Permitted(cfg, s, e) && Overtaken(s, p, r)
    ensures Overtaken(Step(cfg, s, e), p, r)
  {
    hide LogInv, InLog, Stable, WithClock, WithRequest, WithoutClient;
    if e.Apply? {
      var req := s.calls[e.id].req;
      InLogGrows(s, p, r, Entry(req, Access(s.store, req.op).1));
    }
    hide Access;
  }

  /** An arriving request that finds p applied or accepted is overtaken by it. */
  lemma ArrivesOvertaken(cfg: Config, s: Replica, r: Request, p: Request)
    requires BookInv(cfg, s) && Permitted(cfg, s, Arrive(r)) && (p in s.done || AtCritical(s, p))
    ensures Overtaken(Step(cfg, s, Arrive(r)), p, r)
  {
    hide LogInv, InLog, WithClock, WithRequest;
  }

  /** p is between acceptance and clearing. */
  ghost predicate AtCritical(s: Replica, p: Request) {
    p.client in s.calls && s.calls[p.client].req == p && Critical(s, p.client)
  }

  lemma {:induction false} StaysOvertaken(cfg: Config, es: seq<Event>, i: nat, k: nat, p: Request, r: Request)
    requires Feasible(cfg, es) && i <= k <= |es| && Overtaken(At(cfg, es, i), p, r)
    requires AlwaysOrdered(cfg, es)
    ensures Overtaken(At(cfg, es, k), p, r)
  {
    hide Feasible, At, Overtaken, Permitted, BookInv, Exclusive, Sorted, Step;
    if i < k {
      StaysOvertaken(cfg, es, i, k - 1, p, r);
      AtStep(cfg, es, k - 1);
      BookHolds(cfg, es, k - 1);
      StepKeepsOvertaken(cfg, At(cfg, es, k - 1), es[k - 1], p, r);
    }
  }

  lemma OvertakenIsLater(s: Replica, p: Request, r: Request)
    requires Sorted(s) && s.done == s.arrived && Overtaken(s, p, r)
    ensures !Before(r, p)
  {
    assert InLog(s.log, p, r);
  }

  /** If the run ends with everything applied, and was in order all along, no request arrived
      too late. */
  lemma NothingOvertaken(cfg: Config, es: seq<Event>, i: nat, p: Request)
    requires Feasible(cfg, es) && After(cfg, es).done == After(cfg, es).arrived
    requires AlwaysOrdered(cfg, es)
    requires i < |es| && es[i].Arrive?
    requires p in At(cfg, es, i).done || AtCritical(At(cfg, es, i), p)
    ensures !Before(es[i].req, p)
  {
    var r := es[i].req;
    assert At(cfg, es, |es|) == After(cfg, es);
    assert Ordered(At(cfg, es, |es|));
    hide Feasible, At, After, AtCritical, Overtaken, Sorted, Before, BookInv, Permitted, Step, Exclusive;
    AtStep(cfg, es, i);
    BookHolds(cfg, es, i);
    ArrivesOvertaken(cfg, At(cfg, es, i), r, p);
    StaysOvertaken(cfg, es, i + 1, |es|, p, r);
    OvertakenIsLater(After(cfg, es), p, r);
  }

  /** The guard is exact.  Take any run that ends with every arrived request applied, whatever
      the order of delivery.  It kept the order at every moment, with at most one request
      between acceptance and clearing, if and only if no request arrived too late. */
  lemma OrderedExactlyWhenTimely(cfg: Config, es: seq<Event>)
    requires Feasible(cfg, es) && After(cfg, es).done == After(cfg, es).arrived
    ensures TimelyRun(cfg, es) <==> AlwaysOrdered(cfg, es)
  {
    hide Ordered, Timely;
    if TimelyRun(cfg, es) {
      forall i | 0 <= i <= |es| ensures Ordered(At(cfg, es, i)) {
        OrderHolds(cfg, es, i);
      }
    }
    if AlwaysOrdered(cfg, es) {
      forall i | 0 <= i < |es| ensures Timely(At(cfg, es, i), es[i]) {
        ArrivesInTime(cfg, es, i);
      }
    }
  }

  lemma ArrivesInTime(cfg: Config, es: seq<Event>, i: nat)
    requires Feasible(cfg, es) && After(cfg, es).done == After(cfg, es).arrived
    requires AlwaysOrdered(cfg, es)
    requires i < |es|
    ensures Timely(At(cfg, es, i), es[i])
  {
    var s := At(cfg, es, i);
    BookHolds(cfg, es, i);
    if es[i].Arrive? {
      forall p | p in s.done ensures !Before(es[i].req, p) {
        NothingOvertaken(cfg, es, i, p);
      }
      forall id | id in s.calls && Critical(s, id) ensures !Before(es[i].req, s.calls[id].req) {
        NothingOvertaken(cfg, es, i, s.calls[id].req);
      }
    }
  }

  // ------------------------------------------------------- delivery in order

  /** The clock of a client has reached every stamp of its requests. */
  ghost predicate ClockInv(s: Replica) {
    forall q :: q in s.arrived ==> q.client in s.clients && q.clock <= s.clients[q.client].clock
  }

  /** No request with an earlier stamp than p can still arrive in order. */
  ghost predicate Sealed(cfg: Config, s: Replica, p: Request) {
    forall id :: id in cfg.ids && id != p.client ==>
                   id in s.clients && (s.clients[id].alive ==> p.clock < s.clients[id].clock)
  }

  ghost predicate SealedInv(cfg: Config, s: Replica) {
    && (forall p :: p in s.done ==> Sealed(cfg, s, p))
    && (forall id :: id in s.calls && Critical(s, id) ==> Sealed(cfg, s, s.calls[id].req))
  }

  /** An accepted request stays acceptable. */
  ghost predicate StableInv(cfg: Config, s: Replica) {
    forall id :: id in s.calls && Critical(s, id) ==> Stable(s.clients, cfg.numClients, id, s.calls[id].req.clock)
  }

  ghost predicate DeliveryInv(cfg: Config, s: Replica) {
    ClockInv(s) && SealedInv(cfg, s) && StableInv(cfg, s)
  }

  lemma AllClientsKnown(cfg: Config, s: Replica)
    requires ValidConfig(cfg) && CallsInv(cfg, s) && |s.clients| == cfg.numClients
    ensures s.clients.Keys == cfg.ids
  {
    assert |cfg.ids - s.clients.Keys| == |cfg.ids| - |s.clients.Keys|;
  }

  lemma PollKeepsSealed(cfg: Config, s: Replica, id: ClientId)
    requires ValidConfig(cfg) && CallsInv(cfg, s) && SealedInv(cfg, s) && HandlerOrder(s, Poll(id))
    ensures SealedInv(cfg, Step(cfg, s, Poll(id)))
  {
    var req := s.calls[id].req;
    if Stable(s.clients, cfg.numClients, id, req.clock) {
      AllClientsKnown(cfg, s);
      forall other | other in cfg.ids && other != id
        ensures other in s.clients && (s.clients[other].alive ==> req.clock < s.clients[other].clock)
      {
        assert !Blocks(s.clients[other], other, id, req.clock);
      }
      assert Sealed(cfg, s, req);
    }
  }

  lemma StaysSealed(cfg: Config, s: Replica, e: Event, p: Request)
    requires CallsInv(cfg, s) && Permitted(cfg, s, e) && InOrder(s, e) && Sealed(cfg, s, p)
    ensures Sealed(cfg, Step(cfg, s, e), p)
  {
    hide Stable, Access;
  }

  lemma StepKeepsSealed(cfg: Config, s: Replica, e: Event)
    requires BookInv(cfg, s) && SealedInv(cfg, s) && Permitted(cfg, s, e) && InOrder(s, e) && !e.Poll?
    ensures SealedInv(cfg, Step(cfg, s, e))
  {
    var s' := Step(cfg, s, e);
    hide ArrivalInv, LogInv, Sealed, InOrder, Stable, Access, WithClock, WithRequest, WithoutClient;
    forall p | Sealed(cfg, s, p) ensures Sealed(cfg, s', p) {
      StaysSealed(cfg, s, e, p);
    }
    hide CallsInv, ClientsBehave;
  }

  lemma StepKeepsClocks(cfg: Config, s: Replica, e: Event)
    requires BookInv(cfg, s) && ClockInv(s) && Permitted(cfg, s, e) && InOrder(s, e)
    ensures ClockInv(Step(cfg, s, e))
  {
    hide LogInv;
  }

  lemma StaysStable(cfg: Config, s: Replica, e: Event, id: ClientId)
    requires CallsInv(cfg, s) && ArrivalInv(s) && Permitted(cfg, s, e) && InOrder(s, e)
    requires id in s.calls && Critical(s, id) && Sealed(cfg, s, s.calls[id].req)
    requires Stable(s.clients, cfg.numClients, id, s.calls[id].req.clock)
    ensures Stable(Step(cfg, s, e).clients, cfg.numClients, id, s.calls[id].req.clock)
  {
    hide Access;
  }

  lemma StepKeepsStable(cfg: Config, s: Replica, e: Event)
    requires BookInv(cfg, s) && SealedInv(cfg, s) && StableInv(cfg, s) && Permitted(cfg, s, e) && InOrder(s, e)
    ensures StableInv(cfg, Step(cfg, s, e))
  {
    hide CallsInv, ArrivalInv, LogInv, Sealed, Stable, Access, InOrder, ClientsBehave;
    hide WithClock, WithRequest, WithoutClient;
    forall id | id in s.calls && Critical(s, id)
      ensures Stable(Step(cfg, s, e).clients, cfg.numClients, id, s.calls[id].req.clock)
    {
      StaysStable(cfg, s, e, id);
    }
  }

  /** In-order delivery is timely: whoever could still send an earlier request has been heard
      of with a later clock. */
  lemma InOrderIsTimelyNow(cfg: Config, s: Replica, e: Event)
    requires BookInv(cfg, s) && ClockInv(s) && SealedInv(cfg, s) && Permitted(cfg, s, e) && InOrder(s, e)
    ensures Timely(s, e)
  {
    hide LogInv;
  }

  lemma StepKeepsDelivery(cfg: Config, s: Replica, e: Event)
    requires ValidConfig(cfg) && BookInv(cfg, s) && DeliveryInv(cfg, s) && Permitted(cfg, s, e) && InOrder(s, e)
    ensures DeliveryInv(cfg, Step(cfg, s, e))
  {
    assert CallsInv(cfg, s) && HandlerOrder(s, e);
    hide BookInv, ClockInv, SealedInv, StableInv, Step, Permitted, InOrder, CallsInv, HandlerOrder, ValidConfig;
    StepKeepsClocks(cfg, s, e);
    StepKeepsStable(cfg, s, e);
    if e.Poll? {
      PollKeepsSealed(cfg, s, e.id);
    } else {
      StepKeepsSealed(cfg, s, e);
    }
  }

  lemma StartIsDelivered(cfg: Config)
    ensures DeliveryInv(cfg, Init)
  {
  }

  lemma {:induction false} DeliveryHolds(cfg: Config, es: seq<Event>, i: nat)
    requires ValidConfig(cfg) && InOrderRun(cfg, es) && i <= |es|
    ensures DeliveryInv(cfg, At(cfg, es, i))
  {
    hide Feasible, At, ValidConfig, InOrder, DeliveryInv, BookInv, Permitted, Step;
    if i == 0 {
      AtStart(cfg, es);
      StartIsDelivered(cfg);
    } else {
      DeliveryHolds(cfg, es, i - 1);
      BookHolds(cfg, es, i - 1);
      AtStep(cfg, es, i - 1);
      assert InOrder(At(cfg, es, i - 1), es[i - 1]);
      StepKeepsDelivery(cfg, At(cfg, es, i - 1), es[i - 1]);
    }
  }

  /** With at most numClients clients, in-order delivery meets the guard. */
  lemma InOrderIsTimely(cfg: Config, es: seq<Event>)
    requires ValidConfig(cfg) && InOrderRun(cfg, es)
    ensures TimelyRun(cfg, es)
  {
    forall i | 0 <= i < |es| ensures Timely(At(cfg, es, i), es[i]) {
      DeliveryHolds(cfg, es, i);
      BookHolds(cfg, es, i);
      AtStep(cfg, es, i);
      InOrderIsTimelyNow(cfg, At(cfg, es, i), es[i]);
    }
  }

  /** With delivery in order, a request that has been accepted would be accepted again at any
      time until its LastReq is cleared. */
  lemma AcceptancePersists(cfg: Config, es: seq<Event>, i: nat, id: ClientId)
    requires ValidConfig(cfg) && InOrderRun(cfg, es) && i <= |es|
    requires Critical(At(cfg, es, i), id)
    ensures Stable(At(cfg, es, i).clients, cfg.numClients, id, At(cfg, es, i).calls[id].req.clock)
  {
    DeliveryHolds(cfg, es, i);
  }

  // ---------------------------------------------------- the handlers do this

  /** Each lock section of a handler does to the two tables what the event does to them, and
      replies what the log records. */
  method Perform(service: KeyValService, ghost cfg: Config, ghost s: Replica, e: Event, op: Op, clock: nat)
    returns (ghost s': Replica, stable: bool, reply: string)
    requires HandlerOrder(s, e) && service.clientInfo == s.clients && service.kv == s.store
    requires service.numClients == cfg.numClients
    requires e.Poll? || e.Apply? ==> op == s.calls[e.id].req.op && clock == s.calls[e.id].req.clock
    modifies service
    ensures s' == Step(cfg, s, e) && service.clientInfo == s'.clients && service.kv == s'.store
    ensures e.Poll? ==> (stable <==> s'.calls[e.id].phase == Accepted)
    ensures e.Apply? ==> s'.log == s.log + [Entry(s.calls[e.id].req, reply)]
  {
    s', stable, reply := Step(cfg, s, e), false, "";
    match e
    case Arrive(req) =>
      service.BeginRequest(req.client, req.clock);
    case Poll(id) =>
      stable := service.CheckStability(id, clock);
    case Apply(id) =>
      match op {
        case Get(key) => reply := service.ApplyGet(key);
        case Put(key, val) => reply := service.ApplyPut(key, val);
      }
    case Clear(id) =>
      service.EndRequest(id);
    case Update(id, time) =>
      service.ClockUpdate(id, time);
    case Disconnect(id) =>
      service.Disconnect(id);
  }
}
