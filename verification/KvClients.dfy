/**
 What the client table of a replica says, from the events of a run alone: who has been
 heard of, who has left, the latest clocks and the pending requests; and so which requests
 check_stability accepts.
 */
module KvClients {
  import opened KvService
  import opened KvProtocol

  /** A message of client id that carries its clock: a request or a clock update. */
  predicate Speaks(e: Event, id: ClientId) {
    (e.Arrive? && e.req.client == id) || (e.Update? && e.id == id)
  }

  function ClockOf(e: Event): nat
    requires e.Arrive? || e.Update?
  {
    if e.Arrive? then e.req.clock else e.clock
  }

  /** Client id has sent a message by moment i. */
  ghost predicate Heard(es: seq<Event>, i: nat, id: ClientId)
    requires i <= |es|
  {
    exists j :: 0 <= j < i && Speaks(es[j], id)
  }

  /** Message j is the latest of client id at moment i. */
  ghost predicate Latest(es: seq<Event>, i: nat, id: ClientId, j: nat)
    requires i <= |es|
  {
    j < i && Speaks(es[j], id) && forall k :: j < k < i ==> !Speaks(es[k], id)
  }

  /** Client id has disconnected by moment i, after it had been heard of. */
  ghost predicate Left(es: seq<Event>, i: nat, id: ClientId)
    requires i <= |es|
  {
    exists j :: 0 <= j < i && es[j] == Disconnect(id) && Heard(es, j, id)
  }

  /** Event j brought a request of client id that has not been cleared by moment i. */
  ghost predicate Pending(es: seq<Event>, i: nat, id: ClientId, j: nat)
    requires i <= |es|
  {
    j < i && es[j].Arrive? && es[j].req.client == id && forall k :: j < k < i ==> es[k] != Clear(id)
  }

  /** What the table holds of client id agrees with the first i events. */
  ghost predicate Matches(s: Replica, es: seq<Event>, i: nat, id: ClientId)
    requires i <= |es|
  {
    && (id in s.clients <==> Heard(es, i, id))
    && (id in s.clients ==> (s.clients[id].alive <==> !Left(es, i, id)))
    && (forall j: nat :: Latest(es, i, id, j) ==> id in s.clients && s.clients[id].clock == ClockOf(es[j]))
    && (id in s.clients && id !in s.calls ==> s.clients[id].lastReq == 0)
    && (id in s.calls <==> exists j: nat :: Pending(es, i, id, j))
    && (forall j: nat :: Pending(es, i, id, j) ==>
          id in s.clients && id in s.calls && s.clients[id].lastReq == es[j].req.clock && s.calls[id].req == es[j].req)
  }

  lemma HeardNext(es: seq<Event>, i: nat, id: ClientId)
    requires i < |es|
    ensures Heard(es, i + 1, id) <==> Heard(es, i, id) || Speaks(es[i], id)
    ensures Left(es, i + 1, id) <==> Left(es, i, id) || (es[i] == Disconnect(id) && Heard(es, i, id))
    ensures Left(es, i, id) ==> Heard(es, i, id)
  {
    if Heard(es, i, id) {
      var j :| 0 <= j < i && Speaks(es[j], id);
      assert j < i + 1;
    }
    if Left(es, i, id) {
      var j :| 0 <= j < i && es[j] == Disconnect(id) && Heard(es, j, id);
      assert j < i + 1;
      var k :| 0 <= k < j && Speaks(es[k], id);
    }
  }

  lemma LatestNext(es: seq<Event>, i: nat, id: ClientId, j: nat)
    requires i < |es|
    ensures Latest(es, i + 1, id, j) <==>
            (Speaks(es[i], id) && j == i) || (!Speaks(es[i], id) && Latest(es, i, id, j))
  {
  }

  predicate Brings(e: Event, id: ClientId) {
    e.Arrive? && e.req.client == id
  }

  lemma PendingNext(es: seq<Event>, i: nat, id: ClientId, j: nat)
    requires i < |es|
    ensures Pending(es, i + 1, id, j) <==>
            (Pending(es, i, id, j) && es[i] != Clear(id)) || (j == i && Brings(es[i], id))
  {
  }

  /** What the next event does to the entry of one client. */
  lemma StepMatches(cfg: Config, s: Replica, es: seq<Event>, i: nat, n: nat, id: ClientId)
    requires i < |es| && n == i + 1
    requires BookInv(cfg, s) && Permitted(cfg, s, es[i]) && Matches(s, es, i, id)
    ensures Matches(Step(cfg, s, es[i]), es, n, id)
  {
    hide Heard, Left, ArrivalInv, LogInv, Stable, Access;
    var s' := Step(cfg, s, es[i]);
    HeardNext(es, i, id);
    forall j: nat | Latest(es, n, id, j) ensures id in s'.clients && s'.clients[id].clock == ClockOf(es[j]) {
      LatestNext(es, i, id, j);
    }
    forall j: nat | Pending(es, n, id, j)
      ensures id in s'.clients && id in s'.calls
      ensures s'.clients[id].lastReq == es[j].req.clock && s'.calls[id].req == es[j].req
    {
      PendingNext(es, i, id, j);
    }
    if id in s'.calls {
      StaysPending(cfg, s, es, i, n, id);
    }
  }

  lemma StaysPending(cfg: Config, s: Replica, es: seq<Event>, i: nat, n: nat, id: ClientId)
    requires i < |es| && n == i + 1 && Permitted(cfg, s, es[i]) && id in Step(cfg, s, es[i]).calls
    requires id in s.calls ==> exists j: nat :: Pending(es, i, id, j)
    ensures exists j: nat :: Pending(es, n, id, j)
  {
    hide Stable, Access, WithClock, WithRequest, WithoutClient;
    if Brings(es[i], id) {
      assert Pending(es, n, id, i);
    } else {
      var j: nat :| Pending(es, i, id, j);
      PendingNext(es, i, id, j);
      assert es[i] != Clear(id);
      assert Pending(es, n, id, j);
    }
  }

  /** Whatever the order of delivery, at every moment of every run the client table says who has
      been heard of and has not left, with the latest clock and the pending request of each. */
  lemma {:induction false} TableMatchesEvents(cfg: Config, es: seq<Event>, i: nat, id: ClientId)
    requires Feasible(cfg, es) && i <= |es|
    ensures Matches(At(cfg, es, i), es, i, id)
  {
    hide Feasible, At, Step, BookInv, Permitted, Matches;
    if i == 0 {
      AtStart(cfg, es);
      NothingHeard(es, id);
    } else {
      TableMatchesEvents(cfg, es, i - 1, id);
      BookHolds(cfg, es, i - 1);
      AtStep(cfg, es, i - 1);
      StepMatches(cfg, At(cfg, es, i - 1), es, i - 1, i, id);
    }
  }

  lemma NothingHeard(es: seq<Event>, id: ClientId)
    ensures Matches(Init, es, 0, id)
  {
  }

  // ----------------------------------------------------------------- theorems

  /** A client that was known when it disconnected blocks no request from then on. */
  lemma LeftBlocksNobody(cfg: Config, es: seq<Event>, i: nat, id: ClientId, other: ClientId, clock: nat)
    requires Feasible(cfg, es) && i <= |es| && Left(es, i, id)
    ensures id in At(cfg, es, i).clients && !Blocks(At(cfg, es, i).clients[id], id, other, clock)
  {
    TableMatchesEvents(cfg, es, i, id);
    var j :| 0 <= j < i && es[j] == Disconnect(id) && Heard(es, j, id);
    var k :| 0 <= k < j && Speaks(es[k], id);
    assert Heard(es, i, id);
    hide At, Feasible;
  }

  /** The clients heard of by moment i. */
  ghost function HeardOf(cfg: Config, es: seq<Event>, i: nat): set<ClientId>
    requires i <= |es|
  {
    set id | id in cfg.ids && Heard(es, i, id)
  }

  /** Nothing that client id may still send in order precedes the request: its latest clock is
      past that of the request, and a pending request of its own comes later. */
  ghost predicate Past(es: seq<Event>, i: nat, id: ClientId, req: Request)
    requires i <= |es|
  {
    && (exists j: nat :: Latest(es, i, id, j) && req.clock < ClockOf(es[j]))
    && (forall j: nat :: Pending(es, i, id, j) ==> Before(req, es[j].req))
  }

  /** What check_stability has to find out, from the events. */
  ghost predicate Acceptable(cfg: Config, es: seq<Event>, i: nat, req: Request)
    requires i <= |es|
  {
    && |HeardOf(cfg, es, i)| == cfg.numClients
    && forall id :: id in HeardOf(cfg, es, i) && id != req.client && !Left(es, i, id) ==> Past(es, i, id, req)
  }

  lemma {:induction false} SomeLatest(es: seq<Event>, i: nat, id: ClientId) returns (j: nat)
    requires i <= |es| && Heard(es, i, id)
    ensures Latest(es, i, id, j)
  {
    if Speaks(es[i - 1], id) {
      j := i - 1;
    } else {
      HeardNext(es, i - 1, id);
      j := SomeLatest(es, i - 1, id);
    }
  }

  lemma HeardIsKnown(cfg: Config, es: seq<Event>, i: nat)
    requires Feasible(cfg, es) && i <= |es|
    ensures HeardOf(cfg, es, i) == At(cfg, es, i).clients.Keys
  {
    BookHolds(cfg, es, i);
    var clients := At(cfg, es, i).clients;
    assert clients.Keys <= cfg.ids;
    hide At, Feasible;
    forall id: ClientId ensures id in HeardOf(cfg, es, i) <==> id in clients.Keys {
      TableMatchesEvents(cfg, es, i, id);
    }
  }

  /** One client does not block a request exactly if it has left, or nothing earlier can come. */
  lemma BlocksUnlessPast(cfg: Config, es: seq<Event>, i: nat, id: ClientId, req: Request)
    requires Feasible(cfg, es) && i <= |es| && Heard(es, i, id) && id != req.client && req.clock >= 1
    ensures id in At(cfg, es, i).clients
    ensures Blocks(At(cfg, es, i).clients[id], id, req.client, req.clock) <==>
            !Left(es, i, id) && !Past(es, i, id, req)
  {
    hide At, Feasible, BookInv, Heard, Left, Pending, Latest;
    TableMatchesEvents(cfg, es, i, id);
    var latest := SomeLatest(es, i, id);
    PendingClocks(cfg, es, i, id);
    var s := At(cfg, es, i);
    if id in s.calls {
      var j: nat :| Pending(es, i, id, j);
    }
  }

  lemma PendingClocks(cfg: Config, es: seq<Event>, i: nat, id: ClientId)
    requires Feasible(cfg, es) && i <= |es|
    ensures var s := At(cfg, es, i);
            id in s.calls ==> s.calls[id].req.clock >= 1 && s.calls[id].req.client == id
  {
    hide At, Feasible, LogInv;
    BookHolds(cfg, es, i);
  }

  /** On every run, a pending request passes check_stability exactly if every expected client
      has been heard of, and each of them but its own has left or can send nothing earlier. */
  lemma StableExactly(cfg: Config, es: seq<Event>, i: nat, id: ClientId)
    requires Feasible(cfg, es) && i <= |es| && id in At(cfg, es, i).calls
    ensures var s := At(cfg, es, i);
            Stable(s.clients, cfg.numClients, id, s.calls[id].req.clock) <==> Acceptable(cfg, es, i, s.calls[id].req)
  {
    hide At, Feasible, Heard, Left, Past, Blocks;
    var s := At(cfg, es, i);
    PendingClocks(cfg, es, i, id);
    HeardIsKnown(cfg, es, i);
    assert |s.clients| == |s.clients.Keys|;
    var req := s.calls[id].req;
    forall other | other in s.clients && other != id
      ensures Blocks(s.clients[other], other, id, req.clock) <==> !Left(es, i, other) && !Past(es, i, other, req)
    {
      assert other in HeardOf(cfg, es, i);
      BlocksUnlessPast(cfg, es, i, other, req);
    }
    OwnNeverBlocks(s.clients, id, req.clock);
  }

  lemma OwnNeverBlocks(t: ClientTable, id: ClientId, clock: nat)
    ensures id in t ==> !Blocks(t[id], id, id, clock)
  {
  }

  /** So a poll at moment i accepts the waiting request of a client exactly then. */
  lemma PollAcceptsExactly(cfg: Config, es: seq<Event>, i: nat, id: ClientId)
    requires Feasible(cfg, es) && i < |es| && es[i] == Poll(id)
    ensures id in At(cfg, es, i).calls && id in At(cfg, es, i + 1).calls
    ensures At(cfg, es, i + 1).calls[id].phase == Accepted <==> Acceptable(cfg, es, i, At(cfg, es, i).calls[id].req)
  {
    hide At, Feasible, Acceptable, Stable;
    AtStep(cfg, es, i);
    StableExactly(cfg, es, i, id);
  }

  /** When every expected client has been heard of, and each that has not left has passed the
      stamp of the least pending request, check_stability accepts that request and no other. */
  lemma LeastPendingAccepted(cfg: Config, es: seq<Event>, i: nat, least: ClientId)
    requires Feasible(cfg, es) && i <= |es| && |HeardOf(cfg, es, i)| == cfg.numClients
    requires var s := At(cfg, es, i);
             && least in s.calls
             && (forall id :: id in s.calls && id != least ==> Before(s.calls[least].req, s.calls[id].req))
             && (forall id :: id in HeardOf(cfg, es, i) && id != least && !Left(es, i, id) ==>
                   exists j: nat :: Latest(es, i, id, j) && s.calls[least].req.clock < ClockOf(es[j]))
    ensures var s := At(cfg, es, i);
            forall id :: id in s.calls ==>
              (Stable(s.clients, cfg.numClients, id, s.calls[id].req.clock) <==> id == least)
  {
    hide At, Feasible, Heard, Left, Latest, Pending, Before, Stable;
    var s := At(cfg, es, i);
    PendingClocks(cfg, es, i, least);
    forall id | id in HeardOf(cfg, es, i) && id != least && !Left(es, i, id)
      ensures Past(es, i, id, s.calls[least].req)
    {
      TableMatchesEvents(cfg, es, i, id);
    }
    StableExactly(cfg, es, i, least);
    forall id | id in s.calls && id != least ensures !Stable(s.clients, cfg.numClients, id, s.calls[id].req.clock) {
      LaterIsRefused(cfg, es, i, least, id);
    }
  }

  lemma LaterIsRefused(cfg: Config, es: seq<Event>, i: nat, earlier: ClientId, id: ClientId)
    requires Feasible(cfg, es) && i <= |es|
    requires var s := At(cfg, es, i);
             && earlier in s.calls && id in s.calls && id != earlier
             && Before(s.calls[earlier].req, s.calls[id].req)
    ensures var s := At(cfg, es, i); !Stable(s.clients, cfg.numClients, id, s.calls[id].req.clock)
  {
    hide At, Feasible, LogInv;
    BookHolds(cfg, es, i);
    var s := At(cfg, es, i);
    assert Blocks(s.clients[earlier], earlier, id, s.calls[id].req.clock);
  }
}
