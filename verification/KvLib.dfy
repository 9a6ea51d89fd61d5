/**
 The client library of the key-value service: how the clocks of requests are issued.
 What the remote calls answer is a parameter.
 */
module KvLib {
  import opened KvService
  import opened KvProtocol

  /** Clocks are 64-bit and wrap. */
  const CLOCKS := 0x1_0000_0000_0000_0000

  type Clock = x: int | 0 <= x < CLOCKS

  function Bumped(clock: Clock): Clock {
    (clock + 1) % CLOCKS
  }

  /** What one remote call answers. */
  datatype Answer = Reply(val: string) | Failed

  class KVService {
    const clientId: ClientId
    var clock: Clock

    constructor (clientId: ClientId)
      ensures this.clientId == clientId && clock == 0
    {
      this.clientId := clientId;
      clock := 0;
    }

    /** Get asks one replica after the other until one answers; with no replica at all it
        reports no error. */
    method Get(key: string, answers: seq<Answer>) returns (req: Request, asked: nat, val: string, failed: bool)
      modifies this`clock
      ensures clock == Bumped(old(clock)) && req == Request(clientId, clock, Op.Get(key))
      ensures asked <= |answers| && forall i :: 0 <= i < asked - 1 ==> answers[i].Failed?
      ensures failed <==> answers != [] && forall i :: 0 <= i < |answers| ==> answers[i].Failed?
      ensures if asked > 0 && answers[asked - 1].Reply? then val == answers[asked - 1].val
              else asked == |answers| && val == ""
    {
      clock := (clock + 1) % CLOCKS;
      req := Request(clientId, clock, Op.Get(key));
      asked, val, failed := 0, "", false;
      while asked < |answers|
        invariant asked <= |answers|
        invariant val == "" && (failed <==> asked > 0)
        invariant forall i :: 0 <= i < asked ==> answers[i].Failed?
      {
        var answer := answers[asked];
        asked := asked + 1;
        match answer
        case Reply(v) =>
          val, failed := v, false;
          return;
        case Failed =>
          failed := true;
      }
    }

    /** Put asks every replica, and fails when as many calls failed as there are replicas. */
    method Put(key: string, val: string, answers: seq<Answer>) returns (req: Request, failed: bool)
      modifies this`clock
      ensures clock == Bumped(old(clock)) && req == Request(clientId, clock, Op.Put(key, val))
      ensures failed <==> forall i :: 0 <= i < |answers| ==> answers[i].Failed?
    {
      clock := (clock + 1) % CLOCKS;
      req := Request(clientId, clock, Op.Put(key, val));
      var numErrors, i := 0, 0;
      while i < |answers|
        invariant i <= |answers| && numErrors <= i
        invariant numErrors == i <==> forall j :: 0 <= j < i ==> answers[j].Failed?
      {
        if answers[i].Failed? {
          numErrors := numErrors + 1;
        }
        i := i + 1;
      }
      failed := numErrors == |answers|;
    }

    /** Disconnect and the first half of a periodic update bump the clock, too. */
    method Bump()
      modifies this`clock
      ensures clock == Bumped(old(clock))
    {
      clock := (clock + 1) % CLOCKS;
    }
  }

  /** What one client does to its clock: issue a request, or bump the clock for an update
      or a disconnect.  The calls interleave in any order. */
  datatype ClientStep = Issue(op: Op) | Tick

  /** The requests a client issues, in order. */
  function Issued(id: ClientId, clock: Clock, steps: seq<ClientStep>): seq<Request>
    decreases |steps|
  {
    if steps == [] then []
    else
      var next := Bumped(clock);
      var rest := Issued(id, next, steps[1..]);
      if steps[0].Issue? then [Request(id, next, steps[0].op)] + rest else rest
  }

  /** Stamps of one client, strictly increasing from above clock. */
  ghost predicate Increasing(rs: seq<Request>, id: ClientId, clock: nat) {
    && (forall j :: 0 <= j < |rs| ==> clock < rs[j].clock && rs[j].client == id)
    && (forall j, k :: 0 <= j < k < |rs| ==> rs[j].clock < rs[k].clock)
  }

  lemma OneMoreStamp(rs: seq<Request>, id: ClientId, clock: nat, op: Op)
    requires clock + 1 < CLOCKS && Increasing(rs, id, clock + 1)
    ensures Increasing(rs, id, clock) && Increasing([Request(id, clock + 1, op)] + rs, id, clock)
  {
    var longer := [Request(id, clock + 1, op)] + rs;
    assert forall j :: 0 < j < |longer| ==> longer[j] == rs[j - 1];
  }

  /** As long as the clock does not wrap, the requests of one client carry strictly
      increasing clocks above the one it started from. */
  lemma {:induction false} IssuedStampsIncrease(id: ClientId, clock: Clock, steps: seq<ClientStep>)
    requires clock + |steps| < CLOCKS
    ensures Increasing(Issued(id, clock, steps), id, clock)
    decreases |steps|
  {
    if steps != [] {
      var next := Bumped(clock);
      assert next == clock + 1;
      IssuedStampsIncrease(id, next, steps[1..]);
      var rest := Issued(id, next, steps[1..]);
      OneMoreStamp(rest, id, clock, if steps[0].Issue? then steps[0].op else Get(""));
    }
  }

  /** The stamps a fresh client issues meet what the replicas assume of them: from 1 up,
      and no stamp used for two requests. */
  lemma FreshClientStamps(id: ClientId, steps: seq<ClientStep>)
    requires |steps| < CLOCKS
    ensures var rs := Issued(id, 0, steps);
            && (forall j :: 0 <= j < |rs| ==> rs[j].clock >= 1)
            && (forall j, k :: 0 <= j < |rs| && 0 <= k < |rs| && rs[j].clock == rs[k].clock ==> j == k)
  {
    IssuedStampsIncrease(id, 0, steps);
  }

  /** A client at work: the requests that its calls send out are the ones issued. */
  method Work(service: KVService, steps: seq<ClientStep>, answers: seq<Answer>) returns (sent: seq<Request>)
    modifies service
    ensures sent == Issued(service.clientId, old(service.clock), steps)
  {
    sent := [];
    for i := 0 to |steps|
      invariant Issued(service.clientId, old(service.clock), steps) ==
                sent + Issued(service.clientId, service.clock, steps[i..])
    {
      assert steps[i..][0] == steps[i] && steps[i..][1..] == steps[i + 1..];
      match steps[i]
      case Tick =>
        service.Bump();
      case Issue(op) =>
        var req, failed;
        match op {
          case Get(key) =>
            var asked, val;
            req, asked, val, failed := service.Get(key, answers);
          case Put(key, val) =>
            req, failed := service.Put(key, val, answers);
        }
        assert sent + ([req] + Issued(service.clientId, service.clock, steps[i + 1..])) ==
               (sent + [req]) + Issued(service.clientId, service.clock, steps[i + 1..]);
        sent := sent + [req];
    }
  }
}
