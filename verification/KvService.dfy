/**
 One replica of the Lamport-clock key-value service: the two tables its RPC
 handlers share, and the lock sections in which the handlers change them.

 Clocks are 64-bit in the program but a replica only stores and compares them,
 so they are naturals here.  The number of clients is a byte, and so is the
 counter of check_stability, which therefore wraps.
 */
module KvService {

  type ClientId = x: int | 0 <= x < 256

  /** The command line accepts a non-zero byte. */
  type ClientCount = x: int | 1 <= x < 256 witness 1

  datatype ClientInfo = ClientInfo(clock: nat, alive: bool, lastReq: nat)

  type ClientTable = map<ClientId, ClientInfo>

  type Store = map<string, string>

  /** The table after the latest clock of a client has been recorded. */
  function WithClock(t: ClientTable, id: ClientId, clock: nat): ClientTable {
    if id in t then t[id := t[id].(clock := clock)] else t[id := ClientInfo(clock, true, 0)]
  }

  /** The table after the pending request of a known client has been set; 0 means none. */
  function WithRequest(t: ClientTable, id: ClientId, request: nat): ClientTable {
    if id in t then t[id := t[id].(lastReq := request)] else t
  }

  /** The table after a known client has been marked as disconnected. */
  function WithoutClient(t: ClientTable, id: ClientId): ClientTable {
    if id in t then t[id := t[id].(alive := false)] else t
  }

  /** Does what is known of client cid forbid serving the request (clientId, clock) now? */
  predicate Blocks(info: ClientInfo, cid: ClientId, clientId: ClientId, clock: nat) {
    && info.alive
    && cid != clientId
    && (|| info.clock <= clock
        || (info.lastReq != 0 && info.lastReq < clock)
        || (info.lastReq == clock && cid < clientId))
  }

  /** A request is stable when every expected client is known and none blocks it. */
  predicate Stable(t: ClientTable, numClients: ClientCount, clientId: ClientId, clock: nat) {
    && |t| == numClients
    && forall cid :: cid in t ==> !Blocks(t[cid], cid, clientId, clock)
  }

  /** The value a Get replies with: the empty string stands for a missing key. */
  function Lookup(store: Store, key: string): string {
    if key in store then store[key] else ""
  }

  lemma {:induction false} BoundedSetSize(s: set<int>, n: nat)
    requires forall x :: x in s ==> 0 <= x < n
    ensures |s| <= n
  {
    if n == 0 {
      assert forall x :: x in s ==> false;
    } else {
      BoundedSetSize(s - {n - 1}, n - 1);
    }
  }

  /** The byte counter of check_stability cannot be fooled: it equals the number of
      expected clients exactly when the table has that many entries. */
  lemma ByteCounterIsExact(t: ClientTable, numClients: ClientCount)
    ensures |t| % 256 == numClients <==> |t| == numClients
  {
    var ids: set<int> := set id | id in t.Keys;
    assert ids == t.Keys;
    BoundedSetSize(ids, 256);
    assert |t| == |ids|;
  }

  class KeyValService {
    var clientInfo: ClientTable
    var kv: Store
    const numClients: ClientCount

    constructor (numClients: ClientCount)
      ensures this.numClients == numClients
      ensures clientInfo == map[] && kv == map[]
    {
      this.numClients := numClients;
      clientInfo := map[];
      kv := map[];
    }

    method UpdateAddClientClock(clientId: ClientId, clock: nat)
      modifies this`clientInfo
      ensures clientInfo == WithClock(old(clientInfo), clientId, clock)
    {
      if clientId in clientInfo {
        var client := clientInfo[clientId].(clock := clock);
        clientInfo := clientInfo[clientId := client];
      } else {
        clientInfo := clientInfo[clientId := ClientInfo(clock, true, 0)];
      }
    }

    method AddClientRequestInfo(clientId: ClientId, request: nat)
      modifies this`clientInfo
      ensures clientInfo == WithRequest(old(clientInfo), clientId, request)
    {
      if clientId in clientInfo {
        var client := clientInfo[clientId].(lastReq := request);
        clientInfo := clientInfo[clientId := client];
      }
    }

    method DeleteClientRequestInfo(clientId: ClientId)
      modifies this`clientInfo
      ensures clientInfo == WithRequest(old(clientInfo), clientId, 0)
    {
      if clientId in clientInfo {
        var client := clientInfo[clientId].(lastReq := 0);
        clientInfo := clientInfo[clientId := client];
      }
    }

    /** The scan visits the table in no particular order and stops at the first
        client that blocks the request. */
    method CheckStability(clientId: ClientId, clock: nat) returns (stable: bool)
      ensures stable == Stable(clientInfo, numClients, clientId, clock)
    {
      var clientsChecked := 0;
      var rest := clientInfo.Keys;
      while rest != {}
        invariant rest <= clientInfo.Keys
        invariant clientsChecked == (|clientInfo| - |rest|) % 256
        invariant forall cid :: cid in clientInfo && cid !in rest ==> !Blocks(clientInfo[cid], cid, clientId, clock)
        decreases |rest|
      {
        var cid :| cid in rest;
        rest := rest - {cid};
        var client := clientInfo[cid];
        if !client.alive {
          clientsChecked := (clientsChecked + 1) % 256;
          continue;
        }
        if clientId == cid {
          clientsChecked := (clientsChecked + 1) % 256;
          continue;
        }
        if client.clock <= clock {
          return false;
        }
        if client.lastReq != 0 && client.lastReq < clock {
          return false;
        }
        if client.lastReq == clock && cid < clientId {
          return false;
        }
        clientsChecked := (clientsChecked + 1) % 256;
      }
      ByteCounterIsExact(clientInfo, numClients);
      return clientsChecked == numClients;
    }

    /** First lock section of Get and of Put. */
    method BeginRequest(clientId: ClientId, clock: nat)
      modifies this`clientInfo
      ensures clientInfo == WithRequest(WithClock(old(clientInfo), clientId, clock), clientId, clock)
    {
      UpdateAddClientClock(clientId, clock);
      AddClientRequestInfo(clientId, clock);
    }

    /** Second lock section of Get. */
    method ApplyGet(key: string) returns (reply: string)
      ensures reply == Lookup(kv, key)
    {
      if key in kv {
        reply := kv[key];
      } else {
        reply := "";
      }
    }

    /** Second lock section of Put. */
    method ApplyPut(key: string, val: string) returns (reply: string)
      modifies this`kv
      ensures kv == old(kv)[key := val] && reply == ""
    {
      kv := kv[key := val];
      reply := "";
    }

    /** Last lock section of Get and of Put. */
    method EndRequest(clientId: ClientId)
      modifies this`clientInfo
      ensures clientInfo == WithRequest(old(clientInfo), clientId, 0)
    {
      DeleteClientRequestInfo(clientId);
    }

    method ClockUpdate(clientId: ClientId, clock: nat)
      modifies this`clientInfo
      ensures clientInfo == WithClock(old(clientInfo), clientId, clock)
    {
      UpdateAddClientClock(clientId, clock);
    }

    method Disconnect(clientId: ClientId)
      modifies this`clientInfo
      ensures clientInfo == WithoutClient(old(clientInfo), clientId)
    {
      if clientId in clientInfo {
        var client := clientInfo[clientId].(alive := false);
        clientInfo := clientInfo[clientId := client];
      }
    }
  }
}
