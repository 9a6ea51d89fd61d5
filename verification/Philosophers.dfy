/**
 Dining philosophers over channels: a ring of philosophers, each with a channel of capacity
 one that holds his chopstick.

 Time is left out: a timeout may fire whenever a philosopher waits for his neighbour.  The
 program closes the channels once their owners are done; up to then the model follows it.
 */
module Philosophers {

  // --------------------------------------------------------------------- the ring

  class Philosopher {
    const name: string
    /** The number of tokens in the channel. */
    var chopstick: nat
    var neighbor: Philosopher?

    constructor (name: string, neighbor: Philosopher?)
      ensures this.name == name && this.neighbor == neighbor && chopstick == 1
    {
      this.name, this.neighbor := name, neighbor;
      chopstick := 1;
    }
  }

  /** The philosopher whose chopstick philosopher i borrows. */
  function Neighbor(i: nat, n: nat): nat
    requires i < n
  {
    if i == 0 then n - 1 else i - 1
  }

  /** Everybody is linked to the one made before him, and the first to the last. */
  method MakeRing(names: seq<string>) returns (philosophers: array<Philosopher?>)
    requires |names| > 0
    ensures philosophers.Length == |names| && Linked(philosophers)
    ensures forall i :: 0 <= i < |names| ==> philosophers[i].name == names[i] && philosophers[i].chopstick == 1
  {
    philosophers := new Philosopher?[|names|];
    var phil: Philosopher? := null;
    for i := 0 to |names|
      invariant i == 0 <==> phil == null
      invariant i > 0 ==> phil == philosophers[i - 1]
      invariant forall k :: 0 <= k < i ==> philosophers[k] != null && fresh(philosophers[k])
      invariant forall k :: 0 <= k < i ==> philosophers[k].name == names[k] && philosophers[k].chopstick == 1
      invariant forall j, k :: 0 <= j < k < i ==> philosophers[j] != philosophers[k]
      invariant forall k :: 0 < k < i ==> philosophers[k].neighbor == philosophers[k - 1]
    {
      phil := new Philosopher(names[i], phil);
      philosophers[i] := phil;
    }
    philosophers[0].neighbor := phil;
  }

  // -------------------------------------------------------------------- the table

  datatype Phase =
    | Thinking   // about to take his own chopstick
    | Waiting    // holds his own, waits for his neighbour's or the timeout
    | Retreating // about to put his own back
    | Eating     // holds both
    | Returning  // has put his own back, holds his neighbour's
    | Finished

  /** Tokens in the channels, and what everybody is doing. */
  datatype Table = Table(chopsticks: seq<nat>, phases: seq<Phase>)

  predicate Seated(t: Table, n: nat) {
    |t.chopsticks| == |t.phases| == n
  }

  ghost predicate Laid(t: Table, n: nat) {
    && Seated(t, n)
    && (forall c :: 0 <= c < n ==> t.chopsticks[c] == 1)
    && (forall i :: 0 <= i < n ==> t.phases[i] == Thinking)
  }

  datatype Move = TakeOwn | TakeNeighbors | Timeout | PutBack | ReturnOwn | ReturnNeighbors

  /** A receive needs a token; a send needs room. */
  predicate Enabled(t: Table, n: nat, i: nat, m: Move)
    requires Seated(t, n) && i < n
  {
    var other := Neighbor(i, n);
    match m
    case TakeOwn => t.phases[i] == Thinking && t.chopsticks[i] > 0
    case TakeNeighbors => t.phases[i] == Waiting && t.chopsticks[other] > 0
    case Timeout => t.phases[i] == Waiting
    case PutBack => t.phases[i] == Retreating && t.chopsticks[i] < 1
    case ReturnOwn => t.phases[i] == Eating && t.chopsticks[i] < 1
    case ReturnNeighbors => t.phases[i] == Returning && t.chopsticks[other] < 1
  }

  function Moved(t: Table, n: nat, i: nat, m: Move): Table
    requires Seated(t, n) && i < n && Enabled(t, n, i, m)
  {
    var other := Neighbor(i, n);
    match m
    case TakeOwn => Table(t.chopsticks[i := t.chopsticks[i] - 1], t.phases[i := Waiting])
    case TakeNeighbors => Table(t.chopsticks[other := t.chopsticks[other] - 1], t.phases[i := Eating])
    case Timeout => t.(phases := t.phases[i := Retreating])
    case PutBack => Table(t.chopsticks[i := t.chopsticks[i] + 1], t.phases[i := Thinking])
    case ReturnOwn => Table(t.chopsticks[i := t.chopsticks[i] + 1], t.phases[i := Returning])
    case ReturnNeighbors => Table(t.chopsticks[other := t.chopsticks[other] + 1], t.phases[i := Finished])
  }

  predicate Moves(t: Table, t': Table, n: nat, i: nat, m: Move) {
    Seated(t, n) && i < n && Enabled(t, n, i, m) && t' == Moved(t, n, i, m)
  }

  ghost predicate Step(t: Table, t': Table, n: nat) {
    exists i, m :: Moves(t, t', n, i, m)
  }

  ghost predicate Leads(ts: seq<Table>, n: nat) {
    ts != [] && forall k :: 0 <= k < |ts| - 1 ==> Step(ts[k], ts[k + 1], n)
  }

  ghost predicate Dinner(ts: seq<Table>, n: nat) {
    Leads(ts, n) && Laid(ts[0], n)
  }

  // ------------------------------------------------------------ the ring does this

  ghost predicate Linked(philosophers: array<Philosopher?>)
    reads philosophers, philosophers[..]
  {
    && (forall i :: 0 <= i < philosophers.Length ==> philosophers[i] != null)
    && (forall i, j :: 0 <= i < j < philosophers.Length ==> philosophers[i] != philosophers[j])
    && (forall i :: 0 <= i < philosophers.Length ==>
          philosophers[i].neighbor == philosophers[Neighbor(i, philosophers.Length)])
  }

  /** The channels hold the tokens of the table. */
  ghost predicate Shows(philosophers: array<Philosopher?>, t: Table)
    reads philosophers, philosophers[..]
  {
    && Linked(philosophers) && Seated(t, philosophers.Length)
    && (forall c :: 0 <= c < philosophers.Length ==> philosophers[c].chopstick == t.chopsticks[c])
  }

  /** What a philosopher does to his own channel and to that of his neighbour is the move. */
  method Act(philosophers: array<Philosopher?>, i: nat, m: Move, ghost t: Table)
    requires Shows(philosophers, t) && i < philosophers.Length && Enabled(t, philosophers.Length, i, m)
    modifies set p | p in philosophers[..] && p != null
    ensures Shows(philosophers, Moved(t, philosophers.Length, i, m))
  {
    var phil := philosophers[i];
    assert phil in philosophers[..] && philosophers[Neighbor(i, philosophers.Length)] in philosophers[..];
    match m
    case TakeOwn => phil.chopstick := phil.chopstick - 1;
    case TakeNeighbors => phil.neighbor.chopstick := phil.neighbor.chopstick - 1;
    case Timeout =>
    case PutBack => phil.chopstick := phil.chopstick + 1;
    case ReturnOwn => phil.chopstick := phil.chopstick + 1;
    case ReturnNeighbors => phil.neighbor.chopstick := phil.neighbor.chopstick + 1;
  }

  // -------------------------------------------------------------------- invariant

  predicate HoldsOwn(p: Phase) {
    p == Waiting || p == Retreating || p == Eating
  }

  predicate HoldsNeighbors(p: Phase) {
    p == Eating || p == Returning
  }

  /** Who borrows the chopstick of philosopher c. */
  function Borrower(c: nat, n: nat): nat
    requires c < n
  {
    if c == n - 1 then 0 else c + 1
  }

  /** The chopstick of c is in its channel, or with c, or with the borrower: one of the three. */
  predicate InOnePlace(t: Table, n: nat, c: nat)
    requires Seated(t, n) && c < n
  {
    && t.chopsticks[c] <= 1
    && t.chopsticks[c] + (if HoldsOwn(t.phases[c]) then 1 else 0)
       + (if HoldsNeighbors(t.phases[Borrower(c, n)]) then 1 else 0) == 1
  }

  ghost predicate Inv(t: Table, n: nat) {
    Seated(t, n) && forall c :: 0 <= c < n ==> InOnePlace(t, n, c)
  }

  lemma RingIsClosed(i: nat, n: nat)
    requires i < n
    ensures Neighbor(i, n) < n && Borrower(Neighbor(i, n), n) == i && Neighbor(Borrower(i, n), n) == i
    ensures n >= 2 ==> Neighbor(i, n) != i && Borrower(i, n) != i
  {
  }

  lemma MoveKeepsInv(t: Table, n: nat, i: nat, m: Move)
    requires n >= 2 && Inv(t, n) && i < n && Enabled(t, n, i, m)
    ensures Inv(Moved(t, n, i, m), n)
  {
    var t' := Moved(t, n, i, m);
    RingIsClosed(i, n);
    assert InOnePlace(t, n, i) && InOnePlace(t, n, Neighbor(i, n));
    forall c | 0 <= c < n ensures InOnePlace(t', n, c) {
      RingIsClosed(c, n);
      assert InOnePlace(t, n, c);
    }
  }

  lemma {:induction false} InvHolds(ts: seq<Table>, n: nat, k: nat)
    requires n >= 2 && Leads(ts, n) && Inv(ts[0], n) && k < |ts|
    ensures Inv(ts[k], n)
  {
    if k > 0 {
      InvHolds(ts, n, k - 1);
      assert Step(ts[k - 1], ts[k], n);
      var i, m :| Moves(ts[k - 1], ts[k], n, i, m);
      MoveKeepsInv(ts[k - 1], n, i, m);
    }
  }

  lemma DinnerInv(ts: seq<Table>, n: nat, k: nat)
    requires n >= 2 && Dinner(ts, n) && k < |ts|
    ensures Inv(ts[k], n)
  {
    InvHolds(ts, n, k);
  }

  // --------------------------------------------------------------------- theorems

  /** Two neighbours never hold the chopstick between them at once, and so never eat together. */
  lemma NeighborsExclude(ts: seq<Table>, n: nat, k: nat, i: nat)
    requires n >= 2 && Dinner(ts, n) && k < |ts| && i < n
    ensures Seated(ts[k], n) && !(ts[k].phases[i] == Eating && ts[k].phases[Neighbor(i, n)] == Eating)
    ensures !(HoldsNeighbors(ts[k].phases[i]) && HoldsOwn(ts[k].phases[Neighbor(i, n)]))
  {
    DinnerInv(ts, n, k);
    RingIsClosed(i, n);
    assert InOnePlace(ts[k], n, Neighbor(i, n));
  }

  /** Whoever has a chopstick to put back finds room for it at once. */
  lemma NoReturnBlocks(ts: seq<Table>, n: nat, k: nat, i: nat)
    requires n >= 2 && Dinner(ts, n) && k < |ts| && i < n
    ensures Seated(ts[k], n)
    ensures ts[k].phases[i] == Retreating ==> Enabled(ts[k], n, i, PutBack)
    ensures ts[k].phases[i] == Eating ==> Enabled(ts[k], n, i, ReturnOwn)
    ensures ts[k].phases[i] == Returning ==> Enabled(ts[k], n, i, ReturnNeighbors)
  {
    DinnerInv(ts, n, k);
    CanReturn(ts[k], n, i);
  }

  lemma CanReturn(t: Table, n: nat, i: nat)
    requires n >= 2 && Inv(t, n) && i < n
    ensures t.phases[i] == Retreating ==> Enabled(t, n, i, PutBack)
    ensures t.phases[i] == Eating ==> Enabled(t, n, i, ReturnOwn)
    ensures t.phases[i] == Returning ==> Enabled(t, n, i, ReturnNeighbors)
  {
    RingIsClosed(i, n);
    assert InOnePlace(t, n, i) && InOnePlace(t, n, Neighbor(i, n));
  }

  // ----------------------------------------------------------------------- progress

  /** How far a philosopher is from thinking or being finished. */
  function Rank(p: Phase): nat {
    match p
    case Waiting => 3
    case Retreating => 2
    case Eating => 2
    case Thinking => 1
    case Returning => 1
    case Finished => 0
  }

  function Ranks(phases: seq<Phase>): nat {
    if phases == [] then 0 else Ranks(phases[..|phases| - 1]) + Rank(phases[|phases| - 1])
  }

  lemma {:induction false} RanksAfter(phases: seq<Phase>, i: nat, p: Phase)
    requires i < |phases|
    ensures Ranks(phases[i := p]) == Ranks(phases) - Rank(phases[i]) + Rank(p)
    ensures Ranks(phases) >= Rank(phases[i])
  {
    var n := |phases| - 1;
    if i < n {
      RanksAfter(phases[..n], i, p);
      assert phases[i := p][..n] == phases[..n][i := p];
    } else {
      assert phases[i := p][..n] == phases[..n];
    }
  }

  ghost predicate AllFinished(t: Table) {
    forall i :: 0 <= i < |t.phases| ==> t.phases[i] == Finished
  }

  lemma LeadsOn(t: Table, t': Table, rest: seq<Table>, n: nat)
    requires Step(t, t', n) && Leads(rest, n) && rest[0] == t'
    ensures Leads([t] + rest, n)
  {
  }

  ghost predicate CanFinish(t: Table, n: nat) {
    exists ts :: Leads(ts, n) && ts[0] == t && AllFinished(ts[|ts| - 1])
  }

  lemma StepCanFinish(t: Table, n: nat, i: nat, m: Move)
    requires Seated(t, n) && i < n && Enabled(t, n, i, m) && CanFinish(Moved(t, n, i, m), n)
    ensures CanFinish(t, n)
  {
    var t' := Moved(t, n, i, m);
    var ts :| Leads(ts, n) && ts[0] == t' && AllFinished(ts[|ts| - 1]);
    assert Moves(t, t', n, i, m);
    LeadsOn(t, t', ts, n);
    assert ([t] + ts)[|ts|] == ts[|ts| - 1];
  }

  /** From a table where philosopher i thinks and nobody holds anything, he can eat. */
  lemma MealCanFinish(t: Table, n: nat, i: nat)
    requires n >= 2 && Inv(t, n) && i < n && t.phases[i] == Thinking
    requires forall j :: 0 <= j < n ==> t.phases[j] == Thinking || t.phases[j] == Finished
    requires CanFinish(t.(phases := t.phases[i := Finished]), n)
    ensures CanFinish(t, n)
  {
    RingIsClosed(i, n);
    var other := Neighbor(i, n);
    assert InOnePlace(t, n, i) && InOnePlace(t, n, other);
    var t1 := Moved(t, n, i, TakeOwn);
    var t2 := Moved(t1, n, i, TakeNeighbors);
    var t3 := Moved(t2, n, i, ReturnOwn);
    var t4 := Moved(t3, n, i, ReturnNeighbors);
    assert t4 == t.(phases := t.phases[i := Finished]);
    StepCanFinish(t3, n, i, ReturnNeighbors);
    StepCanFinish(t2, n, i, ReturnOwn);
    StepCanFinish(t1, n, i, TakeNeighbors);
    StepCanFinish(t, n, i, TakeOwn);
  }

  /** What a philosopher who is neither thinking nor finished can always do. */
  function WayOut(p: Phase): Move {
    match p
    case Waiting => Timeout
    case Retreating => PutBack
    case Eating => ReturnOwn
    case _ => ReturnNeighbors
  }

  /** The dinner never gets stuck: from every table it can come to, everybody can still eat. */
  lemma {:induction false} EverybodyCanStillEat(t: Table, n: nat)
    requires n >= 2 && Inv(t, n)
    ensures CanFinish(t, n)
    decreases Ranks(t.phases)
  {
    if i :| 0 <= i < n && t.phases[i] != Thinking && t.phases[i] != Finished {
      var m := WayOut(t.phases[i]);
      CanReturn(t, n, i);
      MoveKeepsInv(t, n, i, m);
      RanksAfter(t.phases, i, Moved(t, n, i, m).phases[i]);
      EverybodyCanStillEat(Moved(t, n, i, m), n);
      StepCanFinish(t, n, i, m);
    } else if i :| 0 <= i < n && t.phases[i] == Thinking {
      var t' := t.(phases := t.phases[i := Finished]);
      RanksAfter(t.phases, i, Finished);
      SameTokens(t, n, i);
      EverybodyCanStillEat(t', n);
      MealCanFinish(t, n, i);
    } else {
      assert Leads([t], n) && [t][0] == t;
    }
  }

  lemma SameTokens(t: Table, n: nat, i: nat)
    requires n >= 2 && Inv(t, n) && i < n && t.phases[i] == Thinking
    ensures Inv(t.(phases := t.phases[i := Finished]), n)
  {
    var t' := t.(phases := t.phases[i := Finished]);
    forall c | 0 <= c < n ensures InOnePlace(t', n, c) {
      assert InOnePlace(t, n, c);
    }
  }

  lemma NeverStuck(ts: seq<Table>, n: nat, k: nat)
    requires n >= 2 && Dinner(ts, n) && k < |ts|
    ensures CanFinish(ts[k], n)
    ensures !AllFinished(ts[k]) ==> exists t' :: Step(ts[k], t', n)
  {
    DinnerInv(ts, n, k);
    EverybodyCanStillEat(ts[k], n);
    var us :| Leads(us, n) && us[0] == ts[k] && AllFinished(us[|us| - 1]);
    if !AllFinished(ts[k]) {
      assert |us| > 1 && Step(us[0], us[1], n);
    }
  }

  /** Somebody is not finished, and nobody can do anything but give up waiting. */
  ghost predicate OnlyTimeoutsLeft(t: Table, n: nat) {
    Seated(t, n) && !AllFinished(t) && forall i, m :: 0 <= i < n && Enabled(t, n, i, m) ==> m == Timeout
  }

  /** The timeout is needed: in a ring of any size everybody can take his own chopstick, and
      then nobody can go on but by a timeout. */
  lemma TimeoutsAreNeeded(n: nat)
    requires n >= 2
    ensures exists ts :: Dinner(ts, n) && OnlyTimeoutsLeft(ts[|ts| - 1], n)
  {
    var ts := FirstTake(n, n);
    var t := ts[|ts| - 1];
    assert t.phases[0] == Waiting;
    assert OnlyTimeoutsLeft(t, n);
  }

  /** The first k philosophers have taken theirs. */
  lemma {:induction false} FirstTake(n: nat, k: nat) returns (ts: seq<Table>)
    requires k <= n
    ensures Dinner(ts, n) && Seated(ts[|ts| - 1], n)
    ensures var t := ts[|ts| - 1]; forall i :: 0 <= i < n ==>
              if i < k then t.phases[i] == Waiting && t.chopsticks[i] == 0
              else t.phases[i] == Thinking && t.chopsticks[i] == 1
  {
    if k == 0 {
      ts := [Table(seq(n, i => 1), seq(n, i => Thinking))];
    } else {
      var before := FirstTake(n, k - 1);
      var t := before[|before| - 1];
      var t' := Moved(t, n, k - 1, TakeOwn);
      assert Moves(t, t', n, k - 1, TakeOwn);
      ts := before + [t'];
    }
  }
}
