/**
 What statement trees do.

 The environment answers every question a run asks (conditions, choice of a clause,
 whether an expression panics, which function literals get called) from what has been
 observed so far.  Counter reports are part of a trace but cannot be observed.

 A run has fuel for loop iterations and calls of function literals; a run that never
 ends is one that is out of fuel for every amount of it, with an ever longer trace.
 */
module GoSemantics {
  import opened Basics
  import opened GoSyntax

  /** Enter marks the execution of a statement of a list; head tells whether the
      statement starts a counted segment. */
  datatype Event =
    | Eval(id: nat)
    | Call(id: nat, lit: nat)
    | Enter(pos: Pos, head: bool)
    | Report(block: BlockInfo)

  type Trace = seq<Event>

  type Env = (nat, Trace) -> nat

  datatype Outcome =
    | Normal
    | Broke(target: Option<Label>)
    | Continued(target: Option<Label>)
    | FellThrough
    | Returned
    | Panicked
    | Blocked
    | OutOfFuel

  datatype Result = Result(trace: Trace, out: Outcome)

  /** The observable part of a trace. */
  function Erase(t: Trace): Trace {
    if t == [] then []
    else
      var front := Erase(t[..|t| - 1]);
      if t[|t| - 1].Report? then front else front + [t[|t| - 1]]
  }

  /** How a statement of a list stands to the one before it. */
  datatype Lead = First | Next | Inner

  function LeadAfter(lead: Lead, s: Stmt): Lead {
    if s.Counter? then lead else if EndsBasicBlock(s) then Next else Inner
  }

  /** A counted segment starts at the first statement of a list, and after a statement
      that ends a basic block unless a bare block follows. */
  predicate Heads(s: Stmt, lead: Lead) {
    lead == First || (lead == Next && !s.Block?)
  }

  /** A break or continue without label, or with the label of the statement itself. */
  predicate Targets(target: Option<Label>, own: Option<Label>) {
    target == None || target == own
  }

  // ------------------------------------------------------------ expressions

  function EvalExpr(env: Env, fuel: nat, e: Expr, t: Trace): Result
    decreases fuel, e, 1
  {
    var r := CallLits(env, fuel, e.id, e.lits, t + [Eval(e.id)]);
    if r.out != Normal then r
    else if env(e.id, Erase(r.trace)) == 0 then r else r.(out := Panicked)
  }

  function EvalOpt(env: Env, fuel: nat, e: Option<Expr>, t: Trace): Result
    decreases fuel, e, 2
  {
    match e
    case None => Result(t, Normal)
    case Some(x) => EvalExpr(env, fuel, x, t)
  }

  /** The evaluation may call the function literals, in any order and number. */
  function CallLits(env: Env, fuel: nat, id: nat, lits: seq<FuncLit>, t: Trace): Result
    decreases fuel, lits, 0
  {
    if lits == [] then Result(t, Normal)
    else
      var choice := env(id, Erase(t));
      if choice == 0 then Result(t, Normal)
      else if fuel == 0 then Result(t, OutOfFuel)
      else
        var k := choice % |lits|;
        var r := ExecList(env, fuel - 1, lits[k].body, First, t + [Call(id, k)]);
        if r.out in {Panicked, Blocked, OutOfFuel} then r
        else CallLits(env, fuel - 1, id, lits, r.trace)
  }

  // ------------------------------------------------------------- statements

  /** The default clause; the number of clauses when there is none. */
  function DefaultOf(clauses: seq<Clause>): (k: nat)
    ensures k <= |clauses| && (k < |clauses| ==> clauses[k].isDefault)
    ensures forall i :: 0 <= i < k ==> !clauses[i].isDefault
  {
    if clauses == [] || clauses[0].isDefault then 0 else 1 + DefaultOf(clauses[1..])
  }

  /** The clause that is executed: the one that is chosen, or else the default. */
  function Selected(clauses: seq<Clause>, choice: nat): nat {
    if choice < |clauses| then choice else DefaultOf(clauses)
  }

  lemma SameSelected(a: seq<Clause>, b: seq<Clause>, choice: nat)
    requires |a| == |b| && forall i :: 0 <= i < |a| ==> a[i].isDefault == b[i].isDefault
    ensures Selected(a, choice) == Selected(b, choice)
  {
  }

  function ExecList(env: Env, fuel: nat, list: seq<Stmt>, lead: Lead, t: Trace): Result
    decreases fuel, list, 0
  {
    if list == [] then Result(t, Normal)
    else
      var r := ExecOne(env, fuel, list[0], lead, t);
      if r.out != Normal then r
      else ExecList(env, fuel, list[1..], LeadAfter(lead, list[0]), r.trace)
  }

  /** One statement of a list. */
  function ExecOne(env: Env, fuel: nat, s: Stmt, lead: Lead, t: Trace): Result
    decreases fuel, s, 4
  {
    if s.Counter? then Result(t + [Report(s.block)], Normal)
    else Exec(env, fuel, s, None, t + [Enter(StartOf(s), Heads(s, lead))])
  }

  function Exec(env: Env, fuel: nat, s: Stmt, own: Option<Label>, t: Trace): Result
    decreases fuel, s, 3
  {
    match s
    case Plain(_, _, x) => EvalExpr(env, fuel, x, t)
    case Panic(_, _, x) =>
      var r := EvalExpr(env, fuel, x, t);
      if r.out == Normal then r.(out := Panicked) else r
    case Return(_, _, x) =>
      var r := EvalExpr(env, fuel, x, t);
      if r.out == Normal then r.(out := Returned) else r
    case Branch(_, _, kind, target) =>
      Result(t, match kind
                case Break => Broke(target)
                case Continue => Continued(target)
                case Fallthrough => FellThrough)
    case Block(_, _, list) => ExecList(env, fuel, list, First, t)
    case If(_, init, cond, _, _, list, els) =>
      var r := EvalOpt(env, fuel, init, t);
      if r.out != Normal then r
      else
        var c := EvalExpr(env, fuel, cond, r.trace);
        if c.out != Normal then c
        else if env(cond.id + 1, Erase(c.trace)) != 0 then ExecList(env, fuel, list, First, c.trace)
        else ExecElse(env, fuel, els, c.trace)
    case For(_, init, _, _, _, _, _) =>
      var r := EvalOpt(env, fuel, init, t);
      if r.out != Normal then r else Loop(env, fuel, s, own, r.trace)
    case Switch(_, kind, init, tag, _, _, clauses) =>
      var r := EvalOpt(env, fuel, init, t);
      if r.out != Normal then r
      else
        var g := EvalOpt(env, fuel, tag, r.trace);
        if g.out != Normal then g
        else
          var k := Selected(clauses, env(0, Erase(g.trace)));
          if k < |clauses| then
            var c := ExecClauses(env, fuel, clauses[k..], true, g.trace);
            if c.out.Broke? && Targets(c.out.target, own) then c.(out := Normal) else c
          else if kind == Select then g.(out := Blocked)
          else g
    case Labeled(_, name, stmt) => Exec(env, fuel, stmt, Some(name), t)
    case Counter(b) => Result(t + [Report(b)], Normal)
  }

  function ExecElse(env: Env, fuel: nat, els: Else, t: Trace): Result
    decreases fuel, els, 0
  {
    match els
    case NoElse => Result(t, Normal)
    case ElseIf(s) => ExecOne(env, fuel, s, First, t)
    case ElseBlock(_, _, list) => ExecList(env, fuel, list, First, t)
  }

  /** The chosen clause, and the following ones as long as control falls through. */
  function ExecClauses(env: Env, fuel: nat, clauses: seq<Clause>, chosen: bool, t: Trace): Result
    requires clauses != []
    decreases fuel, clauses, 0
  {
    var g := if chosen then EvalExpr(env, fuel, clauses[0].guard, t) else Result(t, Normal);
    if g.out != Normal then g
    else
      var r := ExecList(env, fuel, clauses[0].body, First, g.trace);
      if r.out == FellThrough && |clauses| > 1 then
        ExecClauses(env, fuel, clauses[1..], false, r.trace)
      else r
  }

  function Loop(env: Env, fuel: nat, s: Stmt, own: Option<Label>, t: Trace): Result
    requires s.For?
    decreases fuel, s, 2
  {
    var c := EvalOpt(env, fuel, s.test, t);
    if c.out != Normal then c
    else if s.test.Some? && env(s.test.value.id + 1, Erase(c.trace)) == 0 then c
    else
      var r := ExecList(env, fuel, s.list, First, c.trace);
      if r.out == Normal || (r.out.Continued? && Targets(r.out.target, own)) then
        var p := EvalOpt(env, fuel, s.post, r.trace);
        if p.out != Normal then p
        else if fuel == 0 then p.(out := OutOfFuel)
        else Loop(env, fuel - 1, s, own, p.trace)
      else if r.out.Broke? && Targets(r.out.target, own) then r.(out := Normal)
      else r
  }
}
