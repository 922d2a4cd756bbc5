/** The daily spend budget as one reader would describe it: a running total and
    one hold per admitted operation, both emptied when the daily window ends.
    Amounts are micro-dollars. The two storage backends are proved to refine it
    in SpendBackends. */
module SpendLedger {
  import opened Keyspace

  datatype Ledger = Ledger(total: int, holds: map<OpId, int>)

  const EMPTY := Ledger(0, map[])

  datatype Call =
    | Reserve(op: OpId, amount: int)
    | Reconcile(op: OpId, actual: int)
    | Release(op: OpId)

  /** One call on the ledger, with the answer its caller gets. */
  function Apply(l: Ledger, limit: int, c: Call): (Ledger, bool) {
    match c
    case Reserve(op, amount) =>
      if op in l.holds then (l, true)
      else if l.total + amount > limit then (l, false)
      else (Ledger(l.total + amount, l.holds[op := amount]), true)
    case Reconcile(op, actual) =>
      if op !in l.holds then (l, false)
      else (Ledger(Max(0, Min(limit, l.total - l.holds[op] + actual)), l.holds - {op}), true)
    case Release(op) =>
      if op !in l.holds then (l, false)
      else (Ledger(Max(0, l.total - l.holds[op]), l.holds - {op}), true)
  }

  /** What the admission path sends: a positive estimate, and no negative cost. */
  predicate Admissible(c: Call) {
    match c
    case Reserve(_, amount) => 0 < amount
    case Reconcile(_, actual) => 0 <= actual
    case Release(_) => true
  }

  ghost function Sum(holds: map<OpId, int>): int {
    if holds == map[] then 0
    else
      var op :| op in holds;
      holds[op] + Sum(holds - {op})
  }

  /** Sum does not depend on the order in which holds are picked. */
  lemma {:induction false} SumWithout(holds: map<OpId, int>, op: OpId)
    requires op in holds
    ensures Sum(holds) == holds[op] + Sum(holds - {op})
    decreases |holds|
  {
    var first :| first in holds && Sum(holds) == holds[first] + Sum(holds - {first});
    if first != op {
      SumWithout(holds - {first}, op);
      SumWithout(holds - {op}, first);
      assert holds - {first} - {op} == holds - {op} - {first};
    }
  }

  lemma SumWith(holds: map<OpId, int>, op: OpId, amount: int)
    requires op !in holds
    ensures Sum(holds[op := amount]) == Sum(holds) + amount
  {
    SumWithout(holds[op := amount], op);
    assert holds[op := amount] - {op} == holds;
  }

  lemma {:induction false} SumNonNegative(holds: map<OpId, int>)
    requires forall op :: op in holds ==> 0 < holds[op]
    ensures 0 <= Sum(holds)
    decreases |holds|
  {
    if holds != map[] {
      var op :| op in holds;
      SumWithout(holds, op);
      SumNonNegative(holds - {op});
    }
  }

  /** The money invariant: every hold is counted in the total, and the total
      never passes the ceiling. */
  ghost predicate Funded(l: Ledger, limit: int) {
    && (forall op :: op in l.holds ==> 0 < l.holds[op])
    && Sum(l.holds) <= l.total <= limit
  }

  lemma HoldWithinTotal(l: Ledger, limit: int, op: OpId)
    requires Funded(l, limit) && op in l.holds
    ensures 0 < l.holds[op] <= l.total - Sum(l.holds - {op})
    ensures 0 <= Sum(l.holds - {op})
  {
    SumWithout(l.holds, op);
    SumNonNegative(l.holds - {op});
  }

  lemma ApplyKeepsFunded(l: Ledger, limit: int, c: Call)
    requires Funded(l, limit) && Admissible(c)
    ensures Funded(Apply(l, limit, c).0, limit)
    // A hold leaves together with exactly its own amount, and a cost is charged
    // in full unless that would pass the ceiling: no clamp loses money.
    ensures !c.Reserve? && c.op in l.holds ==>
              var charged := if c.Reconcile? then c.actual else 0;
              && Apply(l, limit, c).0.total == Min(limit, l.total - l.holds[c.op] + charged)
              && Sum(Apply(l, limit, c).0.holds) == Sum(l.holds) - l.holds[c.op]
    // While nothing but zero is ever charged, the total is exactly the holds.
    ensures Sum(l.holds) == l.total && (c.Reconcile? ==> c.actual == 0) ==>
              Sum(Apply(l, limit, c).0.holds) == Apply(l, limit, c).0.total
  {
    if c.Reserve? {
      if c.op !in l.holds { SumWith(l.holds, c.op, c.amount); }
    } else if c.op in l.holds {
      SumWithout(l.holds, c.op);
      HoldWithinTotal(l, limit, c.op);
    }
  }

  /** A reservation is granted exactly when the operation has a hold already or the
      total leaves room for it; it adds a hold that was not there, and nothing else. */
  lemma ReserveGrantsIffRoom(l: Ledger, limit: int, op: OpId, amount: int)
    ensures var (next, granted) := Apply(l, limit, Reserve(op, amount));
            && (granted <==> op in l.holds || l.total + amount <= limit)
            && (op in l.holds || !granted ==> next == l)
            && (op !in l.holds && granted ==> next == Ledger(l.total + amount, l.holds[op := amount]))
            && (granted ==> Apply(next, limit, Reserve(op, amount)) == (next, true))
  {
  }

  datatype Step = Rollover | Do(call: Call)

  function Advance(l: Ledger, limit: int, s: Step): (Ledger, bool) {
    if s.Rollover? then (EMPTY, true) else Apply(l, limit, s.call)
  }

  function Run(l: Ledger, limit: int, steps: seq<Step>): Ledger
    decreases |steps|
  {
    if steps == [] then l else Run(Advance(l, limit, steps[0]).0, limit, steps[1..])
  }

  /** Every reachable ledger is funded; and since the service reconciles local
      work to zero, its total is exactly the sum of the current holds. */
  lemma {:induction false} EveryRunFunded(l: Ledger, limit: int, steps: seq<Step>)
    requires 0 <= limit && Funded(l, limit)
    requires forall s :: s in steps && s.Do? ==> Admissible(s.call)
    ensures Funded(Run(l, limit, steps), limit)
    ensures Sum(l.holds) == l.total
            && (forall s :: s in steps && s.Do? && s.call.Reconcile? ==> s.call.actual == 0) ==>
              Sum(Run(l, limit, steps).holds) == Run(l, limit, steps).total
    decreases |steps|
  {
    if steps != [] {
      assert steps[0] in steps;
      assert Sum(map[]) == 0;
      if steps[0].Do? { ApplyKeepsFunded(l, limit, steps[0].call); }
      EveryRunFunded(Advance(l, limit, steps[0]).0, limit, steps[1..]);
    }
  }
}
