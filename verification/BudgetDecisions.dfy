/** What the ledger answers, and how often it refuses: each decision reports the state it leads to, and over
    every run the refusals of a resource are counted one by one. */
module BudgetDecisions {
  import opened Results
  import opened Totals
  import opened BudgetLedger
  import opened BudgetBounds
  import opened BudgetManager

  function AtLeastZero(value: int): nat { if value < 0 then 0 else value }

  /** There is no limit, or the amount keeps the usage within it. */
  predicate HasRoom(l: Ledger, resource: string, amount: int) {
    Amount(l.limits, resource) <= 0 || Amount(l.used, resource) + amount <= Amount(l.limits, resource)
  }

  /** The decision reports the usage and the limit of the ledger, and what is left between them. */
  predicate Reports(d: Decision, l: Ledger, resource: string) {
    && d.used == Amount(l.used, resource) && d.limit == Amount(l.limits, resource)
    && d.remaining == if d.limit <= 0 then None else Some(if d.limit <= d.used then 0 else d.limit - d.used)
  }

  /** From `before` to `after` the usage of a resource rises by `charge` and its refusals by `refusals`. */
  predicate Moves(before: Ledger, after: Ledger, resource: string, charge: int, refusals: int) {
    && Amount(after.used, resource) == Amount(before.used, resource) + charge
    && Amount(after.rejected, resource) == Amount(before.rejected, resource) + refusals
    && Amount(after.limits, resource) == Amount(before.limits, resource)
  }

  /** A reservation is allowed exactly when it has room; then it is charged, and otherwise counted. */
  lemma {:induction false} ReserveDecides(l: Ledger, resource: string, amount: int, other: string)
    ensures var n := AtLeastZero(amount);
            var after := Reserved(l, resource, amount);
            var d := Judged(l, resource, NonNegative(amount),
                            Amount(l.used, resource) + if Fits(l, resource, NonNegative(amount))
                              then NonNegative(amount)
                              else 0);
            && (d.allowed <==> HasRoom(l, resource, n)) && Reports(d, after, resource)
            && Moves(l, after, resource, if d.allowed then n else 0, if d.allowed then 0 else 1)
            && (other != resource ==> Moves(l, after, other, 0, 0))
            && after.scopes == l.scopes && after.calls == l.calls
  {
  }

  /** A check changes nothing and answers as a reservation would. */
  lemma {:induction false} CheckDecides(l: Ledger, resource: string, amount: int, other: string)
    ensures var after := Mentioned(l, {resource});
            var d := Judged(l, resource, NonNegative(amount), Amount(l.used, resource));
            && (d.allowed <==> HasRoom(l, resource, AtLeastZero(amount))) && Reports(d, after, resource)
            && Moves(l, after, other, 0, 0) && after.scopes == l.scopes && after.calls == l.calls
  {
  }

  /** A record is charged whatever the limit, and says whether the usage is still within it. */
  lemma {:induction false} RecordDecides(l: Ledger, resource: string, amount: int, other: string)
    ensures var after := Recorded(l, resource, amount);
            var d := Judged(after, resource, 0, Amount(l.used, resource) + NonNegative(amount));
            && (d.allowed <==> HasRoom(after, resource, 0)) && Reports(d, after, resource)
            && Moves(l, after, resource, AtLeastZero(amount), 0)
            && (other != resource ==> Moves(l, after, other, 0, 0))
            && after.scopes == l.scopes && after.calls == l.calls
  {
  }

  ghost predicate AllHaveRoom(l: Ledger, costs: Amounts) {
    forall r | r in costs :: HasRoom(l, r, AtLeastZero(costs[r]))
  }

  lemma {:induction false} RoomIsFit(l: Ledger, costs: Amounts)
    ensures AllFit(l, Normalized(costs)) <==> AllHaveRoom(l, costs)
    ensures forall r | r in costs :: Fits(l, r, Normalized(costs)[r]) <==> HasRoom(l, r, AtLeastZero(costs[r]))
  {
    assert Normalized(costs).Keys == costs.Keys;
  }

  /** Several reservations at once are all charged when all have room; otherwise none is, and those without
      room are counted. Every decision reports its own part. */
  lemma {:induction false} ReserveManyDecides(l: Ledger, costs: Amounts, resource: string)
    ensures var all := AllHaveRoom(l, costs);
            var after := ReservedMany(l, costs);
            var ds := Judgements(l, Normalized(costs), AllFit(l, Normalized(costs)), costs.Keys);
            && ds.Keys == costs.Keys && after.scopes == l.scopes && after.calls == l.calls
            && (resource !in costs ==> Moves(l, after, resource, 0, 0))
            && (resource in costs ==>
                  var n := AtLeastZero(costs[resource]);
                  && (ds[resource].allowed <==> HasRoom(l, resource, n)) && Reports(ds[resource], after, resource)
                  && Moves(l, after, resource, if all then n else 0, if HasRoom(l, resource, n) then 0 else 1))
  {
    RoomIsFit(l, costs);
    ManyMoves(l, costs, resource);
    hide ReservedMany, AllFit, AllHaveRoom;
    if resource in costs { assert Amount(Normalized(costs), resource) == AtLeastZero(costs[resource]); }
  }

  lemma {:induction false} ManyMoves(l: Ledger, costs: Amounts, resource: string)
    ensures var after := ReservedMany(l, costs);
            && after.scopes == l.scopes && after.calls == l.calls
            && Moves(l, after, resource,
                     if AllFit(l, Normalized(costs)) && resource in costs then AtLeastZero(costs[resource]) else 0,
                     if resource in costs && !HasRoom(l, resource, AtLeastZero(costs[resource])) then 1 else 0)
  {
    hide ReservedMany, AllFit, Normalized, HasRoom;
    ManyFrame(l, costs);
    MentionedLimit(l, Normalized(costs).Keys, resource);
    ManyCharges(l, costs, resource);
    ManyRefuses(l, costs, resource);
  }

  lemma {:induction false} ManyCharges(l: Ledger, costs: Amounts, resource: string)
    ensures Amount(ReservedMany(l, costs).used, resource)
         == Amount(l.used, resource)
            + if AllFit(l, Normalized(costs)) && resource in costs then AtLeastZero(costs[resource]) else 0
  {
    hide AllFit, Refused;
  }

  lemma {:induction false} ManyRefuses(l: Ledger, costs: Amounts, resource: string)
    ensures Amount(ReservedMany(l, costs).rejected, resource)
         == Amount(l.rejected, resource)
            + if resource in costs && !HasRoom(l, resource, AtLeastZero(costs[resource])) then 1 else 0
  {
    RoomIsFit(l, costs);
    var n := Normalized(costs);
    if AllFit(l, n) {
      assert resource in costs ==> Fits(l, resource, n[resource]);
    } else {
      var refused := set r | r in n && !Fits(l, r, n[r]);
      assert resource in refused <==> resource in costs && !Fits(l, resource, n[resource]);
      RefusedAmount(Mentioned(l, n.Keys), refused, resource);
    }
    hide AllFit, AllHaveRoom, HasRoom, Fits, Refused, Normalized;
  }

  lemma {:induction false} RefusedAmount(l: Ledger, refused: set<string>, resource: string)
    ensures Amount(Refused(l, refused), resource) == Amount(l.rejected, resource) + if resource in refused then 1 else 0
  {
  }

  // ----- over every run

  /** The operation asks for the resource and finds no room for it; a scope that exists asks for nothing. */
  predicate Refuses(l: Ledger, op: Op, resource: string) {
    match op
    case Reserve(name, amount) => name == resource && !HasRoom(l, resource, AtLeastZero(amount))
    case ReserveMany(costs) => resource in costs && !HasRoom(l, resource, AtLeastZero(costs[resource]))
    case ReserveScope(key, costs) =>
      key !in l.scopes && resource in costs && !HasRoom(l, resource, AtLeastZero(costs[resource]))
    case ReserveCall(key, _, costs) =>
      key !in l.scopes && resource in costs && !HasRoom(l, resource, AtLeastZero(costs[resource]))
    case _ => false
  }

  function Refusals(l: Ledger, ops: seq<Op>, resource: string): nat {
    if ops == [] then 0
    else
      var before := ops[..|ops| - 1];
      Refusals(l, before, resource) + if Refuses(Run(l, before), ops[|ops| - 1], resource) then 1 else 0
  }

  lemma {:induction false} MergeRefusesNothing(l: Ledger, journal: Journal, purpose: string, count: nat)
    requires count <= |journal.calls|
    ensures Merged(l, journal, purpose, count).ledger.rejected == l.rejected
  {
    hide Skipped, JournalCosts, Reconciled;
    if count > 0 {
      MergeRefusesNothing(l, journal, purpose, count - 1);
      ReconcileRefusesNothing(Merged(l, journal, purpose, count - 1).ledger, journal.calls[count - 1].0,
                              JournalCosts(journal, count - 1));
    }
  }

  lemma {:induction false} ReconcileRefusesNothing(l: Ledger, key: string, costs: Amounts)
    ensures Reconciled(l, key, costs).rejected == l.rejected
  {
  }

  lemma {:induction false} StepCounts(l: Ledger, op: Op, resource: string)
    ensures Amount(Apply(l, op).rejected, resource)
         == Amount(l.rejected, resource) + if Refuses(l, op, resource) then 1 else 0
  {
    match op
    case Reserve(name, amount) => ReserveDecides(l, name, amount, resource);
    case ReserveMany(costs) => ManyMoves(l, costs, resource);
    case ReserveScope(key, costs) => ManyMoves(l, costs, resource);
    case ReserveCall(key, purpose, costs) => ManyMoves(l, costs, resource);
    case MergeCalls(journal, purpose) => MergeRefusesNothing(l, journal, purpose, |journal.calls|);
    case _ =>
  }

  /** Over every run the count of a resource is exactly the number of requests that found no room for it. */
  lemma {:induction false} RefusalsAreCounted(limits: Amounts, ops: seq<Op>, resource: string)
    ensures Amount(Run(Fresh(limits), ops).rejected, resource) == Refusals(Fresh(limits), ops, resource)
  {
    hide Apply, Refuses;
    if ops == [] {
      assert Amount(Fresh(limits).rejected, resource) == 0;
    } else {
      RefusalsAreCounted(limits, ops[..|ops| - 1], resource);
      StepCounts(Run(Fresh(limits), ops[..|ops| - 1]), ops[|ops| - 1], resource);
    }
  }

  /** No run changes a limit; a negative one counts as none. */
  lemma {:induction false} LimitsNeverChange(limits: Amounts, ops: seq<Op>, resource: string)
    ensures Amount(Run(Fresh(limits), ops).limits, resource) == AtLeastZero(Amount(limits, resource))
  {
    hide Apply;
    if ops == [] {
      assert Amount(Fresh(limits).limits, resource) == AtLeastZero(Amount(limits, resource));
    } else {
      LimitsNeverChange(limits, ops[..|ops| - 1], resource);
      LimitsFixed(Run(Fresh(limits), ops[..|ops| - 1]), ops[|ops| - 1], resource);
    }
  }
}
