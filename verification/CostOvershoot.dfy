/** How far model calls that run at once can pass the hard cost limit. */
module CostOvershoot {
  import opened Totals
  import opened BudgetLedger
  import opened BudgetLaws
  import opened BudgetBounds
  import opened ModelCalls
  import opened CallInterleavings

  // ----- what an operation does to the cost

  /** The operation charges the hard cost at most directly. */
  predicate SparesScopes(op: Op) {
    match op
    case ReserveScope(_, costs) => Amount(Normalized(costs), HARD_COST) == 0
    case ReconcileScope(_, costs) => Amount(Normalized(costs), HARD_COST) == 0
    case ReserveCall(_, _, costs) => Amount(Normalized(costs), HARD_COST) == 0
    case SettleCall(_, costs, _) => Amount(Normalized(costs), HARD_COST) == 0
    case MergeCalls(_, _) => false
    case _ => true
  }

  /** The operation does not charge the hard cost at all. */
  predicate SparesCost(op: Op) {
    && SparesScopes(op)
    && match op
       case Reserve(resource, _) => resource != HARD_COST
       case ReserveMany(costs) => Amount(Normalized(costs), HARD_COST) == 0
       case Record(resource, _) => resource != HARD_COST
       case _ => true
  }

  ghost predicate ScopesSpared(l: Ledger) {
    forall key | key in l.scopes :: Amount(l.scopes[key], HARD_COST) == 0
  }

  function Used(l: Ledger): int { Amount(l.used, HARD_COST) }

  lemma {:induction false} ScopeSpared(l: Ledger, key: string)
    requires ScopesSpared(l)
    ensures Amount(Scope(l, key), HARD_COST) == 0
  {
  }

  lemma {:induction false} OpCharges(l: Ledger, op: Op)
    requires ScopesSpared(l) && SparesScopes(op) && 0 <= Used(l)
    ensures ScopesSpared(Apply(l, op))
    ensures Used(Apply(l, op)) == Used(l) + Amount(Direct(l, op), HARD_COST)
  {
    hide *;
    match op
    case ReserveScope(_, _) => ReservationSpares(l, op);
    case ReserveCall(_, _, _) => ReservationSpares(l, op);
    case ReconcileScope(_, _) => SettlementSpares(l, op);
    case SettleCall(_, _, _) => SettlementSpares(l, op);
    case MergeCalls(_, _) => OpKinds(op);
    case _ => OpKinds(op); DirectSpares(l, op);
  }

  lemma {:induction false} OpKinds(op: Op)
    ensures SparesScopes(op) ==> !op.MergeCalls?
    ensures op.Reserve? || op.ReserveMany? || op.Check? || op.Record? ==> Quiet(op)
  {
  }

  lemma {:induction false} DirectSpares(l: Ledger, op: Op)
    requires ScopesSpared(l) && Quiet(op)
    ensures ScopesSpared(Apply(l, op))
    ensures Used(Apply(l, op)) == Used(l) + Amount(Direct(l, op), HARD_COST)
  {
    QuietFrame(l, op);
    hide AllFit, ReservedMany, Reserved, Recorded, Mentioned, Amount, Normalized;
    match op
    case Reserve(name, amount) => ReserveExplained(l, name, amount, HARD_COST);
    case ReserveMany(costs) => ManyExplained(l, costs, HARD_COST); NothingIn(HARD_COST);
    case Check(name) => RecordExplained(l, name, 0, HARD_COST); NothingIn(HARD_COST);
    case Record(name, amount) => RecordExplained(l, name, amount, HARD_COST);
  }

  lemma {:induction false} ReservationSpares(l: Ledger, op: Op)
    requires ScopesSpared(l) && SparesScopes(op) && (op.ReserveScope? || op.ReserveCall?)
    ensures ScopesSpared(Apply(l, op))
    ensures Used(Apply(l, op)) == Used(l) + Amount(Direct(l, op), HARD_COST)
  {
    hide AllFit, ReservedMany, Amount, Normalized, Apply, ScopesSpared, Direct;
    NothingIn(HARD_COST);
    ManyExplained(l, op.costs, HARD_COST);
    ReservationIs(l, op);
  }

  /** A reservation charges its costs, which hold no cost in money, and records them as the scope. */
  lemma {:induction false} ReservationIs(l: Ledger, op: Op)
    requires SparesScopes(op) && (op.ReserveScope? || op.ReserveCall?) && ScopesSpared(l)
    requires ReservedMany(l, op.costs).scopes == l.scopes
    requires Used(ReservedMany(l, op.costs)) == Used(l)
    ensures ScopesSpared(Apply(l, op)) && Used(Apply(l, op)) == Used(l) && Direct(l, op) == map[]
  {
    hide AllFit, ReservedMany, Amount, Normalized;
  }

  lemma {:induction false} SettlementSpares(l: Ledger, op: Op)
    requires ScopesSpared(l) && SparesScopes(op) && (op.ReconcileScope? || op.SettleCall?) && 0 <= Used(l)
    ensures ScopesSpared(Apply(l, op))
    ensures Used(Apply(l, op)) == Used(l) + Amount(Direct(l, op), HARD_COST)
  {
    NothingIn(HARD_COST);
    ScopeSpared(l, op.key);
    ReconciledUsage(l, op.key, op.costs, HARD_COST);
    ReconciledScopes(l, op.key, op.costs);
    hide Reconciled, Amount, Normalized, Scope;
  }

  // ----- the calls in flight

  /** The call may still charge: it has passed the cost check and has not been billed. */
  predicate InFlight(stage: Stage) { stage.Checked? || stage.Held? || stage.Paid? }

  /** What one call may still charge. */
  function Exposed(call: Call, stage: Stage, estimate: Estimate): nat {
    if InFlight(stage) then CostOf(call, estimate) else 0
  }

  /** What the first `n` calls may still charge. */
  function Exposure(calls: seq<Call>, stages: seq<Stage>, estimate: Estimate, n: nat): nat
    requires n <= |calls| == |stages|
  {
    if n == 0 then 0
    else Exposure(calls, stages, estimate, n - 1) + Exposed(calls[n - 1], stages[n - 1], estimate)
  }

  lemma {:induction false} ExposureMoves(calls: seq<Call>, stages: seq<Stage>, estimate: Estimate, n: nat, i: nat,
                                         stage: Stage)
    requires n <= |calls| == |stages| && i < |calls|
    ensures Exposure(calls, stages[i := stage], estimate, n)
         == Exposure(calls, stages, estimate, n)
            + if i < n then Exposed(calls[i], stage, estimate) - Exposed(calls[i], stages[i], estimate) else 0
  {
    hide Exposed;
    if n > 0 { ExposureMoves(calls, stages, estimate, n - 1, i, stage); }
  }

  /** A move charges what it takes out of the exposure; only passing the check adds to it, and that happens
      within the limit. */
  lemma {:induction false} MoveCharges(l: Ledger, call: Call, stage: Stage, estimate: Estimate)
    ensures var (ops, next) := CallStep(l, call, stage, estimate);
            && (ops != [] ==> ops == [ops[0]] && SparesScopes(ops[0]))
            && (InFlight(next) && !InFlight(stage) ==>
                  Fits(l, HARD_COST, 0) && ops == [Check(HARD_COST)])
            && (!(InFlight(next) && !InFlight(stage)) ==>
                  (if ops == [] then 0 else Amount(Direct(l, ops[0]), HARD_COST)) + Exposed(call, next, estimate)
                  <= Exposed(call, stage, estimate))
            && (ops != [] ==> 0 <= Amount(Direct(l, ops[0]), HARD_COST))
  {
    hide Fits, ScopeAdmitted, CallCosts, Normalized, Settled;
    if Guard(call).None? {
      match stage
      case Ready =>
      case Checked => CostFree(call.input, call.output);
      case Held =>
        if call.outcome.Answered? {
          var settled := Settled(call, call.outcome.usage);
          CostFree(settled.input, settled.output);
        }
      case Paid =>
      case Billed =>
      case Ended(_) =>
    }
  }

  // ----- every interleaving

  predicate Spares(event: Event) { event.Other? ==> SparesCost(event.op) }

  /** At every moment so far the calls in flight could charge at most `room`. */
  ghost predicate Roomy(start: Ledger, calls: seq<Call>, estimate: Estimate, events: seq<Event>, room: nat) {
    forall k: nat | k <= |events| ::
      Exposure(calls, Interleaved(start, calls, estimate, events[..k]).stages, estimate, |calls|) <= room
  }

  ghost predicate Bounded(limits: Amounts, calls: seq<Call>, estimate: Estimate, t: Trace, room: nat)
    requires |t.stages| == |calls|
  {
    var l := Run(Fresh(limits), t.log);
    && ScopesSpared(l) && 0 <= Used(l)
    && Used(l) + Exposure(calls, t.stages, estimate, |calls|) <= Amount(limits, HARD_COST) + room
  }

  lemma {:induction false} StartsBounded(limits: Amounts, calls: seq<Call>, estimate: Estimate, room: nat)
    requires 0 < Amount(limits, HARD_COST)
    ensures Bounded(limits, calls, estimate, Interleaved(Fresh(limits), calls, estimate, []), room)
  {
    NothingExposed(calls, estimate, |calls|);
    FreshAmounts(limits, HARD_COST);
    hide Exposure;
  }

  lemma {:induction false} NothingExposed(calls: seq<Call>, estimate: Estimate, n: nat)
    requires n <= |calls|
    ensures Exposure(calls, seq(|calls|, i => Ready), estimate, n) == 0
  {
    if n > 0 { NothingExposed(calls, estimate, n - 1); }
  }

  lemma {:induction false} MoveStaysBounded(limits: Amounts, calls: seq<Call>, estimate: Estimate, t: Trace, i: nat,
                                            room: nat)
    requires |t.stages| == |calls| && i < |calls| && 0 < Amount(limits, HARD_COST)
    requires Bounded(limits, calls, estimate, t, room)
    requires Exposure(calls, After(Fresh(limits), calls, estimate, t, Moves(i)).stages, estimate, |calls|) <= room
    ensures Bounded(limits, calls, estimate, After(Fresh(limits), calls, estimate, t, Moves(i)), room)
  {
    var l := Run(Fresh(limits), t.log);
    var (ops, next) := CallStep(l, calls[i], t.stages[i], estimate);
    MoveCharges(l, calls[i], t.stages[i], estimate);
    ExposureMoves(calls, t.stages, estimate, |calls|, i, next);
    LimitsOfRun(Fresh(limits), t.log, HARD_COST);
    FreshLimit(limits, HARD_COST);
    hide CallStep, Run, Fresh, Exposure, Exposed, Apply, Direct, SparesScopes, ScopesSpared, InFlight, Amount;
    if ops == [] {
      assert t.log + [] == t.log;
    } else {
      RunOne(Fresh(limits), t.log, ops[0]);
      OpCharges(l, ops[0]);
      if ops[0] == Check(HARD_COST) { CheckIsFree(l); }
    }
  }

  lemma {:induction false} CheckIsFree(l: Ledger)
    ensures Amount(Direct(l, Check(HARD_COST)), HARD_COST) == 0
  {
  }

  lemma {:induction false} OtherStaysBounded(limits: Amounts, calls: seq<Call>, estimate: Estimate, t: Trace, op: Op,
                                             room: nat)
    requires |t.stages| == |calls| && Bounded(limits, calls, estimate, t, room) && SparesCost(op)
    ensures Bounded(limits, calls, estimate, After(Fresh(limits), calls, estimate, t, Other(op)), room)
  {
    var l := Run(Fresh(limits), t.log);
    OpCharges(l, op);
    SparedDirect(l, op);
    RunOne(Fresh(limits), t.log, op);
    hide Run, Fresh, Exposure, Apply, Direct, SparesCost, ScopesSpared, Amount;
  }

  lemma {:induction false} SparedDirect(l: Ledger, op: Op)
    requires SparesCost(op)
    ensures Amount(Direct(l, op), HARD_COST) == 0
  {
    hide Normalized, Fits, AllFit;
  }

  lemma {:induction false} RunStaysBounded(limits: Amounts, calls: seq<Call>, estimate: Estimate, events: seq<Event>,
                                           room: nat)
    requires 0 < Amount(limits, HARD_COST) && (forall event | event in events :: Spares(event))
    requires Roomy(Fresh(limits), calls, estimate, events, room)
    ensures Bounded(limits, calls, estimate, Interleaved(Fresh(limits), calls, estimate, events), room)
  {
    if events == [] {
      StartsBounded(limits, calls, estimate, room);
    } else {
      var before, last := events[..|events| - 1], events[|events| - 1];
      RoomyBefore(Fresh(limits), calls, estimate, events, room);
      RunStaysBounded(limits, calls, estimate, before, room);
      hide Bounded, Exposure, Fresh, Roomy, SparesCost;
      var t := Interleaved(Fresh(limits), calls, estimate, before);
      assert Spares(last);
      match last
      case Moves(i) => if i < |calls| { MoveStaysBounded(limits, calls, estimate, t, i, room); }
      case Other(op) => OtherStaysBounded(limits, calls, estimate, t, op, room);
    }
  }

  lemma {:induction false} RoomyBefore(start: Ledger, calls: seq<Call>, estimate: Estimate, events: seq<Event>,
                                       room: nat)
    requires events != [] && Roomy(start, calls, estimate, events, room)
    ensures Roomy(start, calls, estimate, events[..|events| - 1], room)
    ensures Exposure(calls, Interleaved(start, calls, estimate, events).stages, estimate, |calls|) <= room
  {
    hide Interleaved, Exposure;
    var n := |events|;
    assert events[..n] == events;
    var before := events[..n - 1];
    forall k: nat | k <= |before|
      ensures Exposure(calls, Interleaved(start, calls, estimate, before[..k]).stages, estimate, |calls|) <= room
    {
      assert before[..k] == events[..k];
    }
  }

  /** However calls interleave, with each other and with anything that leaves the hard cost alone, usage
      passes a positive hard cost limit by at most what the calls in flight at some moment could charge. */
  lemma {:induction false} OvershootByCallsInFlight(limits: Amounts, calls: seq<Call>, estimate: Estimate,
                                                    events: seq<Event>, room: nat)
    requires 0 < Amount(limits, HARD_COST) && (forall event | event in events :: Spares(event))
    requires Roomy(Fresh(limits), calls, estimate, events, room)
    ensures var l := Run(Fresh(limits), Interleaved(Fresh(limits), calls, estimate, events).log);
            0 <= Amount(l.used, HARD_COST) <= Amount(limits, HARD_COST) + room
  {
    RunStaysBounded(limits, calls, estimate, events, room);
    hide Run, Interleaved, Exposure, Fresh, Amount;
  }

  lemma {:induction false} ExposureWithin(calls: seq<Call>, stages: seq<Stage>, estimate: Estimate, n: nat, most: nat)
    requires n <= |calls| == |stages| && forall call | call in calls :: CostOf(call, estimate) <= most
    ensures Exposure(calls, stages, estimate, n) <= n * most
  {
    hide CostOf;
    if n > 0 {
      ExposureWithin(calls, stages, estimate, n - 1, most);
      assert calls[n - 1] in calls;
      assert n * most == (n - 1) * most + most;
    }
  }

  /** So calls that all run at once pass it by at most one cost each. */
  lemma {:induction false} OvershootByAllCalls(limits: Amounts, calls: seq<Call>, estimate: Estimate,
                                               events: seq<Event>, most: nat)
    requires 0 < Amount(limits, HARD_COST) && (forall event | event in events :: Spares(event))
    requires forall call | call in calls :: CostOf(call, estimate) <= most
    ensures var l := Run(Fresh(limits), Interleaved(Fresh(limits), calls, estimate, events).log);
            Amount(l.used, HARD_COST) <= Amount(limits, HARD_COST) + |calls| * most
  {
    hide *;
    RoomForAll(Fresh(limits), calls, estimate, events, most);
    OvershootByCallsInFlight(limits, calls, estimate, events, |calls| * most);
  }

  lemma {:induction false} RoomForAll(start: Ledger, calls: seq<Call>, estimate: Estimate, events: seq<Event>,
                                      most: nat)
    requires forall call | call in calls :: CostOf(call, estimate) <= most
    ensures Roomy(start, calls, estimate, events, |calls| * most)
  {
    hide Interleaved, Exposure, CostOf;
    var room := |calls| * most;
    forall k: nat | k <= |events|
      ensures Exposure(calls, Interleaved(start, calls, estimate, events[..k]).stages, estimate, |calls|) <= room
    {
      ExposureWithin(calls, Interleaved(start, calls, estimate, events[..k]).stages, estimate, |calls|, most);
    }
  }
}
