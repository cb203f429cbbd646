/** One model call: reserve, dispatch, settle, charge its cost. */
module ModelCalls {
  import opened Results
  import opened Sequences
  import opened Totals
  import opened BudgetLedger
  import opened BudgetLaws
  import opened BudgetBounds
  import opened BudgetManager

  const HARD_COST := "hard_cost_limit_usd"
  const SOFT_COST := "soft_cost_limit_usd"

  datatype Usage = Usage(input: nat, output: nat)

  /** What the dispatch comes back with: an exception, or an answer whose usage may be unknown. */
  datatype Outcome = Interrupted | Answered(usage: Option<Usage>)

  datatype Call = Call(key: string, purpose: string, input: int, output: int, inputLimit: Option<int>,
                       stopped: bool, outcome: Outcome)

  datatype CallError = InvalidPurpose | InvalidReservation | WindowExceeded | Stopped | CostExhausted
                     | BudgetExceeded | Unanswered

  /** The price of an answer; zero or less when the model has no known price. */
  type Estimate = Usage -> int

  function Guard(call: Call): Option<CallError> {
    if call.purpose == "" then Some(InvalidPurpose)
    else if call.input < 0 || call.output <= 0 then Some(InvalidReservation)
    else if call.inputLimit.Some? && call.inputLimit.value < call.input then Some(WindowExceeded)
    else if call.stopped then Some(Stopped)
    else None
  }

  /** What is settled: the reported usage, or the reservation when none is known. */
  function Settled(call: Call, reported: Option<Usage>): Usage
    requires Guard(call).None?
  {
    if reported.Some? then reported.value else Usage(call.input, call.output)
  }

  function CostOps(cost: int): seq<Op> {
    if cost <= 0 then [] else [Record(HARD_COST, cost), Record(SOFT_COST, cost)]
  }

  function SettleOp(call: Call, reported: Option<Usage>): Op
    requires Guard(call).None?
  {
    SettleCall(call.key, CallCosts(Settled(call, reported).input, Settled(call, reported).output),
               if reported.Some? then "actual" else "estimated")
  }

  function AnswerOps(call: Call, estimate: Estimate): seq<Op>
    requires Guard(call).None?
  {
    match call.outcome
    case Interrupted => []
    case Answered(reported) => [SettleOp(call, reported)] + CostOps(estimate(Settled(call, reported)))
  }

  function Reservation(call: Call): Op
    requires Guard(call).None?
  {
    ReserveCall(call.key, call.purpose, CallCosts(call.input, call.output))
  }

  /** The ledger operations of one call, in order. */
  function CallOps(l: Ledger, call: Call, estimate: Estimate): seq<Op> {
    if Guard(call).Some? then []
    else if !Fits(l, HARD_COST, 0) then [Check(HARD_COST)]
    else
      var reserved := Reservation(call);
      if !ScopeAdmitted(Apply(l, Check(HARD_COST)), call.key, reserved.costs) then [Check(HARD_COST), reserved]
      else [Check(HARD_COST), reserved] + AnswerOps(call, estimate)
  }

  function CallResult(l: Ledger, call: Call): Result<(), CallError> {
    if Guard(call).Some? then Err(Guard(call).value)
    else if !Fits(l, HARD_COST, 0) then Err(CostExhausted)
    else if !ScopeAdmitted(Apply(l, Check(HARD_COST)), call.key, Reservation(call).costs) then Err(BudgetExceeded)
    else if call.outcome.Interrupted? then Err(Unanswered)
    else Ok(())
  }

  lemma {:induction false} RunOne(l: Ledger, ops: seq<Op>, op: Op)
    ensures Run(l, ops + [op]) == Apply(Run(l, ops), op)
  {
    assert (ops + [op])[..|ops|] == ops;
  }

  method AccumulateCost(budget: BudgetManager, cost: int)
    modifies budget
    ensures budget.View() == Run(old(budget.View()), CostOps(cost))
  {
    hide Recorded;
    ghost var l := budget.View();
    assert Run(l, []) == l;
    if cost <= 0 { return; }
    var _ := budget.Record(HARD_COST, cost);
    RunOne(l, [], Record(HARD_COST, cost));
    var _ := budget.Record(SOFT_COST, cost);
    RunOne(l, [Record(HARD_COST, cost)], Record(SOFT_COST, cost));
    assert [] + [Record(HARD_COST, cost)] == [Record(HARD_COST, cost)];
    assert [Record(HARD_COST, cost)] + [Record(SOFT_COST, cost)] == CostOps(cost);
  }

  method SettleAnswer(budget: BudgetManager, call: Call, reported: Option<Usage>, estimate: Estimate)
    requires Guard(call).None? && call.outcome == Answered(reported) && call.key in budget.calls
    modifies budget
    ensures budget.View() == Run(old(budget.View()), AnswerOps(call, estimate))
  {
    hide SettledCall, CostOps, CallCosts, Settled, Guard, Run;
    ghost var l := budget.View();
    var settled := Settled(call, reported);
    var known := budget.SettleModelCall(call.key, CallCosts(settled.input, settled.output),
                                        if reported.Some? then "actual" else "estimated");
    assert known;
    AccumulateCost(budget, estimate(settled));
    AnswerRuns(l, call, reported, estimate);
  }

  lemma {:induction false} AnswerRuns(l: Ledger, call: Call, reported: Option<Usage>, estimate: Estimate)
    requires Guard(call).None? && call.outcome == Answered(reported)
    ensures Run(l, AnswerOps(call, estimate))
            == Run(Apply(l, SettleOp(call, reported)), CostOps(estimate(Settled(call, reported))))
  {
    var settle := SettleOp(call, reported);
    assert Run(l, []) == l;
    RunOne(l, [], settle);
    assert [] + [settle] == [settle];
    hide Run, CostOps, SettleOp, Apply, Settled, Guard;
    RunConcat(l, [settle], CostOps(estimate(Settled(call, reported))));
  }

  lemma {:induction false} AdmittedIsKnown(l: Ledger, key: string, purpose: string, costs: Amounts)
    requires ScopeAdmitted(l, key, costs)
    ensures key in ReservedCall(l, key, purpose, costs).calls
  {
    hide ReservedScope;
  }

  /** Reservations survive unknown or interrupted calls: only an answer settles them, and then the
      call is always known. */
  method InvokeModelCall(budget: BudgetManager, call: Call, estimate: Estimate) returns (r: Result<(), CallError>)
    modifies budget
    ensures budget.View() == Run(old(budget.View()), CallOps(old(budget.View()), call, estimate))
    ensures r == CallResult(old(budget.View()), call)
    ensures ResultFits(old(budget.View()), call, r)
    ensures call.key !in old(budget.scopes) ==> BillFits(old(budget.View()), budget.View(), call, r, estimate)
  {
    hide ReservedCall, ScopeAdmitted, SettledCall, Mentioned, Fits, CostOps, AnswerOps, CallCosts, ResultFits, BillFits,
         Run;
    ghost var l := budget.View();
    CallFits(l, call, estimate);
    RunNone(l);
    if call.purpose == "" { return Err(InvalidPurpose); }
    if call.input < 0 || call.output <= 0 { return Err(InvalidReservation); }
    if call.inputLimit.Some? && call.inputLimit.value < call.input { return Err(WindowExceeded); }
    if call.stopped { return Err(Stopped); }
    var decision := budget.Check(HARD_COST, 0);
    RunOne(l, [], Check(HARD_COST));
    assert [] + [Check(HARD_COST)] == [Check(HARD_COST)];
    if !decision.allowed { return Err(CostExhausted); }
    ghost var seen := budget.View();
    var ok := budget.ReserveModelCall(call.key, call.purpose, CallCosts(call.input, call.output));
    RunOne(l, [Check(HARD_COST)], Reservation(call));
    ghost var before := [Check(HARD_COST)] + [Reservation(call)];
    assert before == [Check(HARD_COST), Reservation(call)];
    if !ok { return Err(BudgetExceeded); }
    AdmittedIsKnown(seen, call.key, call.purpose, CallCosts(call.input, call.output));
    match call.outcome
    case Interrupted =>
      NothingAnswered(call, estimate);
      assert before + [] == before;
      return Err(Unanswered);
    case Answered(reported) =>
      SettleAnswer(budget, call, reported, estimate);
      RunConcat(l, before, AnswerOps(call, estimate));
      return Ok(());
  }

  lemma {:induction false} NothingAnswered(call: Call, estimate: Estimate)
    requires Guard(call).None? && call.outcome.Interrupted?
    ensures AnswerOps(call, estimate) == []
  {
  }

  // ----- what a call does to the bounds

  lemma {:induction false} IsCosts(input: nat, output: nat)
    ensures IsCallCosts(CallCosts(input, output)) && Balanced(Normalized(CallCosts(input, output)))
  {
    CallCostsBalanced(CallCosts(input, output));
  }

  lemma {:induction false} AnswerIsDispatched(l: Ledger, ops: seq<Op>, call: Call, estimate: Estimate)
    requires Guard(call).None? && DispatchRun(l, ops) && call.key in Run(l, ops).calls
    ensures DispatchRun(l, ops + AnswerOps(call, estimate))
    ensures forall op | op in AnswerOps(call, estimate) :: BalancedOp(op)
  {
    hide *;
    if call.outcome.Interrupted? {
      NothingAnswered(call, estimate);
      assert ops + [] == ops;
    } else {
      var reported := call.outcome.usage;
      var settle, cost := SettleOp(call, reported), estimate(Settled(call, reported));
      AnswerOpsAre(call, reported, estimate);
      SettleIsDispatched(Run(l, ops), call, reported);
      DispatchSnoc(l, ops, settle);
      CostIsDispatched(l, ops + [settle], cost);
      Reassociate(ops, [settle], CostOps(cost));
    }
  }

  lemma {:induction false} AnswerOpsAre(call: Call, reported: Option<Usage>, estimate: Estimate)
    requires Guard(call).None? && call.outcome == Answered(reported)
    ensures AnswerOps(call, estimate) == [SettleOp(call, reported)] + CostOps(estimate(Settled(call, reported)))
  {
    hide SettleOp, CostOps, Settled;
  }

  lemma {:induction false} SettleIsDispatched(l: Ledger, call: Call, reported: Option<Usage>)
    requires Guard(call).None? && call.key in l.calls
    ensures Dispatched(l, SettleOp(call, reported)) && BalancedOp(SettleOp(call, reported))
  {
    IsCosts(Settled(call, reported).input, Settled(call, reported).output);
    hide IsCallCosts, CallCosts, Balanced, Normalized, Settled;
  }

  lemma {:induction false} ReservationIsDispatched(l: Ledger, call: Call)
    requires Guard(call).None? && call.key !in l.scopes
    ensures var ops := [Check(HARD_COST), Reservation(call)];
            && DispatchRun(l, ops) && BalancedOp(Reservation(call))
            && (ScopeAdmitted(Apply(l, Check(HARD_COST)), call.key, Reservation(call).costs)
                ==> call.key in Run(l, ops).calls)
  {
    CheckIsDispatched(l);
    QuietFrame(l, Check(HARD_COST));
    IsCosts(call.input, call.output);
    hide Mentioned, ReservedScope, ScopeAdmitted, IsCallCosts, CallCosts, Balanced, Normalized, DispatchRun, Run,
         ReservedCall;
    var seen := Apply(l, Check(HARD_COST));
    DispatchSnoc(l, [Check(HARD_COST)], Reservation(call));
    assert [Check(HARD_COST)] + [Reservation(call)] == [Check(HARD_COST), Reservation(call)];
    if ScopeAdmitted(seen, call.key, Reservation(call).costs) {
      AdmittedIsKnown(seen, call.key, call.purpose, Reservation(call).costs);
    }
  }

  lemma {:induction false} CheckIsDispatched(l: Ledger)
    ensures DispatchRun(l, [Check(HARD_COST)]) && Run(l, [Check(HARD_COST)]) == Apply(l, Check(HARD_COST))
  {
    hide Apply;
    assert [Check(HARD_COST)][..0] == [];
  }

  /** A call under a new key keeps to the discipline the call bounds are stated for. */
  lemma {:induction false} CallsAreDispatched(l: Ledger, call: Call, estimate: Estimate)
    requires call.key !in l.scopes
    ensures DispatchRun(l, CallOps(l, call, estimate))
    ensures forall op | op in CallOps(l, call, estimate) :: BalancedOp(op)
  {
    if Guard(call).None? {
      CheckIsDispatched(l);
      ReservationIsDispatched(l, call);
      hide Fits, ScopeAdmitted, Apply, Run, DispatchRun, AnswerOps;
      var ops := [Check(HARD_COST), Reservation(call)];
      if Fits(l, HARD_COST, 0) && ScopeAdmitted(Apply(l, Check(HARD_COST)), call.key, Reservation(call).costs) {
        AnswerIsDispatched(l, ops, call, estimate);
      }
    }
  }

  lemma {:induction false} DispatchSnoc(l: Ledger, ops: seq<Op>, op: Op)
    requires DispatchRun(l, ops) && Dispatched(Run(l, ops), op)
    ensures DispatchRun(l, ops + [op]) && Run(l, ops + [op]) == Apply(Run(l, ops), op)
  {
    hide Dispatched, Apply;
    assert (ops + [op])[..|ops|] == ops;
  }

  /** Records are always in order and never touch the token counts. */
  lemma {:induction false} RecordsAreDispatched(l: Ledger, ops: seq<Op>, a: Op, b: Op)
    requires DispatchRun(l, ops) && a.Record? && b.Record?
    ensures DispatchRun(l, ops + [a, b])
  {
    hide DispatchRun, Run, Apply;
    DispatchSnoc(l, ops, a);
    DispatchSnoc(l, ops + [a], b);
    assert ops + [a] + [b] == ops + [a, b];
  }

  lemma {:induction false} CostOpsAre(cost: int)
    ensures cost <= 0 ==> CostOps(cost) == []
    ensures cost > 0 ==> CostOps(cost) == [Record(HARD_COST, cost), Record(SOFT_COST, cost)]
    ensures forall op | op in CostOps(cost) :: BalancedOp(op)
  {
  }

  lemma {:induction false} CostIsDispatched(l: Ledger, ops: seq<Op>, cost: int)
    requires DispatchRun(l, ops)
    ensures DispatchRun(l, ops + CostOps(cost))
    ensures forall op | op in CostOps(cost) :: BalancedOp(op)
  {
    hide *;
    CostOpsAre(cost);
    if cost <= 0 {
      assert ops + [] == ops;
    } else {
      RecordsAreDispatched(l, ops, CostOps(cost)[0], CostOps(cost)[1]);
    }
  }

  // ----- the hard cost limit

  /** Calls made one after another. */
  function Invoked(l: Ledger, calls: seq<Call>, estimate: Estimate): Ledger {
    if calls == [] then l
    else
      var before := Invoked(l, calls[..|calls| - 1], estimate);
      Run(before, CallOps(before, calls[|calls| - 1], estimate))
  }

  /** What the call is charged in the end. */
  function CostOf(call: Call, estimate: Estimate): nat {
    if Guard(call).Some? || call.outcome.Interrupted? then 0
    else NonNegative(estimate(Settled(call, call.outcome.usage)))
  }

  lemma {:induction false} CostFree(input: nat, output: nat)
    ensures Amount(Normalized(CallCosts(input, output)), HARD_COST) == 0
  {
  }

  lemma {:induction false} ReserveCharges(l: Ledger, key: string, purpose: string, costs: Amounts)
    requires key !in l.scopes && Amount(Normalized(costs), HARD_COST) == 0
    ensures Amount(ReservedCall(l, key, purpose, costs).used, HARD_COST) == Amount(l.used, HARD_COST)
    ensures Amount(Scope(ReservedCall(l, key, purpose, costs), key), HARD_COST) == 0
  {
    NothingIn(HARD_COST);
    hide AllFit, Normalized, ReservedMany, Amount;
    ManyExplained(l, costs, HARD_COST);
  }

  lemma {:induction false} ReservationCharges(l: Ledger, call: Call)
    requires Guard(call).None? && call.key !in l.scopes
    ensures var after := Run(l, [Check(HARD_COST), Reservation(call)]);
            && Amount(after.used, HARD_COST) == Amount(l.used, HARD_COST)
            && Amount(Scope(after, call.key), HARD_COST) == 0
  {
    hide CallCosts, Normalized, Run, ReservedCall, Amount, Scope, Mentioned;
    CheckIsDispatched(l);
    QuietFrame(l, Check(HARD_COST));
    RecordExplained(l, HARD_COST, 0, HARD_COST);
    CostFree(call.input, call.output);
    RunOne(l, [Check(HARD_COST)], Reservation(call));
    assert [Check(HARD_COST)] + [Reservation(call)] == [Check(HARD_COST), Reservation(call)];
    ReserveCharges(Apply(l, Check(HARD_COST)), call.key, call.purpose, CallCosts(call.input, call.output));
  }

  lemma {:induction false} NothingIn(resource: string)
    ensures Amount(map[], resource) == 0
  {
  }

  lemma {:induction false} RunTwo(l: Ledger, a: Op, b: Op)
    ensures Run(l, [a, b]) == Apply(Apply(l, a), b) && Run(l, []) == l
  {
    hide Apply;
    RunOne(l, [], a);
    RunOne(l, [a], b);
    assert [] + [a] == [a] && [a] + [b] == [a, b];
  }

  lemma {:induction false} RecordsCharge(l: Ledger, cost: int)
    ensures Amount(Run(l, CostOps(cost)).used, HARD_COST) == Amount(l.used, HARD_COST) + NonNegative(cost)
  {
    RunTwo(l, Record(HARD_COST, cost), Record(SOFT_COST, cost));
    CostOpsAre(cost);
    ChargedTwice(l, cost);
    hide Run, Recorded, Amount, CostOps;
  }

  lemma {:induction false} ChargedTwice(l: Ledger, cost: int)
    ensures Amount(Recorded(Recorded(l, HARD_COST, cost), SOFT_COST, cost).used, HARD_COST)
         == Amount(l.used, HARD_COST) + NonNegative(cost)
  {
    RecordExplained(l, HARD_COST, cost, HARD_COST);
    RecordExplained(Recorded(l, HARD_COST, cost), SOFT_COST, cost, HARD_COST);
    hide Recorded;
  }

  lemma {:induction false} AnswerCharges(l: Ledger, call: Call, estimate: Estimate)
    requires Guard(call).None? && call.outcome.Answered?
    requires 0 <= Amount(l.used, HARD_COST) && Amount(Scope(l, call.key), HARD_COST) == 0
    ensures Amount(Run(l, AnswerOps(call, estimate)).used, HARD_COST)
            == Amount(l.used, HARD_COST) + CostOf(call, estimate)
  {
    var reported := call.outcome.usage;
    SettleCharges(l, call, reported);
    AnswerRuns(l, call, reported, estimate);
    hide Run, CostOps, SettleOp, Apply, Settled, Guard, Amount, AnswerOps;
    RecordsCharge(Apply(l, SettleOp(call, reported)), estimate(Settled(call, reported)));
  }

  lemma {:induction false} SettleCharges(l: Ledger, call: Call, reported: Option<Usage>)
    requires Guard(call).None? && 0 <= Amount(l.used, HARD_COST) && Amount(Scope(l, call.key), HARD_COST) == 0
    ensures Amount(Apply(l, SettleOp(call, reported)).used, HARD_COST) == Amount(l.used, HARD_COST)
  {
    hide CallCosts, Scope, Reconciled, Normalized, Amount, Settled, Guard;
    var settled := Settled(call, reported);
    CostFree(settled.input, settled.output);
    ReconciledUsage(l, call.key, CallCosts(settled.input, settled.output), HARD_COST);
  }

  /** A call charges its cost exactly when it is answered, and is only made within the limit. */
  lemma {:induction false} CallCharges(l: Ledger, call: Call, estimate: Estimate)
    requires call.key !in l.scopes && 0 <= Amount(l.used, HARD_COST)
    ensures Amount(Run(l, CallOps(l, call, estimate)).used, HARD_COST)
         == Amount(l.used, HARD_COST) + if CallResult(l, call).Ok? then CostOf(call, estimate) else 0
    ensures CallResult(l, call).Ok? ==> Fits(l, HARD_COST, 0)
  {
    assert Run(l, []) == l;
    if Guard(call).None? {
      hide Run, AnswerOps, CostOf, Fits, ScopeAdmitted, Reservation, Apply, Amount, Scope, Guard;
      CheckCharges(l);
      ReservationCharges(l, call);
      AfterReservation(l, call, estimate);
    }
  }

  lemma {:induction false} CheckCharges(l: Ledger)
    ensures Amount(Run(l, [Check(HARD_COST)]).used, HARD_COST) == Amount(l.used, HARD_COST)
  {
    hide Mentioned, Run, Amount;
    CheckIsDispatched(l);
    RecordExplained(l, HARD_COST, 0, HARD_COST);
  }

  lemma {:induction false} AfterReservation(l: Ledger, call: Call, estimate: Estimate)
    requires Guard(call).None? && 0 <= Amount(l.used, HARD_COST)
    requires var reserved := Run(l, [Check(HARD_COST), Reservation(call)]);
             Amount(reserved.used, HARD_COST) == Amount(l.used, HARD_COST)
               && Amount(Scope(reserved, call.key), HARD_COST) == 0
    ensures Amount(Run(l, [Check(HARD_COST), Reservation(call)] + AnswerOps(call, estimate)).used, HARD_COST)
         == Amount(l.used, HARD_COST) + CostOf(call, estimate)
  {
    var ops := [Check(HARD_COST), Reservation(call)];
    if call.outcome.Interrupted? {
      NothingAnswered(call, estimate);
      assert ops + [] == ops;
    } else {
      hide Run, AnswerOps, Amount, Scope, Reservation, CostOf, Guard;
      RunConcat(l, ops, AnswerOps(call, estimate));
      AnswerCharges(Run(l, ops), call, estimate);
    }
  }

  /** Every call of the sequence uses a new key. */
  predicate FreshKeys(l: Ledger, calls: seq<Call>, estimate: Estimate) {
    calls != [] ==>
      && FreshKeys(l, calls[..|calls| - 1], estimate)
      && calls[|calls| - 1].key !in Invoked(l, calls[..|calls| - 1], estimate).scopes
  }

  /** Calls made one after another pass a positive hard cost limit by at most one call's cost. */
  lemma {:induction false} OvershootByOneCall(limits: Amounts, calls: seq<Call>, estimate: Estimate, most: nat)
    requires 0 < Amount(limits, HARD_COST) && FreshKeys(Fresh(limits), calls, estimate)
    requires forall call | call in calls :: CostOf(call, estimate) <= most
    ensures 0 <= Amount(Invoked(Fresh(limits), calls, estimate).used, HARD_COST) <= Amount(limits, HARD_COST) + most
    ensures Amount(Invoked(Fresh(limits), calls, estimate).limits, HARD_COST) == Amount(limits, HARD_COST)
  {
    FreshLimit(limits, HARD_COST);
    if calls != [] {
      hide CallOps, CallResult, CostOf, Run, Fresh, Amount;
      var last := calls[|calls| - 1];
      OvershootByOneCall(limits, calls[..|calls| - 1], estimate, most);
      var before := Invoked(Fresh(limits), calls[..|calls| - 1], estimate);
      CallCharges(before, last, estimate);
      LimitsOfRun(before, CallOps(before, last, estimate), HARD_COST);
    }
  }

  // ----- exactly when a call is stopped for its cost

  /** A call is stopped for its cost exactly when usage is above a positive limit. */
  lemma {:induction false} StoppedForCostExactly(l: Ledger, call: Call)
    ensures CallResult(l, call) == Err(CostExhausted)
            <==> Guard(call).None? && 0 < Amount(l.limits, HARD_COST) < Amount(l.used, HARD_COST)
  {
    hide ScopeAdmitted, Reservation, Apply;
  }

  /** What the calls that were answered have cost. */
  function Spent(l: Ledger, calls: seq<Call>, estimate: Estimate): nat {
    if calls == [] then 0
    else
      var before, last := calls[..|calls| - 1], calls[|calls| - 1];
      Spent(l, before, estimate)
      + if CallResult(Invoked(l, before, estimate), last).Ok? then CostOf(last, estimate) else 0
  }

  lemma {:induction false} SpentIsUsed(limits: Amounts, calls: seq<Call>, estimate: Estimate)
    requires FreshKeys(Fresh(limits), calls, estimate)
    ensures Amount(Invoked(Fresh(limits), calls, estimate).used, HARD_COST) == Spent(Fresh(limits), calls, estimate)
    ensures Amount(Invoked(Fresh(limits), calls, estimate).limits, HARD_COST) == NonNegative(Amount(limits, HARD_COST))
  {
    if calls == [] {
      FreshAmounts(limits, HARD_COST);
    } else {
      hide CallOps, CallResult, CostOf, Run, Fresh, Amount;
      var last := calls[|calls| - 1];
      SpentIsUsed(limits, calls[..|calls| - 1], estimate);
      var before := Invoked(Fresh(limits), calls[..|calls| - 1], estimate);
      CallCharges(before, last, estimate);
      LimitsOfRun(before, CallOps(before, last, estimate), HARD_COST);
    }
  }

  lemma {:induction false} FreshAmounts(limits: Amounts, resource: string)
    ensures Amount(Fresh(limits).used, resource) == 0
    ensures Amount(Fresh(limits).limits, resource) == NonNegative(Amount(limits, resource))
  {
  }

  /** Of calls made one after another, the next one is stopped for its cost exactly when the answered
      ones have cost more than a positive limit; costing just the limit stops nothing. */
  lemma {:induction false} StoppedOnceOverspent(limits: Amounts, calls: seq<Call>, call: Call, estimate: Estimate)
    requires FreshKeys(Fresh(limits), calls, estimate)
    ensures CallResult(Invoked(Fresh(limits), calls, estimate), call) == Err(CostExhausted)
            <==> Guard(call).None? && 0 < Amount(limits, HARD_COST) < Spent(Fresh(limits), calls, estimate)
  {
    hide *;
    SpentIsUsed(limits, calls, estimate);
    StoppedForCostExactly(Invoked(Fresh(limits), calls, estimate), call);
    NonNegativeIs(Amount(limits, HARD_COST));
  }

  lemma {:induction false} NonNegativeIs(value: int)
    ensures NonNegative(value) == if value < 0 then 0 else value
  {
  }

  /** At a spent limit a call goes through to its answer; one more unit of usage stops it. */
  lemma {:induction false} SpentLimitAdmits(limit: nat)
    requires 0 < limit
    ensures var call := Call("k", "main", 1, 1, None, false, Answered(None));
            var at := Run(Fresh(map[HARD_COST := limit]), [Record(HARD_COST, limit)]);
            var above := Run(Fresh(map[HARD_COST := limit]), [Record(HARD_COST, limit + 1)]);
            && Amount(at.used, HARD_COST) == Amount(at.limits, HARD_COST) == limit
            && CallResult(at, call) == Ok(())
            && CallResult(above, call) == Err(CostExhausted)
  {
    var call := Call("k", "main", 1, 1, None, false, Answered(None));
    RecordedLimit(limit, limit);
    RecordedLimit(limit, limit + 1);
    hide Run, Fresh;
    StoppedForCostExactly(Run(Fresh(map[HARD_COST := limit]), [Record(HARD_COST, limit + 1)]), call);
    UnlimitedCallFits(Run(Fresh(map[HARD_COST := limit]), [Record(HARD_COST, limit)]), call);
  }

  lemma {:induction false} RecordedLimit(limit: nat, amount: nat)
    requires 0 < limit
    ensures var l := Run(Fresh(map[HARD_COST := limit]), [Record(HARD_COST, amount)]);
            && Amount(l.used, HARD_COST) == amount && Amount(l.limits, HARD_COST) == limit
            && (forall r | r != HARD_COST :: Amount(l.limits, r) == 0)
  {
    RunTwo(Fresh(map[HARD_COST := limit]), Record(HARD_COST, amount), Check(HARD_COST));
    RunOne(Fresh(map[HARD_COST := limit]), [], Record(HARD_COST, amount));
    assert [] + [Record(HARD_COST, amount)] == [Record(HARD_COST, amount)];
    hide Run;
  }

  /** Where only the cost is limited, nothing but the cost can stop an answered call. */
  lemma {:induction false} UnlimitedCallFits(l: Ledger, call: Call)
    requires Guard(call).None? && call.outcome.Answered? && Fits(l, HARD_COST, 0)
    requires forall r | r != HARD_COST :: Amount(l.limits, r) == 0
    ensures CallResult(l, call) == Ok(())
  {
    var seen := Apply(l, Check(HARD_COST));
    forall r | r in Normalized(Reservation(call).costs) ensures Fits(seen, r, Normalized(Reservation(call).costs)[r]) {
      LimitsFixed(l, Check(HARD_COST), r);
    }
  }

  // ----- what a call comes to, read off the call and the ledger

  predicate Acceptable(call: Call) {
    && call.purpose != "" && 0 <= call.input && 0 < call.output && !call.stopped
    && (call.inputLimit.Some? ==> call.input <= call.inputLimit.value)
  }

  /** The resource is unlimited, or the amount fits beside what is used. */
  predicate RoomFor(l: Ledger, resource: string, amount: int) {
    Amount(l.limits, resource) <= 0 || Amount(l.used, resource) + amount <= Amount(l.limits, resource)
  }

  /** One more call with its reserved tokens is within every limit. */
  predicate Affordable(l: Ledger, call: Call) {
    && RoomFor(l, "llm_calls", 1) && RoomFor(l, "prompt_tokens", call.input)
    && RoomFor(l, "output_tokens", call.output) && RoomFor(l, "total_tokens", call.input + call.output)
  }

  /** Which result a call has: it is refused for its arguments first, then for the cost spent, then for the
      limits, and an interrupted one stays unanswered. */
  predicate ResultFits(l: Ledger, call: Call, r: Result<(), CallError>) {
    var spent := 0 < Amount(l.limits, "hard_cost_limit_usd") < Amount(l.used, "hard_cost_limit_usd");
    var fits := call.key in l.scopes || Affordable(l, call);
    && (r.Ok? <==> Acceptable(call) && !spent && fits && call.outcome.Answered?)
    && (r == Err(Unanswered) <==> Acceptable(call) && !spent && fits && call.outcome.Interrupted?)
    && (r == Err(BudgetExceeded) <==> Acceptable(call) && !spent && !fits)
    && (r == Err(CostExhausted) <==> Acceptable(call) && spent)
    && (r == Err(InvalidPurpose) <==> call.purpose == "")
    && (r == Err(InvalidReservation) <==> call.purpose != "" && (call.input < 0 || call.output <= 0))
    && (r == Err(WindowExceeded)
        <==> call.purpose != "" && 0 <= call.input && 0 < call.output && call.inputLimit.Some?
             && call.inputLimit.value < call.input)
    && (r == Err(Stopped)
        <==> call.purpose != "" && 0 <= call.input && 0 < call.output && call.stopped
             && (call.inputLimit.Some? ==> call.input <= call.inputLimit.value))
  }

  /** The tokens and calls a usage stands for. */
  function TokensOf(input: int, output: int, resource: string): int {
    match resource
    case "llm_calls" => 1
    case "prompt_tokens" => input
    case "output_tokens" => output
    case "total_tokens" => input + output
    case _ => 0
  }

  /** What a call under a new key is charged. An admitted call is charged the usage that was reported, and
      what it reserved when none was reported or no answer came; only an answer is charged its price. A
      refused call is charged nothing. */
  ghost predicate BillFits(l: Ledger, after: Ledger, call: Call, r: Result<(), CallError>, estimate: Estimate) {
    if r.Ok? then
      var known := call.outcome.Answered? && call.outcome.usage.Some?;
      0 <= call.input && 0 <= call.output && call.outcome.Answered?
      && var u := if known then call.outcome.usage.value else Usage(call.input, call.output);
         && Charged(l, after, u.input, u.output, if estimate(u) < 0 then 0 else estimate(u))
         && after.calls == l.calls[call.key := CallRecord(call.purpose, if known then "actual" else "estimated")]
    else if r == Err(Unanswered) then
      && Charged(l, after, call.input, call.output, 0)
      && after.calls == l.calls[call.key := CallRecord(call.purpose, "unknown")]
    else Uncharged(l, after) && after.calls == l.calls
  }

  /** Usage has risen by one call with these tokens and this price, and by nothing else. */
  ghost predicate Charged(l: Ledger, after: Ledger, input: int, output: int, price: int) {
    forall resource | 0 <= Amount(l.used, resource) ::
      Amount(after.used, resource)
      == Amount(l.used, resource) + TokensOf(input, output, resource)
         + if resource == "hard_cost_limit_usd" || resource == "soft_cost_limit_usd" then price else 0
  }

  ghost predicate Uncharged(l: Ledger, after: Ledger) {
    forall resource :: Amount(after.used, resource) == Amount(l.used, resource)
  }

  lemma {:induction false} RunNone(l: Ledger)
    ensures Run(l, []) == l
  {
  }

  lemma {:induction false} CountsAreNatural(call: Call)
    requires Guard(call).None?
    ensures 0 <= call.input && 0 <= call.output
  {
  }

  lemma {:induction false} GuardIs(call: Call)
    ensures Guard(call).None? <==> Acceptable(call)
  {
  }

  lemma {:induction false} CostsFit(l: Ledger, input: nat, output: nat)
    ensures AllFit(l, Normalized(CallCosts(input, output)))
            <==> && RoomFor(l, "llm_calls", 1) && RoomFor(l, "prompt_tokens", input)
                 && RoomFor(l, "output_tokens", output) && RoomFor(l, "total_tokens", input + output)
  {
    var costs := Normalized(CallCosts(input, output));
    assert costs == CallCosts(input, output);
    assert forall r | r in costs :: Fits(l, r, costs[r]) <==> RoomFor(l, r, costs[r]);
    assert LLM_CALLS in costs && PROMPT_TOKENS in costs && OUTPUT_TOKENS in costs && TOTAL_TOKENS in costs;
  }

  lemma {:induction false} CheckKeepsRoom(l: Ledger, call: Call)
    ensures Affordable(Apply(l, Check(HARD_COST)), call) == Affordable(l, call)
    ensures Apply(l, Check(HARD_COST)).scopes == l.scopes && Apply(l, Check(HARD_COST)).calls == l.calls
  {
  }

  lemma {:induction false} CallResultFits(l: Ledger, call: Call)
    ensures ResultFits(l, call, CallResult(l, call))
  {
    GuardIs(call);
    CheckKeepsRoom(l, call);
    if Guard(call).None? { CostsFit(Apply(l, Check(HARD_COST)), call.input, call.output); }
    hide AllFit, CallCosts, Normalized, Apply, RoomFor;
    assert Fits(l, HARD_COST, 0) <==> !(0 < Amount(l.limits, HARD_COST) < Amount(l.used, HARD_COST));
  }

  lemma {:induction false} TokensAre(input: nat, output: nat, resource: string)
    ensures Amount(Normalized(CallCosts(input, output)), resource) == TokensOf(input, output, resource)
  {
  }

  /** One reservation: the costs are charged under a new scope, or nothing. */
  lemma {:induction false} ReservationBills(l: Ledger, call: Call, resource: string)
    requires Guard(call).None? && call.key !in l.scopes
    ensures var seen := Apply(l, Check(HARD_COST));
            var after := Apply(seen, Reservation(call));
            if ScopeAdmitted(seen, call.key, Reservation(call).costs) then
              && Amount(after.used, resource) == Amount(l.used, resource) + TokensOf(call.input, call.output, resource)
              && Amount(Scope(after, call.key), resource) == TokensOf(call.input, call.output, resource)
              && after.calls == l.calls[call.key := CallRecord(call.purpose, "unknown")]
            else Amount(after.used, resource) == Amount(l.used, resource) && after.calls == l.calls
  {
    hide *;
    CountsAreNatural(call);
    var seen, costs := Apply(l, Check(HARD_COST)), CallCosts(call.input, call.output);
    CheckKeeps(l, resource);
    ReservationIsCall(call);
    TokensAre(call.input, call.output, resource);
    ManyExplained(seen, costs, resource);
    ManyFrame(seen, costs);
    ReservedIs(seen, call.key, call.purpose, costs, resource);
  }

  lemma {:induction false} CheckKeeps(l: Ledger, resource: string)
    ensures var seen := Apply(l, Check(HARD_COST));
            && Amount(seen.used, resource) == Amount(l.used, resource) && seen.scopes == l.scopes
               && seen.calls == l.calls
  {
    RecordExplained(l, HARD_COST, 0, resource);
    hide Defaulted, Amount;
  }

  lemma {:induction false} ReservationIsCall(call: Call)
    requires Guard(call).None?
    ensures 0 <= call.input && 0 <= call.output
    ensures Reservation(call) == ReserveCall(call.key, call.purpose, CallCosts(call.input, call.output))
  {
    hide CallCosts;
  }

  /** A reservation under a new key, apart from what it charges. */
  lemma {:induction false} ReservedIs(l: Ledger, key: string, purpose: string, costs: Amounts, resource: string)
    requires key !in l.scopes && ReservedMany(l, costs).scopes == l.scopes && ReservedMany(l, costs).calls == l.calls
    ensures var after := Apply(l, ReserveCall(key, purpose, costs));
            && (ScopeAdmitted(l, key, costs) <==> AllFit(l, Normalized(costs)))
            && Amount(after.used, resource) == Amount(ReservedMany(l, costs).used, resource)
            && (ScopeAdmitted(l, key, costs) ==>
                  && Amount(Scope(after, key), resource) == Amount(Normalized(costs), resource)
                  && after.calls == l.calls[key := CallRecord(purpose, "unknown")])
            && (!ScopeAdmitted(l, key, costs) ==> after.calls == l.calls)
  {
    hide AllFit, ReservedMany, Normalized, Amount;
  }

  lemma {:induction false} SettlementBills(l: Ledger, call: Call, reported: Option<Usage>, resource: string)
    requires Guard(call).None? && call.key in l.calls && 0 <= Amount(l.used, resource)
    requires TokensOf(call.input, call.output, resource) <= Amount(l.used, resource)
    requires Amount(Scope(l, call.key), resource) == TokensOf(call.input, call.output, resource)
    ensures var u := if reported.Some? then reported.value else Usage(call.input, call.output);
            var after := Apply(l, SettleOp(call, reported));
            && Amount(after.used, resource)
               == Amount(l.used, resource) - TokensOf(call.input, call.output, resource)
                  + TokensOf(u.input, u.output, resource)
            && after.calls == l.calls[call.key := l.calls[call.key].(usage := if reported.Some? then "actual"
                                                                     else "estimated")]
  {
    hide *;
    CountsAreNatural(call);
    var u := if reported.Some? then reported.value else Usage(call.input, call.output);
    SettleOpIs(call, reported);
    TokensAre(u.input, u.output, resource);
    TokensPositive(u.input, u.output, resource);
    ReconciledUsage(l, call.key, CallCosts(u.input, u.output), resource);
    ReconciledScopes(l, call.key, CallCosts(u.input, u.output));
    SettledIs(l, call.key, CallCosts(u.input, u.output), if reported.Some? then "actual" else "estimated");
    NonNegativeIs(Amount(l.used, resource) - TokensOf(call.input, call.output, resource)
                  + TokensOf(u.input, u.output, resource));
  }

  lemma {:induction false} SettleOpIs(call: Call, reported: Option<Usage>)
    requires Guard(call).None?
    ensures 0 <= call.input && 0 <= call.output
    ensures var u := if reported.Some? then reported.value else Usage(call.input, call.output);
            SettleOp(call, reported)
            == SettleCall(call.key, CallCosts(u.input, u.output), if reported.Some? then "actual" else "estimated")
  {
    hide CallCosts;
  }

  lemma {:induction false} SettledIs(l: Ledger, key: string, costs: Amounts, usage: string)
    requires key in l.calls
    ensures var after := Apply(l, SettleCall(key, costs, usage));
            after.used == Reconciled(l, key, costs).used && after.calls == l.calls[key := l.calls[key].(usage := usage)]
  {
    ReconciledScopes(l, key, costs);
    hide Reconciled;
  }

  lemma {:induction false} TokensPositive(input: nat, output: nat, resource: string)
    ensures 0 <= TokensOf(input, output, resource)
  {
  }

  lemma {:induction false} CostBills(l: Ledger, cost: int, resource: string)
    ensures var after := Run(l, CostOps(cost));
            && Amount(after.used, resource)
               == Amount(l.used, resource)
                  + (if resource == "hard_cost_limit_usd" || resource == "soft_cost_limit_usd"
                     then (if cost < 0 then 0 else cost) else 0)
            && after.calls == l.calls
  {
    RunTwo(l, Record(HARD_COST, cost), Record(SOFT_COST, cost));
    CostOpsAre(cost);
    hide *;
    RecordBills(l, HARD_COST, cost, resource);
    RecordBills(Apply(l, Record(HARD_COST, cost)), SOFT_COST, cost, resource);
    CostNames();
  }

  lemma {:induction false} CostNames()
    ensures HARD_COST == "hard_cost_limit_usd" && SOFT_COST == "soft_cost_limit_usd" && HARD_COST != SOFT_COST
  {
  }

  lemma {:induction false} RecordBills(l: Ledger, name: string, cost: int, resource: string)
    ensures var after := Apply(l, Record(name, cost));
            && Amount(after.used, resource)
               == Amount(l.used, resource) + (if resource == name then (if cost < 0 then 0 else cost) else 0)
            && after.calls == l.calls
  {
    RecordExplained(l, name, cost, resource);
    QuietFrame(l, Record(name, cost));
    hide Recorded;
  }

  lemma {:induction false} AdmittedBillFits(l: Ledger, call: Call, estimate: Estimate, resource: string)
    requires Guard(call).None? && call.key !in l.scopes && 0 <= Amount(l.used, resource)
    requires ScopeAdmitted(Apply(l, Check(HARD_COST)), call.key, Reservation(call).costs)
    ensures var after := Run(l, [Check(HARD_COST), Reservation(call)] + AnswerOps(call, estimate));
            var u := if call.outcome.Answered? && call.outcome.usage.Some? then call.outcome.usage.value
                     else Usage(call.input, call.output);
            && Amount(after.used, resource)
               == Amount(l.used, resource) + TokensOf(u.input, u.output, resource)
                  + (if call.outcome.Answered?
                     && (resource == "hard_cost_limit_usd" || resource == "soft_cost_limit_usd")
                     then (if estimate(u) < 0 then 0 else estimate(u)) else 0)
            && after.calls
               == l.calls[call.key := CallRecord(call.purpose,
                                                 if call.outcome.Interrupted? then "unknown"
                                                 else if call.outcome.usage.Some? then "actual" else "estimated")]
  {
    hide *;
    CountsAreNatural(call);
    ReservationBills(l, call, resource);
    TokensPositive(call.input, call.output, resource);
    var ops := [Check(HARD_COST), Reservation(call)];
    RunTwo(l, Check(HARD_COST), Reservation(call));
    if call.outcome.Interrupted? {
      NothingAnswered(call, estimate);
      assert ops + [] == ops;
    } else {
      var reported, held := call.outcome.usage, Run(l, ops);
      RunConcat(l, ops, AnswerOps(call, estimate));
      AnswerRuns(held, call, reported, estimate);
      SettlementBills(held, call, reported, resource);
      CostBills(Apply(held, SettleOp(call, reported)), estimate(Settled(call, reported)), resource);
      SettledUsageIs(call, reported);
    }
  }

  lemma {:induction false} SettledUsageIs(call: Call, reported: Option<Usage>)
    requires Guard(call).None?
    ensures 0 <= call.input && 0 <= call.output
    ensures Settled(call, reported) == if reported.Some? then reported.value else Usage(call.input, call.output)
  {
  }

  lemma {:induction false} RefusedBillFits(l: Ledger, call: Call, estimate: Estimate, resource: string)
    requires call.key !in l.scopes && (CallResult(l, call).Err? && CallResult(l, call) != Err(Unanswered))
    ensures var after := Run(l, CallOps(l, call, estimate));
            Amount(after.used, resource) == Amount(l.used, resource) && after.calls == l.calls
  {
    assert Run(l, []) == l;
    if Guard(call).None? {
      CheckIsDispatched(l);
      RecordExplained(l, HARD_COST, 0, resource);
      QuietFrame(l, Check(HARD_COST));
      RunTwo(l, Check(HARD_COST), Reservation(call));
      ReservationBills(l, call, resource);
      hide Run, Mentioned, Amount, Fits, ScopeAdmitted, Reservation, AnswerOps, TokensOf;
    }
  }

  lemma {:induction false} CallBillFits(l: Ledger, call: Call, estimate: Estimate)
    requires call.key !in l.scopes
    ensures BillFits(l, Run(l, CallOps(l, call, estimate)), call, CallResult(l, call), estimate)
  {
    hide Run, Apply, AnswerOps, Amount, TokensOf, Reservation, ScopeAdmitted, Fits;
    var after := Run(l, CallOps(l, call, estimate));
    if CallResult(l, call).Ok? || CallResult(l, call) == Err(Unanswered) {
      CountsAreNatural(call);
      forall resource | 0 <= Amount(l.used, resource)
        ensures var u := if call.outcome.Answered? && call.outcome.usage.Some? then call.outcome.usage.value
                         else Usage(call.input, call.output);
                Amount(after.used, resource)
                == Amount(l.used, resource) + TokensOf(u.input, u.output, resource)
                   + (if call.outcome.Answered?
                      && (resource == "hard_cost_limit_usd" || resource == "soft_cost_limit_usd")
                      then (if estimate(u) < 0 then 0 else estimate(u)) else 0)
      {
        AdmittedBillFits(l, call, estimate, resource);
      }
      AdmittedCalls(l, call, estimate);
    } else {
      forall resource ensures Amount(after.used, resource) == Amount(l.used, resource) {
        RefusedBillFits(l, call, estimate, resource);
      }
      RefusedBillFits(l, call, estimate, "");
    }
  }

  /** The record of an admitted call, whatever the usage of resources is. */
  lemma {:induction false} AdmittedCalls(l: Ledger, call: Call, estimate: Estimate)
    requires Guard(call).None? && call.key !in l.scopes
    requires ScopeAdmitted(Apply(l, Check(HARD_COST)), call.key, Reservation(call).costs)
    ensures Run(l, [Check(HARD_COST), Reservation(call)] + AnswerOps(call, estimate)).calls
         == l.calls[call.key := CallRecord(call.purpose,
                                           if call.outcome.Interrupted? then "unknown"
                                           else if call.outcome.usage.Some? then "actual" else "estimated")]
  {
    hide *;
    CountsAreNatural(call);
    var ops := [Check(HARD_COST), Reservation(call)];
    RunTwo(l, Check(HARD_COST), Reservation(call));
    ReservationBills(l, call, "");
    if call.outcome.Interrupted? {
      NothingAnswered(call, estimate);
      assert ops + [] == ops;
    } else {
      var reported, held := call.outcome.usage, Run(l, ops);
      RunConcat(l, ops, AnswerOps(call, estimate));
      AnswerRuns(held, call, reported, estimate);
      SettleOpIs(call, reported);
      var u := if reported.Some? then reported.value else Usage(call.input, call.output);
      SettledIs(held, call.key, CallCosts(u.input, u.output), if reported.Some? then "actual" else "estimated");
      CostBills(Apply(held, SettleOp(call, reported)), estimate(Settled(call, reported)), "");
    }
  }

  lemma {:induction false} CallFits(l: Ledger, call: Call, estimate: Estimate)
    ensures ResultFits(l, call, CallResult(l, call))
    ensures call.key !in l.scopes
            ==> BillFits(l, Run(l, CallOps(l, call, estimate)), call, CallResult(l, call), estimate)
  {
    hide *;
    CallResultFits(l, call);
    if call.key !in l.scopes { CallBillFits(l, call, estimate); }
  }
}
