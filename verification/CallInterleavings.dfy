/** Model calls that interleave: each call is a thread of ledger operations, and between any two of
    its operations other calls and other charges may run. */
module CallInterleavings {
  import opened Results
  import opened Totals
  import opened BudgetLedger
  import opened BudgetLaws
  import opened BudgetBounds
  import opened ModelCalls

  /** Where a call stands: not begun, past the cost check, reserved, settled, charged to the hard
      ledger, over. `reserved` remembers whether it was ever admitted. */
  datatype Stage = Ready | Checked | Held | Paid | Billed | Ended(reserved: bool)

  /** What has reached the ledger so far, and the stage of every call. */
  datatype Trace = Trace(log: seq<Op>, stages: seq<Stage>)

  /** Some call moves on, or something else uses the ledger. */
  datatype Event = Moves(call: nat) | Other(op: Op)

  /** The next ledger operations of a call, none or one, and the stage it reaches. */
  function CallStep(l: Ledger, call: Call, stage: Stage, estimate: Estimate): (seq<Op>, Stage) {
    if Guard(call).Some? then ([], Ended(false))
    else
      match stage
      case Ready => ([Check(HARD_COST)], if Fits(l, HARD_COST, 0) then Checked else Ended(false))
      case Checked =>
        ([Reservation(call)], if ScopeAdmitted(l, call.key, Reservation(call).costs) then Held else Ended(false))
      case Held =>
        if call.outcome.Interrupted? then ([], Ended(true))
        else ([SettleOp(call, call.outcome.usage)], if Price(call, estimate) <= 0 then Ended(true) else Paid)
      case Paid => ([Record(HARD_COST, Price(call, estimate))], Billed)
      case Billed => ([Record(SOFT_COST, Price(call, estimate))], Ended(true))
      case Ended(_) => ([], stage)
  }

  function Price(call: Call, estimate: Estimate): int
    requires Guard(call).None?
  {
    if call.outcome.Interrupted? then 0 else estimate(Settled(call, call.outcome.usage))
  }

  function After(start: Ledger, calls: seq<Call>, estimate: Estimate, t: Trace, event: Event): (r: Trace)
    requires |t.stages| == |calls|
    ensures |r.stages| == |calls|
  {
    match event
    case Other(op) => t.(log := t.log + [op])
    case Moves(i) =>
      if i >= |calls| then t
      else
        var (ops, stage) := CallStep(Run(start, t.log), calls[i], t.stages[i], estimate);
        Trace(t.log + ops, t.stages[i := stage])
  }

  function Interleaved(start: Ledger, calls: seq<Call>, estimate: Estimate, events: seq<Event>): (r: Trace)
    ensures |r.stages| == |calls|
  {
    if events == [] then Trace([], seq(|calls|, i => Ready))
    else After(start, calls, estimate, Interleaved(start, calls, estimate, events[..|events| - 1]),
               events[|events| - 1])
  }

  // ----- one call alone

  function Moving(n: nat): seq<Event> { seq(n, _ => Moves(0)) }

  lemma {:induction false} MovesOnce(l: Ledger, call: Call, estimate: Estimate, n: nat)
    ensures Interleaved(l, [call], estimate, Moving(n + 1))
         == After(l, [call], estimate, Interleaved(l, [call], estimate, Moving(n)), Moves(0))
    ensures Interleaved(l, [call], estimate, Moving(0)) == Trace([], [Ready])
  {
    assert Moving(n + 1)[..n] == Moving(n);
    hide After;
  }

  lemma {:induction false} MoveAlone(l: Ledger, call: Call, estimate: Estimate, t: Trace, stage: Stage)
    requires t.stages == [stage]
    ensures var (ops, next) := CallStep(Run(l, t.log), call, stage, estimate);
            After(l, [call], estimate, t, Moves(0)) == Trace(t.log + ops, [next])
  {
    hide CallStep, Run;
  }

  lemma {:induction false} FirstMoves(l: Ledger, call: Call, estimate: Estimate)
    ensures Interleaved(l, [call], estimate, Moving(2))
         == if Guard(call).Some? then Trace([], [Ended(false)])
            else if !Fits(l, HARD_COST, 0) then Trace([Check(HARD_COST)], [Ended(false)])
            else Trace([Check(HARD_COST), Reservation(call)],
                       [if ScopeAdmitted(Apply(l, Check(HARD_COST)), call.key, Reservation(call).costs)
                        then Held else Ended(false)])
  {
    MovesOnce(l, call, estimate, 0);
    MovesOnce(l, call, estimate, 1);
    RunTwo(l, Check(HARD_COST), Check(HARD_COST));
    CheckIsDispatched(l);
    MoveAlone(l, call, estimate, Trace([], [Ready]), Ready);
    hide Run, Apply, Fits, ScopeAdmitted, Reservation, Guard, Interleaved, Moving, After;
    var t := Interleaved(l, [call], estimate, Moving(1));
    MoveAlone(l, call, estimate, t, t.stages[0]);
  }

  lemma {:induction false} LastMoves(l: Ledger, call: Call, estimate: Estimate, t: Trace)
    requires t.stages == [Held] && Guard(call).None?
    ensures var t3 := After(l, [call], estimate, t, Moves(0));
            var t4 := After(l, [call], estimate, t3, Moves(0));
            After(l, [call], estimate, t4, Moves(0)) == Trace(t.log + AnswerOps(call, estimate), [Ended(true)])
  {
    hide Run, SettleOp, Settled, Guard, After;
    MoveAlone(l, call, estimate, t, Held);
    var t3 := After(l, [call], estimate, t, Moves(0));
    MoveAlone(l, call, estimate, t3, t3.stages[0]);
    var t4 := After(l, [call], estimate, t3, Moves(0));
    MoveAlone(l, call, estimate, t4, t4.stages[0]);
  }

  lemma {:induction false} EndedStays(l: Ledger, call: Call, estimate: Estimate, t: Trace)
    requires t.stages == [Ended(false)]
    ensures After(l, [call], estimate, t, Moves(0)) == t
  {
    hide Run, Guard;
    MoveAlone(l, call, estimate, t, Ended(false));
  }

  /** Undisturbed, five moves perform exactly the operations of the call. */
  lemma {:induction false} AloneRunsTheCall(l: Ledger, call: Call, estimate: Estimate)
    ensures Interleaved(l, [call], estimate, Moving(5)).log == CallOps(l, call, estimate)
  {
    hide Run, Apply, Fits, ScopeAdmitted, Reservation, AnswerOps, Guard, Interleaved, Moving, After;
    FirstMoves(l, call, estimate);
    MovesOnce(l, call, estimate, 2);
    MovesOnce(l, call, estimate, 3);
    MovesOnce(l, call, estimate, 4);
    var t := Interleaved(l, [call], estimate, Moving(2));
    if t.stages == [Held] {
      LastMoves(l, call, estimate, t);
    } else {
      EndedStays(l, call, estimate, t);
    }
  }

  // ----- any interleaving

  predicate DistinctKeys(calls: seq<Call>) {
    forall i, j | 0 <= i < j < |calls| :: calls[i].key != calls[j].key
  }

  predicate IsKey(calls: seq<Call>, key: string) {
    exists i | 0 <= i < |calls| :: calls[i].key == key
  }

  /** Other users of the ledger charge resources directly or use scopes of their own. */
  predicate Outside(calls: seq<Call>, op: Op) {
    Quiet(op) || ((op.ReserveScope? || op.ReconcileScope?) && !IsKey(calls, op.key))
  }

  predicate Lawful(calls: seq<Call>, event: Event) {
    event.Other? ==> Outside(calls, event.op)
  }

  predicate WasReserved(stage: Stage) {
    stage.Held? || stage.Paid? || stage.Billed? || (stage.Ended? && stage.reserved)
  }

  /** A call that was admitted is on the ledger; one that has not reserved yet has left no scope. */
  predicate StageFits(l: Ledger, key: string, stage: Stage) {
    && (WasReserved(stage) ==> key in l.calls)
    && (stage.Ready? || stage.Checked? ==> key !in l.scopes)
  }

  ghost predicate InOrder(start: Ledger, calls: seq<Call>, t: Trace)
    requires |t.stages| == |calls|
  {
    && DispatchRun(start, t.log)
    && (forall key | key in Run(start, t.log).calls :: IsKey(calls, key))
    && forall i | 0 <= i < |calls| :: StageFits(Run(start, t.log), calls[i].key, t.stages[i])
  }

  predicate Keyed(op: Op) { op.ReserveScope? || op.ReconcileScope? || op.ReserveCall? || op.SettleCall? }

  /** An operation leaves the scopes and calls of other keys as they are. */
  lemma {:induction false} OtherKeys(l: Ledger, op: Op, key: string)
    requires Quiet(op) || (Keyed(op) && op.key != key)
    ensures key in Apply(l, op).scopes <==> key in l.scopes
    ensures key in Apply(l, op).calls <==> key in l.calls
  {
    hide AllFit, ReservedMany, Normalized, Reconciled, Reserved, Recorded, Mentioned;
    if Quiet(op) { QuietFrame(l, op); hide Apply; return; }
    match op
    case ReserveScope(_, costs) => ManyFrame(l, costs);
    case ReserveCall(_, _, costs) => ManyFrame(l, costs);
    case SettleCall(other, costs, _) => ReconciledScopes(l, other, costs);
    case ReconcileScope(other, costs) => ReconciledScopes(l, other, costs);
  }

  /** Calls never leave the ledger, and only a reservation enters one. */
  lemma {:induction false} OwnKey(l: Ledger, op: Op)
    requires Keyed(op)
    ensures op.key in l.calls ==> op.key in Apply(l, op).calls
    ensures op.key in Apply(l, op).calls ==> op.key in l.calls || op.ReserveCall?
  {
    hide AllFit, ReservedMany, Normalized, Reconciled;
    match op
    case ReserveScope(_, costs) => ManyFrame(l, costs);
    case ReserveCall(_, _, costs) => ManyFrame(l, costs);
    case SettleCall(other, costs, _) => ReconciledScopes(l, other, costs);
    case ReconcileScope(other, costs) => ReconciledScopes(l, other, costs);
  }

  /** The operation of a move is in order, and the call's new stage agrees with the ledger. */
  lemma {:induction false} MoveFits(l: Ledger, call: Call, stage: Stage, estimate: Estimate)
    requires StageFits(l, call.key, stage)
    ensures var (ops, next) := CallStep(l, call, stage, estimate);
            && (ops == [] ==> StageFits(l, call.key, next))
            && (ops != [] ==>
                  && ops == [ops[0]] && Dispatched(l, ops[0]) && StageFits(Apply(l, ops[0]), call.key, next)
                  && (Quiet(ops[0]) || (Keyed(ops[0]) && ops[0].key == call.key)))
  {
    hide Guard, Fits, ScopeAdmitted, ReservedCall, SettledCall, Recorded, Mentioned, IsCallCosts, Settled, CallCosts;
    if Guard(call).None? {
      match stage
      case Ready => QuietFrame(l, Check(HARD_COST));
      case Checked => HeldFits(l, call);
      case Held => if call.outcome.Answered? { PaidFits(l, call, call.outcome.usage); }
      case Paid => QuietFrame(l, Record(HARD_COST, Price(call, estimate)));
      case Billed => QuietFrame(l, Record(SOFT_COST, Price(call, estimate)));
      case Ended(_) =>
    }
  }

  lemma {:induction false} HeldFits(l: Ledger, call: Call)
    requires Guard(call).None? && call.key !in l.scopes
    ensures var op := Reservation(call);
            Dispatched(l, op) && op.ReserveCall? && op.key == call.key
            && (ScopeAdmitted(l, call.key, op.costs) ==> call.key in Apply(l, op).calls)
  {
    hide ScopeAdmitted, ReservedCall, IsCallCosts, CallCosts, Normalized, Balanced;
    IsCosts(call.input, call.output);
    if ScopeAdmitted(l, call.key, CallCosts(call.input, call.output)) {
      AdmittedIsKnown(l, call.key, call.purpose, CallCosts(call.input, call.output));
    }
  }

  lemma {:induction false} PaidFits(l: Ledger, call: Call, reported: Option<Usage>)
    requires Guard(call).None? && call.key in l.calls
    ensures var op := SettleOp(call, reported);
            Dispatched(l, op) && op.SettleCall? && op.key == call.key && call.key in Apply(l, op).calls
  {
    SettleIsDispatched(l, call, reported);
    OwnKey(l, SettleOp(call, reported));
    hide Guard, Settled, IsCallCosts, CallCosts, Apply;
  }

  /** One more operation under some call's key, or under none of the calls' keys. */
  lemma {:induction false} LoggedKeepsOrder(start: Ledger, calls: seq<Call>, t: Trace, op: Op)
    requires |t.stages| == |calls| && InOrder(start, calls, t) && Dispatched(Run(start, t.log), op)
    requires Quiet(op) || Keyed(op)
    ensures var l := Run(start, t.log + [op]);
            && l == Apply(Run(start, t.log), op) && DispatchRun(start, t.log + [op])
            && (forall key | key in l.calls :: IsKey(calls, key) || (op.ReserveCall? && key == op.key))
            && (forall i | 0 <= i < |calls| && (Quiet(op) || op.key != calls[i].key) ::
                  StageFits(l, calls[i].key, t.stages[i]))
  {
    hide Dispatched, Apply, Run, DispatchRun, IsKey;
    var l := Run(start, t.log);
    DispatchSnoc(start, t.log, op);
    forall key | key in Apply(l, op).calls ensures IsKey(calls, key) || (op.ReserveCall? && key == op.key) {
      if Quiet(op) || key != op.key { OtherKeys(l, op, key); } else { OwnKey(l, op); }
    }
    forall i | 0 <= i < |calls| && (Quiet(op) || op.key != calls[i].key)
      ensures StageFits(Apply(l, op), calls[i].key, t.stages[i])
    {
      OtherKeys(l, op, calls[i].key);
    }
  }

  lemma {:induction false} MoveKeepsOrder(start: Ledger, calls: seq<Call>, estimate: Estimate, t: Trace, i: nat)
    requires |t.stages| == |calls| && i < |calls| && DistinctKeys(calls) && InOrder(start, calls, t)
    ensures InOrder(start, calls, After(start, calls, estimate, t, Moves(i)))
  {
    hide Run, DispatchRun, Dispatched, Apply, CallStep, StageFits, Quiet, Keyed;
    var (ops, next) := CallStep(Run(start, t.log), calls[i], t.stages[i], estimate);
    MoveFits(Run(start, t.log), calls[i], t.stages[i], estimate);
    if ops == [] {
      assert t.log + [] == t.log;
    } else {
      LoggedKeepsOrder(start, calls, t, ops[0]);
      QuietHasNoReservation(ops[0]);
      assert IsKey(calls, calls[i].key);
    }
  }

  lemma {:induction false} QuietHasNoReservation(op: Op)
    ensures Quiet(op) ==> !op.ReserveCall?
  {
  }

  lemma {:induction false} OtherKeepsOrder(start: Ledger, calls: seq<Call>, estimate: Estimate, t: Trace, op: Op)
    requires |t.stages| == |calls| && InOrder(start, calls, t) && Outside(calls, op)
    ensures InOrder(start, calls, After(start, calls, estimate, t, Other(op)))
  {
    OutsideIsDispatched(start, calls, t, op);
    LoggedKeepsOrder(start, calls, t, op);
    hide Run, DispatchRun, Dispatched, Apply, StageFits;
    forall i | 0 <= i < |calls| ensures Quiet(op) || op.key != calls[i].key {
      assert calls[i].key == calls[i].key;
    }
  }

  lemma {:induction false} OutsideIsDispatched(start: Ledger, calls: seq<Call>, t: Trace, op: Op)
    requires |t.stages| == |calls| && InOrder(start, calls, t) && Outside(calls, op)
    ensures Dispatched(Run(start, t.log), op)
  {
    hide Run, DispatchRun, IsKey, StageFits;
  }

  lemma {:induction false} StartsInOrder(limits: Amounts, calls: seq<Call>, estimate: Estimate)
    ensures InOrder(Fresh(limits), calls, Interleaved(Fresh(limits), calls, estimate, []))
  {
  }

  /** However the calls interleave with each other and with other charges, what reaches the ledger
      keeps to the discipline the call bounds are stated for. */
  lemma {:induction false} InterleavingsAreDispatched(limits: Amounts, calls: seq<Call>, estimate: Estimate,
                                                      events: seq<Event>)
    requires DistinctKeys(calls) && forall event | event in events :: Lawful(calls, event)
    ensures DispatchRun(Fresh(limits), Interleaved(Fresh(limits), calls, estimate, events).log)
    ensures InOrder(Fresh(limits), calls, Interleaved(Fresh(limits), calls, estimate, events))
  {
    if events == [] {
      StartsInOrder(limits, calls, estimate);
    } else {
      hide InOrder, Fresh, After, Outside;
      var before, last := events[..|events| - 1], events[|events| - 1];
      InterleavingsAreDispatched(limits, calls, estimate, before);
      var t := Interleaved(Fresh(limits), calls, estimate, before);
      OrderIsKept(Fresh(limits), calls, estimate, t, last);
      OrderIsDispatched(Fresh(limits), calls, After(Fresh(limits), calls, estimate, t, last));
    }
  }

  lemma {:induction false} OrderIsDispatched(start: Ledger, calls: seq<Call>, t: Trace)
    requires |t.stages| == |calls| && InOrder(start, calls, t)
    ensures DispatchRun(start, t.log)
  {
  }

  lemma {:induction false} OrderIsKept(start: Ledger, calls: seq<Call>, estimate: Estimate, t: Trace, event: Event)
    requires |t.stages| == |calls| && DistinctKeys(calls) && InOrder(start, calls, t) && Lawful(calls, event)
    ensures InOrder(start, calls, After(start, calls, estimate, t, event))
  {
    hide InOrder, Outside, CallStep, DistinctKeys, Run;
    match event
    case Moves(i) => if i < |calls| { MoveKeepsOrder(start, calls, estimate, t, i); }
    case Other(op) => OtherKeepsOrder(start, calls, estimate, t, op);
  }

  // ----- the limit on calls

  /** How many of the first `n` calls were ever admitted, and their keys. */
  function Admissions(stages: seq<Stage>, n: nat): nat
    requires n <= |stages|
  {
    if n == 0 then 0 else Admissions(stages, n - 1) + if WasReserved(stages[n - 1]) then 1 else 0
  }

  function AdmittedKeys(calls: seq<Call>, stages: seq<Stage>, n: nat): set<string>
    requires n <= |stages| == |calls|
  {
    if n == 0 then {}
    else AdmittedKeys(calls, stages, n - 1) + if WasReserved(stages[n - 1]) then {calls[n - 1].key} else {}
  }

  lemma {:induction false} AdmissionsAreKeys(known: set<string>, calls: seq<Call>, stages: seq<Stage>, n: nat)
    requires n <= |stages| == |calls| && DistinctKeys(calls)
    requires forall i | 0 <= i < |calls| && WasReserved(stages[i]) :: calls[i].key in known
    ensures |AdmittedKeys(calls, stages, n)| == Admissions(stages, n)
    ensures AdmittedKeys(calls, stages, n) <= known
    ensures forall key | key in AdmittedKeys(calls, stages, n) :: exists i | 0 <= i < n :: calls[i].key == key
  {
    hide WasReserved, DistinctKeys, AdmittedKeys, Admissions;
    AdmissionsUnfold(calls, stages, n);
    if n > 0 {
      AdmissionsAreKeys(known, calls, stages, n - 1);
      var earlier := AdmittedKeys(calls, stages, n - 1);
      if WasReserved(stages[n - 1]) {
        forall i | 0 <= i < n - 1 ensures calls[i].key != calls[n - 1].key { KeysDiffer(calls, i, n - 1); }
        assert |earlier + {calls[n - 1].key}| == |earlier| + 1;
      }
    }
  }

  lemma {:induction false} KeysDiffer(calls: seq<Call>, i: nat, j: nat)
    requires DistinctKeys(calls) && i < j < |calls|
    ensures calls[i].key != calls[j].key
  {
  }

  lemma {:induction false} AdmissionsUnfold(calls: seq<Call>, stages: seq<Stage>, n: nat)
    requires n <= |stages| == |calls|
    ensures n == 0 ==> AdmittedKeys(calls, stages, n) == {} && Admissions(stages, n) == 0
    ensures n > 0 ==>
              && AdmittedKeys(calls, stages, n)
                 == AdmittedKeys(calls, stages, n - 1) + (if WasReserved(stages[n - 1]) then {calls[n - 1].key} else {})
              && Admissions(stages, n) == Admissions(stages, n - 1) + if WasReserved(stages[n - 1]) then 1 else 0
  {
    hide WasReserved;
  }

  lemma {:induction false} SmallerSet(a: set<string>, b: set<string>)
    requires a <= b
    ensures |a| <= |b|
    decreases |a|
  {
    if a != {} {
      var x :| x in a;
      SmallerSet(a - {x}, b - {x});
    }
  }

  lemma {:induction false} ReservedIsKnown(l: Ledger, key: string, stage: Stage)
    requires StageFits(l, key, stage) && WasReserved(stage)
    ensures key in l.calls
  {
  }

  /** However many calls run at once and however they interleave, no more of them are ever dispatched
      than a positive limit on calls allows. */
  lemma {:induction false} InterleavedCallsWithinLimit(limits: Amounts, calls: seq<Call>, estimate: Estimate,
                                                       events: seq<Event>)
    requires DistinctKeys(calls) && forall event | event in events :: Lawful(calls, event)
    requires 0 < Amount(limits, LLM_CALLS)
    ensures Admissions(Interleaved(Fresh(limits), calls, estimate, events).stages, |calls|) <= Amount(limits, LLM_CALLS)
  {
    var t := Interleaved(Fresh(limits), calls, estimate, events);
    InterleavingsAreDispatched(limits, calls, estimate, events);
    hide Interleaved, Run, Fresh, StageFits, DispatchRun, DistinctKeys, Lawful, IsKey, EverReserved, CallsCharged;
    var l := Run(Fresh(limits), t.log);
    forall i | 0 <= i < |calls| && WasReserved(t.stages[i]) ensures calls[i].key in l.calls.Keys {
      ReservedIsKnown(l, calls[i].key, t.stages[i]);
    }
    AdmissionsAreKeys(l.calls.Keys, calls, t.stages, |calls|);
    SmallerSet(AdmittedKeys(calls, t.stages, |calls|), l.calls.Keys);
    RunCharged(limits, t.log);
    CallsWithinLimit(limits, t.log);
  }
}
