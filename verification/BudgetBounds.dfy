/** The bounds model calls keep whatever usage providers report. */
module BudgetBounds {
  import opened Totals
  import opened BudgetLedger
  import opened BudgetLaws
  import opened BudgetMerges

  // ----- model calls

  const LLM_CALLS := "llm_calls"
  const PROMPT_TOKENS := "prompt_tokens"
  const OUTPUT_TOKENS := "output_tokens"
  const TOTAL_TOKENS := "total_tokens"

  function CallCosts(input: nat, output: nat): Amounts {
    map[LLM_CALLS := 1, PROMPT_TOKENS := input, OUTPUT_TOKENS := output, TOTAL_TOKENS := input + output]
  }

  ghost predicate IsCallCosts(costs: Amounts) {
    exists input: nat, output: nat :: costs == CallCosts(input, output)
  }

  /** What dispatching model calls does to the ledger while anything else may happen in between:
      call keys are new, only reserved calls are settled, and no other scope uses a call's key. */
  ghost predicate Dispatched(l: Ledger, op: Op) {
    match op
    case ReserveCall(key, _, costs) => key !in l.scopes && IsCallCosts(costs)
    case SettleCall(key, costs, _) => key in l.calls && IsCallCosts(costs)
    case ReconcileScope(key, _) => key !in l.calls
    case MergeCalls(_, _) => false
    case _ => true
  }

  ghost predicate DispatchRun(l: Ledger, ops: seq<Op>) {
    ops != [] ==> DispatchRun(l, ops[..|ops| - 1]) && Dispatched(Run(l, ops[..|ops| - 1]), ops[|ops| - 1])
  }

  /** Every call holds a scope that counts it once. */
  ghost predicate CallsCharged(l: Ledger) {
    forall key | key in l.calls :: key in l.scopes && Amount(l.scopes[key], LLM_CALLS) == 1
  }

  lemma {:induction false} AtLeastCount(m: Amounts, keys: set<string>)
    requires (forall key | key in m :: 0 <= m[key]) && forall key | key in keys :: key in m && 1 <= m[key]
    ensures |keys| <= Total(m)
    decreases |m|
  {
    if m == map[] {
      assert keys == {};
    } else {
      var key :| key in m;
      TotalWithout(m, key);
      SmallerWithout(m, key);
      AtLeastCount(m - {key}, keys - {key});
      assert |keys| <= |keys - {key}| + if key in keys then 1 else 0;
    }
  }

  lemma {:induction false} CallsWithinScopes(l: Ledger)
    requires NonNegativeScopes(l.scopes) && CallsCharged(l)
    ensures |l.calls| <= ScopeTotal(l.scopes, LLM_CALLS)
  {
    AtLeastCount(InScopes(l.scopes, LLM_CALLS), l.calls.Keys);
    assert |l.calls.Keys| == |l.calls|;
  }

  lemma {:induction false} CallCostsCountOne(costs: Amounts)
    requires IsCallCosts(costs)
    ensures Normalized(costs) == costs && LLM_CALLS in costs && Amount(costs, LLM_CALLS) == 1
  {
  }

  lemma {:induction false} ManyFrame(l: Ledger, costs: Amounts)
    ensures var after := ReservedMany(l, costs);
            && after.limits == Mentioned(l, Normalized(costs).Keys).limits && after.calls == l.calls
               && after.scopes == l.scopes
  {
    hide AllFit, Fits, Refused, Plus, Defaulted, Normalized;
  }

  lemma {:induction false} MentionedLimit(l: Ledger, names: set<string>, resource: string)
    ensures Amount(Mentioned(l, names).limits, resource) == Amount(l.limits, resource)
  {
  }

  lemma {:induction false} OneFrame(l: Ledger, name: string, amount: int)
    ensures Reserved(l, name, amount).limits == Mentioned(l, {name}).limits == Recorded(l, name, amount).limits
  {
    hide Fits, Refused;
  }

  /** Operations that touch neither scopes nor calls. */
  predicate Quiet(op: Op) { op.Reserve? || op.ReserveMany? || op.Check? || op.Record? }

  lemma {:induction false} QuietFrame(l: Ledger, op: Op)
    requires Quiet(op)
    ensures Apply(l, op).scopes == l.scopes && Apply(l, op).calls == l.calls
  {
    hide AllFit, Fits, Refused, Plus, Defaulted, Normalized, Amount;
  }

  lemma {:induction false} LimitsFixed(l: Ledger, op: Op, resource: string)
    ensures Amount(Apply(l, op).limits, resource) == Amount(l.limits, resource)
  {
    hide AllFit, Reserved, Recorded, ReservedMany, Mentioned, Reconciled, Merged, Normalized, Amount;
    match op
    case Reserve(name, amount) => OneFrame(l, name, amount); MentionedLimit(l, {name}, resource);
    case Record(name, amount) => OneFrame(l, name, amount); MentionedLimit(l, {name}, resource);
    case Check(name) => MentionedLimit(l, {name}, resource);
    case ReserveMany(costs) => ManyFrame(l, costs); MentionedLimit(l, Normalized(costs).Keys, resource);
    case ReserveScope(_, costs) => ManyFrame(l, costs); MentionedLimit(l, Normalized(costs).Keys, resource);
    case ReserveCall(_, _, costs) => ManyFrame(l, costs); MentionedLimit(l, Normalized(costs).Keys, resource);
    case ReconcileScope(key, costs) => ReconciledScopes(l, key, costs);
    case SettleCall(key, costs, _) => ReconciledScopes(l, key, costs);
    case MergeCalls(journal, purpose) => MergeKeepsCalls(l, journal, purpose, |journal.calls|);
  }

  lemma {:induction false} LimitsOfRun(l: Ledger, ops: seq<Op>, resource: string)
    ensures Amount(Run(l, ops).limits, resource) == Amount(l.limits, resource)
  {
    hide Apply;
    if ops != [] {
      LimitsOfRun(l, ops[..|ops| - 1], resource);
      LimitsFixed(Run(l, ops[..|ops| - 1]), ops[|ops| - 1], resource);
    }
  }

  lemma {:induction false} DispatchKeepsCharged(l: Ledger, op: Op)
    requires CallsCharged(l) && Dispatched(l, op)
    ensures CallsCharged(Apply(l, op))
    ensures Apply(l, op).calls.Keys == l.calls.Keys + NewCall(l, op)
  {
    hide *;
    NewCallIs(l, op);
    match op
    case ReserveScope(_, _) => ScopeKeepsCharged(l, op);
    case ReconcileScope(_, _) => ScopeKeepsCharged(l, op);
    case ReserveCall(_, _, _) => ReserveCallCharged(l, op);
    case SettleCall(_, _, _) => SettleCallCharged(l, op);
    case _ => QuietKeepsCharged(l, op);
  }

  lemma {:induction false} NewCallIs(l: Ledger, op: Op)
    ensures !op.ReserveCall? ==> NewCall(l, op) == {}
  {
  }

  lemma {:induction false} QuietKeepsCharged(l: Ledger, op: Op)
    requires CallsCharged(l) && Dispatched(l, op)
    requires !op.ReserveScope? && !op.ReconcileScope? && !op.ReserveCall? && !op.SettleCall?
    ensures CallsCharged(Apply(l, op)) && Apply(l, op).calls.Keys == l.calls.Keys
  {
    hide Apply, Amount, IsCallCosts;
    QuietFrame(l, op);
  }

  lemma {:induction false} ScopeKeepsCharged(l: Ledger, op: Op)
    requires (op.ReserveScope? || op.ReconcileScope?) && CallsCharged(l) && Dispatched(l, op)
    ensures CallsCharged(Apply(l, op)) && Apply(l, op).calls.Keys == l.calls.Keys
  {
    hide AllFit, ReservedMany, Normalized, Reconciled, IsCallCosts, Amount;
    if op.ReserveScope? { ManyFrame(l, op.costs); } else { ReconciledScopes(l, op.key, op.costs); }
  }

  lemma {:induction false} SettleCallCharged(l: Ledger, op: Op)
    requires op.SettleCall? && CallsCharged(l) && Dispatched(l, op)
    ensures CallsCharged(Apply(l, op)) && Apply(l, op).calls.Keys == l.calls.Keys
  {
    hide Reconciled, Normalized, IsCallCosts, Amount;
    CallCostsCountOne(op.costs);
    ReconciledScopes(l, op.key, op.costs);
  }

  lemma {:induction false} ReserveCallCharged(l: Ledger, op: Op)
    requires op.ReserveCall? && CallsCharged(l) && Dispatched(l, op)
    ensures CallsCharged(Apply(l, op))
    ensures Apply(l, op).calls.Keys == l.calls.Keys + NewCall(l, op)
  {
    hide AllFit, ReservedMany, Normalized, IsCallCosts, Amount;
    ManyFrame(l, op.costs);
    CallCostsCountOne(op.costs);
  }

  function NewCall(l: Ledger, op: Op): set<string> {
    if op.ReserveCall? && ScopeAdmitted(l, op.key, op.costs) then {op.key} else {}
  }

  /** The keys of all calls ever reserved over a run. */
  function EverReserved(l: Ledger, ops: seq<Op>): set<string> {
    if ops == [] then {}
    else EverReserved(l, ops[..|ops| - 1]) + NewCall(Run(l, ops[..|ops| - 1]), ops[|ops| - 1])
  }

  lemma {:induction false} RunCharged(limits: Amounts, ops: seq<Op>)
    requires DispatchRun(Fresh(limits), ops)
    ensures CallsCharged(Run(Fresh(limits), ops))
    ensures Run(Fresh(limits), ops).calls.Keys == EverReserved(Fresh(limits), ops)
  {
    if ops != [] {
      hide Apply, CallsCharged, Dispatched, NewCall;
      RunCharged(limits, ops[..|ops| - 1]);
      DispatchKeepsCharged(Run(Fresh(limits), ops[..|ops| - 1]), ops[|ops| - 1]);
    }
  }

  /** A call is only admitted while the charged calls are below the limit. */
  lemma {:induction false} AdmittedBelowLimit(l: Ledger, key: string, costs: Amounts)
    requires key !in l.scopes && IsCallCosts(costs) && ScopeAdmitted(l, key, costs) && 0 < Amount(l.limits, LLM_CALLS)
    ensures Amount(l.used, LLM_CALLS) + 1 <= Amount(l.limits, LLM_CALLS)
  {
    CallCostsCountOne(costs);
    hide IsCallCosts;
    assert Fits(l, LLM_CALLS, costs[LLM_CALLS]);
  }

  lemma {:induction false} ChargedBelowUsage(limits: Amounts, ops: seq<Op>)
    requires DispatchRun(Fresh(limits), ops)
    ensures |Run(Fresh(limits), ops).calls| <= Amount(Run(Fresh(limits), ops).used, LLM_CALLS)
  {
    hide *;
    RunCharged(limits, ops);
    UsageIsExplained(limits, ops, LLM_CALLS);
    CallsWithinScopes(Run(Fresh(limits), ops));
  }

  /** Whatever providers report and whatever else is charged meanwhile, the number of calls ever
      reserved stays within a positive limit on calls. */
  lemma {:induction false} CallsWithinLimit(limits: Amounts, ops: seq<Op>)
    requires DispatchRun(Fresh(limits), ops) && 0 < Amount(limits, LLM_CALLS)
    ensures |EverReserved(Fresh(limits), ops)| <= Amount(limits, LLM_CALLS)
  {
    if ops == [] {
    } else {
      var before := ops[..|ops| - 1];
      var l := Run(Fresh(limits), before);
      CallsWithinLimit(limits, before);
      if NewCall(l, ops[|ops| - 1]) != {} {
        NewCallBelowLimit(limits, before, ops[|ops| - 1]);
      }
    }
  }

  lemma {:induction false} NewCallBelowLimit(limits: Amounts, before: seq<Op>, op: Op)
    requires DispatchRun(Fresh(limits), before) && Dispatched(Run(Fresh(limits), before), op)
             && 0 < Amount(limits, LLM_CALLS)
    requires NewCall(Run(Fresh(limits), before), op) != {}
    ensures |EverReserved(Fresh(limits), before) + NewCall(Run(Fresh(limits), before), op)| <= Amount(limits, LLM_CALLS)
  {
    var l := Run(Fresh(limits), before);
    LimitsOfRun(Fresh(limits), before, LLM_CALLS);
    assert Amount(Fresh(limits).limits, LLM_CALLS) == Amount(limits, LLM_CALLS);
    hide Run, Fresh, IsCallCosts, ScopeAdmitted, EverReserved, DispatchRun;
    AdmittedBelowLimit(l, op.key, op.costs);
    ChargedBelowUsage(limits, before);
    RunCharged(limits, before);
    assert |l.calls| == |l.calls.Keys|;
    SizeWithOne(l.calls.Keys, op.key);
  }

  lemma {:induction false} SizeWithOne(keys: set<string>, key: string)
    ensures |keys + {key}| <= |keys| + 1
  {
    if key in keys { assert keys + {key} == keys; }
  }

  // ----- unsettled calls

  /** The operation neither settles nor reconciles the scope. */
  predicate Leaves(op: Op, key: string) {
    (op.SettleCall? ==> op.key != key) && (op.ReconcileScope? ==> op.key != key)
  }

  lemma {:induction false} MergeKeepsScope(l: Ledger, journal: Journal, purpose: string, count: nat, key: string)
    requires count <= |journal.calls| && key in l.scopes && key in l.calls
    ensures var after := Merged(l, journal, purpose, count).ledger;
            key in after.calls && key in after.scopes && after.scopes[key] == l.scopes[key]
  {
    hide Merged;
    if count == 0 {
      MergeNothing(l, journal, purpose);
    } else {
      MergeKeepsScope(l, journal, purpose, count - 1, key);
      var before, after := Merged(l, journal, purpose, count - 1), Merged(l, journal, purpose, count);
      MergeStep(l, journal, purpose, count, before, after);
      MergesOnlyNew(l, journal, purpose, count);
    }
  }

  lemma {:induction false} MergesOnlyNew(l: Ledger, journal: Journal, purpose: string, count: nat)
    requires 0 < count <= |journal.calls|
    ensures var before, after := Merged(l, journal, purpose, count - 1), Merged(l, journal, purpose, count);
            after.ledger != before.ledger ==> journal.calls[count - 1].0 !in before.ledger.calls
  {
    hide Reconciled;
  }

  lemma {:induction false} LeavesScope(l: Ledger, op: Op, key: string)
    requires key in l.scopes && key in l.calls && Leaves(op, key)
    ensures var after := Apply(l, op);
            key in after.calls && key in after.scopes && after.scopes[key] == l.scopes[key]
  {
    if Quiet(op) {
      hide Apply;
      QuietFrame(l, op);
    } else {
      ScopedLeavesScope(l, op, key);
    }
  }

  lemma {:induction false} ScopedLeavesScope(l: Ledger, op: Op, key: string)
    requires !Quiet(op) && key in l.scopes && key in l.calls && Leaves(op, key)
    ensures var after := Apply(l, op);
            key in after.calls && key in after.scopes && after.scopes[key] == l.scopes[key]
  {
    hide AllFit, ReservedMany, Normalized, Reconciled, Merged;
    match op
    case ReserveScope(_, costs) => ManyFrame(l, costs);
    case ReserveCall(_, _, costs) => ManyFrame(l, costs);
    case SettleCall(other, costs, _) => ReconciledScopes(l, other, costs);
    case ReconcileScope(other, costs) => ReconciledScopes(l, other, costs);
    case MergeCalls(journal, purpose) => MergeKeepsScope(l, journal, purpose, |journal.calls|, key);
  }

  lemma {:induction false} RunLeavesScope(l: Ledger, ops: seq<Op>, key: string)
    requires key in l.scopes && key in l.calls && forall op | op in ops :: Leaves(op, key)
    ensures var after := Run(l, ops);
            key in after.calls && key in after.scopes && after.scopes[key] == l.scopes[key]
  {
    if ops != [] {
      hide Apply;
      RunLeavesScope(l, ops[..|ops| - 1], key);
      LeavesScope(Run(l, ops[..|ops| - 1]), ops[|ops| - 1], key);
    }
  }

  lemma {:induction false} RunConcat(l: Ledger, a: seq<Op>, b: seq<Op>)
    ensures Run(l, a + b) == Run(Run(l, a), b)
  {
    hide Apply;
    if b == [] {
      assert a + b == a;
    } else {
      assert (a + b)[..|a + b| - 1] == a + b[..|b| - 1];
      RunConcat(l, a, b[..|b| - 1]);
    }
  }

  /** A call that was reserved and never settled stays charged in full, whatever happens later. */
  lemma {:induction false} UnsettledStaysCharged(limits: Amounts, before: seq<Op>, later: seq<Op>, key: string,
                                                 resource: string)
    requires var l := Run(Fresh(limits), before);
             key in l.scopes && key in l.calls && forall op | op in later :: Leaves(op, key)
    ensures var l, after := Run(Fresh(limits), before), Run(Fresh(limits), before + later);
            && Scope(after, key) == Scope(l, key)
            && Amount(Scope(l, key), resource) <= Amount(after.used, resource)
  {
    RunConcat(Fresh(limits), before, later);
    RunLeavesScope(Run(Fresh(limits), before), later, key);
    hide Run, Fresh;
    ClampNeverBinds(limits, before + later, key, map[], resource);
  }

  // ----- token totals

  predicate Balanced(costs: Amounts) {
    Amount(costs, TOTAL_TOKENS) == Amount(costs, PROMPT_TOKENS) + Amount(costs, OUTPUT_TOKENS)
  }

  predicate TokenFree(resource: string) {
    resource != TOTAL_TOKENS && resource != PROMPT_TOKENS && resource != OUTPUT_TOKENS
  }

  /** The operation charges total tokens exactly when it charges prompt or output tokens. */
  predicate BalancedOp(op: Op) {
    match op
    case Reserve(resource, _) => TokenFree(resource)
    case Record(resource, _) => TokenFree(resource)
    case Check(_) => true
    case ReserveMany(costs) => Balanced(Normalized(costs))
    case ReserveScope(_, costs) => Balanced(Normalized(costs))
    case ReconcileScope(_, costs) => Balanced(Normalized(costs))
    case ReserveCall(_, _, costs) => Balanced(Normalized(costs))
    case SettleCall(_, costs, _) => Balanced(Normalized(costs))
    case MergeCalls(journal, _) => forall key | key in journal.scopes :: Balanced(Normalized(journal.scopes[key]))
  }

  ghost predicate BalancedScopes(scopes: map<string, Amounts>) {
    forall key | key in scopes :: Balanced(scopes[key])
  }

  lemma {:induction false} CallCostsBalanced(costs: Amounts)
    requires IsCallCosts(costs)
    ensures Balanced(Normalized(costs))
  {
    CallCostsCountOne(costs);
  }

  lemma {:induction false} MergeBalanced(l: Ledger, journal: Journal, purpose: string, count: nat)
    requires count <= |journal.calls| && BalancedScopes(l.scopes) && BalancedOp(MergeCalls(journal, purpose))
    ensures BalancedScopes(Merged(l, journal, purpose, count).ledger.scopes)
  {
    hide Merged;
    if count == 0 {
      MergeNothing(l, journal, purpose);
    } else {
      MergeBalanced(l, journal, purpose, count - 1);
      MergeStep(l, journal, purpose, count, Merged(l, journal, purpose, count - 1), Merged(l, journal, purpose, count));
      assert Balanced(Normalized(map[]));
    }
  }

  lemma {:induction false} ApplyBalanced(l: Ledger, op: Op)
    requires BalancedScopes(l.scopes) && BalancedOp(op)
    ensures BalancedScopes(Apply(l, op).scopes) && Balanced(Direct(l, op))
  {
    hide *;
    DirectBalanced(l, op);
    if Quiet(op) {
      QuietFrame(l, op);
    } else {
      ScopesBalanced(l, op);
    }
  }

  lemma {:induction false} DirectBalanced(l: Ledger, op: Op)
    requires BalancedOp(op)
    ensures Balanced(Direct(l, op))
  {
    hide AllFit, Fits, Normalized;
    assert Balanced(map[]);
  }

  lemma {:induction false} ScopesBalanced(l: Ledger, op: Op)
    requires BalancedScopes(l.scopes) && BalancedOp(op) && !Quiet(op)
    ensures BalancedScopes(Apply(l, op).scopes)
  {
    hide AllFit, ReservedMany, Normalized, Reconciled, Merged, Balanced;
    match op
    case ReserveScope(_, costs) => ManyFrame(l, costs);
    case ReserveCall(_, _, costs) => ManyFrame(l, costs);
    case SettleCall(other, costs, _) => ReconciledScopes(l, other, costs);
    case ReconcileScope(other, costs) => ReconciledScopes(l, other, costs);
    case MergeCalls(journal, purpose) => MergeBalanced(l, journal, purpose, |journal.calls|);
  }

  /** Total tokens beyond prompt plus output tokens. */
  function Imbalance(costs: Amounts): int {
    Amount(costs, TOTAL_TOKENS) - Amount(costs, PROMPT_TOKENS) - Amount(costs, OUTPUT_TOKENS)
  }

  /** The imbalance of everything charged outside scopes. */
  function DirectImbalance(l: Ledger, ops: seq<Op>): int {
    if ops == [] then 0
    else DirectImbalance(l, ops[..|ops| - 1]) + Imbalance(Direct(Run(l, ops[..|ops| - 1]), ops[|ops| - 1]))
  }

  /** The imbalance of each scope. */
  function Imbalances(scopes: map<string, Amounts>): Amounts {
    map key | key in scopes :: Imbalance(scopes[key])
  }

  lemma {:induction false} DirectImbalanceIs(l: Ledger, ops: seq<Op>)
    ensures DirectImbalance(l, ops)
         == DirectCharges(l, ops, TOTAL_TOKENS) - DirectCharges(l, ops, PROMPT_TOKENS)
            - DirectCharges(l, ops, OUTPUT_TOKENS)
  {
    if ops != [] {
      hide Direct, Amount;
      DirectImbalanceIs(l, ops[..|ops| - 1]);
    }
  }

  lemma {:induction false} ScopeImbalanceIs(scopes: map<string, Amounts>)
    ensures Total(Imbalances(scopes))
         == ScopeTotal(scopes, TOTAL_TOKENS) - ScopeTotal(scopes, PROMPT_TOKENS) - ScopeTotal(scopes, OUTPUT_TOKENS)
  {
    SumOfMaps(InScopes(scopes, TOTAL_TOKENS), InScopes(scopes, PROMPT_TOKENS), InScopes(scopes, OUTPUT_TOKENS),
              Imbalances(scopes));
  }

  lemma {:induction false} SumOfMaps(sum: Amounts, a: Amounts, b: Amounts, c: Amounts)
    requires sum.Keys == a.Keys == b.Keys == c.Keys
    requires forall key | key in sum :: sum[key] == a[key] + b[key] + c[key]
    ensures Total(sum) == Total(a) + Total(b) + Total(c)
    decreases |sum|
  {
    if sum == map[] {
      assert a == map[] && b == map[] && c == map[];
    } else {
      var key :| key in sum;
      TotalWithout(sum, key);
      TotalWithout(a, key);
      TotalWithout(b, key);
      TotalWithout(c, key);
      SmallerWithout(sum, key);
      SumOfMaps(sum - {key}, a - {key}, b - {key}, c - {key});
    }
  }

  /** In every reachable state, total tokens differ from prompt plus output tokens by exactly the
      imbalance of what was charged directly and of what the scopes hold; so they are equal if and only
      if these cancel. */
  lemma {:induction false} TokensBalanceExactly(limits: Amounts, ops: seq<Op>)
    ensures var l := Run(Fresh(limits), ops);
            && Imbalance(l.used) == DirectImbalance(Fresh(limits), ops) + Total(Imbalances(l.scopes))
            && (Amount(l.used, TOTAL_TOKENS) == Amount(l.used, PROMPT_TOKENS) + Amount(l.used, OUTPUT_TOKENS)
                <==> DirectImbalance(Fresh(limits), ops) + Total(Imbalances(l.scopes)) == 0)
  {
    hide *;
    UsageIsExplained(limits, ops, TOTAL_TOKENS);
    UsageIsExplained(limits, ops, PROMPT_TOKENS);
    UsageIsExplained(limits, ops, OUTPUT_TOKENS);
    DirectImbalanceIs(Fresh(limits), ops);
    ScopeImbalanceIs(Run(Fresh(limits), ops).scopes);
    ImbalanceIs(Run(Fresh(limits), ops).used);
  }

  lemma {:induction false} ImbalanceIs(costs: Amounts)
    ensures Imbalance(costs)
            == Amount(costs, TOTAL_TOKENS) - Amount(costs, PROMPT_TOKENS) - Amount(costs, OUTPUT_TOKENS)
    ensures Balanced(costs) <==> Imbalance(costs) == 0
  {
  }

  lemma {:induction false} RunBalanced(l: Ledger, ops: seq<Op>)
    requires BalancedScopes(l.scopes) && forall op | op in ops :: BalancedOp(op)
    ensures BalancedScopes(Run(l, ops).scopes) && DirectImbalance(l, ops) == 0
  {
    if ops != [] {
      hide Apply, Direct, Amount, BalancedScopes, BalancedOp, Imbalance, Balanced;
      RunBalanced(l, ops[..|ops| - 1]);
      ApplyBalanced(Run(l, ops[..|ops| - 1]), ops[|ops| - 1]);
      ImbalanceIs(Direct(Run(l, ops[..|ops| - 1]), ops[|ops| - 1]));
    }
  }

  lemma {:induction false} BalancedTotals(scopes: map<string, Amounts>)
    requires BalancedScopes(scopes)
    ensures Total(Imbalances(scopes)) == 0
  {
    ZeroTotal(Imbalances(scopes));
  }

  lemma {:induction false} ZeroTotal(m: Amounts)
    requires forall key | key in m :: m[key] == 0
    ensures Total(m) == 0
    decreases |m|
  {
    if m != map[] {
      var key :| key in m;
      TotalWithout(m, key);
      SmallerWithout(m, key);
      ZeroTotal(m - {key});
    }
  }

  /** Total tokens are always prompt plus output tokens, settled or not, when every operation charges
      them in balance, as model calls do. */
  lemma {:induction false} TokensBalance(limits: Amounts, ops: seq<Op>)
    requires forall op | op in ops :: BalancedOp(op)
    ensures var l := Run(Fresh(limits), ops);
            Amount(l.used, TOTAL_TOKENS) == Amount(l.used, PROMPT_TOKENS) + Amount(l.used, OUTPUT_TOKENS)
  {
    RunBalanced(Fresh(limits), ops);
    hide *;
    BalancedTotals(Run(Fresh(limits), ops).scopes);
    TokensBalanceExactly(limits, ops);
  }

  /** A total charged directly, with nothing charged for prompt or output, is out of balance. */
  lemma {:induction false} DirectTotalIsOutOfBalance(amount: nat)
    requires 0 < amount
    ensures var l := Run(Fresh(map[]), [Record(TOTAL_TOKENS, amount)]);
            && Amount(l.used, TOTAL_TOKENS) == amount
            && Amount(l.used, PROMPT_TOKENS) + Amount(l.used, OUTPUT_TOKENS) == 0
            && DirectImbalance(Fresh(map[]), [Record(TOTAL_TOKENS, amount)]) == amount
  {
    var op := Record(TOTAL_TOKENS, amount);
    assert [op][..0] == [];
    assert Run(Fresh(map[]), [op]) == Recorded(Fresh(map[]), TOTAL_TOKENS, amount);
  }

  // ----- limits

  /** The operation reports no more of the resource than its scope had reserved, and nothing
      is recorded past the limit. */
  predicate Covered(l: Ledger, op: Op, resource: string) {
    match op
    case ReconcileScope(key, costs) => Amount(Normalized(costs), resource) <= Amount(Scope(l, key), resource)
    case SettleCall(key, costs, _) => Amount(Normalized(costs), resource) <= Amount(Scope(l, key), resource)
    case Record(name, amount) => name == resource ==> amount <= 0
    case MergeCalls(_, _) => false
    case _ => true
  }

  predicate CoveredRun(l: Ledger, ops: seq<Op>, resource: string) {
    ops != [] ==>
      && CoveredRun(l, ops[..|ops| - 1], resource)
      && Covered(Run(l, ops[..|ops| - 1]), ops[|ops| - 1], resource)
  }

  predicate Under(l: Ledger, resource: string) {
    0 <= Amount(l.used, resource) <= Amount(l.limits, resource)
  }

  lemma {:induction false} ManyWithin(l: Ledger, costs: Amounts, resource: string)
    requires Under(l, resource) && 0 < Amount(l.limits, resource)
    ensures 0 <= Amount(ReservedMany(l, costs).used, resource) <= Amount(l.limits, resource)
  {
    ManyExplained(l, costs, resource);
    hide ReservedMany;
    if AllFit(l, Normalized(costs)) && resource in costs { assert Fits(l, resource, Normalized(costs)[resource]); }
  }

  lemma {:induction false} CoveredStaysUnder(l: Ledger, op: Op, resource: string)
    requires 0 < Amount(l.limits, resource) && Under(l, resource) && Covered(l, op, resource)
    ensures Under(Apply(l, op), resource)
  {
    LimitsFixed(l, op, resource);
    hide AllFit, Reserved, Recorded, ReservedMany, Mentioned, Normalized, Reconciled, Merged, Amount, Scope;
    match op
    case Reserve(name, amount) => ReserveExplained(l, name, amount, resource); DirectFits(l, op, resource);
    case Record(name, amount) => RecordExplained(l, name, amount, resource); DirectFits(l, op, resource);
    case Check(name) => RecordExplained(l, name, 0, resource);
    case ReserveMany(costs) => ManyWithin(l, costs, resource);
    case ReserveScope(_, costs) => ManyWithin(l, costs, resource);
    case ReserveCall(_, _, costs) => ManyWithin(l, costs, resource);
    case SettleCall(key, costs, _) => ReconciledUsage(l, key, costs, resource);
    case ReconcileScope(key, costs) => ReconciledUsage(l, key, costs, resource);
    case MergeCalls(_, _) =>
  }

  lemma {:induction false} DirectFits(l: Ledger, op: Op, resource: string)
    requires (op.Reserve? || op.Record?) && Covered(l, op, resource) && 0 < Amount(l.limits, resource)
             && Under(l, resource)
    ensures Amount(l.used, resource) + Amount(Direct(l, op), resource) <= Amount(l.limits, resource)
  {
  }

  /** No limited resource passes its limit while nothing is settled above its reservation. */
  lemma {:induction false} WithinLimits(limits: Amounts, ops: seq<Op>, resource: string)
    requires 0 < Amount(limits, resource) && CoveredRun(Fresh(limits), ops, resource)
    ensures Amount(Run(Fresh(limits), ops).used, resource) <= Amount(limits, resource)
    ensures Under(Run(Fresh(limits), ops), resource)
  {
    LimitsOfRun(Fresh(limits), ops, resource);
    if ops != [] {
      hide Apply, Covered, Amount, Fresh;
      WithinLimits(limits, ops[..|ops| - 1], resource);
      LimitsOfRun(Fresh(limits), ops[..|ops| - 1], resource);
      FreshLimit(limits, resource);
      CoveredStaysUnder(Run(Fresh(limits), ops[..|ops| - 1]), ops[|ops| - 1], resource);
    }
  }

  lemma {:induction false} FreshLimit(limits: Amounts, resource: string)
    requires 0 < Amount(limits, resource)
    ensures Amount(Fresh(limits).limits, resource) == Amount(limits, resource)
  {
  }
}
