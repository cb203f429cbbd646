/** What every reachable state of the ledger satisfies. */
module BudgetLaws {
  import opened Totals
  import opened BudgetLedger

  // ----- amounts

  function InScopes(scopes: map<string, Amounts>, resource: string): Amounts {
    map key | key in scopes :: Amount(scopes[key], resource)
  }

  ghost function ScopeTotal(scopes: map<string, Amounts>, resource: string): int {
    Total(InScopes(scopes, resource))
  }

  ghost predicate NonNegativeScopes(scopes: map<string, Amounts>) {
    forall key, r | key in scopes && r in scopes[key] :: 0 <= scopes[key][r]
  }

  lemma {:induction false} ScopeWritten(scopes: map<string, Amounts>, key: string, costs: Amounts, resource: string)
    ensures ScopeTotal(scopes[key := costs], resource)
         == ScopeTotal(scopes, resource) - Amount(InScopes(scopes, resource), key) + Amount(costs, resource)
  {
    hide Total, Amount;
    TotalUpdate(InScopes(scopes, resource), key, Amount(costs, resource));
    assert InScopes(scopes[key := costs], resource) == InScopes(scopes, resource)[key := Amount(costs, resource)];
  }

  /** A scope is never more than all scopes together. */
  lemma {:induction false} ScopeWithinTotal(scopes: map<string, Amounts>, key: string, resource: string)
    requires NonNegativeScopes(scopes)
    ensures 0 <= Amount(InScopes(scopes, resource), key) <= ScopeTotal(scopes, resource)
  {
    var amounts := InScopes(scopes, resource);
    TotalWithout(amounts, key);
    TotalNotNegative(amounts - {key});
  }

  lemma {:induction false} ScopeAmount(l: Ledger, key: string, resource: string)
    ensures Amount(InScopes(l.scopes, resource), key) == Amount(Scope(l, key), resource)
  {
  }

  // ----- conservation

  /** The usage of a resource is what was charged directly plus what the scopes hold. */
  ghost predicate Explained(l: Ledger, resource: string, direct: int) {
    0 <= direct && Amount(l.used, resource) == direct + ScopeTotal(l.scopes, resource)
  }

  lemma {:induction false} ReconciledUsage(l: Ledger, key: string, costs: Amounts, resource: string)
    requires 0 <= Amount(l.used, resource)
    ensures Amount(Reconciled(l, key, costs).used, resource)
         == NonNegative(Amount(l.used, resource) - Amount(Scope(l, key), resource)
                        + Amount(Normalized(costs), resource))
    ensures 0 <= Amount(Normalized(costs), resource)
  {
    hide Scope;
  }

  lemma {:induction false} NormalizedScopes(l: Ledger, key: string, costs: Amounts)
    requires NonNegativeScopes(l.scopes)
    ensures NonNegativeScopes(l.scopes[key := Normalized(costs)])
  {
  }

  lemma {:induction false} ReconcileExplained(l: Ledger, key: string, costs: Amounts, resource: string, direct: int)
    requires NonNegativeScopes(l.scopes) && Explained(l, resource, direct)
    ensures Amount(l.used, resource) - Amount(Scope(l, key), resource) >= 0
    ensures Amount(Reconciled(l, key, costs).used, resource)
         == Amount(l.used, resource) - Amount(Scope(l, key), resource) + Amount(Normalized(costs), resource)
    ensures NonNegativeScopes(Reconciled(l, key, costs).scopes)
    ensures Explained(Reconciled(l, key, costs), resource, direct)
  {
    hide ScopeTotal, NonNegativeScopes, Normalized, Amount, InScopes, Scope;
    ScopeWritten(l.scopes, key, Normalized(costs), resource);
    ScopeWithinTotal(l.scopes, key, resource);
    ScopeAmount(l, key, resource);
    ReconciledUsage(l, key, costs, resource);
    NormalizedScopes(l, key, costs);
  }

  lemma {:induction false} ManyExplained(l: Ledger, costs: Amounts, resource: string)
    ensures Amount(ReservedMany(l, costs).used, resource)
         == Amount(l.used, resource) + if AllFit(l, Normalized(costs)) then Amount(Normalized(costs), resource) else 0
    ensures 0 <= Amount(Normalized(costs), resource)
    ensures ReservedMany(l, costs).scopes == l.scopes
  {
  }

  lemma {:induction false} ScopeExplained(l: Ledger, key: string, costs: Amounts, resource: string, direct: int)
    requires NonNegativeScopes(l.scopes) && Explained(l, resource, direct)
    ensures NonNegativeScopes(ReservedScope(l, key, costs).scopes)
    ensures Explained(ReservedScope(l, key, costs), resource, direct)
  {
    ManyExplained(l, costs, resource);
    ScopeWritten(l.scopes, key, Normalized(costs), resource);
    hide ScopeTotal, ReservedMany, AllFit;
    ScopeAmount(l, key, resource);
  }

  lemma {:induction false} MergeExplained(l: Ledger, journal: Journal, purpose: string, count: nat, resource: string,
                                          direct: int)
    requires count <= |journal.calls| && NonNegativeScopes(l.scopes) && Explained(l, resource, direct)
    ensures var after := Merged(l, journal, purpose, count).ledger;
            NonNegativeScopes(after.scopes) && Explained(after, resource, direct)
  {
    if count > 0 {
      MergeExplained(l, journal, purpose, count - 1, resource, direct);
      hide NonNegativeScopes, ScopeTotal, Reconciled;
      ReconcileExplained(Merged(l, journal, purpose, count - 1).ledger, journal.calls[count - 1].0,
                         JournalCosts(journal, count - 1), resource, direct);
    }
  }

  lemma {:induction false} ApplyExplained(l: Ledger, op: Op, resource: string, direct: int)
    requires NonNegativeScopes(l.scopes) && Explained(l, resource, direct)
    ensures NonNegativeScopes(Apply(l, op).scopes)
    ensures Explained(Apply(l, op), resource, direct + Amount(Direct(l, op), resource))
  {
    hide *;
    if op.Reserve? || op.ReserveMany? || op.Check? || op.Record? {
      DirectExplained(l, op, resource, direct);
    } else {
      ScopedExplained(l, op, resource, direct);
    }
  }

  lemma {:induction false} DirectExplained(l: Ledger, op: Op, resource: string, direct: int)
    requires op.Reserve? || op.ReserveMany? || op.Check? || op.Record?
    requires NonNegativeScopes(l.scopes) && Explained(l, resource, direct)
    ensures NonNegativeScopes(Apply(l, op).scopes)
    ensures Explained(Apply(l, op), resource, direct + Amount(Direct(l, op), resource))
  {
    assert Amount(map[], resource) == 0;
    hide NonNegativeScopes, ScopeTotal, ReservedMany, AllFit, Reserved, Recorded, Mentioned, Amount, Normalized;
    match op
    case Reserve(name, amount) => ReserveExplained(l, name, amount, resource);
    case ReserveMany(costs) => ManyExplained(l, costs, resource);
    case Check(name) => RecordExplained(l, name, 0, resource);
    case Record(name, amount) => RecordExplained(l, name, amount, resource);
  }

  lemma {:induction false} ScopedExplained(l: Ledger, op: Op, resource: string, direct: int)
    requires !op.Reserve? && !op.ReserveMany? && !op.Check? && !op.Record?
    requires NonNegativeScopes(l.scopes) && Explained(l, resource, direct)
    ensures NonNegativeScopes(Apply(l, op).scopes)
    ensures Explained(Apply(l, op), resource, direct + Amount(Direct(l, op), resource))
  {
    assert Amount(map[], resource) == 0;
    hide NonNegativeScopes, ScopeTotal, ReservedScope, Reconciled, Merged, AllFit, Amount, Normalized;
    match op
    case ReserveScope(key, costs) => ScopeExplained(l, key, costs, resource, direct);
    case ReconcileScope(key, costs) => ReconcileExplained(l, key, costs, resource, direct);
    case ReserveCall(key, _, costs) => ScopeExplained(l, key, costs, resource, direct);
    case SettleCall(key, costs, _) => ReconcileExplained(l, key, costs, resource, direct);
    case MergeCalls(journal, purpose) => MergeExplained(l, journal, purpose, |journal.calls|, resource, direct);
  }

  lemma {:induction false} ReserveExplained(l: Ledger, name: string, amount: int, resource: string)
    ensures Amount(Reserved(l, name, amount).used, resource)
         == Amount(l.used, resource) + Amount(Direct(l, Reserve(name, amount)), resource)
    ensures 0 <= Amount(Direct(l, Reserve(name, amount)), resource)
    ensures Reserved(l, name, amount).scopes == l.scopes
  {
  }

  lemma {:induction false} RecordExplained(l: Ledger, name: string, amount: int, resource: string)
    ensures Amount(Recorded(l, name, amount).used, resource)
         == Amount(l.used, resource) + Amount(Direct(l, Record(name, amount)), resource)
    ensures 0 <= Amount(Direct(l, Record(name, amount)), resource)
    ensures Recorded(l, name, amount).scopes == l.scopes
    ensures Amount(Mentioned(l, {name}).used, resource) == Amount(l.used, resource)
            && Mentioned(l, {name}).scopes == l.scopes
  {
  }

  /** Every unit of usage is explained: from a fresh ledger, over any operations but a restore,
      usage is direct charges plus what the scopes hold now. */
  lemma {:induction false} UsageIsExplained(limits: Amounts, ops: seq<Op>, resource: string)
    ensures NonNegativeScopes(Run(Fresh(limits), ops).scopes)
    ensures 0 <= DirectCharges(Fresh(limits), ops, resource)
    ensures Amount(Run(Fresh(limits), ops).used, resource)
         == DirectCharges(Fresh(limits), ops, resource) + ScopeTotal(Run(Fresh(limits), ops).scopes, resource)
  {
    if ops == [] {
      assert InScopes(map[], resource) == map[];
    } else {
      var before := ops[..|ops| - 1];
      UsageIsExplained(limits, before, resource);
      hide NonNegativeScopes, ScopeTotal, Apply, Direct;
      ApplyExplained(Run(Fresh(limits), before), ops[|ops| - 1], resource,
                     DirectCharges(Fresh(limits), before, resource));
    }
  }

  /** So reconciling never takes back more than is charged: the clamp at zero never binds. */
  lemma {:induction false} ClampNeverBinds(limits: Amounts, ops: seq<Op>, key: string, costs: Amounts, resource: string)
    ensures var l := Run(Fresh(limits), ops);
            && Amount(Scope(l, key), resource) <= Amount(l.used, resource)
            && Amount(Reconciled(l, key, costs).used, resource)
               == Amount(l.used, resource) - Amount(Scope(l, key), resource) + Amount(Normalized(costs), resource)
  {
    hide *;
    UsageIsExplained(limits, ops, resource);
    Explain(Run(Fresh(limits), ops), resource, DirectCharges(Fresh(limits), ops, resource));
    ReconcileExplained(Run(Fresh(limits), ops), key, costs, resource, DirectCharges(Fresh(limits), ops, resource));
  }

  /** A settlement, refused for an unknown call or not, leaves a usage alone exactly when it reports what
      the scope already held; a refused one charges just the same. */
  lemma {:induction false} SettlementCharges(limits: Amounts, ops: seq<Op>, key: string, costs: Amounts, usage: string,
                                             resource: string)
    ensures var l := Run(Fresh(limits), ops);
            var after := SettledCall(l, key, costs, usage);
            && Amount(after.used, resource)
               == Amount(l.used, resource) - Amount(Scope(l, key), resource) + Amount(Normalized(costs), resource)
            && (Amount(after.used, resource) == Amount(l.used, resource)
                <==> Amount(Normalized(costs), resource) == Amount(Scope(l, key), resource))
            && (key !in l.calls ==> after.calls == l.calls)
  {
    hide *;
    ClampNeverBinds(limits, ops, key, costs, resource);
    SettledUsage(Run(Fresh(limits), ops), key, costs, usage);
  }

  lemma {:induction false} SettledUsage(l: Ledger, key: string, costs: Amounts, usage: string)
    ensures SettledCall(l, key, costs, usage).used == Reconciled(l, key, costs).used
    ensures key !in l.calls ==> SettledCall(l, key, costs, usage).calls == l.calls
  {
    ReconciledScopes(l, key, costs);
    hide Reconciled;
  }

  /** A settlement of a call nobody made fails, and has charged its costs. */
  lemma {:induction false} UnknownCallIsCharged()
    ensures var after := SettledCall(Fresh(map[]), "k", map["tokens" := 5], "actual");
            "k" !in after.calls && Amount(after.used, "tokens") == 5
  {
    SettledUsage(Fresh(map[]), "k", map["tokens" := 5], "actual");
    ReconciledUsage(Fresh(map[]), "k", map["tokens" := 5], "tokens");
    hide SettledCall, Reconciled;
  }

  lemma {:induction false} Explain(l: Ledger, resource: string, direct: int)
    requires 0 <= direct && Amount(l.used, resource) == direct + ScopeTotal(l.scopes, resource)
    ensures Explained(l, resource, direct)
  {
  }

  /** The last writer wins: earlier costs reported for the same scope leave no trace in any usage. */
  lemma {:induction false} LastReportWins(limits: Amounts, ops: seq<Op>, key: string, early: Amounts, late: Amounts,
                                          resource: string)
    ensures var l := Run(Fresh(limits), ops);
            var twice, once := Reconciled(Reconciled(l, key, early), key, late), Reconciled(l, key, late);
            && Amount(twice.used, resource) == Amount(once.used, resource)
            && SameButUsed(twice, once)
  {
    var l := Run(Fresh(limits), ops);
    ReconcileOverwrites(l, key, early, late);
    hide *;
    ClampNeverBinds(limits, ops, key, early, resource);
    ClampNeverBinds(limits, ops, key, late, resource);
    RunSnoc(Fresh(limits), ops, ReconcileScope(key, early));
    ClampNeverBinds(limits, ops + [ReconcileScope(key, early)], key, late, resource);
  }

  lemma {:induction false} RunSnoc(l: Ledger, ops: seq<Op>, op: Op)
    ensures Run(l, ops + [op]) == Apply(Run(l, ops), op)
    ensures op.ReconcileScope? ==> Apply(Run(l, ops), op) == Reconciled(Run(l, ops), op.key, op.costs)
  {
    assert (ops + [op])[..|ops|] == ops;
  }

  lemma {:induction false} ReconcileOverwrites(l: Ledger, key: string, early: Amounts, late: Amounts)
    ensures SameButUsed(Reconciled(Reconciled(l, key, early), key, late), Reconciled(l, key, late))
    ensures Scope(Reconciled(l, key, early), key) == Normalized(early)
  {
    hide Normalized, Amount, NonNegative, Scope, Reconciled;
    ReconciledScopes(l, key, early);
    ReconciledScopes(l, key, late);
    ReconciledScopes(Reconciled(l, key, early), key, late);
    Overwritten(l.scopes, key, Normalized(early), Normalized(late));
    ScopeOf(Reconciled(l, key, early), key, Normalized(early));
  }

  lemma {:induction false} ReconciledScopes(l: Ledger, key: string, costs: Amounts)
    ensures Reconciled(l, key, costs).scopes == l.scopes[key := Normalized(costs)]
    ensures Reconciled(l, key, costs)
            == l.(used := Reconciled(l, key, costs).used, scopes := l.scopes[key := Normalized(costs)])
  {
  }

  lemma {:induction false} Overwritten<K, V>(m: map<K, V>, key: K, a: V, b: V)
    ensures m[key := a][key := b] == m[key := b]
  {
  }

  lemma {:induction false} ScopeOf(l: Ledger, key: string, costs: Amounts)
    requires key in l.scopes && l.scopes[key] == costs
    ensures Scope(l, key) == costs
  {
  }

  predicate SameButUsed(a: Ledger, b: Ledger) {
    a.limits == b.limits && a.rejected == b.rejected && a.scopes == b.scopes && a.calls == b.calls
  }
}
