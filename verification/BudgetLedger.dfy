/** The budget ledger as a value: one function per ledger operation, and runs of operations. */
module BudgetLedger {
  import opened Totals

  type Amounts = map<string, int>

  datatype CallRecord = CallRecord(purpose: string, usage: string)

  datatype Ledger = Ledger(limits: Amounts, used: Amounts, rejected: map<string, nat>,
                           scopes: map<string, Amounts>, calls: map<string, CallRecord>)

  function NonNegative(value: int): nat { if value < 0 then 0 else value }

  function Normalized(costs: Amounts): Amounts { map r | r in costs :: NonNegative(costs[r]) }

  /** Missing entries are written as zero. */
  function Defaulted(m: Amounts, keys: set<string>): Amounts {
    map r | r in m.Keys + keys :: Amount(m, r)
  }

  function Plus(m: Amounts, costs: Amounts): Amounts {
    map r | r in m.Keys + costs.Keys :: Amount(m, r) + Amount(costs, r)
  }

  /** A limit of zero means unlimited. */
  predicate Fits(l: Ledger, resource: string, amount: int) {
    Amount(l.limits, resource) <= 0 || Amount(l.used, resource) + amount <= Amount(l.limits, resource)
  }

  predicate AllFit(l: Ledger, costs: Amounts) {
    forall r | r in costs :: Fits(l, r, costs[r])
  }

  function Fresh(limits: Amounts): Ledger {
    Ledger(Normalized(limits), map r | r in limits :: 0, map r | r in limits :: 0, map[], map[])
  }

  function Mentioned(l: Ledger, resources: set<string>): Ledger {
    l.(limits := Defaulted(l.limits, resources), used := Defaulted(l.used, resources))
  }

  function Refused(l: Ledger, resources: set<string>): map<string, nat> {
    map r | r in l.rejected.Keys + resources ::
      (if r in l.rejected then l.rejected[r] else 0) + if r in resources then 1 else 0
  }

  /** Several resources at once: all are charged, or none and those that do not fit are counted. */
  function ReservedMany(l: Ledger, costs: Amounts): Ledger {
    var n := Normalized(costs);
    var seen := Mentioned(l, n.Keys);
    if AllFit(l, n) then seen.(used := Plus(seen.used, n))
    else seen.(rejected := Refused(seen, set r | r in n && !Fits(l, r, n[r])))
  }

  function Reserved(l: Ledger, resource: string, amount: int): Ledger {
    var seen := Mentioned(l, {resource});
    if Fits(l, resource, NonNegative(amount))
    then seen.(used := seen.used[resource := Amount(l.used, resource) + NonNegative(amount)])
    else seen.(rejected := Refused(seen, {resource}))
  }

  function Recorded(l: Ledger, resource: string, amount: int): Ledger {
    Mentioned(l.(used := l.used[resource := Amount(l.used, resource) + NonNegative(amount)]), {resource})
  }

  function ReservedScope(l: Ledger, key: string, costs: Amounts): Ledger {
    if key in l.scopes then l
    else
      var after := ReservedMany(l, costs);
      if AllFit(l, Normalized(costs)) then after.(scopes := after.scopes[key := Normalized(costs)]) else after
  }

  predicate ScopeAdmitted(l: Ledger, key: string, costs: Amounts) {
    key in l.scopes || AllFit(l, Normalized(costs))
  }

  function Scope(l: Ledger, key: string): Amounts {
    if key in l.scopes then l.scopes[key] else map[]
  }

  /** The scope's old costs are taken back and its new ones charged, never below zero. */
  function Reconciled(l: Ledger, key: string, costs: Amounts): Ledger {
    var previous, n := Scope(l, key), Normalized(costs);
    l.(used := l.used + (map r | r in previous.Keys + n.Keys ::
                           NonNegative(Amount(l.used, r) - Amount(previous, r) + Amount(n, r)) as int),
       scopes := l.scopes[key := n])
  }

  function ReservedCall(l: Ledger, key: string, purpose: string, costs: Amounts): Ledger {
    var after := ReservedScope(l, key, costs);
    if ScopeAdmitted(l, key, costs) then after.(calls := after.calls[key := CallRecord(purpose, "unknown")]) else after
  }

  /** Settling an unknown call fails only after its costs have been charged. */
  function SettledCall(l: Ledger, key: string, costs: Amounts, usage: string): Ledger {
    var after := Reconciled(l, key, costs);
    if key in after.calls then after.(calls := after.calls[key := after.calls[key].(usage := usage)]) else after
  }

  // ----- merging the calls of a durable snapshot

  /** Calls in the order the snapshot lists them. */
  datatype Journal = Journal(calls: seq<(string, CallRecord)>, scopes: map<string, Amounts>)

  datatype Merge = Merge(ledger: Ledger, failed: bool)

  predicate Skipped(l: Ledger, journal: Journal, purpose: string, index: nat)
    requires index < |journal.calls|
  {
    journal.calls[index].1.purpose != purpose || journal.calls[index].0 in l.calls
  }

  function JournalCosts(journal: Journal, index: nat): Amounts
    requires index < |journal.calls|
  {
    if journal.calls[index].0 in journal.scopes then journal.scopes[journal.calls[index].0] else map[]
  }

  /** A call whose scope is missing or empty stops the merge; what was merged before stays. */
  function Merged(l: Ledger, journal: Journal, purpose: string, count: nat): Merge
    requires count <= |journal.calls|
  {
    if count == 0 then Merge(l, false)
    else
      var before := Merged(l, journal, purpose, count - 1);
      if before.failed || Skipped(before.ledger, journal, purpose, count - 1) then before
      else if JournalCosts(journal, count - 1) == map[] then Merge(before.ledger, true)
      else
        var (key, record) := journal.calls[count - 1];
        var charged := Reconciled(before.ledger, key, JournalCosts(journal, count - 1));
        Merge(charged.(calls := charged.calls[key := record]), false)
  }

  // ----- runs

  /** Every operation but a full restore. Each runs under the ledger's lock, so any interleaving
      of threads is some sequence of these. */
  datatype Op = Reserve(resource: string, amount: int)
              | ReserveMany(costs: Amounts)
              | ReserveScope(key: string, costs: Amounts)
              | ReconcileScope(key: string, costs: Amounts)
              | Check(resource: string)
              | Record(resource: string, amount: int)
              | ReserveCall(key: string, purpose: string, costs: Amounts)
              | SettleCall(key: string, costs: Amounts, usage: string)
              | MergeCalls(journal: Journal, purpose: string)

  function Apply(l: Ledger, op: Op): Ledger {
    match op
    case Reserve(resource, amount) => Reserved(l, resource, amount)
    case ReserveMany(costs) => ReservedMany(l, costs)
    case ReserveScope(key, costs) => ReservedScope(l, key, costs)
    case ReconcileScope(key, costs) => Reconciled(l, key, costs)
    case Check(resource) => Mentioned(l, {resource})
    case Record(resource, amount) => Recorded(l, resource, amount)
    case ReserveCall(key, purpose, costs) => ReservedCall(l, key, purpose, costs)
    case SettleCall(key, costs, usage) => SettledCall(l, key, costs, usage)
    case MergeCalls(journal, purpose) => Merged(l, journal, purpose, |journal.calls|).ledger
  }

  function Run(l: Ledger, ops: seq<Op>): Ledger {
    if ops == [] then l else Apply(Run(l, ops[..|ops| - 1]), ops[|ops| - 1])
  }

  /** What an operation charges outside any scope. */
  function Direct(l: Ledger, op: Op): Amounts {
    match op
    case Reserve(resource, amount) => if Fits(l, resource, NonNegative(amount))
                                      then map[resource := NonNegative(amount)] else map[]
    case ReserveMany(costs) => if AllFit(l, Normalized(costs)) then Normalized(costs) else map[]
    case Record(resource, amount) => map[resource := NonNegative(amount)]
    case _ => map[]
  }

  function DirectCharges(l: Ledger, ops: seq<Op>, resource: string): int {
    if ops == [] then 0
    else
      var before := ops[..|ops| - 1];
      DirectCharges(l, before, resource) + Amount(Direct(Run(l, before), ops[|ops| - 1]), resource)
  }
}
