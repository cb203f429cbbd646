/** The mutable ledger: every method does to the fields what its function does to the ledger value. */
module BudgetManager {
  import opened Results
  import opened Totals
  import opened BudgetLedger

  datatype Decision = Decision(allowed: bool, used: int, limit: int, remaining: Option<int>)

  /** None means the resource is not limited. */
  function Remaining(limit: int, used: int): Option<int> {
    if limit <= 0 then None else Some(NonNegative(limit - used))
  }

  /** The answer to a request, `used` being the usage that is reported with it. */
  function Judged(l: Ledger, resource: string, amount: int, used: int): Decision {
    Decision(Fits(l, resource, amount), used, Amount(l.limits, resource), Remaining(Amount(l.limits, resource), used))
  }

  function Judgements(l: Ledger, costs: Amounts, charged: bool, names: set<string>): map<string, Decision> {
    map r | r in names :: Judged(l, r, Amount(costs, r), Amount(l.used, r) + if charged then Amount(costs, r) else 0)
  }

  /** The same decisions after the charge: all allowed, with the usage they led to. */
  function Charged(decisions: map<string, Decision>, used: Amounts): map<string, Decision> {
    map r | r in decisions ::
      Decision(true, Amount(used, r), decisions[r].limit, Remaining(decisions[r].limit, Amount(used, r)))
  }

  lemma {:induction false} JudgementsRefuse(l: Ledger, n: Amounts)
    ensures var decisions := Judgements(l, n, false, n.Keys);
            var refused := set r | r in decisions && !decisions[r].allowed;
            && decisions.Keys == n.Keys
            && refused == (set r | r in n && !Fits(l, r, n[r]))
            && (refused == {} <==> AllFit(l, n))
  {
    var decisions := Judgements(l, n, false, n.Keys);
    var refused := set r | r in decisions && !decisions[r].allowed;
    forall r | r in n ensures decisions[r].allowed == Fits(l, r, n[r]) {}
    if AllFit(l, n) {
      assert refused == {};
    } else {
      var r :| r in n && !Fits(l, r, n[r]);
      assert r in refused;
    }
  }

  lemma {:induction false} JudgementsAllow(l: Ledger, n: Amounts, names: set<string>)
    requires n.Keys == names
    ensures AllFit(l, n)
            <==> forall r | r in Judgements(l, n, AllFit(l, n), names) ::
                 Judgements(l, n, AllFit(l, n), names)[r].allowed
  {
    hide Fits;
    forall r | r in n ensures Judgements(l, n, AllFit(l, n), names)[r].allowed == Fits(l, r, n[r]) {}
  }

  lemma {:induction false} JudgementsCharge(l: Ledger, n: Amounts)
    requires AllFit(l, n)
    ensures Charged(Judgements(l, n, false, n.Keys), Plus(Mentioned(l, n.Keys).used, n))
            == Judgements(l, n, true, n.Keys)
  {
    PlusAmounts(l, n);
    hide Plus, Defaulted;
  }

  // ----- what one round of each loop does

  lemma {:induction false} DefaultedMore(m: Amounts, done: set<string>, r: string)
    ensures Defaulted(m, done + {r}) == if r in Defaulted(m, done) then Defaulted(m, done)
            else Defaulted(m, done)[r := 0]
    ensures Amount(Defaulted(m, done), r) == Amount(m, r)
  {
  }

  function PlusSome(m: Amounts, costs: Amounts, done: set<string>): Amounts {
    map r | r in m :: m[r] + if r in done then Amount(costs, r) else 0
  }

  lemma {:induction false} PlusMore(m: Amounts, costs: Amounts, done: set<string>, r: string)
    requires r in m && r in costs && r !in done
    ensures PlusSome(m, costs, done + {r}) == PlusSome(m, costs, done)[r := PlusSome(m, costs, done)[r] + costs[r]]
  {
  }

  lemma {:induction false} PlusAll(m: Amounts, costs: Amounts)
    requires costs.Keys <= m.Keys
    ensures PlusSome(m, costs, costs.Keys) == Plus(m, costs) && PlusSome(m, costs, {}) == m
  {
  }

  lemma {:induction false} RefusedMore(l: Ledger, done: set<string>, r: string)
    requires r !in done
    ensures Refused(l, done + {r})
         == Refused(l, done)[r := (if r in Refused(l, done) then Refused(l, done)[r] else 0) + 1]
  {
  }

  lemma {:induction false} RefusedNone(l: Ledger)
    ensures Refused(l, {}) == l.rejected
  {
  }

  function Adjusted(used: Amounts, previous: Amounts, costs: Amounts, done: set<string>): Amounts {
    map r | r in done :: NonNegative(Amount(used, r) - Amount(previous, r) + Amount(costs, r)) as int
  }

  function Adjust(used: Amounts, previous: Amounts, costs: Amounts, done: set<string>): Amounts {
    used + Adjusted(used, previous, costs, done)
  }

  lemma {:induction false} AdjustMore(used: Amounts, previous: Amounts, costs: Amounts, done: set<string>, r: string)
    requires r !in done
    ensures Adjust(used, previous, costs, done + {r})
         == Adjust(used, previous, costs, done)[r := NonNegative(Amount(Adjust(used, previous, costs, done), r)
                                                                 - Amount(previous, r) + Amount(costs, r))]
  {
    var value := NonNegative(Amount(used, r) - Amount(previous, r) + Amount(costs, r)) as int;
    assert Adjusted(used, previous, costs, done + {r}) == Adjusted(used, previous, costs, done)[r := value];
    WriteThrough(used, Adjusted(used, previous, costs, done), r, value);
    assert r !in Adjusted(used, previous, costs, done);
  }

  lemma {:induction false} AdjustNone(used: Amounts, previous: Amounts, costs: Amounts)
    ensures Adjust(used, previous, costs, {}) == used
  {
  }

  lemma {:induction false} WriteThrough(m: Amounts, more: Amounts, key: string, value: int)
    ensures m + more[key := value] == (m + more)[key := value]
    ensures key !in more ==> Amount(m + more, key) == Amount(m, key)
    ensures m + map[] == m
  {
  }

  class BudgetManager {
    var limits: Amounts
    var used: Amounts
    var rejected: map<string, nat>
    var scopes: map<string, Amounts>
    var calls: map<string, CallRecord>

    ghost function View(): Ledger
      reads this
    {
      Ledger(limits, used, rejected, scopes, calls)
    }

    constructor (limits: Amounts)
      ensures View() == Fresh(limits)
    {
      this.limits := Normalized(limits);
      used := map r | r in limits :: 0;
      rejected := map r | r in limits :: 0;
      scopes := map[];
      calls := map[];
    }

    method Mention(resource: string)
      modifies this
      ensures View() == Mentioned(old(View()), {resource})
    {
      DefaultedMore(used, {}, resource);
      DefaultedMore(limits, {}, resource);
      assert Defaulted(used, {}) == used && Defaulted(limits, {}) == limits && {} + {resource} == {resource};
      if resource !in used { used := used[resource := 0]; }
      if resource !in limits { limits := limits[resource := 0]; }
    }

    method Reserve(resource: string, amount: int) returns (decision: Decision)
      modifies this
      ensures View() == Reserved(old(View()), resource, amount)
      ensures var l := old(View());
              decision == Judged(l, resource, NonNegative(amount),
                                 Amount(l.used, resource) + if Fits(l, resource, NonNegative(amount))
                                   then NonNegative(amount) else 0)
    {
      var value := NonNegative(amount);
      var before := Amount(used, resource);
      Mention(resource);
      var limit := limits[resource];
      var fits := limit <= 0 || before + value <= limit;
      if fits {
        used := used[resource := before + value];
      } else {
        ghost var seen := Mentioned(old(View()), {resource});
        RefusedNone(seen);
        RefusedMore(seen, {}, resource);
        assert {} + {resource} == {resource};
        rejected := rejected[resource := (if resource in rejected then rejected[resource] else 0) + 1];
      }
      decision := Decision(fits, used[resource], limit, Remaining(limit, used[resource]));
    }

    method JudgeAll(n: Amounts) returns (decisions: map<string, Decision>)
      modifies this
      ensures View() == Mentioned(old(View()), n.Keys)
      ensures decisions == Judgements(old(View()), n, false, n.Keys)
    {
      hide Judged, Judgements, Mentioned, Fits, Amount, Normalized;
      ghost var l := View();
      var rest := n.Keys;
      ghost var done: set<string> := {};
      decisions := map[];
      JudgedNone(l, n);
      while rest != {}
        invariant done + rest == n.Keys && done !! rest
        invariant View() == Mentioned(l, done)
        invariant decisions == Judgements(l, n, false, done)
        decreases |rest|
      {
        var r :| r in rest;
        JudgedMore(l, n, done, r);
        if r !in used { used := used[r := 0]; }
        if r !in limits { limits := limits[r := 0]; }
        var limit := limits[r];
        decisions := decisions[r := Decision(limit <= 0 || used[r] + n[r] <= limit, used[r], limit,
                                             Remaining(limit, used[r]))];
        done := done + {r};
        rest := rest - {r};
      }
      assert done == n.Keys;
    }

    method CountRefusals(refused: set<string>)
      modifies this`rejected
      ensures rejected == Refused(old(View()), refused)
    {
      hide Refused;
      ghost var l := View();
      var rest := refused;
      ghost var done: set<string> := {};
      RefusedNone(l);
      while rest != {}
        invariant done + rest == refused && done !! rest
        invariant rejected == Refused(l, done)
        decreases |rest|
      {
        var r :| r in rest;
        RefusedMore(l, done, r);
        rejected := rejected[r := (if r in rejected then rejected[r] else 0) + 1];
        done := done + {r};
        rest := rest - {r};
      }
      assert done == refused;
    }

    method ChargeAll(n: Amounts)
      requires n.Keys <= used.Keys
      modifies this`used
      ensures used == Plus(old(used), n)
    {
      hide *;
      ghost var before := used;
      var rest := n.Keys;
      ghost var done: set<string> := {};
      PlusAll(before, n);
      while rest != {}
        invariant done + rest == n.Keys && done !! rest
        invariant used == PlusSome(before, n, done) && used.Keys == before.Keys
        decreases |rest|
      {
        var r :| r in rest;
        PlusMore(before, n, done, r);
        used := used[r := used[r] + n[r]];
        done := done + {r};
        rest := rest - {r};
      }
      assert done == n.Keys;
    }

    /** First every request is judged; then either all are charged or the refusals are counted. */
    method ReserveMany(costs: Amounts) returns (decisions: map<string, Decision>)
      modifies this
      ensures View() == ReservedMany(old(View()), costs)
      ensures decisions == Judgements(old(View()), Normalized(costs), AllFit(old(View()), Normalized(costs)),
                                      costs.Keys)
    {
      hide Refused, Plus, Defaulted, Normalized, AllFit, Judgements, Fits;
      ghost var l := View();
      var n := Normalized(costs);
      NormalizedKeys(costs);
      decisions := JudgeAll(n);
      var refused := set r | r in decisions && !decisions[r].allowed;
      JudgementsRefuse(l, n);
      if refused != {} {
        RefusedMentioned(l, n.Keys, refused);
        CountRefusals(refused);
      } else {
        PlusAmounts(l, n);
        ChargeAll(n);
        decisions := Charged(decisions, used);
        JudgementsCharge(l, n);
      }
    }

    method ReserveScope(key: string, costs: Amounts) returns (ok: bool)
      modifies this
      ensures View() == ReservedScope(old(View()), key, costs)
      ensures ok == ScopeAdmitted(old(View()), key, costs)
    {
      hide ReservedMany, Judgements, AllFit;
      if key in scopes { return true; }
      ghost var l := View();
      var decisions := ReserveMany(costs);
      JudgementsAllow(l, Normalized(costs), costs.Keys);
      if exists r | r in decisions :: !decisions[r].allowed { return false; }
      scopes := scopes[key := Normalized(costs)];
      return true;
    }

    method AdjustUsage(previous: Amounts, n: Amounts, keys: set<string>)
      modifies this`used
      ensures used == Adjust(old(used), previous, n, keys)
    {
      hide *;
      ghost var before := used;
      AdjustNone(before, previous, n);
      var rest := keys;
      ghost var done: set<string> := {};
      while rest != {}
        invariant done + rest == keys && done !! rest
        invariant used == Adjust(before, previous, n, done)
        decreases |rest|
      {
        var r :| r in rest;
        AdjustMore(before, previous, n, done, r);
        used := used[r := NonNegative(Amount(used, r) - Amount(previous, r) + Amount(n, r))];
        done := done + {r};
        rest := rest - {r};
      }
      assert done == keys;
    }

    method ReconcileScope(key: string, costs: Amounts)
      modifies this
      ensures View() == Reconciled(old(View()), key, costs)
    {
      hide Normalized;
      var previous := if key in scopes then scopes[key] else map[];
      var n := Normalized(costs);
      AdjustUsage(previous, n, previous.Keys + n.Keys);
      scopes := scopes[key := n];
    }

    method Check(resource: string, amount: int) returns (decision: Decision)
      modifies this
      ensures View() == Mentioned(old(View()), {resource})
      ensures decision == Judged(old(View()), resource, NonNegative(amount), Amount(old(used), resource))
    {
      Mention(resource);
      var limit := limits[resource];
      var value := NonNegative(amount);
      decision := Decision(limit <= 0 || used[resource] + value <= limit, used[resource], limit,
                           Remaining(limit, used[resource]));
    }

    method Record(resource: string, amount: int) returns (decision: Decision)
      modifies this
      ensures View() == Recorded(old(View()), resource, amount)
      ensures decision == Judged(View(), resource, 0, Amount(old(used), resource) + NonNegative(amount))
    {
      used := used[resource := Amount(used, resource) + NonNegative(amount)];
      decision := Check(resource, 0);
    }

    method ReserveModelCall(key: string, purpose: string, costs: Amounts) returns (ok: bool)
      modifies this
      ensures View() == ReservedCall(old(View()), key, purpose, costs)
      ensures ok == ScopeAdmitted(old(View()), key, costs)
    {
      hide ReservedScope, ScopeAdmitted;
      ok := ReserveScope(key, costs);
      if !ok { return; }
      calls := calls[key := CallRecord(purpose, "unknown")];
    }

    /** An unknown key is an error, raised only after its costs were charged. */
    method SettleModelCall(key: string, costs: Amounts, usage: string) returns (known: bool)
      modifies this
      ensures View() == SettledCall(old(View()), key, costs, usage)
      ensures known == (key in old(calls))
    {
      hide Reconciled;
      ReconcileScope(key, costs);
      assert calls == old(calls) by { KeepsCalls(old(View()), key, costs); }
      known := key in calls;
      if known {
        calls := calls[key := calls[key].(usage := usage)];
      }
    }

    /** Charges the calls the ledger does not know yet; a call without costs is an error. */
    method RestoreMissingModelCalls(journal: Journal, purpose: string) returns (ok: bool)
      modifies this
      ensures View() == Merged(old(View()), journal, purpose, |journal.calls|).ledger
      ensures ok == !Merged(old(View()), journal, purpose, |journal.calls|).failed
    {
      hide Reconciled;
      ghost var l := View();
      for i := 0 to |journal.calls|
        invariant Merged(l, journal, purpose, i) == Merge(View(), false)
      {
        var (key, record) := journal.calls[i];
        if record.purpose == purpose && key !in calls {
          var costs := if key in journal.scopes then journal.scopes[key] else map[];
          if costs == map[] {
            MergeStops(l, journal, purpose, i + 1, |journal.calls|);
            return false;
          }
          ReconcileScope(key, costs);
          calls := calls[key := record];
        }
      }
      return true;
    }
  }

  lemma {:induction false} JudgedNone(l: Ledger, n: Amounts)
    ensures Mentioned(l, {}) == l && Judgements(l, n, false, {}) == map[]
  {
  }

  lemma {:induction false} JudgedMore(l: Ledger, n: Amounts, done: set<string>, r: string)
    requires r in n && r !in done
    ensures var before, after := Mentioned(l, done), Mentioned(l, done + {r});
            && after == before.(used := if r in before.used then before.used else before.used[r := 0],
                                limits := if r in before.limits then before.limits else before.limits[r := 0])
            && r in after.used && r in after.limits
            && Judgements(l, n, false, done + {r})
               == Judgements(l, n, false, done)[r :=
                    Decision(after.limits[r] <= 0 || after.used[r] + n[r] <= after.limits[r],
                             after.used[r], after.limits[r], Remaining(after.limits[r], after.used[r]))]
  {
    hide *;
    MentionedMore(l, done, r);
    JudgementsMore(l, n, done, r);
    JudgedDefault(l, done, r, n[r]);
  }

  lemma {:induction false} MentionedMore(l: Ledger, done: set<string>, r: string)
    ensures var before, after := Mentioned(l, done), Mentioned(l, done + {r});
            after == before.(used := if r in before.used then before.used else before.used[r := 0],
                             limits := if r in before.limits then before.limits else before.limits[r := 0])
  {
    hide Defaulted;
    DefaultedMore(l.used, done, r);
    DefaultedMore(l.limits, done, r);
  }

  lemma {:induction false} JudgementsMore(l: Ledger, n: Amounts, done: set<string>, r: string)
    requires r in n && r !in done
    ensures Judgements(l, n, false, done + {r})
            == Judgements(l, n, false, done)[r := Judged(l, r, n[r], Amount(l.used, r))]
  {
    hide Judged;
  }

  lemma {:induction false} JudgedDefault(l: Ledger, done: set<string>, r: string, amount: int)
    ensures var seen := Mentioned(l, done + {r});
            && r in seen.used && r in seen.limits
            && Judged(l, r, amount, Amount(l.used, r))
               == Decision(seen.limits[r] <= 0 || seen.used[r] + amount <= seen.limits[r], seen.used[r], seen.limits[r],
                           Remaining(seen.limits[r], seen.used[r]))
  {
  }

  lemma {:induction false} RefusedMentioned(l: Ledger, names: set<string>, refused: set<string>)
    ensures Refused(Mentioned(l, names), refused) == Refused(l, refused)
  {
  }

  lemma {:induction false} NormalizedKeys(costs: Amounts)
    ensures Normalized(costs).Keys == costs.Keys
  {
  }

  lemma {:induction false} PlusAmounts(l: Ledger, n: Amounts)
    ensures n.Keys <= Mentioned(l, n.Keys).used.Keys
    ensures forall r | r in n ::
              r in Plus(Mentioned(l, n.Keys).used, n)
                && Plus(Mentioned(l, n.Keys).used, n)[r] == Amount(l.used, r) + n[r]
  {
  }

  lemma {:induction false} KeepsCalls(l: Ledger, key: string, costs: Amounts)
    ensures Reconciled(l, key, costs).calls == l.calls
  {
  }

  lemma {:induction false} MergeStops(l: Ledger, journal: Journal, purpose: string, from: nat, to: nat)
    requires from <= to <= |journal.calls| && Merged(l, journal, purpose, from).failed
    ensures Merged(l, journal, purpose, to) == Merged(l, journal, purpose, from)
  {
    if from < to { MergeStops(l, journal, purpose, from, to - 1); }
  }
}
