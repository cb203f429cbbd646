/** Merging the calls of a durable journal into a ledger, and exactly what a merge does to usage. */
module BudgetMerges {
  import opened Totals
  import opened BudgetLedger
  import opened BudgetLaws

  // ----- one entry

  lemma {:induction false} MergeStep(l: Ledger, journal: Journal, purpose: string, count: nat, before: Merge,
                                     after: Merge)
    requires 0 < count <= |journal.calls|
    requires before == Merged(l, journal, purpose, count - 1) && after == Merged(l, journal, purpose, count)
    ensures || after == before
            || (after == Merge(before.ledger, true) && !before.failed)
            || (&& !before.failed && !after.failed
                && after.ledger.limits == before.ledger.limits
                && after.ledger.calls == before.ledger.calls[journal.calls[count - 1].0 := journal.calls[count - 1].1]
                && after.ledger.scopes
                   == before.ledger.scopes[journal.calls[count - 1].0 := Normalized(JournalCosts(journal, count - 1))])
    ensures after == before ==> before.failed || Skipped(before.ledger, journal, purpose, count - 1)
  {
    hide Normalized;
  }

  lemma {:induction false} MergeKeepsCalls(l: Ledger, journal: Journal, purpose: string, count: nat)
    requires count <= |journal.calls|
    ensures l.calls.Keys <= Merged(l, journal, purpose, count).ledger.calls.Keys
    ensures Merged(l, journal, purpose, count).ledger.scopes.Keys
         <= l.scopes.Keys + Merged(l, journal, purpose, count).ledger.calls.Keys
    ensures Merged(l, journal, purpose, count).ledger.limits == l.limits
  {
    hide *;
    if count == 0 {
      MergeNothing(l, journal, purpose);
    } else {
      MergeKeepsCalls(l, journal, purpose, count - 1);
      var before, after := Merged(l, journal, purpose, count - 1), Merged(l, journal, purpose, count);
      MergeStep(l, journal, purpose, count, before, after);
      WrittenKeys(before.ledger.calls, journal.calls[count - 1].0, journal.calls[count - 1].1);
      WrittenKeys(before.ledger.scopes, journal.calls[count - 1].0, Normalized(JournalCosts(journal, count - 1)));
    }
  }

  lemma {:induction false} WrittenKeys<V>(m: map<string, V>, key: string, value: V)
    ensures m[key := value].Keys == m.Keys + {key}
  {
  }

  lemma {:induction false} MergedIsSkipped(l: Ledger, journal: Journal, purpose: string, count: nat)
    requires count <= |journal.calls| && !Merged(l, journal, purpose, count).failed
    ensures forall i | 0 <= i < count :: Skipped(Merged(l, journal, purpose, count).ledger, journal, purpose, i)
  {
    hide Merged;
    if count > 0 {
      var before, after := Merged(l, journal, purpose, count - 1), Merged(l, journal, purpose, count);
      MergeStep(l, journal, purpose, count, before, after);
      MergedIsSkipped(l, journal, purpose, count - 1);
      assert before.ledger.calls.Keys <= after.ledger.calls.Keys;
      forall i | 0 <= i < count
        ensures Skipped(after.ledger, journal, purpose, i)
      {
        if i < count - 1 { assert Skipped(before.ledger, journal, purpose, i); }
      }
    }
  }

  lemma {:induction false} SkippedIsNothing(l: Ledger, journal: Journal, purpose: string, count: nat)
    requires count <= |journal.calls| && forall i | 0 <= i < count :: Skipped(l, journal, purpose, i)
    ensures Merged(l, journal, purpose, count) == Merge(l, false)
  {
    if count > 0 { SkippedIsNothing(l, journal, purpose, count - 1); }
  }

  lemma {:induction false} MergeTwice(l: Ledger, journal: Journal, purpose: string, count: nat)
    requires count <= |journal.calls|
    ensures Merged(Merged(l, journal, purpose, count).ledger, journal, purpose, count)
            == Merged(l, journal, purpose, count)
  {
    if count > 0 {
      MergeTwice(l, journal, purpose, count - 1);
      var after := Merged(l, journal, purpose, count);
      if after.ledger != Merged(l, journal, purpose, count - 1).ledger {
        MergedIsSkipped(l, journal, purpose, count);
        SkippedIsNothing(after.ledger, journal, purpose, count);
      }
    }
  }

  /** Merging a journal again changes nothing and fails exactly if it failed before. */
  lemma {:induction false} MergeIsIdempotent(l: Ledger, journal: Journal, purpose: string)
    ensures var once := Merged(l, journal, purpose, |journal.calls|);
            Merged(once.ledger, journal, purpose, |journal.calls|) == once
  {
    MergeTwice(l, journal, purpose, |journal.calls|);
  }

  // ----- which calls a merge adds, read off the ledger and the journal

  /** The journal lists a call of this purpose under the key among its first entries. */
  predicate Listed(journal: Journal, purpose: string, count: nat, key: string)
    requires count <= |journal.calls|
  {
    count > 0
    && (Listed(journal, purpose, count - 1, key)
        || (journal.calls[count - 1].1.purpose == purpose && journal.calls[count - 1].0 == key))
  }

  /** A call of this purpose that the ledger does not know, listed for the first time. */
  predicate New(l: Ledger, journal: Journal, purpose: string, i: nat)
    requires i < |journal.calls|
  {
    !Skipped(l, journal, purpose, i) && !Listed(journal, purpose, i, journal.calls[i].0)
  }

  /** One of the first entries is new and has no costs, which stops the merge there. */
  predicate Stopped(l: Ledger, journal: Journal, purpose: string, count: nat)
    requires count <= |journal.calls|
  {
    count > 0
    && (Stopped(l, journal, purpose, count - 1)
        || (New(l, journal, purpose, count - 1) && JournalCosts(journal, count - 1) == map[]))
  }

  predicate Added(l: Ledger, journal: Journal, purpose: string, i: nat)
    requires i < |journal.calls|
  {
    New(l, journal, purpose, i) && !Stopped(l, journal, purpose, i + 1)
  }

  /** What adding one call changes: its journal costs replace what its key holds now. */
  function CallGain(l: Ledger, journal: Journal, i: nat, resource: string): int
    requires i < |journal.calls|
  {
    Amount(Normalized(JournalCosts(journal, i)), resource) - Amount(Scope(l, journal.calls[i].0), resource)
  }

  /** The sum over all calls the merge adds. */
  function Gain(l: Ledger, journal: Journal, purpose: string, count: nat, resource: string): int
    requires count <= |journal.calls|
  {
    if count == 0 then 0
    else
      Gain(l, journal, purpose, count - 1, resource)
      + if Added(l, journal, purpose, count - 1) then CallGain(l, journal, count - 1, resource) else 0
  }

  // ----- the merge does exactly that

  /** The state after some entries: stopped or not, which calls are known, which scopes are untouched. */
  ghost predicate Foreseen(l: Ledger, journal: Journal, purpose: string, count: nat, m: Merge, key: string)
    requires count <= |journal.calls|
  {
    && (m.failed <==> Stopped(l, journal, purpose, count))
    && (!m.failed ==> (key in m.ledger.calls <==> key in l.calls || Listed(journal, purpose, count, key)))
    && (!Listed(journal, purpose, count, key) ==> Scope(m.ledger, key) == Scope(l, key))
  }

  lemma {:induction false} MergeEntry(l: Ledger, journal: Journal, purpose: string, count: nat)
    requires 0 < count <= |journal.calls|
    ensures var before := Merged(l, journal, purpose, count - 1);
            var (key, record) := journal.calls[count - 1];
            Merged(l, journal, purpose, count)
            == if before.failed || Skipped(before.ledger, journal, purpose, count - 1) then before
               else if JournalCosts(journal, count - 1) == map[] then Merge(before.ledger, true)
               else Merge(Registered(Reconciled(before.ledger, key, JournalCosts(journal, count - 1)), key, record),
                          false)
  {
    hide Reconciled, Skipped, JournalCosts;
  }

  function Registered(l: Ledger, key: string, record: CallRecord): Ledger { l.(calls := l.calls[key := record]) }

  lemma {:induction false} MergeForeseen(l: Ledger, journal: Journal, purpose: string, count: nat, key: string)
    requires count <= |journal.calls|
    ensures Foreseen(l, journal, purpose, count, Merged(l, journal, purpose, count), key)
  {
    hide Merged, JournalCosts, Scope, Reconciled, Normalized;
    if count == 0 {
      MergeNothing(l, journal, purpose);
    } else {
      var before, own := Merged(l, journal, purpose, count - 1), journal.calls[count - 1].0;
      MergeForeseen(l, journal, purpose, count - 1, key);
      MergeForeseen(l, journal, purpose, count - 1, own);
      MergeEntry(l, journal, purpose, count);
      ReconciledElsewhere(before.ledger, own, JournalCosts(journal, count - 1), journal.calls[count - 1].1, key);
    }
  }

  lemma {:induction false} ReconciledElsewhere(l: Ledger, own: string, costs: Amounts, record: CallRecord, key: string)
    ensures var after := Registered(Reconciled(l, own, costs), own, record);
            && (key != own ==> Scope(after, key) == Scope(l, key))
            && (key in after.calls <==> key in l.calls || key == own)
  {
    ReconciledScopes(l, own, costs);
    hide Reconciled, Normalized;
  }

  lemma {:induction false} MergeNothing(l: Ledger, journal: Journal, purpose: string)
    ensures Merged(l, journal, purpose, 0) == Merge(l, false)
  {
  }

  lemma {:induction false} AddedEntry(l: Ledger, journal: Journal, purpose: string, count: nat)
    requires 0 < count <= |journal.calls|
    ensures var before := Merged(l, journal, purpose, count - 1);
            && (Added(l, journal, purpose, count - 1)
                <==> !before.failed && !Skipped(before.ledger, journal, purpose, count - 1)
                     && JournalCosts(journal, count - 1) != map[])
            && (Added(l, journal, purpose, count - 1)
                ==> Scope(before.ledger, journal.calls[count - 1].0) == Scope(l, journal.calls[count - 1].0))
  {
    hide Merged, JournalCosts, Scope;
    MergeForeseen(l, journal, purpose, count - 1, journal.calls[count - 1].0);
  }

  lemma {:induction false} MergeGains(l: Ledger, journal: Journal, purpose: string, count: nat, resource: string,
                                      direct: int)
    requires count <= |journal.calls| && NonNegativeScopes(l.scopes) && Explained(l, resource, direct)
    ensures Amount(Merged(l, journal, purpose, count).ledger.used, resource)
         == Amount(l.used, resource) + Gain(l, journal, purpose, count, resource)
  {
    hide NonNegativeScopes, Explained, Merged, Added, JournalCosts, Scope, Reconciled, Normalized, Amount, Skipped;
    if count == 0 {
      MergeNothing(l, journal, purpose);
    } else {
      var before := Merged(l, journal, purpose, count - 1);
      MergeGains(l, journal, purpose, count - 1, resource, direct);
      MergeEntry(l, journal, purpose, count);
      AddedEntry(l, journal, purpose, count);
      MergeExplained(l, journal, purpose, count - 1, resource, direct);
      ReconcileExplained(before.ledger, journal.calls[count - 1].0, JournalCosts(journal, count - 1), resource, direct);
    }
  }

  /** A merge changes the usage of every resource by exactly the gain of the calls it adds, so it
      refunds if and only if that gain is negative. */
  lemma {:induction false} MergeRefundsExactly(limits: Amounts, ops: seq<Op>, journal: Journal, purpose: string,
                                               resource: string)
    ensures var l := Run(Fresh(limits), ops);
            var after := Merged(l, journal, purpose, |journal.calls|).ledger;
            && Amount(after.used, resource)
               == Amount(l.used, resource) + Gain(l, journal, purpose, |journal.calls|, resource)
            && (Amount(after.used, resource) < Amount(l.used, resource)
                <==> Gain(l, journal, purpose, |journal.calls|, resource) < 0)
  {
    hide *;
    var l := Run(Fresh(limits), ops);
    UsageIsExplained(limits, ops, resource);
    Explain(l, resource, DirectCharges(Fresh(limits), ops, resource));
    MergeGains(l, journal, purpose, |journal.calls|, resource, DirectCharges(Fresh(limits), ops, resource));
  }

  lemma {:induction false} GainOfLargerCosts(l: Ledger, journal: Journal, purpose: string, count: nat, resource: string)
    requires count <= |journal.calls|
    requires forall i | 0 <= i < count && Added(l, journal, purpose, i) :: 0 <= CallGain(l, journal, i, resource)
    ensures 0 <= Gain(l, journal, purpose, count, resource)
  {
    hide Added, CallGain;
    if count > 0 { GainOfLargerCosts(l, journal, purpose, count - 1, resource); }
  }

  /** So no reachable ledger is refunded when no added call costs less than its key already holds;
      in particular when the added calls are unknown to the scopes. */
  lemma {:induction false} LargerCostsNeverRefund(limits: Amounts, ops: seq<Op>, journal: Journal, purpose: string,
                                                  resource: string)
    requires var l := Run(Fresh(limits), ops);
             forall i | 0 <= i < |journal.calls| && Added(l, journal, purpose, i) ::
               journal.calls[i].0 !in l.scopes || 0 <= CallGain(l, journal, i, resource)
    ensures var l := Run(Fresh(limits), ops);
            Amount(l.used, resource) <= Amount(Merged(l, journal, purpose, |journal.calls|).ledger.used, resource)
  {
    var l := Run(Fresh(limits), ops);
    forall i | 0 <= i < |journal.calls| && Added(l, journal, purpose, i)
           ensures 0 <= CallGain(l, journal, i, resource) {
      if journal.calls[i].0 !in l.scopes { UnknownGain(l, journal, i, resource); }
    }
    hide *;
    GainOfLargerCosts(l, journal, purpose, |journal.calls|, resource);
    MergeRefundsExactly(limits, ops, journal, purpose, resource);
  }

  lemma {:induction false} UnknownGain(l: Ledger, journal: Journal, i: nat, resource: string)
    requires i < |journal.calls| && journal.calls[i].0 !in l.scopes
    ensures 0 <= CallGain(l, journal, i, resource)
  {
  }

  lemma {:induction false} MergeRaises(l: Ledger, journal: Journal, purpose: string, count: nat, resource: string)
    requires count <= |journal.calls|
    requires forall i | 0 <= i < count :: Skipped(l, journal, purpose, i) || journal.calls[i].0 !in l.scopes
    ensures Amount(l.used, resource) <= Amount(Merged(l, journal, purpose, count).ledger.used, resource)
  {
    if count > 0 {
      MergeRaises(l, journal, purpose, count - 1, resource);
      var before := Merged(l, journal, purpose, count - 1);
      if !before.failed && !Skipped(before.ledger, journal, purpose, count - 1)
        && JournalCosts(journal, count - 1) != map[] {
        MergeKeepsCalls(l, journal, purpose, count - 1);
        NewScopeRaises(before.ledger, journal.calls[count - 1].0, JournalCosts(journal, count - 1), resource);
      }
    }
  }

  lemma {:induction false} NewScopeRaises(l: Ledger, key: string, costs: Amounts, resource: string)
    requires key !in l.scopes
    ensures Amount(l.used, resource) <= Amount(Reconciled(l, key, costs).used, resource)
  {
  }

  /** A merge never refunds: usage only grows when every call it adds is unknown to the scopes. */
  lemma {:induction false} MergeNeverRefunds(l: Ledger, journal: Journal, purpose: string, resource: string)
    requires forall i | 0 <= i < |journal.calls| :: Skipped(l, journal, purpose, i) || journal.calls[i].0 !in l.scopes
    ensures Amount(l.used, resource) <= Amount(Merged(l, journal, purpose, |journal.calls|).ledger.used, resource)
  {
    MergeRaises(l, journal, purpose, |journal.calls|, resource);
  }

  /** Without that condition it can: a worker scope under the same key is replaced by a smaller cost. */
  lemma {:induction false} MergeCanRefund()
    ensures var l := Run(Fresh(map[]), [ReserveScope("k", map["tokens" := 5])]);
            var journal := Journal([("k", CallRecord("summary", "unknown"))], map["k" := map["tokens" := 1]]);
            && Amount(l.used, "tokens") == 5
            && !Merged(l, journal, "summary", 1).failed
            && Amount(Merged(l, journal, "summary", 1).ledger.used, "tokens") == 1
  {
    WorkerScope();
    var l := Run(Fresh(map[]), [ReserveScope("k", map["tokens" := 5])]);
    var journal := Journal([("k", CallRecord("summary", "unknown"))], map["k" := map["tokens" := 1]]);
    assert Merged(l, journal, "summary", 0) == Merge(l, false);
    assert JournalCosts(journal, 0) == map["tokens" := 1];
    ReconciledUsage(l, "k", map["tokens" := 1], "tokens");
    hide Run, Fresh, Reconciled, Scope;
  }

  lemma {:induction false} WorkerScope()
    ensures var l := Run(Fresh(map[]), [ReserveScope("k", map["tokens" := 5])]);
            Amount(l.used, "tokens") == 5 && Amount(Scope(l, "k"), "tokens") == 5 && "k" !in l.calls
  {
    assert [ReserveScope("k", map["tokens" := 5])][..0] == [];
    assert Run(Fresh(map[]), [ReserveScope("k", map["tokens" := 5])])
        == ReservedScope(Fresh(map[]), "k", map["tokens" := 5]);
  }
}
