/** Sums over finite maps, shared by the section allocator and the budget ledger. */
module Totals {

  function Amount<K>(m: map<K, int>, key: K): int { if key in m then m[key] else 0 }

  ghost function Total<K(!new)>(m: map<K, int>): int
    decreases |m|
  {
    if m == map[] then 0 else
      var key :| key in m;
      SmallerWithout(m, key);
      m[key] + Total(m - {key})
  }

  lemma {:induction false} SmallerWithout<K, V>(m: map<K, V>, key: K)
    requires key in m
    ensures |m - {key}| == |m| - 1
  {
    assert (m - {key}).Keys == m.Keys - {key};
    assert |(m - {key}).Keys| == |m - {key}| && |m.Keys| == |m|;
  }

  lemma {:induction false} TotalWithout<K(!new)>(m: map<K, int>, key: K)
    ensures Total(m) == Amount(m, key) + Total(m - {key})
    decreases |m|
  {
    if key !in m {
      assert m - {key} == m;
    } else {
      var chosen :| chosen in m && Total(m) == m[chosen] + Total(m - {chosen});
      if chosen != key {
        SmallerWithout(m, key);
        SmallerWithout(m, chosen);
        TotalWithout(m - {chosen}, key);
        TotalWithout(m - {key}, chosen);
        assert m - {chosen} - {key} == m - {key} - {chosen};
      }
    }
  }

  /** Writing one entry moves the total by exactly the difference. */
  lemma {:induction false} TotalUpdate<K(!new)>(m: map<K, int>, key: K, value: int)
    ensures Total(m[key := value]) == Total(m) - Amount(m, key) + value
  {
    TotalWithout(m, key);
    TotalWithout(m[key := value], key);
    assert m[key := value] - {key} == m - {key};
  }

  lemma {:induction false} TotalNotNegative<K(!new)>(m: map<K, int>)
    requires forall key | key in m :: 0 <= m[key]
    ensures 0 <= Total(m)
    decreases |m|
  {
    if m != map[] {
      var key :| key in m;
      TotalWithout(m, key);
      SmallerWithout(m, key);
      TotalNotNegative(m - {key});
    }
  }

  lemma {:induction false} TotalBounds<K(!new)>(low: map<K, int>, high: map<K, int>)
    requires low.Keys == high.Keys && forall key | key in low :: low[key] <= high[key]
    ensures Total(low) <= Total(high)
    decreases |low|
  {
    if low == map[] {
      assert high == map[];
    } else {
      var key :| key in low;
      TotalWithout(low, key);
      TotalWithout(high, key);
      SmallerWithout(low, key);
      TotalBounds(low - {key}, high - {key});
    }
  }

  /** Adding a map of new or zero entries adds its total. */
  lemma {:induction false} TotalMerge<K(!new)>(m: map<K, int>, more: map<K, int>)
    requires forall key | key in more :: Amount(m, key) == 0
    ensures Total(m + more) == Total(m) + Total(more)
    decreases |more|
  {
    if more == map[] {
      assert m + more == m;
    } else {
      var key :| key in more;
      var rest := more - {key};
      TotalWithout(more, key);
      SmallerWithout(more, key);
      TotalMerge(m, rest);
      MergeEntry(m, more, key);
      TotalUpdate(m + rest, key, more[key]);
    }
  }

  lemma {:induction false} MergeEntry<K>(m: map<K, int>, more: map<K, int>, key: K)
    requires key in more
    ensures m + more == (m + (more - {key}))[key := more[key]]
    ensures Amount(m + (more - {key}), key) == Amount(m, key)
  {
  }

  /** The entries under the given names. */
  function Among<K, V>(m: map<K, V>, names: set<K>): map<K, V> {
    map key | key in m && key in names :: m[key]
  }

  /** Writing several entries adds their total and takes back what they overwrite. */
  lemma {:induction false} TotalOverwrite<K(!new)>(m: map<K, int>, more: map<K, int>)
    ensures Total(m + more) == Total(m) - Total(Among(m, more.Keys)) + Total(more)
  {
    hide Total;
    var kept, lost := m - more.Keys, Among(m, more.Keys);
    TotalMerge(kept, more);
    TotalMerge(kept, lost);
    assert kept + more == m + more && kept + lost == m;
  }
}
