/** The greedy packer of whole units that fits a section into a token limit. */
module UnitPacker {

  /** The unit visited at a step: oldest first, or newest first. */
  function Visit<U>(units: seq<U>, newest: bool, step: nat): U
    requires step < |units|
  {
    units[if newest then |units| - 1 - step else step]
  }

  /** Units are kept in their original order whichever way they are visited. */
  function With<U>(selected: seq<U>, newest: bool, unit: U): seq<U> {
    if newest then [unit] + selected else selected + [unit]
  }

  function Packed<U>(units: seq<U>, limit: int, newest: bool, cost: seq<U> -> nat, steps: nat): seq<U>
    requires steps <= |units|
  {
    if steps == 0 then []
    else
      var selected := Packed(units, limit, newest, cost, steps - 1);
      var candidate := With(selected, newest, Visit(units, newest, steps - 1));
      if cost(candidate) <= limit then candidate else selected
  }

  method PackUnits<U>(units: seq<U>, limit: int, newest: bool, cost: seq<U> -> nat) returns (selected: seq<U>)
    ensures selected == Packed(units, limit, newest, cost, |units|)
  {
    selected := [];
    for step := 0 to |units|
      invariant selected == Packed(units, limit, newest, cost, step)
    {
      var candidate := With(selected, newest, Visit(units, newest, step));
      if cost(candidate) <= limit {
        selected := candidate;
      }
    }
  }

  // ----- what is packed

  predicate Subsequence<U(==)>(a: seq<U>, b: seq<U>) {
    a == [] || (b != [] && if a[0] == b[0] then Subsequence(a[1..], b[1..]) else Subsequence(a, b[1..]))
  }

  lemma {:induction false} SubsequenceDrops<U>(a: seq<U>, b: seq<U>)
    requires a != [] && Subsequence(a, b)
    ensures Subsequence(a[1..], b)
    decreases |b|, 0
  {
    if a[0] == b[0] {
      SubsequenceSkips(a[1..], b[1..], b[0]);
      assert [b[0]] + b[1..] == b;
    } else {
      SubsequenceDrops(a, b[1..]);
      SubsequenceSkips(a[1..], b[1..], b[0]);
      assert [b[0]] + b[1..] == b;
    }
  }

  lemma {:induction false} SubsequenceSkips<U>(a: seq<U>, b: seq<U>, unit: U)
    requires Subsequence(a, b)
    ensures Subsequence(a, [unit] + b)
    decreases |b|, 1
  {
    assert ([unit] + b)[1..] == b;
    if a != [] && a[0] == unit { SubsequenceDrops(a, b); }
  }

  lemma {:induction false} SubsequenceAppends<U>(a: seq<U>, b: seq<U>, unit: U)
    requires Subsequence(a, b)
    ensures Subsequence(a, b + [unit]) && Subsequence(a + [unit], b + [unit])
  {
    if b == [] {
      assert ([unit] + [])[1..] == [];
      assert a + [unit] == [unit] && b + [unit] == [unit];
    } else {
      assert (b + [unit])[1..] == b[1..] + [unit];
      if a == [] {
        SubsequenceAppends(a, b[1..], unit);
        assert a + [unit] == [unit];
      } else if a[0] == b[0] {
        SubsequenceAppends(a[1..], b[1..], unit);
        assert (a + [unit])[1..] == a[1..] + [unit];
      } else {
        SubsequenceAppends(a, b[1..], unit);
      }
    }
  }

  /** The units already visited, in their original order. */
  function Seen<U>(units: seq<U>, newest: bool, steps: nat): seq<U>
    requires steps <= |units|
  {
    if newest then units[|units| - steps..] else units[..steps]
  }

  lemma {:induction false} PackedIsSubsequence<U>(units: seq<U>, limit: int, newest: bool, cost: seq<U> -> nat,
                                                  steps: nat)
    requires steps <= |units|
    ensures Subsequence(Packed(units, limit, newest, cost, steps), Seen(units, newest, steps))
  {
    hide *;
    if steps == 0 {
      NothingPacked(units, limit, newest, cost);
    } else {
      PackedIsSubsequence(units, limit, newest, cost, steps - 1);
      var selected, seen := Packed(units, limit, newest, cost, steps - 1), Seen(units, newest, steps - 1);
      var unit := Visit(units, newest, steps - 1);
      PackedStep(units, limit, newest, cost, steps);
      SeenStep(units, newest, steps);
      WithIs(selected, newest, unit);
      WithIs(seen, newest, unit);
      if newest {
        SubsequenceSkips(selected, seen, unit);
        SubsequenceBoth(selected, seen, unit);
      } else {
        SubsequenceAppends(selected, seen, unit);
      }
    }
  }

  lemma {:induction false} NothingPacked<U>(units: seq<U>, limit: int, newest: bool, cost: seq<U> -> nat)
    ensures Subsequence(Packed(units, limit, newest, cost, 0), Seen(units, newest, 0))
  {
  }

  lemma {:induction false} PackedStep<U>(units: seq<U>, limit: int, newest: bool, cost: seq<U> -> nat, steps: nat)
    requires 0 < steps <= |units|
    ensures var selected := Packed(units, limit, newest, cost, steps - 1);
            || Packed(units, limit, newest, cost, steps) == selected
            || Packed(units, limit, newest, cost, steps) == With(selected, newest, Visit(units, newest, steps - 1))
  {
    hide With, Visit;
  }

  lemma {:induction false} SeenStep<U>(units: seq<U>, newest: bool, steps: nat)
    requires 0 < steps <= |units|
    ensures Seen(units, newest, steps) == With(Seen(units, newest, steps - 1), newest, Visit(units, newest, steps - 1))
  {
  }

  lemma {:induction false} WithIs<U>(selected: seq<U>, newest: bool, unit: U)
    ensures With(selected, newest, unit) == if newest then [unit] + selected else selected + [unit]
  {
  }

  lemma {:induction false} SubsequenceBoth<U>(a: seq<U>, b: seq<U>, unit: U)
    requires Subsequence(a, b)
    ensures Subsequence([unit] + a, [unit] + b)
  {
    assert ([unit] + a)[1..] == a && ([unit] + b)[1..] == b;
  }

  /** What is packed is an order-preserving subsequence of the units and, when the empty
      rendering fits, it fits. */
  lemma {:induction false} PacksWholeUnits<U>(units: seq<U>, limit: int, newest: bool, cost: seq<U> -> nat)
    ensures Subsequence(Packed(units, limit, newest, cost, |units|), units)
    ensures cost([]) <= limit ==> cost(Packed(units, limit, newest, cost, |units|)) <= limit
  {
    PackedIsSubsequence(units, limit, newest, cost, |units|);
    assert Seen(units, newest, |units|) == units;
    if cost([]) <= limit { PackedFits(units, limit, newest, cost, |units|); }
  }

  lemma {:induction false} PackedFits<U>(units: seq<U>, limit: int, newest: bool, cost: seq<U> -> nat, steps: nat)
    requires steps <= |units| && cost([]) <= limit
    ensures cost(Packed(units, limit, newest, cost, steps)) <= limit
  {
    if steps > 0 { PackedFits(units, limit, newest, cost, steps - 1); }
  }

  /** Adding a unit never lowers the rendered count. */
  ghost predicate Growing<U(!new)>(newest: bool, cost: seq<U> -> nat) {
    forall selected: seq<U>, unit: U :: cost(selected) <= cost(With(selected, newest, unit))
  }

  lemma {:induction false} PackedGrows<U(!new)>(units: seq<U>, limit: int, newest: bool, cost: seq<U> -> nat,
                                                from: nat, to: nat)
    requires from <= to <= |units| && Growing(newest, cost)
    ensures cost(Packed(units, limit, newest, cost, from)) <= cost(Packed(units, limit, newest, cost, to))
  {
    if from < to { PackedGrows(units, limit, newest, cost, from, to - 1); }
  }

  /** When everything fits together, everything is packed. */
  lemma {:induction false} PacksEverythingThatFits<U(!new)>(units: seq<U>, limit: int, newest: bool,
                                                            cost: seq<U> -> nat, steps: nat)
    requires steps <= |units| && Growing(newest, cost) && cost(Seen(units, newest, steps)) <= limit
    ensures Packed(units, limit, newest, cost, steps) == Seen(units, newest, steps)
  {
    if steps > 0 {
      var before := Seen(units, newest, steps - 1);
      assert Seen(units, newest, steps) == With(before, newest, Visit(units, newest, steps - 1));
      PacksEverythingThatFits(units, limit, newest, cost, steps - 1);
    }
  }

  /** At this step both limits have packed the same, and only the larger one still has room for the
      unit: packed with what is there, it costs more than the smaller limit. */
  predicate DivergesAt<U(==)>(units: seq<U>, low: int, high: int, newest: bool, cost: seq<U> -> nat, step: nat)
    requires step < |units|
  {
    var selected := Packed(units, high, newest, cost, step);
    && Packed(units, low, newest, cost, step) == selected
    && low < cost(With(selected, newest, Visit(units, newest, step))) <= high
  }

  /** Two limits pack the same, or there is a first step at which they diverge; from then on the larger
      limit has spent more than the smaller one could. */
  lemma {:induction false} PackedDiverges<U(!new)>(units: seq<U>, low: int, high: int, newest: bool,
                                                   cost: seq<U> -> nat, steps: nat)
    requires steps <= |units| && low <= high && Growing(newest, cost)
    ensures || Packed(units, low, newest, cost, steps) == Packed(units, high, newest, cost, steps)
            || (&& (exists step: nat :: step < steps && DivergesAt(units, low, high, newest, cost, step))
                && low < cost(Packed(units, high, newest, cost, steps)))
  {
    if steps > 0 {
      PackedDiverges(units, low, high, newest, cost, steps - 1);
      PackedGrows(units, high, newest, cost, steps - 1, steps);
      if Packed(units, low, newest, cost, steps - 1) == Packed(units, high, newest, cost, steps - 1)
         && Packed(units, low, newest, cost, steps) != Packed(units, high, newest, cost, steps) {
        assert DivergesAt(units, low, high, newest, cost, steps - 1);
      }
    }
  }

  /** A larger limit never packs less: where the runs differ, what the larger one has packed already
      costs more than the smaller limit. */
  lemma {:induction false} PackedMonotone<U(!new)>(units: seq<U>, low: int, high: int, newest: bool,
                                                   cost: seq<U> -> nat, steps: nat)
    requires steps <= |units| && low <= high && Growing(newest, cost) && cost([]) <= low
    ensures || Packed(units, low, newest, cost, steps) == Packed(units, high, newest, cost, steps)
            || low < cost(Packed(units, high, newest, cost, steps))
    ensures cost(Packed(units, low, newest, cost, steps)) <= cost(Packed(units, high, newest, cost, steps))
  {
    hide Growing, DivergesAt, Packed;
    PackedFits(units, low, newest, cost, steps);
    PackedDiverges(units, low, high, newest, cost, steps);
  }

  /** Packing again at exactly what was spent changes nothing. */
  lemma {:induction false} PackedStable<U(!new)>(units: seq<U>, limit: int, newest: bool, cost: seq<U> -> nat,
                                                 spent: nat, steps: nat)
    requires steps <= |units| && Growing(newest, cost)
    requires cost(Packed(units, limit, newest, cost, steps)) <= spent <= limit
    ensures Packed(units, spent, newest, cost, steps) == Packed(units, limit, newest, cost, steps)
  {
    if steps > 0 {
      PackedGrows(units, limit, newest, cost, steps - 1, steps);
      PackedStable(units, limit, newest, cost, spent, steps - 1);
    }
  }
}
