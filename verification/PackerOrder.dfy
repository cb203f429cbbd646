/** Exactly which units the packer takes: each one that fits beside those it took before. */
module PackerOrder {
  import opened UnitPacker

  /** The units at the chosen positions from `i` on, in order. */
  function Chosen<U>(units: seq<U>, taken: set<nat>, i: nat): seq<U>
    requires i <= |units|
    decreases |units| - i
  {
    if i == |units| then [] else (if i in taken then [units[i]] else []) + Chosen(units, taken, i + 1)
  }

  /** What was taken when the turn came to `p`: of the older ones, or of the newer ones. */
  function Earlier(taken: set<nat>, newest: bool, p: nat): set<nat> {
    set q | q in taken && if newest then p < q else q < p
  }

  ghost predicate TakenIffItFits<U(!new)>(units: seq<U>, limit: int, newest: bool, cost: seq<U> -> nat, taken: set<nat>,
                                          p: nat)
  {
    p in taken <==> cost(Chosen(units, Earlier(taken, newest, p) + {p}, 0)) <= limit
  }

  /** Position `p` is visited within so many steps. */
  predicate Visited<U>(units: seq<U>, newest: bool, steps: nat, p: nat) {
    p < |units| && if newest then |units| - steps <= p else p < steps
  }

  lemma {:induction false} ChosenUnfolds<U>(units: seq<U>, taken: set<nat>, i: nat)
    requires i <= |units|
    ensures i == |units| ==> Chosen(units, taken, i) == []
    ensures i < |units| ==>
              Chosen(units, taken, i) == (if i in taken then [units[i]] else []) + Chosen(units, taken, i + 1)
  {
  }

  lemma {:induction false} ChosenAgrees<U>(units: seq<U>, a: set<nat>, b: set<nat>, i: nat)
    requires i <= |units| && forall q: nat | i <= q < |units| :: q in a <==> q in b
    ensures Chosen(units, a, i) == Chosen(units, b, i)
    decreases |units| - i
  {
    hide Chosen;
    ChosenUnfolds(units, a, i);
    ChosenUnfolds(units, b, i);
    if i < |units| { ChosenAgrees(units, a, b, i + 1); }
  }

  lemma {:induction false} NothingChosen<U>(units: seq<U>, taken: set<nat>, i: nat)
    requires i <= |units| && forall q | q in taken :: q < i
    ensures Chosen(units, taken, i) == []
    decreases |units| - i
  {
    hide Chosen;
    ChosenUnfolds(units, taken, i);
    if i < |units| { NothingChosen(units, taken, i + 1); }
  }

  /** A unit in front of all that are taken. */
  lemma {:induction false} OlderChosen<U>(units: seq<U>, taken: set<nat>, p: nat, i: nat)
    requires i <= p < |units| && forall q | q in taken :: p < q
    ensures Chosen(units, taken + {p}, i) == [units[p]] + Chosen(units, taken, i)
    decreases |units| - i
  {
    hide Chosen;
    ChosenUnfolds(units, taken, i);
    ChosenUnfolds(units, taken + {p}, i);
    if i < p {
      OlderChosen(units, taken, p, i + 1);
      assert [] + Chosen(units, taken, i + 1) == Chosen(units, taken, i + 1);
      assert [] + Chosen(units, taken + {p}, i + 1) == Chosen(units, taken + {p}, i + 1);
    } else {
      ChosenAgrees(units, taken, taken + {p}, i + 1);
      assert [] + Chosen(units, taken, i + 1) == Chosen(units, taken, i + 1);
    }
  }

  /** A unit behind all that are taken. */
  lemma {:induction false} NewerChosen<U>(units: seq<U>, taken: set<nat>, p: nat, i: nat)
    requires i <= p < |units| && forall q | q in taken :: q < p
    ensures Chosen(units, taken + {p}, i) == Chosen(units, taken, i) + [units[p]]
    decreases |units| - i
  {
    hide Chosen;
    ChosenUnfolds(units, taken, i);
    ChosenUnfolds(units, taken + {p}, i);
    if i < p {
      NewerChosen(units, taken, p, i + 1);
    } else {
      NothingChosen(units, taken, i + 1);
      NothingChosen(units, taken + {p}, i + 1);
    }
  }

  lemma {:induction false} WithIsChosen<U>(units: seq<U>, taken: set<nat>, newest: bool, p: nat)
    requires p < |units| && forall q | q in taken :: if newest then p < q else q < p
    ensures With(Chosen(units, taken, 0), newest, units[p]) == Chosen(units, taken + {p}, 0)
  {
    hide Chosen;
    if newest { OlderChosen(units, taken, p, 0); } else { NewerChosen(units, taken, p, 0); }
  }

  lemma {:induction false} EarlierStays(taken: set<nat>, newest: bool, p: nat, q: nat)
    requires if newest then p < q else q < p
    ensures Earlier(taken + {p}, newest, q) == Earlier(taken, newest, q)
  {
  }

  lemma {:induction false} EarlierIsAll(taken: set<nat>, newest: bool, p: nat)
    requires forall q | q in taken :: if newest then p < q else q < p
    ensures Earlier(taken, newest, p) == taken && Earlier(taken + {p}, newest, p) == taken && p !in taken
  {
    assert p !in taken;
  }

  lemma {:induction false} StepUnfolds<U>(units: seq<U>, limit: int, newest: bool, cost: seq<U> -> nat, steps: nat,
                                          next: nat, p: nat)
    requires next == steps + 1 <= |units| && p == if newest then |units| - next else steps
    ensures var selected := Packed(units, limit, newest, cost, steps);
            Packed(units, limit, newest, cost, next)
            == if cost(With(selected, newest, units[p])) <= limit then With(selected, newest, units[p]) else selected
    ensures forall q: nat :: Visited(units, newest, next, q) <==> q == p || Visited(units, newest, steps, q)
    ensures forall q: nat | Visited(units, newest, steps, q) :: if newest then p < q else q < p
  {
    hide With;
  }

  lemma {:induction false} TakenSoFar<U(!new)>(units: seq<U>, limit: int, newest: bool, cost: seq<U> -> nat, steps: nat)
    returns (taken: set<nat>)
    requires steps <= |units|
    ensures forall q | q in taken :: Visited(units, newest, steps, q)
    ensures Packed(units, limit, newest, cost, steps) == Chosen(units, taken, 0)
    ensures forall q: nat | Visited(units, newest, steps, q) :: TakenIffItFits(units, limit, newest, cost, taken, q)
  {
    if steps == 0 {
      taken := {};
      NothingChosen(units, taken, 0);
    } else {
      var before := TakenSoFar(units, limit, newest, cost, steps - 1);
      var p := if newest then |units| - steps else steps - 1;
      StepUnfolds(units, limit, newest, cost, steps - 1, steps, p);
      WithIsChosen(units, before, newest, p);
      EarlierIsAll(before, newest, p);
      hide Packed, Chosen, With, Earlier, Visited;
      taken := if cost(Chosen(units, before + {p}, 0)) <= limit then before + {p} else before;
      forall q: nat | Visited(units, newest, steps, q) ensures TakenIffItFits(units, limit, newest, cost, taken, q) {
        if q != p {
          assert TakenIffItFits(units, limit, newest, cost, before, q);
          EarlierStays(before, newest, p, q);
        }
      }
    }
  }

  ghost predicate IsPacking<U(!new)>(units: seq<U>, limit: int, newest: bool, cost: seq<U> -> nat, taken: set<nat>,
                                     packed: seq<U>)
  {
    && (forall q | q in taken :: q < |units|) && packed == Chosen(units, taken, 0)
    && forall q: nat | q < |units| :: TakenIffItFits(units, limit, newest, cost, taken, q)
  }

  /** The packer takes exactly the units that fit beside those it took before, in the order it visits them, and
      keeps them in the order they had. One that does not fit does not keep a later one out. */
  lemma {:induction false} PackedIffItFits<U(!new)>(units: seq<U>, limit: int, newest: bool, cost: seq<U> -> nat)
    ensures exists taken :: IsPacking(units, limit, newest, cost, taken, Packed(units, limit, newest, cost, |units|))
  {
    var taken := TakenSoFar(units, limit, newest, cost, |units|);
    hide Packed, Chosen, TakenIffItFits;
    assert IsPacking(units, limit, newest, cost, taken, Packed(units, limit, newest, cost, |units|));
  }
}
