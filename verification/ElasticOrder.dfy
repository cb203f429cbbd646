/** In which order the pool is lent, whom it refuses, and where the texts come from. */
module ElasticOrder {
  import opened Results
  import opened Totals
  import opened ElasticPool

  // ----- priority

  /** Whoever got more than after the first pass stands behind names that all have their whole demand. */
  ghost predicate InOrder(tok: Tokenizer, q: Request, first: map<string, Part>, parts: map<string, Part>) {
    forall j | 0 <= j < |q.priority| && RaisedAt(q, first, parts, j) :: Met(tok, q, parts, j)
  }

  /** The name stands at `j` for the first time, and costs more than after the first pass. */
  predicate RaisedAt(q: Request, first: map<string, Part>, parts: map<string, Part>, j: nat)
    requires j < |q.priority|
  {
    && q.priority[j] !in q.priority[..j] && q.priority[j] in first && q.priority[j] in parts
    && first[q.priority[j]].cost < parts[q.priority[j]].cost
  }

  lemma {:induction false} MetStays(tok: Tokenizer, q: Request, before: map<string, Part>, name: string, part: Part,
                                    j: nat)
    requires j <= |q.priority| && Met(tok, q, before, j)
    requires name in before && before[name].cost <= part.cost <= Demand(tok, q, name)
    ensures Met(tok, q, before[name := part], j)
  {
    hide Demand;
  }

  lemma {:induction false} MetFewer(tok: Tokenizer, q: Request, parts: map<string, Part>, j: nat, steps: nat)
    requires j <= steps <= |q.priority| && Met(tok, q, parts, steps)
    ensures Met(tok, q, parts, j)
  {
    hide Demand;
  }

  lemma {:induction false} LendKeepsOrder(tok: Tokenizer, q: Request, first: map<string, Part>,
                                          before: map<string, Part>, remaining: int, steps: nat, part: Part)
    requires steps < |q.priority| && q.priority[steps] in before
    requires InOrder(tok, q, first, before) && (remaining == 0 || Met(tok, q, before, steps))
    requires var name := q.priority[steps];
             && before[name].cost <= part.cost <= Demand(tok, q, name)
             && (remaining == 0 ==> part.cost == before[name].cost)
    ensures InOrder(tok, q, first, before[q.priority[steps] := part])
  {
    hide Demand, Met;
    var name := q.priority[steps];
    var after := before[name := part];
    forall j | 0 <= j < |q.priority| && RaisedAt(q, first, after, j) ensures Met(tok, q, after, j) {
      if !RaisedAt(q, first, before, j) {
        assert q.priority[j] == name && remaining != 0;
        NotBehind(q.priority, steps, j);
        MetFewer(tok, q, before, j, steps);
      }
      MetStays(tok, q, before, name, part, j);
    }
  }

  lemma {:induction false} NotBehind(names: seq<string>, k: nat, j: nat)
    requires k < |names| && j < |names| && names[k] == names[j] && names[j] !in names[..j]
    ensures j <= k
  {
    assert forall i | 0 <= i < j :: names[..j][i] == names[i];
  }

  lemma {:induction false} ExactLendAt(tok: Tokenizer, q: Request, before: Lending, name: string)
    requires Exact(tok, q) && name in q.priority && name in before.parts && before.remaining >= 0
    requires before.parts[name].cost <= Demand(tok, q, name) && Lend(tok, q, before, name).Some?
    ensures var after := Lend(tok, q, before, name).value;
            && name in after.parts && after.parts == before.parts[name := after.parts[name]]
            && before.parts[name].cost <= after.parts[name].cost <= Demand(tok, q, name)
            && (before.remaining == 0 ==> after.parts[name].cost == before.parts[name].cost)
  {
    ExactFit(tok, q, name, before.parts[name].cost + before.remaining);
    hide Fit, Exact, Demand;
  }

  lemma {:induction false} SecondPassInOrder(tok: Tokenizer, q: Request, first: Lending, steps: nat)
    requires steps <= |q.priority| && first.parts.Keys == Names(q)
    requires first.remaining >= 0 && Exact(tok, q) && Within(tok, q, first.parts, first.parts)
    ensures SecondPass(tok, q, first, steps).Some?
    ensures InOrder(tok, q, first.parts, SecondPass(tok, q, first, steps).value.parts)
  {
    hide *;
    ExactSecondPass(tok, q, first, steps);
    if steps == 0 {
      SecondPassStart(tok, q, first);
      NothingRaised(tok, q, first.parts);
    } else {
      var name := q.priority[steps - 1];
      ExactSecondPass(tok, q, first, steps - 1);
      SecondPassStep(tok, q, first, steps, name);
      SecondPassInOrder(tok, q, first, steps - 1);
      var before, after := SecondPass(tok, q, first, steps - 1).value, SecondPass(tok, q, first, steps).value;
      WithinDemand(tok, q, first.parts, before.parts, name);
      ExactLendAt(tok, q, before, name);
      LendKeepsOrder(tok, q, first.parts, before.parts, before.remaining, steps - 1, after.parts[name]);
    }
  }

  lemma {:induction false} NothingRaised(tok: Tokenizer, q: Request, parts: map<string, Part>)
    ensures InOrder(tok, q, parts, parts)
  {
    hide Met;
  }

  /** With exact fitters the pool is lent strictly in the order of priority: a section that gets more than its
      quota and its demand allow at first stands, at its first place, behind sections that all have their whole
      demand. Together with what is conserved and guaranteed this fixes every share. */
  lemma {:induction false} LendsInOrder(tok: Tokenizer, q: Request, pool: nat, j: nat)
    requires Exact(tok, q) && j < |q.priority| && q.priority[j] !in q.priority[..j]
    ensures Allocated(tok, q, pool, WeightSum(q)).Some?
    ensures var parts := Allocated(tok, q, pool, WeightSum(q)).value.parts;
            var name := q.priority[j];
            && name in parts
            && (parts[name].cost > Min(Quota(q, pool, WeightSum(q), name), Demand(tok, q, name)) ==>
                  forall i | 0 <= i < j ::
                    q.priority[i] in parts && parts[q.priority[i]].cost == Demand(tok, q, q.priority[i]))
  {
    hide WeightSum, Quota, Exact, FirstPass, SecondPass, Demand, Total, Allocated, Min;
    var quotas := Quotas(q, pool, WeightSum(q));
    ExactFirstPass(tok, q, quotas, |q.priority|);
    var first := AllocatedUnfolds(tok, q, pool);
    FirstPassFitsPool(tok, q, pool);
    MinBounds(tok, q, quotas, first.parts);
    SecondPassInOrder(tok, q, first, |q.priority|);
    PoolConserved(tok, q, pool);
    var name := q.priority[j];
    assert name in Names(q);
    assert first.parts[name].cost == Min(quotas[name], Demand(tok, q, name));
    var parts := SecondPass(tok, q, first, |q.priority|).value.parts;
    assert name in parts;
    assert first.parts[name].cost < parts[name].cost ==> RaisedAt(q, first.parts, parts, j);
  }

  // ----- refusals

  /** No fitter returns more than it was offered. */
  ghost predicate Honest(tok: Tokenizer, q: Request) {
    forall name: string, limit: int | name in q.priority && 0 < limit ::
      tok.count(FitterOf(tok, q, name)(Candidate(q, name), limit)) <= limit
  }

  lemma {:induction false} HonestFit(tok: Tokenizer, q: Request, name: string, limit: int)
    requires Honest(tok, q) && name in q.priority
    ensures Fit(tok, q, name, limit).Some?
  {
  }

  lemma {:induction false} HonestFirstPass(tok: Tokenizer, q: Request, quotas: map<string, nat>, steps: nat)
    requires Honest(tok, q) && steps <= |q.priority| && quotas.Keys == Names(q)
    ensures FirstPass(tok, q, quotas, steps).Some?
  {
    hide *;
    if steps == 0 {
      FirstPassStart(tok, q, quotas);
    } else {
      HonestFirstPass(tok, q, quotas, steps - 1);
      FirstPassStep(tok, q, quotas, steps, q.priority[steps - 1]);
      HonestFit(tok, q, q.priority[steps - 1], quotas[q.priority[steps - 1]]);
    }
  }

  lemma {:induction false} FirstPassStart(tok: Tokenizer, q: Request, quotas: map<string, nat>)
    requires quotas.Keys == Names(q)
    ensures FirstPass(tok, q, quotas, 0) == Some(map[])
  {
  }

  lemma {:induction false} HonestSecondPass(tok: Tokenizer, q: Request, first: Lending, steps: nat)
    requires Honest(tok, q) && steps <= |q.priority| && first.parts.Keys == Names(q)
    ensures SecondPass(tok, q, first, steps).Some?
  {
    hide *;
    if steps == 0 {
      SecondPassStart(tok, q, first);
    } else {
      var name := q.priority[steps - 1];
      HonestSecondPass(tok, q, first, steps - 1);
      SecondPassStep(tok, q, first, steps, name);
      LendIs(tok, q, SecondPass(tok, q, first, steps - 1).value, name);
      HonestFit(tok, q, name, SecondPass(tok, q, first, steps - 1).value.parts[name].cost
                              + SecondPass(tok, q, first, steps - 1).value.remaining);
    }
  }

  lemma {:induction false} LendIs(tok: Tokenizer, q: Request, before: Lending, name: string)
    requires name in before.parts
    ensures var limit := before.parts[name].cost + before.remaining;
            match Fit(tok, q, name, limit)
            case None => Lend(tok, q, before, name) == None
            case Some(part) => Lend(tok, q, before, name)
                               == Some(Lending(before.parts[name := part], limit - part.cost))
  {
    hide Fit;
  }

  /** As long as no fitter oversteps what it is offered, nothing is refused. */
  lemma {:induction false} HonestFittersAreNeverRefused(tok: Tokenizer, q: Request, pool: nat)
    requires Honest(tok, q)
    ensures Allocated(tok, q, pool, WeightSum(q)).Some?
  {
    hide *;
    HonestFirstPass(tok, q, Quotas(q, pool, WeightSum(q)), |q.priority|);
    var first := AllocatedUnfolds(tok, q, pool);
    HonestSecondPass(tok, q, first, |q.priority|);
  }

  /** What a fitter makes of the candidate of its section at a limit; without one of its own the tokenizer's. */
  function Fitted(tok: Tokenizer, q: Request, name: string, limit: int): string {
    (if name in q.fitters then q.fitters[name] else tok.fit)
      (if name in q.candidates then q.candidates[name] else "", limit)
  }

  predicate Oversteps(tok: Tokenizer, q: Request, name: string, limit: int) {
    0 < limit && limit < tok.count(Fitted(tok, q, name, limit))
  }

  lemma {:induction false} FitIs(tok: Tokenizer, q: Request, name: string, limit: int)
    ensures Fit(tok, q, name, limit)
         == if Oversteps(tok, q, name, limit) then None
            else if limit <= 0 then Some(Part("", 0))
            else Some(Part(Fitted(tok, q, name, limit), tok.count(Fitted(tok, q, name, limit))))
  {
  }

  /** A fitter that oversteps its quota makes the whole request fail. */
  lemma {:induction false} OversteppingIsRefused(tok: Tokenizer, q: Request, pool: nat, name: string)
    requires name in q.priority && Oversteps(tok, q, name, Quota(q, pool, WeightSum(q), name))
    ensures Allocated(tok, q, pool, WeightSum(q)) == None
  {
    hide WeightSum, Quota, FirstPass, SecondPass, Fit, Oversteps, Total, Costs;
    var quotas := Quotas(q, pool, WeightSum(q));
    if FirstPass(tok, q, quotas, |q.priority|).Some? {
      FirstPassFits(tok, q, quotas, |q.priority|);
      assert q.priority[..|q.priority|] == q.priority;
      FitIs(tok, q, name, quotas[name]);
    }
  }

  // ----- the texts

  /** The part is empty, or what the fitter of its section made of the section's candidate within the pool. */
  ghost predicate IsFitted(tok: Tokenizer, q: Request, pool: int, name: string, part: Part) {
    part == Part("", 0) || exists limit | 0 < limit <= pool :: FittedAt(tok, q, name, part, limit)
  }

  predicate FittedAt(tok: Tokenizer, q: Request, name: string, part: Part, limit: int) {
    part == Part(Fitted(tok, q, name, limit), tok.count(Fitted(tok, q, name, limit))) && part.cost <= limit
  }

  ghost predicate AllFitted(tok: Tokenizer, q: Request, pool: int, parts: map<string, Part>) {
    forall name | name in parts :: IsFitted(tok, q, pool, name, parts[name])
  }

  lemma {:induction false} FitGives(tok: Tokenizer, q: Request, name: string, limit: int, pool: int)
    requires limit <= pool && Fit(tok, q, name, limit).Some?
    ensures IsFitted(tok, q, pool, name, Fit(tok, q, name, limit).value)
  {
    FitIs(tok, q, name, limit);
    hide Fitted;
    if 0 < limit { assert FittedAt(tok, q, name, Fit(tok, q, name, limit).value, limit); }
  }

  lemma {:induction false} WithinTotal(costs: map<string, nat>, name: string)
    requires name in costs
    ensures costs[name] <= Total(costs)
  {
    TotalWithout(costs, name);
    TotalNotNegative(costs - {name});
  }

  lemma {:induction false} FirstPassFitted(tok: Tokenizer, q: Request, pool: nat)
    requires FirstPass(tok, q, Quotas(q, pool, WeightSum(q)), |q.priority|).Some?
    ensures AllFitted(tok, q, pool, FirstPass(tok, q, Quotas(q, pool, WeightSum(q)), |q.priority|).value)
  {
    hide WeightSum, Quota, FirstPass, Fit, IsFitted, Total;
    var quotas := Quotas(q, pool, WeightSum(q));
    var parts := FirstPass(tok, q, quotas, |q.priority|).value;
    FirstPassFits(tok, q, quotas, |q.priority|);
    QuotasFitPool(q, pool);
    forall name | name in parts ensures IsFitted(tok, q, pool, name, parts[name]) {
      WithinTotal(quotas, name);
      FitGives(tok, q, name, quotas[name], pool);
    }
  }

  lemma {:induction false} SecondPassFitted(tok: Tokenizer, q: Request, first: Lending, pool: nat, steps: nat)
    requires steps <= |q.priority| && first.parts.Keys == Names(q) && first.remaining >= 0
    requires Total(Costs(first.parts)) + first.remaining == pool && AllFitted(tok, q, pool, first.parts)
    requires SecondPass(tok, q, first, steps).Some?
    ensures AllFitted(tok, q, pool, SecondPass(tok, q, first, steps).value.parts)
  {
    hide *;
    if steps == 0 {
      SecondPassStart(tok, q, first);
    } else {
      var name := q.priority[steps - 1];
      SecondPassStep(tok, q, first, steps, name);
      SecondPassFitted(tok, q, first, pool, steps - 1);
      SecondPassConserves(tok, q, first, steps - 1);
      var before := SecondPass(tok, q, first, steps - 1).value;
      LendIs(tok, q, before, name);
      CostIs(before.parts, name);
      WithinTotal(Costs(before.parts), name);
      var limit := before.parts[name].cost + before.remaining;
      FitGives(tok, q, name, limit, pool);
      MoreFitted(tok, q, pool, before.parts, name, Fit(tok, q, name, limit).value);
    }
  }

  lemma {:induction false} CostIs(parts: map<string, Part>, name: string)
    requires name in parts
    ensures name in Costs(parts) && Costs(parts)[name] == parts[name].cost
  {
  }

  lemma {:induction false} MoreFitted(tok: Tokenizer, q: Request, pool: int, parts: map<string, Part>, name: string,
                                      part: Part)
    requires AllFitted(tok, q, pool, parts) && IsFitted(tok, q, pool, name, part)
    ensures AllFitted(tok, q, pool, parts[name := part])
  {
    hide IsFitted;
  }

  /** Every section's text is empty, or what its own fitter made of its own candidate at some limit within the
      pool, charged with its own token count and within that limit. */
  lemma {:induction false} TextsAreFitted(tok: Tokenizer, q: Request, pool: nat)
    requires Allocated(tok, q, pool, WeightSum(q)).Some?
    ensures AllFitted(tok, q, pool, Allocated(tok, q, pool, WeightSum(q)).value.parts)
  {
    hide *;
    var first := AllocatedUnfolds(tok, q, pool);
    FirstPassFitsPool(tok, q, pool);
    FirstPassFitted(tok, q, pool);
    SecondPassFitted(tok, q, first, pool, |q.priority|);
  }
}
