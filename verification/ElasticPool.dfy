/** The two-pass allocator: soft quotas first, then unused capacity is lent in priority order. */
module ElasticPool {
  import opened Results
  import opened Totals
  import opened UnitPacker

  type Fitter = (string, int) -> string

  datatype Tokenizer = Tokenizer(count: string -> nat, fit: Fitter)

  /** What the tokenizer promises of its own trimming. */
  ghost predicate Sound(tok: Tokenizer) {
    && tok.count("") == 0
    && forall text: string, limit: int | 0 <= limit :: tok.count(tok.fit(text, limit)) <= limit
  }

  datatype Request = Request(candidates: map<string, string>, weights: map<string, nat>,
                             priority: seq<string>, fitters: map<string, Fitter>)

  datatype Part = Part(text: string, cost: nat)

  datatype Lending = Lending(parts: map<string, Part>, remaining: int)

  datatype ElasticError = DuplicateSection | FitterExceedsBudget

  function Candidate(q: Request, name: string): string {
    if name in q.candidates then q.candidates[name] else ""
  }

  function Demand(tok: Tokenizer, q: Request, name: string): nat { tok.count(Candidate(q, name)) }

  function FitterOf(tok: Tokenizer, q: Request, name: string): Fitter {
    if name in q.fitters then q.fitters[name] else tok.fit
  }

  /** A fitter is trusted with nothing: what it returns is counted again and refused when too long. */
  function Fit(tok: Tokenizer, q: Request, name: string, limit: int): (r: Option<Part>)
    ensures r.Some? ==> r.value.cost <= if limit <= 0 then 0 else limit
  {
    if limit <= 0 then Some(Part("", 0))
    else
      var text := FitterOf(tok, q, name)(Candidate(q, name), limit);
      if tok.count(text) > limit then None else Some(Part(text, tok.count(text)))
  }

  function Names(q: Request): set<string> { set name | name in q.priority }

  function Quotas(q: Request, pool: nat, weightSum: nat): (r: map<string, nat>)
    requires weightSum > 0
    ensures r.Keys == Names(q)
  {
    map name | name in q.priority :: Quota(q, pool, weightSum, name)
  }

  function Quota(q: Request, pool: nat, weightSum: nat, name: string): (r: nat)
    requires weightSum > 0
  {
    var weight: nat := Amount(q.weights, name);
    NonNegativeProduct(pool, weight);
    pool * weight / weightSum
  }

  lemma {:induction false} NonNegativeProduct(a: nat, b: nat)
    ensures a * b >= 0
  {
  }

  function FirstPass(tok: Tokenizer, q: Request, quotas: map<string, nat>, steps: nat): (r: Option<map<string, Part>>)
    requires steps <= |q.priority| && quotas.Keys == Names(q)
    ensures r.Some? ==> r.value.Keys == set name | name in q.priority[..steps]
  {
    if steps == 0 then Some(map[])
    else
      var before := FirstPass(tok, q, quotas, steps - 1);
      if before.None? then None
      else
        var name := q.priority[steps - 1];
        var part := Fit(tok, q, name, quotas[name]);
        assert q.priority[..steps] == q.priority[..steps - 1] + [name];
        if part.None? then None else Some(before.value[name := part.value])
  }

  /** One visit of the second pass: what the name had, plus everything still unused, is its new limit. */
  function Lend(tok: Tokenizer, q: Request, before: Lending, name: string): (r: Option<Lending>)
    requires name in before.parts
    ensures r.Some? ==> r.value.parts.Keys == before.parts.Keys
  {
    var limit := before.parts[name].cost + before.remaining;
    match Fit(tok, q, name, limit)
    case None => None
    case Some(part) => Some(Lending(before.parts[name := part], limit - part.cost))
  }

  function SecondPass(tok: Tokenizer, q: Request, first: Lending, steps: nat): (r: Option<Lending>)
    requires steps <= |q.priority| && first.parts.Keys == Names(q)
    ensures r.Some? ==> r.value.parts.Keys == Names(q)
  {
    if steps == 0 then Some(first)
    else
      match SecondPass(tok, q, first, steps - 1)
      case None => None
      case Some(before) =>
        assert q.priority[steps - 1] in Names(q);
        Lend(tok, q, before, q.priority[steps - 1])
  }

  lemma {:induction false} FirstPassStep(tok: Tokenizer, q: Request, quotas: map<string, nat>, steps: nat, name: string)
    requires 0 < steps <= |q.priority| && quotas.Keys == Names(q) && name == q.priority[steps - 1]
    ensures name in quotas
    ensures FirstPass(tok, q, quotas, steps - 1).None? ==> FirstPass(tok, q, quotas, steps).None?
    ensures FirstPass(tok, q, quotas, steps - 1).Some? ==>
              FirstPass(tok, q, quotas, steps)
              == match Fit(tok, q, name, quotas[name])
                 case None => None
                 case Some(part) => Some(FirstPass(tok, q, quotas, steps - 1).value[name := part])
  {
    hide Fit;
  }

  lemma {:induction false} SecondPassStep(tok: Tokenizer, q: Request, first: Lending, steps: nat, name: string)
    requires 0 < steps <= |q.priority| && first.parts.Keys == Names(q) && name == q.priority[steps - 1]
    ensures name in Names(q)
    ensures SecondPass(tok, q, first, steps - 1).None? ==> SecondPass(tok, q, first, steps).None?
    ensures SecondPass(tok, q, first, steps - 1).Some? ==>
              SecondPass(tok, q, first, steps) == Lend(tok, q, SecondPass(tok, q, first, steps - 1).value, name)
  {
    hide Lend;
  }

  lemma {:induction false} SecondPassStart(tok: Tokenizer, q: Request, first: Lending)
    requires first.parts.Keys == Names(q)
    ensures SecondPass(tok, q, first, 0) == Some(first)
    ensures Met(tok, q, first.parts, 0) && AtLeast(first.parts, first.parts)
  {
  }

  function Costs(parts: map<string, Part>): (r: map<string, nat>)
    ensures r.Keys == parts.Keys
  {
    map name | name in parts :: parts[name].cost
  }

  /** The whole allocation of a pool, given the state after the first pass. */
  ghost function Allocated(tok: Tokenizer, q: Request, pool: nat, weightSum: nat): Option<Lending>
    requires weightSum > 0
  {
    var first := FirstPass(tok, q, Quotas(q, pool, weightSum), |q.priority|);
    if first.None? then None
    else
      assert q.priority[..|q.priority|] == q.priority;
      SecondPass(tok, q, Lending(first.value, pool - Total(Costs(first.value))), |q.priority|)
  }

  ghost function WeightSum(q: Request): (r: nat)
    ensures r > 0
  {
    TotalNotNegative(q.weights);
    if Total(q.weights) == 0 then 1 else Total(q.weights)
  }

  // ----- the quotas fit in the pool

  function Shares(q: Request, names: set<string>): map<string, int> {
    map name | name in names :: Amount(q.weights, name)
  }

  function QuotasOf(q: Request, pool: nat, weightSum: nat, names: set<string>): map<string, int>
    requires weightSum > 0
  {
    map name | name in names :: Quota(q, pool, weightSum, name)
  }

  lemma {:induction false} SharesBounded(weights: map<string, nat>, names: set<string>)
    ensures Total(map name | name in names :: Amount(weights, name)) <= Total(weights)
    decreases names
  {
    if names == {} {
      TotalNotNegative(weights);
      assert (map name | name in names :: Amount(weights, name)) == map[];
    } else {
      var name :| name in names;
      var shares := map other | other in names :: Amount(weights, other);
      TotalWithout(shares, name);
      TotalWithout(weights, name);
      SharesBounded(weights - {name}, names - {name});
      assert shares - {name} == map other | other in names - {name} :: Amount(weights - {name}, other);
    }
  }

  lemma {:induction false} QuotaIsFloor(q: Request, pool: nat, weightSum: nat, name: string)
    requires weightSum > 0
    ensures weightSum * Quota(q, pool, weightSum, name) <= pool * Amount(q.weights, name)
    ensures pool * Amount(q.weights, name) < weightSum * Quota(q, pool, weightSum, name) + weightSum
  {
    var product := pool * Amount(q.weights, name);
    assert product == weightSum * (product / weightSum) + product % weightSum;
  }

  lemma {:induction false} QuotasScale(q: Request, pool: nat, weightSum: nat, names: set<string>)
    requires weightSum > 0
    ensures weightSum * Total(QuotasOf(q, pool, weightSum, names)) <= pool * Total(Shares(q, names))
    decreases names
  {
    hide Quota;
    if names == {} {
      assert QuotasOf(q, pool, weightSum, names) == map[] && Shares(q, names) == map[];
    } else {
      var name :| name in names;
      var quotas, shares := QuotasOf(q, pool, weightSum, names), Shares(q, names);
      TotalWithout(quotas, name);
      TotalWithout(shares, name);
      assert quotas - {name} == QuotasOf(q, pool, weightSum, names - {name});
      assert shares - {name} == Shares(q, names - {name});
      QuotasScale(q, pool, weightSum, names - {name});
      QuotaIsFloor(q, pool, weightSum, name);
      Distribute(weightSum, quotas[name], Total(quotas - {name}));
      Distribute(pool, shares[name], Total(shares - {name}));
    }
  }

  lemma {:induction false} Distribute(a: int, b: int, c: int)
    ensures a * (b + c) == a * b + a * c
  {
  }

  lemma {:induction false} CancelFactor(factor: int, a: int, b: int)
    requires factor > 0 && factor * a <= b * factor
    ensures a <= b
  {
    if b < a {
      Distribute(factor, b, a - b);
      ScaleUp(factor, 1, a - b);
    }
  }

  lemma {:induction false} ScaleUp(pool: nat, a: int, b: int)
    requires a <= b
    ensures pool * a <= pool * b
  {
  }

  lemma {:induction false} QuotasFitPool(q: Request, pool: nat)
    ensures Total(Quotas(q, pool, WeightSum(q))) <= pool
  {
    var weightSum := WeightSum(q);
    var names := set name | name in q.priority;
    assert Quotas(q, pool, weightSum) == QuotasOf(q, pool, weightSum, names);
    QuotasScale(q, pool, weightSum, names);
    SharesBounded(q.weights, names);
    ScaleUp(pool, Total(Shares(q, names)), weightSum);
    CancelFactor(weightSum, Total(QuotasOf(q, pool, weightSum, names)), pool);
  }

  // ----- conservation

  lemma {:induction false} CostsUpdate(parts: map<string, Part>, name: string, part: Part)
    ensures Total(Costs(parts[name := part])) == Total(Costs(parts)) - Amount(Costs(parts), name) + part.cost
  {
    TotalUpdate(Costs(parts), name, part.cost);
    assert Costs(parts[name := part]) == Costs(parts)[name := part.cost];
  }

  lemma {:induction false} CostOf(parts: map<string, Part>, name: string)
    requires name in parts
    ensures Amount(Costs(parts), name) == parts[name].cost
  {
  }

  /** The first pass gives every name what the fitter makes of its quota. */
  lemma {:induction false} FirstPassFits(tok: Tokenizer, q: Request, quotas: map<string, nat>, steps: nat)
    requires steps <= |q.priority| && quotas.Keys == Names(q)
    requires FirstPass(tok, q, quotas, steps).Some?
    ensures var parts := FirstPass(tok, q, quotas, steps).value;
            forall name | name in parts :: name in quotas && Some(parts[name]) == Fit(tok, q, name, quotas[name])
  {
    hide Fit;
    if steps > 0 { FirstPassFits(tok, q, quotas, steps - 1); }
  }

  lemma {:induction false} FirstPassFitsPool(tok: Tokenizer, q: Request, pool: nat)
    requires FirstPass(tok, q, Quotas(q, pool, WeightSum(q)), |q.priority|).Some?
    ensures Total(Costs(FirstPass(tok, q, Quotas(q, pool, WeightSum(q)), |q.priority|).value)) <= pool
  {
    hide WeightSum, Quota;
    var quotas := Quotas(q, pool, WeightSum(q));
    var parts := FirstPass(tok, q, quotas, |q.priority|).value;
    FirstPassFits(tok, q, quotas, |q.priority|);
    assert q.priority[..|q.priority|] == q.priority;
    TotalBounds(Costs(parts), quotas);
    QuotasFitPool(q, pool);
  }

  lemma {:induction false} LendConserves(tok: Tokenizer, q: Request, before: Lending, name: string)
    requires name in before.parts && before.remaining >= 0 && Lend(tok, q, before, name).Some?
    ensures var after := Lend(tok, q, before, name).value;
            && 0 <= after.remaining
            && Total(Costs(after.parts)) + after.remaining == Total(Costs(before.parts)) + before.remaining
  {
    hide Fit, Total;
    CostsUpdate(before.parts, name, Fit(tok, q, name, before.parts[name].cost + before.remaining).value);
  }

  lemma {:induction false} SecondPassConserves(tok: Tokenizer, q: Request, first: Lending, steps: nat)
    requires steps <= |q.priority| && first.parts.Keys == Names(q)
    requires first.remaining >= 0 && SecondPass(tok, q, first, steps).Some?
    ensures var after := SecondPass(tok, q, first, steps).value;
            && 0 <= after.remaining
            && Total(Costs(after.parts)) + after.remaining == Total(Costs(first.parts)) + first.remaining
  {
    hide *;
    if steps == 0 {
      SecondPassStart(tok, q, first);
    } else {
      SecondPassStep(tok, q, first, steps, q.priority[steps - 1]);
      SecondPassConserves(tok, q, first, steps - 1);
      LendConserves(tok, q, SecondPass(tok, q, first, steps - 1).value, q.priority[steps - 1]);
    }
  }

  /** The pool is conserved: what was spent and what is left add up to it, and nothing is overdrawn. */
  lemma {:induction false} PoolConserved(tok: Tokenizer, q: Request, pool: nat)
    requires Allocated(tok, q, pool, WeightSum(q)).Some?
    ensures var done := Allocated(tok, q, pool, WeightSum(q)).value;
            && done.parts.Keys == Names(q)
            && 0 <= done.remaining
            && Total(Costs(done.parts)) + done.remaining == pool
  {
    var first := AllocatedUnfolds(tok, q, pool);
    hide *;
    FirstPassFitsPool(tok, q, pool);
    SecondPassConserves(tok, q, first, |q.priority|);
  }

  lemma {:induction false} AllocatedStops(tok: Tokenizer, q: Request, pool: nat)
    requires FirstPass(tok, q, Quotas(q, pool, WeightSum(q)), |q.priority|).None?
    ensures Allocated(tok, q, pool, WeightSum(q)).None?
  {
    hide FirstPass, SecondPass, Total, WeightSum, Costs;
  }

  lemma {:induction false} AllocatedUnfolds(tok: Tokenizer, q: Request, pool: nat) returns (first: Lending)
    requires Allocated(tok, q, pool, WeightSum(q)).Some?
             || FirstPass(tok, q, Quotas(q, pool, WeightSum(q)), |q.priority|).Some?
    ensures FirstPass(tok, q, Quotas(q, pool, WeightSum(q)), |q.priority|).Some?
    ensures first.parts == FirstPass(tok, q, Quotas(q, pool, WeightSum(q)), |q.priority|).value
    ensures first.remaining == pool - Total(Costs(first.parts))
    ensures first.parts.Keys == Names(q)
    ensures Allocated(tok, q, pool, WeightSum(q)) == SecondPass(tok, q, first, |q.priority|)
  {
    hide FirstPass, SecondPass, WeightSum, Costs, Total;
    assert q.priority[..|q.priority|] == q.priority;
    first := Lending(FirstPass(tok, q, Quotas(q, pool, WeightSum(q)), |q.priority|).value,
                     pool - Total(Costs(FirstPass(tok, q, Quotas(q, pool, WeightSum(q)), |q.priority|).value)));
  }

  // ----- work conservation with exact fitters

  function Min(a: int, b: int): int { if a <= b then a else b }

  /** The fitter always uses the limit up, or the whole candidate. */
  ghost predicate Exact(tok: Tokenizer, q: Request) {
    forall name: string, limit: int | name in q.priority && 0 < limit ::
      tok.count(FitterOf(tok, q, name)(Candidate(q, name), limit)) == Min(limit, Demand(tok, q, name))
  }

  function Demands(tok: Tokenizer, q: Request, names: set<string>): map<string, int> {
    map name | name in names :: Demand(tok, q, name)
  }

  lemma {:induction false} ExactFit(tok: Tokenizer, q: Request, name: string, limit: nat)
    requires Exact(tok, q) && name in q.priority
    ensures Fit(tok, q, name, limit).Some? && Fit(tok, q, name, limit).value.cost == Min(limit, Demand(tok, q, name))
  {
  }

  lemma {:induction false} ExactLend(tok: Tokenizer, q: Request, before: Lending, name: string)
    requires Exact(tok, q) && name in q.priority && name in before.parts && before.remaining >= 0
    requires before.parts[name].cost <= Demand(tok, q, name)
    ensures Lend(tok, q, before, name).Some?
    ensures var after := Lend(tok, q, before, name).value;
            && 0 <= after.remaining <= before.remaining
            && after.parts == before.parts[name := after.parts[name]]
            && before.parts[name].cost <= after.parts[name].cost <= Demand(tok, q, name)
            && (after.remaining == 0 || after.parts[name].cost == Demand(tok, q, name))
  {
    ExactFit(tok, q, name, before.parts[name].cost + before.remaining);
    hide Fit, Exact, Demand;
  }

  /** Every name has between its first-pass cost and its demand. */
  ghost predicate Within(tok: Tokenizer, q: Request, first: map<string, Part>, parts: map<string, Part>) {
    && first.Keys <= parts.Keys
    && forall name | name in first :: first[name].cost <= parts[name].cost <= Demand(tok, q, name)
  }

  ghost predicate Met(tok: Tokenizer, q: Request, parts: map<string, Part>, steps: nat)
    requires steps <= |q.priority|
  {
    forall i | 0 <= i < steps :: q.priority[i] in parts && parts[q.priority[i]].cost == Demand(tok, q, q.priority[i])
  }

  lemma {:induction false} WithinDemand(tok: Tokenizer, q: Request, first: map<string, Part>,
                                        parts: map<string, Part>, name: string)
    requires Within(tok, q, first, parts) && name in first
    ensures name in parts && parts[name].cost <= Demand(tok, q, name)
  {
  }

  lemma {:induction false} VisitedWithin(tok: Tokenizer, q: Request, first: map<string, Part>,
                                         before: map<string, Part>,
                                         name: string, part: Part, steps: nat)
    requires steps < |q.priority| && name == q.priority[steps]
    requires Within(tok, q, first, before) && name in before && before[name].cost <= part.cost <= Demand(tok, q, name)
    ensures Within(tok, q, first, before[name := part])
    ensures Met(tok, q, before, steps) && part.cost == Demand(tok, q, name)
            ==> Met(tok, q, before[name := part], steps + 1)
  {
    hide Demand;
  }

  /** Until the pool is used up, every name already visited has its whole demand. */
  lemma {:induction false} ExactSecondPass(tok: Tokenizer, q: Request, first: Lending, steps: nat)
    requires steps <= |q.priority| && first.parts.Keys == Names(q)
    requires first.remaining >= 0 && Exact(tok, q) && Within(tok, q, first.parts, first.parts)
    ensures SecondPass(tok, q, first, steps).Some?
    ensures var after := SecondPass(tok, q, first, steps).value;
            && 0 <= after.remaining
            && Within(tok, q, first.parts, after.parts)
            && (after.remaining == 0 || Met(tok, q, after.parts, steps))
  {
    hide *;
    if steps == 0 {
      SecondPassStart(tok, q, first);
    } else {
      var name := q.priority[steps - 1];
      SecondPassStep(tok, q, first, steps, name);
      ExactSecondPass(tok, q, first, steps - 1);
      var before := SecondPass(tok, q, first, steps - 1).value;
      WithinDemand(tok, q, first.parts, before.parts, name);
      ExactLend(tok, q, before, name);
      VisitedWithin(tok, q, first.parts, before.parts, name, SecondPass(tok, q, first, steps).value.parts[name],
                    steps - 1);
    }
  }

  lemma {:induction false} ExactFirstPass(tok: Tokenizer, q: Request, quotas: map<string, nat>, steps: nat)
    requires steps <= |q.priority| && quotas.Keys == Names(q)
    requires Exact(tok, q)
    ensures FirstPass(tok, q, quotas, steps).Some?
    ensures forall name | name in FirstPass(tok, q, quotas, steps).value ::
              FirstPass(tok, q, quotas, steps).value[name].cost == Min(quotas[name], Demand(tok, q, name))
  {
    hide Fit, Exact, Demand, Min;
    if steps > 0 {
      ExactFirstPass(tok, q, quotas, steps - 1);
      ExactFit(tok, q, q.priority[steps - 1], quotas[q.priority[steps - 1]]);
    }
  }

  /** With exact fitters nothing is refused and no capacity is left idle: the pool is used up or
      every demand is met, and no section gets less than its quota or its demand. */
  lemma {:induction false} WorkConserving(tok: Tokenizer, q: Request, pool: nat)
    requires Exact(tok, q)
    ensures Allocated(tok, q, pool, WeightSum(q)).Some?
    ensures var done := Allocated(tok, q, pool, WeightSum(q)).value;
            && Total(Costs(done.parts)) == Min(pool, Total(Demands(tok, q, Names(q))))
            && (forall name | name in done.parts ::
                  Min(Quota(q, pool, WeightSum(q), name), Demand(tok, q, name)) <= done.parts[name].cost
                    <= Demand(tok, q, name))
  {
    hide WeightSum, Quota, Exact, FirstPass, SecondPass, Demand, Total, Allocated, Min;
    var quotas := Quotas(q, pool, WeightSum(q));
    ExactFirstPass(tok, q, quotas, |q.priority|);
    var first := AllocatedUnfolds(tok, q, pool);
    FirstPassFitsPool(tok, q, pool);
    MinBounds(tok, q, quotas, first.parts);
    ExactSecondPass(tok, q, first, |q.priority|);
    PoolConserved(tok, q, pool);
    var done := SecondPass(tok, q, first, |q.priority|).value;
    UsedUpOrMet(tok, q, done.parts, pool, done.remaining);
  }

  lemma {:induction false} MinBounds(tok: Tokenizer, q: Request, quotas: map<string, nat>, parts: map<string, Part>)
    requires parts.Keys == quotas.Keys
    requires forall name | name in parts :: parts[name].cost == Min(quotas[name], Demand(tok, q, name))
    ensures Within(tok, q, parts, parts)
  {
  }

  lemma {:induction false} UsedUpOrMet(tok: Tokenizer, q: Request, parts: map<string, Part>, pool: nat, remaining: nat)
    requires parts.Keys == Names(q) && Total(Costs(parts)) + remaining == pool
    requires Within(tok, q, parts, parts) && (remaining == 0 || Met(tok, q, parts, |q.priority|))
    ensures Total(Costs(parts)) == Min(pool, Total(Demands(tok, q, Names(q))))
  {
    hide Total, Demand;
    var demands := Demands(tok, q, Names(q));
    TotalBounds(Costs(parts), demands);
    if remaining > 0 {
      TotalBounds(demands, Costs(parts));
    }
  }

  // ----- lending never takes back

  /** A larger limit never costs less, and what was spent can be spent again. */
  ghost predicate Lends(tok: Tokenizer, q: Request, name: string) {
    forall limit: int, more: int | 0 < limit && Fit(tok, q, name, limit).Some?
                                   && Fit(tok, q, name, limit).value.cost <= more && Fit(tok, q, name, more).Some? ::
      Fit(tok, q, name, limit).value.cost <= Fit(tok, q, name, more).value.cost
  }

  lemma {:induction false} LendGrows(tok: Tokenizer, q: Request, before: Lending, name: string, limit: nat)
    requires name in before.parts && before.remaining >= 0 && Lend(tok, q, before, name).Some?
    requires Lends(tok, q, name) && Fit(tok, q, name, limit).Some?
    requires Fit(tok, q, name, limit).value.cost <= before.parts[name].cost
    ensures var after := Lend(tok, q, before, name).value;
            && 0 <= after.remaining
            && after.parts == before.parts[name := after.parts[name]]
            && Fit(tok, q, name, limit).value.cost <= after.parts[name].cost
  {
    hide Fit;
  }

  ghost predicate AtLeast(parts: map<string, Part>, first: map<string, Part>) {
    && first.Keys <= parts.Keys
    && forall name | name in first :: first[name].cost <= parts[name].cost
  }

  lemma {:induction false} AtLeastStep(parts: map<string, Part>, first: map<string, Part>, name: string, part: Part)
    requires AtLeast(parts, first) && name in first && first[name].cost <= part.cost
    ensures AtLeast(parts[name := part], first)
  {
  }

  lemma {:induction false} AtLeastOf(parts: map<string, Part>, first: map<string, Part>, name: string)
    requires AtLeast(parts, first) && name in first
    ensures name in parts && first[name].cost <= parts[name].cost
  {
  }

  /** No section ends with less than the first pass gave it. */
  lemma {:induction false} SecondPassGrows(tok: Tokenizer, q: Request, first: Lending, steps: nat,
                                           limits: map<string, nat>)
    requires steps <= |q.priority| && first.parts.Keys == Names(q) == limits.Keys
    requires first.remaining >= 0 && SecondPass(tok, q, first, steps).Some?
    requires forall name | name in q.priority :: Lends(tok, q, name)
    requires forall name | name in first.parts :: Some(first.parts[name]) == Fit(tok, q, name, limits[name])
    ensures SecondPass(tok, q, first, steps).value.remaining >= 0
    ensures AtLeast(SecondPass(tok, q, first, steps).value.parts, first.parts)
  {
    hide *;
    if steps == 0 {
      SecondPassStart(tok, q, first);
    } else {
      var name := q.priority[steps - 1];
      SecondPassStep(tok, q, first, steps, name);
      SecondPassGrows(tok, q, first, steps - 1, limits);
      var before := SecondPass(tok, q, first, steps - 1).value;
      AtLeastOf(before.parts, first.parts, name);
      LendGrows(tok, q, before, name, limits[name]);
      AtLeastStep(before.parts, first.parts, name, SecondPass(tok, q, first, steps).value.parts[name]);
    }
  }

  lemma {:induction false} LendingNeverTakesBack(tok: Tokenizer, q: Request, pool: nat)
    requires Allocated(tok, q, pool, WeightSum(q)).Some?
    requires forall name | name in q.priority :: Lends(tok, q, name)
    ensures Allocated(tok, q, pool, WeightSum(q)).value.parts.Keys == Names(q)
    ensures forall name | name in Names(q) ::
              && Fit(tok, q, name, Quota(q, pool, WeightSum(q), name)).Some?
              && Fit(tok, q, name, Quota(q, pool, WeightSum(q), name)).value.cost
                 <= Allocated(tok, q, pool, WeightSum(q)).value.parts[name].cost
  {
    hide WeightSum, Quota, Fit, Lends, FirstPass, SecondPass, Total;
    var quotas := Quotas(q, pool, WeightSum(q));
    var first := AllocatedUnfolds(tok, q, pool);
    FirstPassFits(tok, q, quotas, |q.priority|);
    FirstPassFitsPool(tok, q, pool);
    SecondPassGrows(tok, q, first, |q.priority|, quotas);
  }

  /** The packer of whole units is such a fitter. */
  lemma {:induction false} PackerLends<U(!new)>(tok: Tokenizer, q: Request, name: string, units: seq<U>, newest: bool,
                                                render: seq<U> -> string)
    requires name in q.fitters
    requires forall limit: int ::
               q.fitters[name](Candidate(q, name), limit)
                 == render(Packed(units, limit, newest, RenderedCost(tok, render), |units|))
    requires Growing(newest, RenderedCost(tok, render)) && tok.count(render([])) == 0
    ensures Lends(tok, q, name)
    ensures forall limit: int | 0 < limit :: Fit(tok, q, name, limit).Some?
  {
    forall limit: int | 0 < limit
      ensures Fit(tok, q, name, limit).Some?
    {
      PackerFits(tok, q, name, units, newest, render, limit);
    }
    forall limit: int, more: int | 0 < limit && Fit(tok, q, name, limit).value.cost <= more
      ensures Fit(tok, q, name, limit).value.cost <= Fit(tok, q, name, more).value.cost
    {
      var cost := RenderedCost(tok, render);
      PackerFits(tok, q, name, units, newest, render, limit);
      var spent := cost(Packed(units, limit, newest, cost, |units|));
      PackedStable(units, limit, newest, cost, spent, |units|);
      PackedMonotone(units, spent, more, newest, cost, |units|);
      if 0 < more { PackerFits(tok, q, name, units, newest, render, more); }
    }
  }

  lemma {:induction false} PackerFits<U(!new)>(tok: Tokenizer, q: Request, name: string, units: seq<U>, newest: bool,
                                               render: seq<U> -> string, limit: int)
    requires name in q.fitters && 0 < limit && tok.count(render([])) == 0
    requires q.fitters[name](Candidate(q, name), limit)
             == render(Packed(units, limit, newest, RenderedCost(tok, render), |units|))
    ensures Fit(tok, q, name, limit).Some?
    ensures Fit(tok, q, name, limit).value.cost
         == RenderedCost(tok, render)(Packed(units, limit, newest, RenderedCost(tok, render), |units|)) <= limit
  {
    PackedFits(units, limit, newest, RenderedCost(tok, render), |units|);
  }

  function RenderedCost<U>(tok: Tokenizer, render: seq<U> -> string): seq<U> -> nat {
    (units: seq<U>) => tok.count(render(units))
  }
}
