/** The filler that charges the sections of a prompt against one cap. */
module SectionFiller {
  import opened Results
  import opened Totals
  import opened ElasticPool

  const REF_TOTAL_BUDGET := 6000

  function Max(a: int, b: int): int { if a <= b then b else a }

  /** A section limit of the reference layout, scaled to the actual limit. */
  function ScaledSectionBudget(sectionLimit: int, totalLimit: int): int {
    Max(1, sectionLimit * totalLimit / REF_TOTAL_BUDGET)
  }

  function Trimmed(tok: Tokenizer, text: string, limit: int): string {
    if tok.count(text) > limit then tok.fit(text, limit) else text
  }

  datatype RequiredError = DuplicateRequired | OverBudget(required: int, available: int)

  datatype Decision = Decision(softQuota: nat, demand: nat, used: nat)

  datatype ElasticReport = ElasticReport(pool: nat, unused: int, decisions: map<string, Decision>)

  function NonEmpty(texts: map<string, string>): (r: map<string, string>)
    ensures r.Keys <= texts.Keys
  {
    map name | name in texts && texts[name] != "" :: texts[name]
  }

  function Counted(tok: Tokenizer, texts: map<string, string>): map<string, nat> {
    map name | name in texts :: tok.count(texts[name])
  }

  function Texts(parts: map<string, Part>): (r: map<string, string>)
    ensures r.Keys <= parts.Keys
  {
    map name | name in parts && parts[name].text != "" :: parts[name].text
  }

  function Decided(tok: Tokenizer, q: Request, quotas: map<string, nat>,
                   parts: map<string, Part>): map<string, Decision>
    requires parts.Keys <= quotas.Keys
  {
    map name | name in parts :: Decision(quotas[name], Demand(tok, q, name), parts[name].cost)
  }

  /** Each section's decision tells its quota, its demand and what it was charged. */
  lemma {:induction false} DecisionsAre(tok: Tokenizer, q: Request, pool: nat, parts: map<string, Part>,
                                        before: map<string, int>, counts: map<string, int>)
    requires parts.Keys == Names(q) && counts == before + Costs(parts)
    ensures forall name | name in Names(q) :: name in counts
    ensures Decided(tok, q, Quotas(q, pool, WeightSum(q)), parts).Keys == Names(q)
    ensures forall name | name in Names(q) ::
              var d := Decided(tok, q, Quotas(q, pool, WeightSum(q)), parts)[name];
              && d.used == counts[name]
                 && d.demand == tok.count(if name in q.candidates then q.candidates[name] else "")
              && d.softQuota == pool * Amount(q.weights, name) / WeightSum(q)
  {
    hide WeightSum;
  }

  /** A scaled budget is the floor of its share of the reference layout, and at least one. */
  lemma {:induction false} ScaledIsFloor(sectionLimit: int, totalLimit: int)
    ensures var r := ScaledSectionBudget(sectionLimit, totalLimit);
            1 <= r && sectionLimit * totalLimit < 6000 * (r + 1) && (r > 1 ==> 6000 * r <= sectionLimit * totalLimit)
  {
    var product := sectionLimit * totalLimit;
    assert product == 6000 * (product / 6000) + product % 6000;
  }

  method SumValues(m: map<string, nat>) returns (sum: nat)
    ensures sum == Total(m)
  {
    TotalNotNegative(m);
    var rest: map<string, nat> := m;
    var s: int := 0;
    while rest != map[]
      invariant s + Total(rest) == Total(m)
      decreases |rest|
    {
      var name :| name in rest;
      SmallerWithout(rest, name);
      TotalWithout(rest, name);
      s := s + rest[name];
      rest := rest - {name};
    }
    sum := s;
  }

  lemma {:induction false} FirstPassStops(tok: Tokenizer, q: Request, quotas: map<string, nat>, from: nat, to: nat)
    requires from <= to <= |q.priority| && quotas.Keys == Names(q) && FirstPass(tok, q, quotas, from).None?
    ensures FirstPass(tok, q, quotas, to).None?
  {
    hide *;
    if from < to {
      FirstPassStops(tok, q, quotas, from, to - 1);
      FirstPassStep(tok, q, quotas, to, q.priority[to - 1]);
    }
  }

  lemma {:induction false} SecondPassStops(tok: Tokenizer, q: Request, first: Lending, from: nat, to: nat)
    requires from <= to <= |q.priority| && first.parts.Keys == Names(q) && SecondPass(tok, q, first, from).None?
    ensures SecondPass(tok, q, first, to).None?
  {
    hide *;
    if from < to {
      SecondPassStops(tok, q, first, from, to - 1);
      SecondPassStep(tok, q, first, to, q.priority[to - 1]);
    }
  }

  method RunFirstPass(tok: Tokenizer, q: Request, quotas: map<string, nat>) returns (r: Option<map<string, Part>>)
    requires quotas.Keys == Names(q)
    ensures r == FirstPass(tok, q, quotas, |q.priority|)
  {
    assert FirstPass(tok, q, quotas, 0) == Some(map[]);
    hide *;
    var allocations: map<string, Part> := map[];
    for i := 0 to |q.priority|
      invariant FirstPass(tok, q, quotas, i) == Some(allocations)
    {
      var name := q.priority[i];
      FirstPassStep(tok, q, quotas, i + 1, name);
      var part := Fit(tok, q, name, quotas[name]);
      if part.None? {
        FirstPassStops(tok, q, quotas, i + 1, |q.priority|);
        return None;
      }
      allocations := allocations[name := part.value];
    }
    return Some(allocations);
  }

  method RunSecondPass(tok: Tokenizer, q: Request, parts: map<string, Part>, unused: int) returns (r: Option<Lending>)
    requires parts.Keys == Names(q)
    ensures r == SecondPass(tok, q, Lending(parts, unused), |q.priority|)
  {
    hide FirstPass, SecondPass, Fit, Names;
    var allocations, remaining := parts, unused;
    ghost var first := Lending(parts, unused);
    SecondPassStart(tok, q, first);
    for i := 0 to |q.priority|
      invariant SecondPass(tok, q, first, i) == Some(Lending(allocations, remaining))
    {
      var name := q.priority[i];
      SecondPassStep(tok, q, first, i + 1, name);
      var previous := allocations[name].cost;
      var part := Fit(tok, q, name, previous + remaining);
      if part.None? {
        SecondPassStops(tok, q, first, i + 1, |q.priority|);
        return None;
      }
      allocations := allocations[name := part.value];
      remaining := remaining - (part.value.cost - previous);
    }
    return Some(Lending(allocations, remaining));
  }

  /** The two passes over the priority list. */
  method Allocate(tok: Tokenizer, q: Request, pool: nat, quotas: map<string, nat>) returns (r: Option<Lending>)
    requires quotas == Quotas(q, pool, WeightSum(q))
    ensures r == Allocated(tok, q, pool, WeightSum(q))
  {
    hide *;
    var parts := RunFirstPass(tok, q, quotas);
    if parts.None? {
      AllocatedStops(tok, q, pool);
      return None;
    }
    ghost var first := AllocatedUnfolds(tok, q, pool);
    var spent := SumValues(Costs(parts.value));
    r := RunSecondPass(tok, q, parts.value, pool - spent);
  }

  /** Every section is recorded with its own token count, and nothing else with more than zero. */
  ghost predicate Matched(tok: Tokenizer, sections: map<string, string>, counts: map<string, int>) {
    && (forall name | name in sections :: name in counts && counts[name] == tok.count(sections[name]))
    && (forall name | name in counts && name !in sections :: counts[name] == 0)
  }

  lemma {:induction false} MatchedCharge(tok: Tokenizer, sections: map<string, string>, counts: map<string, int>,
                                         name: string, text: string)
    requires Matched(tok, sections, counts) && name !in sections
    ensures Amount(counts, name) == 0
    ensures Matched(tok, sections[name := text], counts[name := tok.count(text)])
    ensures Matched(tok, sections, counts[name := 0])
  {
  }

  lemma {:induction false} MatchedMerge(tok: Tokenizer, sections: map<string, string>, counts: map<string, int>,
                                        texts: map<string, string>, costs: map<string, int>)
    requires Matched(tok, sections, counts) && Matched(tok, texts, costs) && costs.Keys !! sections.Keys
    ensures Matched(tok, sections + texts, counts + costs)
    ensures Total(counts + costs) == Total(counts) + Total(costs)
  {
    TotalMerge(counts, costs);
  }

  lemma {:induction false} PartsMatch(tok: Tokenizer, q: Request, pool: nat)
    requires Sound(tok) && Allocated(tok, q, pool, WeightSum(q)).Some?
    ensures var parts := Allocated(tok, q, pool, WeightSum(q)).value.parts;
            Matched(tok, Texts(parts), Costs(parts))
  {
    var first := AllocatedUnfolds(tok, q, pool);
    hide *;
    FirstPassCounts(tok, q, Quotas(q, pool, WeightSum(q)), |q.priority|);
    SecondPassCounts(tok, q, first, |q.priority|);
    PartsMatched(tok, Allocated(tok, q, pool, WeightSum(q)).value.parts);
  }

  ghost predicate CountsItself(tok: Tokenizer, part: Part) { part.cost == tok.count(part.text) }

  ghost predicate AllCounted(tok: Tokenizer, parts: map<string, Part>) {
    forall name | name in parts :: CountsItself(tok, parts[name])
  }

  lemma {:induction false} PartsMatched(tok: Tokenizer, parts: map<string, Part>)
    requires Sound(tok) && AllCounted(tok, parts)
    ensures Matched(tok, Texts(parts), Costs(parts))
  {
  }

  lemma {:induction false} FitCounts(tok: Tokenizer, q: Request, name: string, limit: int, parts: map<string, Part>)
    requires Sound(tok) && AllCounted(tok, parts) && Fit(tok, q, name, limit).Some?
    ensures AllCounted(tok, parts[name := Fit(tok, q, name, limit).value])
  {
  }

  lemma {:induction false} FirstPassCounts(tok: Tokenizer, q: Request, quotas: map<string, nat>, steps: nat)
    requires Sound(tok) && steps <= |q.priority| && quotas.Keys == Names(q) && FirstPass(tok, q, quotas, steps).Some?
    ensures AllCounted(tok, FirstPass(tok, q, quotas, steps).value)
  {
    if steps > 0 {
      hide *;
      FirstPassStep(tok, q, quotas, steps, q.priority[steps - 1]);
      FirstPassCounts(tok, q, quotas, steps - 1);
      FitCounts(tok, q, q.priority[steps - 1], quotas[q.priority[steps - 1]],
                FirstPass(tok, q, quotas, steps - 1).value);
    }
  }

  lemma {:induction false} LendCounts(tok: Tokenizer, q: Request, before: Lending, name: string)
    requires Sound(tok) && name in before.parts && AllCounted(tok, before.parts) && Lend(tok, q, before, name).Some?
    ensures AllCounted(tok, Lend(tok, q, before, name).value.parts)
  {
    hide AllCounted, Sound, Fit;
    FitCounts(tok, q, name, before.parts[name].cost + before.remaining, before.parts);
  }

  lemma {:induction false} SecondPassCounts(tok: Tokenizer, q: Request, first: Lending, steps: nat)
    requires Sound(tok) && steps <= |q.priority| && first.parts.Keys == Names(q)
    requires AllCounted(tok, first.parts) && SecondPass(tok, q, first, steps).Some?
    ensures AllCounted(tok, SecondPass(tok, q, first, steps).value.parts)
  {
    hide *;
    if steps == 0 {
      SecondPassStart(tok, q, first);
    } else {
      var name := q.priority[steps - 1];
      SecondPassStep(tok, q, first, steps, name);
      SecondPassCounts(tok, q, first, steps - 1);
      LendCounts(tok, q, SecondPass(tok, q, first, steps - 1).value, name);
    }
  }

  datatype Account = Account(used: int, sections: map<string, string>, counts: map<string, int>)

  /** Everything but `rest` has been charged. */
  ghost predicate ChargedBut(before: Account, texts: map<string, string>, costs: map<string, nat>,
                             rest: map<string, nat>, now: Account) {
    && rest.Keys <= costs.Keys && (forall name | name in rest :: rest[name] == costs[name])
    && now.used == before.used + Total(costs) - Total(rest)
    && now.sections == before.sections + (texts - rest.Keys)
    && now.counts == before.counts + (costs - rest.Keys)
  }

  function Charged(now: Account, texts: map<string, string>, costs: map<string, nat>, name: string): Account
    requires name in costs
  {
    Account(now.used + costs[name], if name in texts then now.sections[name := texts[name]] else now.sections,
           now.counts[name := costs[name]])
  }

  lemma {:induction false} MergeMore<V>(m: map<string, V>, more: map<string, V>, left: set<string>, name: string)
    requires name in left
    ensures m + (more - (left - {name})) == if name in more then (m + (more - left))[name := more[name]]
            else m + (more - left)
  {
  }

  lemma {:induction false} ChargeOne(before: Account, texts: map<string, string>, costs: map<string, nat>,
                                     rest: map<string, nat>,
                                     now: Account, name: string)
    requires ChargedBut(before, texts, costs, rest, now) && name in rest
    ensures ChargedBut(before, texts, costs, rest - {name}, Charged(now, texts, costs, name))
  {
    hide Total;
    TotalWithout(rest, name);
    assert (rest - {name}).Keys == rest.Keys - {name};
    MergeMore(before.counts, costs, rest.Keys, name);
    MergeMore(before.sections, texts, rest.Keys, name);
  }

  lemma {:induction false} ChargeNone(before: Account, texts: map<string, string>, costs: map<string, nat>)
    requires texts.Keys <= costs.Keys
    ensures ChargedBut(before, texts, costs, costs, before)
  {
  }

  lemma {:induction false} ChargedEverything(before: Account, texts: map<string, string>, costs: map<string, nat>,
                                             now: Account)
    requires ChargedBut(before, texts, costs, map[], now)
    ensures now == Account(before.used + Total(costs), before.sections + texts, before.counts + costs)
  {
    assert texts - {} == texts && costs - {} == costs;
  }

  method ComputeWeightSum(q: Request) returns (weightSum: nat)
    ensures weightSum == WeightSum(q)
  {
    var sum := SumValues(q.weights);
    weightSum := if sum == 0 then 1 else sum;
  }

  class SectionFiller {
    const tok: Tokenizer
    const sectionCap: int
    const totalLimit: int
    var used: int
    var sections: map<string, string>
    var counts: map<string, int>

    constructor (tok: Tokenizer, sectionCap: int, totalLimit: int)
      requires Sound(tok)
      ensures Valid() && Recorded() && used == Total(counts)
      ensures this.tok == tok && this.sectionCap == sectionCap && this.totalLimit == totalLimit
      ensures sections == map[] && counts == map[] && used == 0
    {
      this.tok := tok;
      this.sectionCap := sectionCap;
      this.totalLimit := totalLimit;
      used := 0;
      sections := map[];
      counts := map[];
    }

    /** Whatever is added, the sections never cost more than the cap. */
    ghost predicate Valid()
      reads this
    {
      Sound(tok) && 0 <= used <= Max(sectionCap, 0)
    }

    ghost predicate Recorded()
      reads this
    {
      Matched(tok, sections, counts)
    }

    /** The state after charging one text under a name. */
    ghost predicate Charges(name: string, text: string, beforeUsed: int, beforeSections: map<string, string>,
                            beforeCounts: map<string, int>)
      reads this
    {
      && used == beforeUsed + tok.count(text)
      && sections == beforeSections[name := text]
      && counts == beforeCounts[name := tok.count(text)]
    }

    /** A dynamic section: trimmed to its own budget first, then to what the cap leaves. */
    method AddSection(name: string, text: string, sectionBudget: int)
      requires Valid()
      modifies this
      ensures Valid()
      ensures text == "" ==> used == old(used) && sections == old(sections) && counts == old(counts)
      ensures text != "" && sectionCap <= old(used) ==>
                used == old(used) && sections == old(sections) && counts == old(counts)[name := 0]
      ensures text != "" && old(used) < sectionCap ==>
                var own := if sectionBudget > 0 then Trimmed(tok, text, sectionBudget) else text;
                Charges(name, Trimmed(tok, own, sectionCap - old(used)), old(used), old(sections), old(counts))
      ensures text != "" ==> used - Total(counts) == old(used - Total(counts)) + Amount(old(counts), name)
      ensures old(Recorded()) && name !in old(sections)
              ==> Recorded() && used - Total(counts) == old(used - Total(counts))
    {
      hide Matched, Total;
      if text == "" { return; }
      var fitted := text;
      var tokens := tok.count(text);
      if sectionBudget > 0 && tokens > sectionBudget {
        fitted := tok.fit(text, sectionBudget);
        tokens := tok.count(fitted);
      }
      var remaining := sectionCap - used;
      if remaining <= 0 {
        TotalUpdate(counts, name, 0);
        if Recorded() && name !in sections { MatchedCharge(tok, sections, counts, name, ""); }
        counts := counts[name := 0];
        return;
      }
      if tokens > remaining {
        fitted := tok.fit(fitted, remaining);
        tokens := tok.count(fitted);
      }
      TotalUpdate(counts, name, tokens);
      if Recorded() && name !in sections { MatchedCharge(tok, sections, counts, name, fitted); }
      used := used + tokens;
      counts := counts[name := tokens];
      sections := sections[name := fitted];
    }

    /** A stable section: trimmed to its scaled limit; dropped only when nothing of the cap is left. */
    method AddStableSection(name: string, text: string, sectionLimit: int)
      requires Valid()
      modifies this
      ensures Valid()
      ensures var cap := ScaledSectionBudget(sectionLimit, if sectionCap != 0 then sectionCap else totalLimit);
              var own := Trimmed(tok, text, cap);
              if text == "" || (sectionCap <= old(used) && tok.count(own) > sectionCap - old(used))
              then used == old(used) && sections == old(sections) && counts == old(counts)[name := 0]
              else Charges(name, Trimmed(tok, own, sectionCap - old(used)), old(used), old(sections), old(counts))
      ensures used - Total(counts) == old(used - Total(counts)) + Amount(old(counts), name)
      ensures old(Recorded()) && name !in old(sections)
              ==> Recorded() && used - Total(counts) == old(used - Total(counts))
    {
      hide Matched, Total, ScaledSectionBudget;
      if text == "" {
        TotalUpdate(counts, name, 0);
        if Recorded() && name !in sections { MatchedCharge(tok, sections, counts, name, ""); }
        counts := counts[name := 0];
        return;
      }
      var fitted := text;
      var tokens := tok.count(text);
      var cap := ScaledSectionBudget(sectionLimit, if sectionCap != 0 then sectionCap else totalLimit);
      if tokens > cap {
        fitted := tok.fit(text, cap);
        tokens := tok.count(fitted);
      }
      if used + tokens > sectionCap {
        var remaining := Max(0, sectionCap - used);
        if remaining > 0 {
          fitted := tok.fit(fitted, remaining);
          tokens := tok.count(fitted);
        } else {
          TotalUpdate(counts, name, 0);
          if Recorded() && name !in sections { MatchedCharge(tok, sections, counts, name, ""); }
          counts := counts[name := 0];
          return;
        }
      }
      TotalUpdate(counts, name, tokens);
      if Recorded() && name !in sections { MatchedCharge(tok, sections, counts, name, fitted); }
      used := used + tokens;
      counts := counts[name := tokens];
      sections := sections[name := fitted];
    }

    method ChargeAll(texts: map<string, string>, costs: map<string, nat>)
      requires texts.Keys <= costs.Keys
      modifies this
      ensures used == old(used) + Total(costs)
      ensures sections == old(sections) + texts
      ensures counts == old(counts) + costs
    {
      hide ChargedBut, Total;
      var rest := costs;
      ghost var before := Account(used, sections, counts);
      ChargeNone(before, texts, costs);
      while rest != map[]
        invariant rest.Keys <= costs.Keys
        invariant ChargedBut(before, texts, costs, rest, Account(used, sections, counts))
        decreases |rest|
      {
        var name :| name in rest;
        SmallerWithout(rest, name);
        ChargeOne(before, texts, costs, rest, Account(used, sections, counts), name);
        if name in texts {
          sections := sections[name := texts[name]];
        }
        counts := counts[name := costs[name]];
        used := used + costs[name];
        rest := rest - {name};
      }
      ChargedEverything(before, texts, costs, Account(used, sections, counts));
    }

    /** Required sections go in whole and together, or not at all. */
    method AddRequired(texts: map<string, string>) returns (r: Result<int, RequiredError>)
      requires Valid()
      modifies this
      ensures Valid()
      ensures r.Err? ==> used == old(used) && sections == old(sections) && counts == old(counts)
      ensures var kept := NonEmpty(texts);
              r == if !(kept.Keys !! old(sections).Keys) then Err(DuplicateRequired)
                   else if Total(Counted(tok, kept)) + old(used) > sectionCap
                   then Err(OverBudget(Total(Counted(tok, kept)), sectionCap - old(used)))
                   else Ok(Total(Counted(tok, kept)))
      ensures r.Ok? ==> && used == old(used) + Total(Counted(tok, NonEmpty(texts)))
                        && sections == old(sections) + NonEmpty(texts)
                        && counts == old(counts) + Counted(tok, NonEmpty(texts))
      ensures r.Ok? ==> used - Total(counts)
                        == old(used - Total(counts)) + Total(Among(old(counts), NonEmpty(texts).Keys))
      ensures old(Recorded()) ==> Recorded() && used - Total(counts) == old(used - Total(counts))
    {
      var kept := NonEmpty(texts);
      var costs := Counted(tok, kept);
      assert kept.Keys == costs.Keys;
      if !(costs.Keys !! sections.Keys) { return Err(DuplicateRequired); }
      var tokens := SumValues(costs);
      if tokens + used > sectionCap { return Err(OverBudget(tokens, sectionCap - used)); }
      if old(Recorded()) {
        MatchedMerge(tok, sections, counts, kept, costs);
      }
      TotalOverwrite(counts, costs);
      ChargeAll(kept, costs);
      return Ok(tokens);
    }

    /** Allocates the rest of the cap among soft quotas; refused requests change nothing. */
    method AddElastic(q: Request) returns (r: Result<ElasticReport, ElasticError>)
      requires Valid()
      modifies this
      ensures Valid()
      ensures r.Err? ==> used == old(used) && sections == old(sections) && counts == old(counts)
      ensures var pool := Max(0, sectionCap - old(used));
              var done := Allocated(tok, q, pool, WeightSum(q));
              if !(q.candidates.Keys !! old(sections).Keys) then r == Err(DuplicateSection)
              else if done.None? then r == Err(FitterExceedsBudget)
              else && done.value.parts.Keys == Names(q)
                   && r == Ok(ElasticReport(pool, done.value.remaining,
                                            Decided(tok, q, Quotas(q, pool, WeightSum(q)), done.value.parts)))
                   && used == old(used) + pool - done.value.remaining
                   && used - old(used) == Total(Costs(done.value.parts))
                   && sections == old(sections) + Texts(done.value.parts)
                   && counts == old(counts) + Costs(done.value.parts)
      ensures r.Ok? ==> && r.value.pool == Max(0, sectionCap - old(used))
                        && r.value.pool == used - old(used) + r.value.unused
      ensures r.Ok? ==> r.value.decisions.Keys == Names(q) && forall name | name in Names(q) ::
                        && name in counts && r.value.decisions[name].used == counts[name]
                        && r.value.decisions[name].demand
                           == tok.count(if name in q.candidates then q.candidates[name] else "")
                        && r.value.decisions[name].softQuota
                           == r.value.pool * Amount(q.weights, name) / WeightSum(q)
      ensures r.Ok? ==> used - Total(counts) == old(used - Total(counts)) + Total(Among(old(counts), Names(q)))
      ensures old(Recorded()) && (forall name | name in Names(q) && name in old(sections) :: name in q.candidates)
              ==> Recorded() && used - Total(counts) == old(used - Total(counts))
    {
      hide Allocated, Matched, WeightSum, Total, Sound, Costs, Texts, Quotas, Decided, Names;
      if !(q.candidates.Keys !! sections.Keys) { return Err(DuplicateSection); }
      var pool: nat := Max(0, sectionCap - used);
      var weightSum := ComputeWeightSum(q);
      var quotas := Quotas(q, pool, weightSum);
      var lending := Allocate(tok, q, pool, quotas);
      if lending.None? { return Err(FitterExceedsBudget); }
      PoolConserved(tok, q, pool);
      var parts := lending.value.parts;
      if old(Recorded()) && Costs(parts).Keys !! sections.Keys {
        PartsMatch(tok, q, pool);
        MatchedMerge(tok, sections, counts, Texts(parts), Costs(parts));
      }
      TotalNotNegative(Costs(parts));
      TotalOverwrite(counts, Costs(parts));
      ChargeAll(Texts(parts), Costs(parts));
      DecisionsAre(tok, q, pool, parts, old(counts), counts);
      return Ok(ElasticReport(pool, lending.value.remaining, Decided(tok, q, quotas, parts)));
    }
  }
}
