/** Any mix of the four adders of a filler, one after another. */
module FillerRuns {
  import opened Results
  import opened Totals
  import opened ElasticPool
  import opened SectionFiller

  datatype Adder = Section(name: string, text: string, budget: int)
                 | Stable(name: string, text: string, limit: int)
                 | Required(texts: map<string, string>)
                 | Elastic(request: Request)

  /** The names an adder may write, apart from those it refuses itself when they repeat. */
  function Unguarded(adder: Adder): set<string> {
    match adder
    case Section(name, _, _) => {name}
    case Stable(name, _, _) => {name}
    case Required(_) => {}
    case Elastic(request) => Names(request) - request.candidates.Keys
  }

  function Mentioned(adder: Adder): set<string> {
    match adder
    case Section(name, _, _) => {name}
    case Stable(name, _, _) => {name}
    case Required(texts) => texts.Keys
    case Elastic(request) => Names(request)
  }

  function MentionedBy(adders: seq<Adder>): set<string> {
    if adders == [] then {} else MentionedBy(adders[..|adders| - 1]) + Mentioned(adders[|adders| - 1])
  }

  // ----- the adders on values

  /** A text charged under a name, trimmed to what the cap leaves. */
  function Charge(tok: Tokenizer, cap: int, a: Account, name: string, own: string): Account {
    var text := Trimmed(tok, own, cap - a.used);
    Account(a.used + tok.count(text), a.sections[name := text], a.counts[name := tok.count(text)])
  }

  function AfterSection(tok: Tokenizer, cap: int, a: Account, name: string, text: string, budget: int): Account {
    if text == "" then a
    else if cap <= a.used then a.(counts := a.counts[name := 0])
    else Charge(tok, cap, a, name, if budget > 0 then Trimmed(tok, text, budget) else text)
  }

  function AfterStable(tok: Tokenizer, cap: int, total: int, a: Account, name: string, text: string,
                       limit: int): Account
  {
    var own := Trimmed(tok, text, ScaledSectionBudget(limit, if cap != 0 then cap else total));
    if text == "" || (cap <= a.used && tok.count(own) > cap - a.used) then a.(counts := a.counts[name := 0])
    else Charge(tok, cap, a, name, own)
  }

  /** The required texts are neither repeated nor too large together. */
  ghost predicate Admits(tok: Tokenizer, cap: int, a: Account, texts: map<string, string>) {
    NonEmpty(texts).Keys !! a.sections.Keys && Total(Counted(tok, NonEmpty(texts))) + a.used <= cap
  }

  ghost function AfterRequired(tok: Tokenizer, cap: int, a: Account, texts: map<string, string>): Account {
    if !Admits(tok, cap, a, texts) then a
    else Account(a.used + Total(Counted(tok, NonEmpty(texts))), a.sections + NonEmpty(texts),
                 a.counts + Counted(tok, NonEmpty(texts)))
  }

  ghost function Allocation(tok: Tokenizer, cap: int, a: Account, q: Request): Option<Lending> {
    if q.candidates.Keys !! a.sections.Keys then Allocated(tok, q, Max(0, cap - a.used), WeightSum(q)) else None
  }

  ghost function AfterElastic(tok: Tokenizer, cap: int, a: Account, q: Request): Account {
    match Allocation(tok, cap, a, q)
    case None => a
    case Some(done) => Account(a.used + Total(Costs(done.parts)), a.sections + Texts(done.parts),
                               a.counts + Costs(done.parts))
  }

  ghost function After(tok: Tokenizer, cap: int, total: int, a: Account, adder: Adder): Account {
    match adder
    case Section(name, text, budget) => AfterSection(tok, cap, a, name, text, budget)
    case Stable(name, text, limit) => AfterStable(tok, cap, total, a, name, text, limit)
    case Required(texts) => AfterRequired(tok, cap, a, texts)
    case Elastic(request) => AfterElastic(tok, cap, a, request)
  }

  /** The names whose counts the adder writes. */
  ghost function Writes(tok: Tokenizer, cap: int, a: Account, adder: Adder): set<string> {
    match adder
    case Section(name, text, _) => if text == "" then {} else {name}
    case Stable(name, _, _) => {name}
    case Required(texts) => if Admits(tok, cap, a, texts) then NonEmpty(texts).Keys else {}
    case Elastic(request) => if Allocation(tok, cap, a, request).Some? then Names(request) else {}
  }

  /** The account after all adders. */
  ghost function Filled(tok: Tokenizer, cap: int, total: int, adders: seq<Adder>): Account {
    if adders == [] then Account(0, map[], map[])
    else After(tok, cap, total, Filled(tok, cap, total, adders[..|adders| - 1]), adders[|adders| - 1])
  }

  /** The sum of all recorded counts that a later adder overwrote. */
  ghost function Lost(tok: Tokenizer, cap: int, total: int, adders: seq<Adder>): int {
    if adders == [] then 0
    else
      var before := Filled(tok, cap, total, adders[..|adders| - 1]);
      Lost(tok, cap, total, adders[..|adders| - 1])
      + Total(Among(before.counts, Writes(tok, cap, before, adders[|adders| - 1])))
  }

  lemma {:induction false} FilledStep(tok: Tokenizer, cap: int, total: int, adders: seq<Adder>, i: nat)
    requires i < |adders|
    ensures var before := Filled(tok, cap, total, adders[..i]);
            && Filled(tok, cap, total, adders[..i + 1]) == After(tok, cap, total, before, adders[i])
            && Lost(tok, cap, total, adders[..i + 1])
               == Lost(tok, cap, total, adders[..i]) + Total(Among(before.counts, Writes(tok, cap, before, adders[i])))
  {
    hide After, Writes, Total;
    assert adders[..i + 1][..i] == adders[..i];
  }

  // ----- the filler under any adders

  ghost function State(filler: SectionFiller): Account
    reads filler
  {
    Account(filler.used, filler.sections, filler.counts)
  }

  /** The adder has done what it does on values, and the total has moved away from the recorded counts by
      exactly the counts it overwrote. */
  ghost predicate Advances(tok: Tokenizer, cap: int, total: int, before: Account, after: Account, adder: Adder) {
    && after == After(tok, cap, total, before, adder)
    && after.used - Total(after.counts)
       == before.used - Total(before.counts) + Total(Among(before.counts, Writes(tok, cap, before, adder)))
  }

  method AddNamed(filler: SectionFiller, adder: Adder)
    requires filler.Valid() && (adder.Section? || adder.Stable?)
    modifies filler
    ensures filler.Valid() && filler.sections.Keys <= old(filler.sections.Keys) + Mentioned(adder)
    ensures Advances(filler.tok, filler.sectionCap, filler.totalLimit, old(State(filler)), State(filler), adder)
    ensures old(filler.Recorded()) && Unguarded(adder) !! old(filler.sections.Keys) ==>
              filler.Recorded() && filler.used - Total(filler.counts) == old(filler.used - Total(filler.counts))
  {
    hide Matched, Total, Among, Sound, ScaledSectionBudget;
    NothingLost(filler.counts);
    UnderOne(filler.counts, adder.name);
    if adder.Section? {
      filler.AddSection(adder.name, adder.text, adder.budget);
    } else {
      filler.AddStableSection(adder.name, adder.text, adder.limit);
    }
  }

  method AddTogether(filler: SectionFiller, adder: Adder)
    requires filler.Valid() && (adder.Required? || adder.Elastic?)
    modifies filler
    ensures filler.Valid() && filler.sections.Keys <= old(filler.sections.Keys) + Mentioned(adder)
    ensures Advances(filler.tok, filler.sectionCap, filler.totalLimit, old(State(filler)), State(filler), adder)
    ensures old(filler.Recorded()) && Unguarded(adder) !! old(filler.sections.Keys) ==>
              filler.Recorded() && filler.used - Total(filler.counts) == old(filler.used - Total(filler.counts))
  {
    hide Matched, Total, Among, Allocated, Costs, Texts, Counted, NonEmpty, Names, Quotas, Decided, WeightSum, Sound;
    NothingLost(filler.counts);
    if adder.Required? {
      var _ := filler.AddRequired(adder.texts);
    } else {
      var _ := filler.AddElastic(adder.request);
    }
  }

  method Add(filler: SectionFiller, adder: Adder)
    requires filler.Valid()
    modifies filler
    ensures filler.Valid() && filler.sections.Keys <= old(filler.sections.Keys) + Mentioned(adder)
    ensures Advances(filler.tok, filler.sectionCap, filler.totalLimit, old(State(filler)), State(filler), adder)
    ensures old(filler.Recorded()) && Unguarded(adder) !! old(filler.sections.Keys) ==>
              filler.Recorded() && filler.used - Total(filler.counts) == old(filler.used - Total(filler.counts))
  {
    hide Matched, Total, Advances, Sound;
    if adder.Section? || adder.Stable? {
      AddNamed(filler, adder);
    } else {
      AddTogether(filler, adder);
    }
  }

  lemma {:induction false} NothingLost(counts: map<string, int>)
    ensures Total(Among(counts, {})) == 0
  {
    assert Among(counts, {}) == map[];
  }

  lemma {:induction false} UnderOne(counts: map<string, int>, name: string)
    ensures Total(Among(counts, {name})) == Amount(counts, name)
  {
    var one := Among(counts, {name});
    TotalWithout(one, name);
    assert one - {name} == map[];
  }

  lemma {:induction false} MentionedStep(adders: seq<Adder>, i: nat)
    requires i < |adders|
    ensures MentionedBy(adders[..i + 1]) == MentionedBy(adders[..i]) + Mentioned(adders[i])
  {
    hide Mentioned;
    assert adders[..i + 1][..i] == adders[..i];
  }

  /** Whatever is added in whatever order, refused or not, the total stays under the cap. It exceeds the
      recorded counts by exactly the counts that later adders overwrote; and where no name is written
      again behind the adders' own checks, it is exactly what they explain. */
  method FillAll(tok: Tokenizer, sectionCap: int, totalLimit: int, adders: seq<Adder>) returns (filler: SectionFiller)
    requires Sound(tok)
    ensures fresh(filler) && filler.sectionCap == sectionCap && 0 <= filler.used <= Max(sectionCap, 0)
    ensures State(filler) == Filled(tok, sectionCap, totalLimit, adders)
    ensures filler.used == Total(filler.counts) + Lost(tok, sectionCap, totalLimit, adders)
    ensures (forall i | 0 <= i < |adders| :: Unguarded(adders[i]) !! MentionedBy(adders[..i])) ==>
              filler.Recorded() && filler.used == Total(filler.counts)
  {
    filler := new SectionFiller(tok, sectionCap, totalLimit);
    ghost var distinct := forall i | 0 <= i < |adders| :: Unguarded(adders[i]) !! MentionedBy(adders[..i]);
    for i := 0 to |adders|
      invariant fresh(filler) && filler.Valid()
      invariant filler.tok == tok && filler.sectionCap == sectionCap && filler.totalLimit == totalLimit
      invariant filler.sections.Keys <= MentionedBy(adders[..i])
      invariant State(filler) == Filled(tok, sectionCap, totalLimit, adders[..i])
      invariant filler.used == Total(filler.counts) + Lost(tok, sectionCap, totalLimit, adders[..i])
      invariant distinct ==> filler.Recorded() && filler.used == Total(filler.counts)
    {
      hide Matched, Total, MentionedBy, Mentioned, Unguarded, Sound, After, Writes, Filled, Lost, Among;
      MentionedStep(adders, i);
      FilledStep(tok, sectionCap, totalLimit, adders, i);
      Add(filler, adders[i]);
    }
    assert adders[..|adders|] == adders;
  }

  /** A section added twice under one name: the total counts both texts, the recorded counts one. */
  lemma {:induction false} RepeatedNameIsLost(tok: Tokenizer, cap: int, total: int, name: string, text: string)
    requires text != "" && 0 < tok.count(text) && 2 * tok.count(text) <= cap
    ensures var adders := [Section(name, text, 0), Section(name, text, 0)];
            && Filled(tok, cap, total, adders).used == 2 * tok.count(text)
            && Total(Filled(tok, cap, total, adders).counts) == tok.count(text)
            && Lost(tok, cap, total, adders) == tok.count(text)
  {
    hide Total, Filled, Lost;
    var one, both := [Section(name, text, 0)], [Section(name, text, 0), Section(name, text, 0)];
    assert both[..0] == [] && both[..1] == one && both[..2] == both;
    NothingFilled(tok, cap, total);
    FilledStep(tok, cap, total, both, 0);
    FilledStep(tok, cap, total, both, 1);
    var c := tok.count(text);
    var first := Account(c, map[name := text], map[name := c]);
    assert After(tok, cap, total, Account(0, map[], map[]), both[0]) == first;
    assert After(tok, cap, total, first, both[1]) == Account(2 * c, first.sections, first.counts);
    UnderOne(map[], name);
    UnderOne(first.counts, name);
    OneEntry(name, c);
  }

  lemma {:induction false} NothingFilled(tok: Tokenizer, cap: int, total: int)
    ensures Filled(tok, cap, total, []) == Account(0, map[], map[]) && Lost(tok, cap, total, []) == 0
  {
  }

  lemma {:induction false} OneEntry(name: string, count: int)
    ensures Total(map[name := count]) == count
  {
    TotalWithout(map[name := count], name);
    assert map[name := count] - {name} == map[];
  }
}
