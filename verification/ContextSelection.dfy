/** The greedy selection of governed context items under a token budget. */
module ContextSelection {
  import opened Sorting

  /** `utility` is the item's score for the request at hand. */
  datatype Item = Item(id: string, kind: string, tokenCost: int, stale: bool, hardPin: bool, utility: real)

  datatype Request = Request(tokenBudget: int, requiredKinds: set<string>, minKindCounts: map<string, int>)

  datatype Reason = Budget | RequiredKind | Policy

  datatype Decision = Decision(id: string, reason: Reason, utility: real)

  datatype Selection = Selection(selected: seq<Item>, dropped: seq<Decision>, used: int)

  function Cost(item: Item): nat { if item.tokenCost < 0 then 0 else item.tokenCost }

  predicate ById(a: Item, b: Item) { TextLeq(a.id, b.id) }

  /** Larger utility first, then by id. */
  predicate ByUtility(a: Item, b: Item) {
    a.utility > b.utility || (a.utility == b.utility && TextLeq(a.id, b.id))
  }

  predicate HasId(items: seq<Item>, id: string) {
    items != [] && (items[|items| - 1].id == id || HasId(items[..|items| - 1], id))
  }

  predicate WasDropped(dropped: seq<Decision>, id: string) {
    dropped != [] && (dropped[|dropped| - 1].id == id || WasDropped(dropped[..|dropped| - 1], id))
  }

  /** The first item of every id among those that are not stale. */
  function Candidates(items: seq<Item>): seq<Item> {
    if items == [] then []
    else
      var before, item := Candidates(items[..|items| - 1]), items[|items| - 1];
      if item.stale || HasId(before, item.id) then before else before + [item]
  }

  predicate Pinned(item: Item, request: Request) { item.hardPin || item.kind in request.requiredKinds }

  function PinnedOf(items: seq<Item>, request: Request): seq<Item> {
    if items == [] then []
    else PinnedOf(items[..|items| - 1], request) + if Pinned(items[|items| - 1], request) then [items[|items| - 1]]
      else []
  }

  function KindCount(items: seq<Item>, kind: string): nat {
    if items == [] then 0
    else KindCount(items[..|items| - 1], kind) + if items[|items| - 1].kind == kind then 1 else 0
  }

  /** Takes the item if it fits, and records the refusal if it does not. */
  function Offered(s: Selection, item: Item, request: Request, reason: Reason): Selection {
    if s.used + Cost(item) <= request.tokenBudget
    then s.(selected := s.selected + [item], used := s.used + Cost(item))
    else s.(dropped := s.dropped + [Decision(item.id, reason, item.utility)])
  }

  function FillReason(s: Selection, item: Item, request: Request): Reason {
    var required := if item.kind in request.minKindCounts then request.minKindCounts[item.kind] else 0;
    if KindCount(s.selected, item.kind) < required then RequiredKind else Budget
  }

  function Pins(pins: seq<Item>, request: Request): Selection {
    if pins == [] then Selection([], [], 0)
    else Offered(Pins(pins[..|pins| - 1], request), pins[|pins| - 1], request, Budget)
  }

  function Fill(start: Selection, order: seq<Item>, request: Request): Selection {
    if order == [] then start
    else
      var s, item := Fill(start, order[..|order| - 1], request), order[|order| - 1];
      if HasId(s.selected, item.id) then s else Offered(s, item, request, FillReason(s, item, request))
  }

  /** Whatever is neither selected nor dropped by now is dropped by policy. */
  function Rest(start: Selection, candidates: seq<Item>): Selection {
    if candidates == [] then start
    else
      var s, item := Rest(start, candidates[..|candidates| - 1]), candidates[|candidates| - 1];
      if !HasId(s.selected, item.id) && !WasDropped(s.dropped, item.id)
      then s.(dropped := s.dropped + [Decision(item.id, Policy, item.utility)]) else s
  }

  function Selected(items: seq<Item>, request: Request): Selection {
    var candidates := Candidates(items);
    var pins := Pins(Sorted(PinnedOf(candidates, request), ById), request);
    Rest(Fill(pins, Sorted(candidates, ByUtility), request), candidates)
  }

  method SelectWithResult(items: seq<Item>, request: Request) returns (result: Selection)
    ensures result == Selected(items, request)
  {
    hide *;
    var candidates: seq<Item> := [];
    StartsEmpty(items, request);
    for i := 0 to |items|
      invariant candidates == Candidates(items[..i])
    {
      CandidatesNext(items, i);
      if !items[i].stale && !HasId(candidates, items[i].id) { candidates := candidates + [items[i]]; }
    }
    assert items[..|items|] == items;
    var s := Selection([], [], 0);
    var pinned := Sorted(PinnedOf(candidates, request), ById);
    StartsEmpty(pinned, request);
    for i := 0 to |pinned|
      invariant s == Pins(pinned[..i], request)
    {
      PinsNext(pinned, request, i);
      s := Offered(s, pinned[i], request, Budget);
    }
    assert pinned[..|pinned|] == pinned;
    ghost var start := s;
    var order := Sorted(candidates, ByUtility);
    FillStarts(start, order, request);
    for i := 0 to |order|
      invariant s == Fill(start, order[..i], request)
    {
      FillNext(start, order, request, i);
      if HasId(s.selected, order[i].id) { continue; }
      s := Offered(s, order[i], request, FillReason(s, order[i], request));
    }
    assert order[..|order|] == order;
    ghost var filled := s;
    FillStarts(filled, candidates, request);
    for i := 0 to |candidates|
      invariant s == Rest(filled, candidates[..i])
    {
      RestNext(filled, candidates, i);
      if !HasId(s.selected, candidates[i].id) && !WasDropped(s.dropped, candidates[i].id) {
        s := s.(dropped := s.dropped + [Decision(candidates[i].id, Policy, candidates[i].utility)]);
      }
    }
    assert candidates[..|candidates|] == candidates;
    SelectedUnfolds(items, request);
    return s;
  }

  lemma {:induction false} SelectedUnfolds(items: seq<Item>, request: Request)
    ensures var candidates := Candidates(items);
            Selected(items, request)
            == Rest(Fill(Pins(Sorted(PinnedOf(candidates, request), ById), request), Sorted(candidates, ByUtility),
                         request), candidates)
  {
    hide Candidates, Rest, Fill, Pins, Sorted, PinnedOf;
  }

  lemma {:induction false} StartsEmpty(items: seq<Item>, request: Request)
    ensures Candidates(items[..0]) == [] && Pins(items[..0], request) == Selection([], [], 0)
  {
  }

  lemma {:induction false} FillStarts(start: Selection, order: seq<Item>, request: Request)
    ensures Fill(start, order[..0], request) == start && Rest(start, order[..0]) == start
  {
  }

  lemma {:induction false} CandidatesNext(items: seq<Item>, i: nat)
    requires i < |items|
    ensures var before := Candidates(items[..i]);
            Candidates(items[..i + 1]) == if items[i].stale || HasId(before, items[i].id) then before
              else before + [items[i]]
  {
    hide HasId;
    assert items[..i + 1][..i] == items[..i];
  }

  lemma {:induction false} PinsNext(pins: seq<Item>, request: Request, i: nat)
    requires i < |pins|
    ensures Pins(pins[..i + 1], request) == Offered(Pins(pins[..i], request), pins[i], request, Budget)
  {
    hide Offered;
    assert pins[..i + 1][..i] == pins[..i];
  }

  lemma {:induction false} FillNext(start: Selection, order: seq<Item>, request: Request, i: nat)
    requires i < |order|
    ensures var s := Fill(start, order[..i], request);
            Fill(start, order[..i + 1], request)
            == if HasId(s.selected, order[i].id) then s
               else Offered(s, order[i], request, FillReason(s, order[i], request))
  {
    hide Offered, HasId, FillReason;
    assert order[..i + 1][..i] == order[..i];
  }

  lemma {:induction false} RestNext(start: Selection, candidates: seq<Item>, i: nat)
    requires i < |candidates|
    ensures var s, item := Rest(start, candidates[..i]), candidates[i];
            Rest(start, candidates[..i + 1])
            == if !HasId(s.selected, item.id) && !WasDropped(s.dropped, item.id)
               then s.(dropped := s.dropped + [Decision(item.id, Policy, item.utility)]) else s
  {
    hide HasId, WasDropped;
    assert candidates[..i + 1][..i] == candidates[..i];
  }

  // ----- membership

  lemma {:induction false} HasIdIff(items: seq<Item>, id: string)
    ensures HasId(items, id) <==> exists item :: item in items && item.id == id
  {
    if items != [] {
      var front, last := items[..|items| - 1], items[|items| - 1];
      assert items == front + [last];
      HasIdIff(front, id);
      if last.id == id { assert last in items; }
    }
  }

  lemma {:induction false} Extended(items: seq<Item>, item: Item, id: string)
    ensures HasId(items + [item], id) <==> HasId(items, id) || item.id == id
  {
    assert (items + [item])[..|items|] == items;
  }

  lemma {:induction false} ExtendedDrops(dropped: seq<Decision>, d: Decision, id: string)
    ensures WasDropped(dropped + [d], id) <==> WasDropped(dropped, id) || d.id == id
  {
    assert (dropped + [d])[..|dropped|] == dropped;
  }

  // ----- the fate of one candidate

  function Total(items: seq<Item>): nat {
    if items == [] then 0 else Total(items[..|items| - 1]) + Cost(items[|items| - 1])
  }

  /** The running total is the cost of what was taken, and it fits. */
  predicate Accounted(s: Selection, request: Request) {
    s.used == Total(s.selected) && (s.selected != [] ==> s.used <= request.tokenBudget)
  }

  /** An item that was refused is not selected and would not fit any more. */
  predicate Settled(s: Selection, item: Item, request: Request) {
    WasDropped(s.dropped, item.id) ==> !HasId(s.selected, item.id) && request.tokenBudget < s.used + Cost(item)
  }

  predicate Decided(s: Selection, id: string) { HasId(s.selected, id) || WasDropped(s.dropped, id) }

  lemma {:induction false} OfferedSettles(s: Selection, item: Item, request: Request, reason: Reason, other: Item)
    requires Accounted(s, request) && Settled(s, other, request) && Settled(s, item, request)
    requires !HasId(s.selected, item.id) && (other.id == item.id ==> other == item)
    ensures Accounted(Offered(s, item, request, reason), request)
    ensures Settled(Offered(s, item, request, reason), other, request)
    ensures Decided(Offered(s, item, request, reason), item.id)
    ensures forall id | Decided(s, id) :: Decided(Offered(s, item, request, reason), id)
    ensures forall id | Decided(Offered(s, item, request, reason), id) :: id == item.id || Decided(s, id)
  {
    hide *;
    OfferedIs(s, item, request, reason);
    var d := Decision(item.id, reason, item.utility);
    TotalMore(s.selected, item);
    AccountedIs(s, request);
    AccountedIs(Offered(s, item, request, reason), request);
    SettledIs(s, other, request);
    SettledIs(s, item, request);
    SettledIs(Offered(s, item, request, reason), other, request);
    forall id: string
      ensures Decided(Offered(s, item, request, reason), id) <==> id == item.id || Decided(s, id)
      ensures HasId(s.selected + [item], id) <==> HasId(s.selected, id) || item.id == id
      ensures WasDropped(s.dropped + [d], id) <==> WasDropped(s.dropped, id) || item.id == id
    {
      Extended(s.selected, item, id);
      ExtendedDrops(s.dropped, d, id);
      DecidedIs(s, id);
      DecidedIs(Offered(s, item, request, reason), id);
    }
  }

  lemma {:induction false} OfferedIs(s: Selection, item: Item, request: Request, reason: Reason)
    ensures Offered(s, item, request, reason)
         == if s.used + Cost(item) <= request.tokenBudget
            then s.(selected := s.selected + [item], used := s.used + Cost(item))
            else s.(dropped := s.dropped + [Decision(item.id, reason, item.utility)])
  {
  }

  lemma {:induction false} TotalMore(items: seq<Item>, item: Item)
    ensures Total(items + [item]) == Total(items) + Cost(item)
  {
    assert (items + [item])[..|items|] == items;
  }

  lemma {:induction false} AccountedIs(s: Selection, request: Request)
    ensures Accounted(s, request)
            <==> s.used == Total(s.selected) && (s.selected != [] ==> s.used <= request.tokenBudget)
  {
  }

  lemma {:induction false} SettledIs(s: Selection, item: Item, request: Request)
    ensures Settled(s, item, request)
            <==> (WasDropped(s.dropped, item.id)
                  ==> !HasId(s.selected, item.id) && request.tokenBudget < s.used + Cost(item))
  {
    hide WasDropped, HasId;
  }

  lemma {:induction false} DecidedIs(s: Selection, id: string)
    ensures Decided(s, id) <==> HasId(s.selected, id) || WasDropped(s.dropped, id)
  {
    hide WasDropped, HasId;
  }

  // ----- distinct ids

  predicate DistinctIds(items: seq<Item>) {
    items != [] ==> DistinctIds(items[..|items| - 1]) && !HasId(items[..|items| - 1], items[|items| - 1].id)
  }

  /** Items with one id are one item. */
  ghost predicate Consistent(items: seq<Item>) {
    forall a, b | a in items && b in items && a.id == b.id :: a == b
  }

  lemma {:induction false} DistinctIsConsistent(items: seq<Item>)
    requires DistinctIds(items)
    ensures Consistent(items)
  {
    if items != [] {
      var front, last := items[..|items| - 1], items[|items| - 1];
      DistinctIsConsistent(front);
      forall a, b | a in items && b in items && a.id == b.id
        ensures a == b
      {
        HasIdIff(front, last.id);
        assert items == front + [last];
      }
    }
  }

  lemma {:induction false} CandidatesAreDistinct(items: seq<Item>)
    ensures DistinctIds(Candidates(items))
    ensures forall item | item in Candidates(items) :: item in items && !item.stale
  {
    if items != [] {
      var front, last := items[..|items| - 1], items[|items| - 1];
      CandidatesAreDistinct(front);
      assert items == front + [last];
      assert (Candidates(front) + [last])[..|Candidates(front)|] == Candidates(front);
    }
  }

  lemma {:induction false} CandidatesCoverIds(items: seq<Item>, id: string)
    ensures HasId(Candidates(items), id) <==> exists item :: item in items && !item.stale && item.id == id
  {
    if items != [] {
      var front, last := items[..|items| - 1], items[|items| - 1];
      CandidatesCoverIds(front, id);
      assert items == front + [last];
      Extended(Candidates(front), last, id);
      hide HasId, Candidates;
      if !last.stale && last.id == id { assert last in items; }
      CandidatesStep(items);
    }
  }

  lemma {:induction false} CandidatesStep(items: seq<Item>)
    requires items != []
    ensures var before, item := Candidates(items[..|items| - 1]), items[|items| - 1];
            Candidates(items) == if item.stale || HasId(before, item.id) then before else before + [item]
  {
  }

  // ----- the three passes

  lemma {:induction false} PinsSettle(pins: seq<Item>, request: Request, x: Item)
    requires DistinctIds(pins) && forall pin | pin in pins && pin.id == x.id :: pin == x
    ensures var s := Pins(pins, request);
            && Accounted(s, request) && Settled(s, x, request) && DistinctIds(s.selected)
            && (forall id :: Decided(s, id) <==> HasId(pins, id))
            && (forall item | item in s.selected :: item in pins)
            && (forall d | d in s.dropped :: d.reason != Policy)
  {
    hide Offered, Accounted, Settled;
    if pins == [] {
      NothingYet(request, x);
    } else {
      var front, last := pins[..|pins| - 1], pins[|pins| - 1];
      assert pins == front + [last];
      DistinctIsConsistent(pins);
      PinsSettle(front, request, x);
      PinsSettle(front, request, last);
      var s := Pins(front, request);
      assert !Decided(s, last.id);
      OfferedSettles(s, last, request, Budget, x);
      OfferedParts(s, last, request, Budget);
      forall id ensures Decided(Offered(s, last, request, Budget), id) <==> HasId(pins, id) {
        Extended(front, last, id);
      }
    }
  }

  lemma {:induction false} NothingYet(request: Request, x: Item)
    ensures Accounted(Selection([], [], 0), request) && Settled(Selection([], [], 0), x, request)
  {
  }

  lemma {:induction false} OfferedParts(s: Selection, item: Item, request: Request, reason: Reason)
    requires DistinctIds(s.selected) && !HasId(s.selected, item.id) && reason != Policy
    ensures var r := Offered(s, item, request, reason);
            && DistinctIds(r.selected)
            && (forall x | x in r.selected :: x in s.selected || x == item)
            && (forall d | d in r.dropped :: d in s.dropped || d.reason != Policy)
  {
    assert (s.selected + [item])[..|s.selected|] == s.selected;
  }

  lemma {:induction false} FillSettles(start: Selection, order: seq<Item>, request: Request, x: Item)
    requires Accounted(start, request) && DistinctIds(start.selected) && Consistent(order)
    requires forall d | d in start.dropped :: d.reason != Policy
    requires Settled(start, x, request) && forall item | item in order ::
             Settled(start, item, request) && (item.id == x.id ==> item == x)
    ensures var s := Fill(start, order, request);
            && Accounted(s, request) && Settled(s, x, request) && DistinctIds(s.selected)
            && (forall id :: Decided(s, id) <==> Decided(start, id) || HasId(order, id))
            && (forall item | item in s.selected :: item in start.selected || item in order)
            && (forall d | d in s.dropped :: d.reason != Policy)
  {
    hide Offered, Accounted, Settled;
    if order != [] {
      var front, last := order[..|order| - 1], order[|order| - 1];
      assert order == front + [last];
      FillSettles(start, front, request, x);
      FillSettles(start, front, request, last);
      var s := Fill(start, front, request);
      if !HasId(s.selected, last.id) {
        OfferedSettles(s, last, request, FillReason(s, last, request), x);
        OfferedParts(s, last, request, FillReason(s, last, request));
      }
      forall id ensures Decided(Fill(start, order, request), id) <==> Decided(start, id) || HasId(order, id) {
        Extended(front, last, id);
      }
    }
  }

  lemma {:induction false} NothingIsLeft(start: Selection, candidates: seq<Item>)
    requires forall item | item in candidates :: Decided(start, item.id)
    ensures Rest(start, candidates) == start
  {
    if candidates != [] {
      NothingIsLeft(start, candidates[..|candidates| - 1]);
      assert Decided(start, candidates[|candidates| - 1].id);
    }
  }

  // ----- sorted lists hold the same items

  lemma {:induction false} PinnedMembers(items: seq<Item>, request: Request)
    requires DistinctIds(items)
    ensures DistinctIds(PinnedOf(items, request))
    ensures forall item | item in PinnedOf(items, request) :: item in items
    ensures forall id | HasId(PinnedOf(items, request), id) :: HasId(items, id)
  {
    if items != [] {
      var front, last := items[..|items| - 1], items[|items| - 1];
      PinnedMembers(front, request);
      assert items == front + [last];
      var before := PinnedOf(front, request);
      assert (before + [last])[..|before|] == before && before + [] == before;
      forall id | HasId(PinnedOf(items, request), id) ensures HasId(items, id) {
        Extended(before, last, id);
        Extended(front, last, id);
      }
    }
  }

  lemma {:induction false} SameMembers(a: seq<Item>, b: seq<Item>)
    requires multiset(a) == multiset(b)
    ensures forall item :: item in a <==> item in b
    ensures forall id :: HasId(a, id) <==> HasId(b, id)
  {
    forall item ensures item in a <==> item in b { Members(a, b, item); }
    forall id ensures HasId(a, id) <==> HasId(b, id) {
      HasIdIff(a, id);
      HasIdIff(b, id);
    }
  }

  /** Distinctness is a matter of the multiset. */
  lemma {:induction false} DistinctAnyOrder(a: seq<Item>, b: seq<Item>)
    requires multiset(a) == multiset(b) && DistinctIds(a)
    ensures DistinctIds(b)
  {
    DistinctIsConsistent(a);
    SameMembers(a, b);
    forall item ensures multiset(b)[item] <= 1 { DistinctOnce(a, item); }
    OnceIsDistinct(b);
  }

  lemma {:induction false} DistinctOnce(items: seq<Item>, item: Item)
    requires DistinctIds(items)
    ensures multiset(items)[item] <= 1
  {
    if items != [] {
      var front, last := items[..|items| - 1], items[|items| - 1];
      DistinctOnce(front, item);
      HasIdIff(front, last.id);
      LastApart(items);
    }
  }

  lemma {:induction false} OnceIsDistinct(items: seq<Item>)
    requires Consistent(items) && forall item :: multiset(items)[item] <= 1
    ensures DistinctIds(items)
  {
    if items != [] {
      var front, last := items[..|items| - 1], items[|items| - 1];
      assert items == front + [last];
      LastApart(items);
      forall item ensures multiset(front)[item] <= 1 { assert multiset(items)[item] <= 1; }
      OnceIsDistinct(front);
      HasIdIff(front, last.id);
      assert last !in front by {
        assert multiset(items)[last] <= 1;
        assert last in front ==> last in multiset(front);
      }
    }
  }

  lemma {:induction false} ConsistentWithin(part: seq<Item>, whole: seq<Item>)
    requires Consistent(whole) && forall item | item in part :: item in whole
    ensures Consistent(part)
    ensures forall a, b | a in part && b in whole && a.id == b.id :: a == b
  {
  }

  // ----- what a selection is

  /** Pins and then the rest, everything considered. */
  ghost function Filled(items: seq<Item>, request: Request): Selection {
    Fill(Pins(Sorted(PinnedOf(Candidates(items), request), ById), request), Sorted(Candidates(items), ByUtility),
         request)
  }

  lemma {:induction false} FilledSettles(items: seq<Item>, request: Request, x: Item)
    requires x in Candidates(items)
    ensures var s := Filled(items, request);
            && Accounted(s, request) && Settled(s, x, request) && DistinctIds(s.selected)
            && (forall id :: Decided(s, id) <==> HasId(Candidates(items), id))
            && (forall item | item in s.selected :: item in Candidates(items))
            && (forall d | d in s.dropped :: d.reason != Policy)
  {
    var candidates := Candidates(items);
    var pinned := PinnedOf(candidates, request);
    var pins, order := Sorted(pinned, ById), Sorted(candidates, ByUtility);
    CandidatesAreDistinct(items);
    PinnedMembers(candidates, request);
    SortedKeeps(pinned, ById);
    SortedKeeps(candidates, ByUtility);
    SameMembers(pinned, pins);
    SameMembers(candidates, order);
    DistinctAnyOrder(pinned, pins);
    DistinctIsConsistent(candidates);
    hide Candidates, PinnedOf, Sorted, Pins, Fill, HasId, DistinctIds, Accounted, Settled, Decided;
    ConsistentWithin(order, candidates);
    ConsistentWithin(pins, candidates);
    PinsSettle(pins, request, x);
    var start := Pins(pins, request);
    forall item | item in order ensures Settled(start, item, request) { PinsSettle(pins, request, item); }
    FillSettles(start, order, request, x);
  }

  lemma {:induction false} SelectedIsFilled(items: seq<Item>, request: Request)
    ensures Selected(items, request) == Filled(items, request)
  {
    var candidates, s := Candidates(items), Filled(items, request);
    hide Candidates, HasId, WasDropped, Fill, Pins, Sorted;
    forall item | item in candidates ensures Decided(s, item.id) {
      FilledSettles(items, request, item);
      HasIdIff(candidates, item.id);
    }
    NothingIsLeft(s, candidates);
  }

  lemma {:induction false} EmptySelection(items: seq<Item>, request: Request)
    requires Candidates(items) == []
    ensures Filled(items, request) == Selection([], [], 0)
  {
    assert PinnedOf([], request) == [] && Sorted<Item>([], ById) == [] && Sorted<Item>([], ByUtility) == [];
  }

  /** The whole contract of a selection. Its cost is counted exactly and stays within any budget that
      is not negative. Every id that is not stale is selected or dropped and never both; what is
      dropped would overflow the final total, so no decision is ever left to policy. */
  lemma {:induction false} SelectionIsSound(items: seq<Item>, request: Request)
    ensures var s := Selected(items, request);
            && s.used == Total(s.selected)
            && (if request.tokenBudget < 0 then s.selected == [] else s.used <= request.tokenBudget)
            && DistinctIds(s.selected)
            && (forall item | item in s.selected :: item in items && !item.stale)
            && (forall id :: (exists item :: item in items && !item.stale && item.id == id)
                             <==> HasId(s.selected, id) || WasDropped(s.dropped, id))
            && (forall id :: !(HasId(s.selected, id) && WasDropped(s.dropped, id)))
            && (forall item | item in Candidates(items) && WasDropped(s.dropped, item.id) ::
                  request.tokenBudget < s.used + Cost(item))
            && (forall d | d in s.dropped :: d.reason != Policy)
  {
    var candidates, s := Candidates(items), Filled(items, request);
    SelectedIsFilled(items, request);
    CandidatesAreDistinct(items);
    if candidates == [] {
      EmptySelection(items, request);
    } else {
      FilledSettles(items, request, candidates[0]);
    }
    SettledAll(items, request);
    hide Candidates, Filled, Selected, HasId, WasDropped, DistinctIds, Total;
    forall id
      ensures (exists item :: item in items && !item.stale && item.id == id)
              <==> HasId(s.selected, id) || WasDropped(s.dropped, id)
    {
      CandidatesCoverIds(items, id);
    }
  }

  lemma {:induction false} SettledAll(items: seq<Item>, request: Request)
    ensures var s := Filled(items, request);
            && (forall item | item in Candidates(items) :: Settled(s, item, request))
            && (forall id :: Decided(s, id) <==> HasId(Candidates(items), id))
            && (forall id :: !(HasId(s.selected, id) && WasDropped(s.dropped, id)))
  {
    var candidates, s := Candidates(items), Filled(items, request);
    hide Candidates, Filled, HasId, WasDropped, DistinctIds, Accounted;
    forall item | item in candidates ensures Settled(s, item, request) { FilledSettles(items, request, item); }
    forall id ensures Decided(s, id) <==> HasId(candidates, id) {
      HasIdIff(candidates, id);
      if candidates == [] { DecidedNothing(items, request, id); } else { FilledSettles(items, request, candidates[0]); }
    }
    forall id ensures !(HasId(s.selected, id) && WasDropped(s.dropped, id)) {
      HasIdIff(candidates, id);
      if Decided(s, id) {
        var item :| item in candidates && item.id == id;
        assert Settled(s, item, request);
      }
    }
  }

  lemma {:induction false} DecidedNothing(items: seq<Item>, request: Request, id: string)
    requires Candidates(items) == []
    ensures !Decided(Filled(items, request), id)
  {
    EmptySelection(items, request);
  }

  // ----- the order of the input

  lemma {:induction false} OrdersAreTotal()
    ensures TotalOrder(ById) && TotalOrder(ByUtility)
  {
    forall a: Item, b: Item ensures ById(a, b) || ById(b, a) { TextTotal(a.id, b.id); }
    forall a: Item, b: Item ensures ByUtility(a, b) || ByUtility(b, a) { TextTotal(a.id, b.id); }
    forall a: Item, b: Item, c: Item | ById(a, b) && ById(b, c) ensures ById(a, c) { TextTransitive(a.id, b.id, c.id); }
    forall a: Item, b: Item, c: Item | ByUtility(a, b) && ByUtility(b, c) ensures ByUtility(a, c) {
      if TextLeq(a.id, b.id) && TextLeq(b.id, c.id) { TextTransitive(a.id, b.id, c.id); }
    }
  }

  lemma {:induction false} IdsDistinguish(items: seq<Item>)
    requires DistinctIds(items)
    ensures Distinguishes(ById, items) && Distinguishes(ByUtility, items)
  {
    DistinctIsConsistent(items);
    forall a, b | a in items && b in items && ((ById(a, b) && ById(b, a)) || (ByUtility(a, b) && ByUtility(b, a)))
      ensures a == b
    {
      TextTotal(a.id, b.id);
    }
  }

  function Fresh(items: seq<Item>): seq<Item> {
    if items == [] then []
    else Fresh(items[..|items| - 1]) + if items[|items| - 1].stale then [] else [items[|items| - 1]]
  }

  lemma {:induction false} FreshAreCandidates(items: seq<Item>)
    requires DistinctIds(Fresh(items))
    ensures Candidates(items) == Fresh(items)
  {
    if items != [] {
      var front, last := items[..|items| - 1], items[|items| - 1];
      assert (Fresh(front) + [last])[..|Fresh(front)|] == Fresh(front) && Fresh(front) + [] == Fresh(front);
      FreshAreCandidates(front);
    }
  }

  lemma {:induction false} FreshCount(items: seq<Item>, x: Item)
    ensures multiset(Fresh(items))[x] == if x.stale then 0 else multiset(items)[x]
  {
    if items != [] {
      FreshCount(items[..|items| - 1], x);
      LastApart(items);
    }
  }

  lemma {:induction false} PinnedCount(items: seq<Item>, request: Request, x: Item)
    ensures multiset(PinnedOf(items, request))[x] == if Pinned(x, request) then multiset(items)[x] else 0
  {
    if items != [] {
      PinnedCount(items[..|items| - 1], request, x);
      LastApart(items);
    }
  }

  lemma {:induction false} SameFresh(a: seq<Item>, b: seq<Item>)
    requires multiset(a) == multiset(b)
    ensures multiset(Fresh(a)) == multiset(Fresh(b))
  {
    forall x ensures multiset(Fresh(a))[x] == multiset(Fresh(b))[x] {
      FreshCount(a, x);
      FreshCount(b, x);
    }
  }

  lemma {:induction false} SamePinned(a: seq<Item>, b: seq<Item>, request: Request)
    requires multiset(a) == multiset(b)
    ensures multiset(PinnedOf(a, request)) == multiset(PinnedOf(b, request))
  {
    forall x ensures multiset(PinnedOf(a, request))[x] == multiset(PinnedOf(b, request))[x] {
      PinnedCount(a, request, x);
      PinnedCount(b, request, x);
    }
  }

  /** With distinct ids the selection does not depend on the order of the input at all. */
  lemma {:induction false} OrderDoesNotMatter(a: seq<Item>, b: seq<Item>, request: Request)
    requires multiset(a) == multiset(b) && DistinctIds(Fresh(a))
    ensures Selected(a, request) == Selected(b, request)
  {
    hide *;
    SameFresh(a, b);
    DistinctAnyOrder(Fresh(a), Fresh(b));
    FreshAreCandidates(a);
    FreshAreCandidates(b);
    SamePinned(Fresh(a), Fresh(b), request);
    PinnedMembers(Fresh(a), request);
    OrdersAreTotal();
    IdsDistinguish(Fresh(a));
    IdsDistinguish(PinnedOf(Fresh(a), request));
    SortedForgetsOrder(PinnedOf(Fresh(a), request), PinnedOf(Fresh(b), request), ById);
    SortedForgetsOrder(Fresh(a), Fresh(b), ByUtility);
    SelectedIsFilled(a, request);
    SelectedIsFilled(b, request);
    FilledUnfolds(a, request);
    FilledUnfolds(b, request);
  }

  lemma {:induction false} FilledUnfolds(items: seq<Item>, request: Request)
    ensures Filled(items, request)
         == Fill(Pins(Sorted(PinnedOf(Candidates(items), request), ById), request),
                 Sorted(Candidates(items), ByUtility), request)
  {
  }

  // ----- exactly what is selected

  lemma {:induction false} FillIds(start: Selection, order: seq<Item>, request: Request, id: string)
    ensures HasId(Fill(start, order, request).selected, id) ==> HasId(start.selected, id) || HasId(order, id)
    ensures HasId(start.selected, id) ==> HasId(Fill(start, order, request).selected, id)
  {
    hide HasId, FillReason;
    if order != [] {
      var front, last := order[..|order| - 1], order[|order| - 1];
      FillIds(start, front, request, id);
      Extended(Fill(start, front, request).selected, last, id);
      Extended(front, last, id);
      assert order == front + [last];
    }
  }

  /** The cost of what the second pass took from a list. */
  function TakenCost(list: seq<Item>, start: Selection, s: Selection): nat {
    if list == [] then 0
    else
      var item := list[|list| - 1];
      TakenCost(list[..|list| - 1], start, s)
      + if !HasId(start.selected, item.id) && HasId(s.selected, item.id) then Cost(item) else 0
  }

  lemma {:induction false} TakenCostAgrees(list: seq<Item>, start: Selection, a: Selection, b: Selection)
    requires forall item | item in list :: HasId(a.selected, item.id) == HasId(b.selected, item.id)
    ensures TakenCost(list, start, a) == TakenCost(list, start, b)
  {
    hide HasId;
    if list != [] {
      TakenCostAgrees(list[..|list| - 1], start, a, b);
      assert list[|list| - 1] in list;
    }
  }

  /** What one more offer leaves of the earlier decisions. */
  lemma {:induction false} FillLast(start: Selection, front: seq<Item>, last: Item, request: Request)
    requires DistinctIds(front + [last])
    ensures var before, s := Fill(start, front, request), Fill(start, front + [last], request);
            && HasId(before.selected, last.id) == HasId(start.selected, last.id)
            && HasId(s.selected, last.id)
               == (HasId(start.selected, last.id) || before.used + Cost(last) <= request.tokenBudget)
            && (forall item | item in front :: HasId(s.selected, item.id) == HasId(before.selected, item.id))
            && s.used == before.used + if HasId(s.selected, last.id) && !HasId(start.selected, last.id)
               then Cost(last) else 0
  {
    var before := Fill(start, front, request);
    assert (front + [last])[..|front|] == front;
    FillIds(start, front, request, last.id);
    Extended(before.selected, last, last.id);
    forall item | item in front
      ensures item.id != last.id
      ensures HasId(before.selected + [last], item.id) == HasId(before.selected, item.id)
    {
      HasIdIff(front, last.id);
      Extended(before.selected, last, item.id);
    }
    hide HasId, FillReason, DistinctIds;
  }

  lemma {:induction false} DistinctFront(items: seq<Item>)
    requires items != [] && DistinctIds(items)
    ensures items == items[..|items| - 1] + [items[|items| - 1]] && DistinctIds(items[..|items| - 1])
  {
  }

  lemma {:induction false} FillUsed(start: Selection, order: seq<Item>, request: Request)
    requires DistinctIds(order)
    ensures Fill(start, order, request).used == start.used + TakenCost(order, start, Fill(start, order, request))
  {
    if order != [] {
      var front, last := order[..|order| - 1], order[|order| - 1];
      DistinctFront(order);
      FillUsed(start, front, request);
      FillLast(start, front, last, request);
      TakenCostAgrees(front, start, Fill(start, order, request), Fill(start, front, request));
      hide Fill, HasId, DistinctIds;
    }
  }

  lemma {:induction false} FillAt(start: Selection, order: seq<Item>, request: Request, k: nat)
    requires k < |order| && DistinctIds(order)
    ensures var s := Fill(start, order, request);
            HasId(s.selected, order[k].id)
            <==> HasId(start.selected, order[k].id)
                 || start.used + TakenCost(order[..k], start, s) + Cost(order[k]) <= request.tokenBudget
  {
    hide Fill, HasId, DistinctIds, TakenCost;
    var front, last := order[..|order| - 1], order[|order| - 1];
    DistinctFront(order);
    FillLast(start, front, last, request);
    if k == |order| - 1 {
      FillUsed(start, front, request);
      TakenCostAgrees(front, start, Fill(start, order, request), Fill(start, front, request));
    } else {
      FillAt(start, front, request, k);
      assert front[..k] == order[..k] && front[k] == order[k];
      TakenCostAgrees(order[..k], start, Fill(start, order, request), Fill(start, front, request));
    }
  }

  /** Exactly what is selected: the pins that fit in the order of their ids, and then each candidate,
      by falling utility, that fits beside the pins and the better ones that were taken. */
  lemma {:induction false} SelectedIffItFits(items: seq<Item>, request: Request, k: nat)
    requires k < |Candidates(items)|
    ensures var order := Sorted(Candidates(items), ByUtility);
            var pins := Pins(Sorted(PinnedOf(Candidates(items), request), ById), request);
            var s := Selected(items, request);
            && Ascending(order, ByUtility) && multiset(order) == multiset(Candidates(items))
            && (HasId(s.selected, order[k].id)
                <==> HasId(pins.selected, order[k].id)
                     || pins.used + TakenCost(order[..k], pins, s) + Cost(order[k]) <= request.tokenBudget)
  {
    hide *;
    var candidates := Candidates(items);
    OrdersAreTotal();
    SortedKeeps(candidates, ByUtility);
    SortedAscends(candidates, ByUtility);
    CandidatesAreDistinct(items);
    DistinctAnyOrder(candidates, Sorted(candidates, ByUtility));
    SelectedIsFilled(items, request);
    FilledUnfolds(items, request);
    FillAt(Pins(Sorted(PinnedOf(candidates, request), ById), request), Sorted(candidates, ByUtility), request, k);
  }

  /** The pins are taken in the order of their ids: each one that fits beside those before it. */
  lemma {:induction false} PinsAreFilled(pins: seq<Item>, request: Request)
    requires DistinctIds(pins)
    ensures Pins(pins, request).selected == Fill(Selection([], [], 0), pins, request).selected
    ensures Pins(pins, request).used == Fill(Selection([], [], 0), pins, request).used
  {
    hide FillReason;
    if pins != [] {
      var front, last := pins[..|pins| - 1], pins[|pins| - 1];
      DistinctFront(pins);
      PinsAreFilled(front, request);
      FillLast(Selection([], [], 0), front, last, request);
      hide DistinctIds;
    }
  }

  lemma {:induction false} FillKeepsDrops(start: Selection, order: seq<Item>, request: Request, id: string)
    requires WasDropped(start.dropped, id)
    ensures WasDropped(Fill(start, order, request).dropped, id)
  {
    hide HasId, FillReason, WasDropped;
    if order != [] {
      var front, last := order[..|order| - 1], order[|order| - 1];
      FillKeepsDrops(start, front, request, id);
      var s := Fill(start, front, request);
      ExtendedDrops(s.dropped, Decision(last.id, FillReason(s, last, request), last.utility), id);
    }
  }

  /** The second pass neither undoes a pin nor takes one that was refused. */
  lemma {:induction false} PinsAreFinal(items: seq<Item>, request: Request, pin: Item)
    requires pin in PinnedOf(Candidates(items), request)
    ensures HasId(Selected(items, request).selected, pin.id)
            <==> HasId(Pins(Sorted(PinnedOf(Candidates(items), request), ById), request).selected, pin.id)
  {
    hide *;
    var candidates := Candidates(items);
    var pinned := PinnedOf(candidates, request);
    var pins := Sorted(pinned, ById);
    var start, order := Pins(pins, request), Sorted(candidates, ByUtility);
    SelectedIsFilled(items, request);
    FilledUnfolds(items, request);
    FillIds(start, order, request, pin.id);
    if !HasId(start.selected, pin.id) {
      PinIsDecided(items, request, pin);
      FillKeepsDrops(start, order, request, pin.id);
      SettledAll(items, request);
    }
  }

  lemma {:induction false} SortedPins(items: seq<Item>, request: Request)
    ensures var pinned := PinnedOf(Candidates(items), request);
            && multiset(Sorted(pinned, ById)) == multiset(pinned) && DistinctIds(Sorted(pinned, ById))
            && Ascending(Sorted(pinned, ById), ById)
  {
    hide *;
    var candidates := Candidates(items);
    var pinned := PinnedOf(candidates, request);
    OrdersAreTotal();
    CandidatesAreDistinct(items);
    PinnedMembers(candidates, request);
    SortedKeeps(pinned, ById);
    SortedAscends(pinned, ById);
    DistinctAnyOrder(pinned, Sorted(pinned, ById));
  }

  lemma {:induction false} PinIsDecided(items: seq<Item>, request: Request, pin: Item)
    requires pin in PinnedOf(Candidates(items), request)
    ensures var s := Pins(Sorted(PinnedOf(Candidates(items), request), ById), request);
            HasId(s.selected, pin.id) || WasDropped(s.dropped, pin.id)
  {
    hide HasId, WasDropped, DistinctIds, Pins, Sorted, PinnedOf, Candidates, Accounted, Settled;
    var pinned := PinnedOf(Candidates(items), request);
    var pins := Sorted(pinned, ById);
    SortedPins(items, request);
    SameMembers(pinned, pins);
    DistinctIsConsistent(pins);
    PinsSettle(pins, request, pin);
    HasIdIff(pins, pin.id);
  }

  /** Exactly which pins are selected: in the order of their ids, each that fits beside the pins
      before it that were taken. */
  lemma {:induction false} PinSelectedIffItFits(items: seq<Item>, request: Request, k: nat)
    requires k < |PinnedOf(Candidates(items), request)|
    ensures var pins := Sorted(PinnedOf(Candidates(items), request), ById);
            var s := Selected(items, request);
            && Ascending(pins, ById) && multiset(pins) == multiset(PinnedOf(Candidates(items), request))
            && (HasId(s.selected, pins[k].id)
                <==> TakenCost(pins[..k], Selection([], [], 0), s) + Cost(pins[k]) <= request.tokenBudget)
  {
    hide *;
    var pinned := PinnedOf(Candidates(items), request);
    var pins, none := Sorted(pinned, ById), Selection([], [], 0);
    SortedPins(items, request);
    SameMembers(pinned, pins);
    PinsAreFilled(pins, request);
    FillAt(none, pins, request, k);
    NothingSelected(pins[k].id);
    forall pin | pin in pins
      ensures HasId(Selected(items, request).selected, pin.id) == HasId(Fill(none, pins, request).selected, pin.id)
    {
      PinsAreFinal(items, request, pin);
    }
    assert pins[k] in pins;
    assert forall item | item in pins[..k] :: item in pins;
    TakenCostAgrees(pins[..k], none, Selected(items, request), Fill(none, pins, request));
  }

  lemma {:induction false} NothingSelected(id: string)
    ensures !HasId([], id)
  {
  }
}
