/** Why the selection leaves items out, and in which order it says so. */
module ContextDrops {
  import opened Sorting
  import opened ContextSelection

  /** The pins left out, in the order of the list: each was over budget. */
  function PinDrops(pins: seq<Item>, s: Selection): seq<Decision> {
    if pins == [] then []
    else
      var pin := pins[|pins| - 1];
      PinDrops(pins[..|pins| - 1], s)
      + if HasId(s.selected, pin.id) then [] else [Decision(pin.id, Budget, pin.utility)]
  }

  /** How many items of a kind the second pass took from a list. */
  function TakenKind(list: seq<Item>, start: Selection, s: Selection, kind: string): nat {
    if list == [] then 0
    else
      var item := list[|list| - 1];
      TakenKind(list[..|list| - 1], start, s, kind)
      + if item.kind == kind && !HasId(start.selected, item.id) && HasId(s.selected, item.id) then 1 else 0
  }

  /** The kind still lacked items when its turn came: the selected pins of the kind and the better items of it
      that were taken are fewer than the request asks for. */
  predicate KindLacks(front: seq<Item>, start: Selection, s: Selection, request: Request, kind: string) {
    kind in request.minKindCounts
    && KindCount(start.selected, kind) + TakenKind(front, start, s, kind) < request.minKindCounts[kind]
  }

  /** The items left out, in the order of the list: for lack of their kind, or over budget. */
  function FillDrops(order: seq<Item>, start: Selection, s: Selection, request: Request): seq<Decision> {
    if order == [] then []
    else
      var front, item := order[..|order| - 1], order[|order| - 1];
      FillDrops(front, start, s, request)
      + if HasId(s.selected, item.id) then []
        else [Decision(item.id, if KindLacks(front, start, s, request, item.kind) then RequiredKind else Budget,
                       item.utility)]
  }

  lemma {:induction false} TakenKindAgrees(list: seq<Item>, start: Selection, a: Selection, b: Selection, kind: string)
    requires forall item | item in list :: HasId(a.selected, item.id) == HasId(b.selected, item.id)
    ensures TakenKind(list, start, a, kind) == TakenKind(list, start, b, kind)
  {
    hide HasId;
    if list != [] {
      TakenKindAgrees(list[..|list| - 1], start, a, b, kind);
      assert list[|list| - 1] in list;
    }
  }

  lemma {:induction false} FillDropsAgree(order: seq<Item>, start: Selection, a: Selection, b: Selection,
                                          request: Request)
    requires forall item | item in order :: HasId(a.selected, item.id) == HasId(b.selected, item.id)
    ensures FillDrops(order, start, a, request) == FillDrops(order, start, b, request)
  {
    hide HasId, TakenKind;
    if order != [] {
      var front, item := order[..|order| - 1], order[|order| - 1];
      FillDropsAgree(front, start, a, b, request);
      TakenKindAgrees(front, start, a, b, item.kind);
      assert item in order;
    }
  }

  lemma {:induction false} PinDropsAgree(pins: seq<Item>, a: Selection, b: Selection)
    requires forall pin | pin in pins :: HasId(a.selected, pin.id) == HasId(b.selected, pin.id)
    ensures PinDrops(pins, a) == PinDrops(pins, b)
  {
    hide HasId;
    if pins != [] {
      PinDropsAgree(pins[..|pins| - 1], a, b);
      assert pins[|pins| - 1] in pins;
    }
  }

  /** One more offer: taken, or dropped with its reason, unless its id is selected already. */
  lemma {:induction false} FillOnce(start: Selection, front: seq<Item>, last: Item, request: Request)
    ensures var before, s := Fill(start, front, request), Fill(start, front + [last], request);
            if HasId(before.selected, last.id) then s == before
            else if before.used + Cost(last) <= request.tokenBudget
              then s.selected == before.selected + [last] && s.dropped == before.dropped
            else
              && s.selected == before.selected
              && s.dropped == before.dropped
                 + [Decision(last.id, if last.kind in request.minKindCounts
                                         && KindCount(before.selected, last.kind) < request.minKindCounts[last.kind]
                                      then RequiredKind else Budget, last.utility)]
  {
    hide HasId, KindCount;
    assert (front + [last])[..|front|] == front;
  }

  lemma {:induction false} KindCountMore(items: seq<Item>, item: Item, kind: string)
    ensures KindCount(items + [item], kind) == KindCount(items, kind) + if item.kind == kind then 1 else 0
  {
    assert (items + [item])[..|items|] == items;
  }

  lemma {:induction false} FillKinds(start: Selection, order: seq<Item>, request: Request, kind: string)
    requires DistinctIds(order)
    ensures var s := Fill(start, order, request);
            KindCount(s.selected, kind) == KindCount(start.selected, kind) + TakenKind(order, start, s, kind)
  {
    hide HasId, KindCount, DistinctIds, Fill;
    if order == [] {
      FillStarts(start, order, request);
      assert order[..0] == order;
    } else {
      var front, last := order[..|order| - 1], order[|order| - 1];
      DistinctFront(order);
      FillKinds(start, front, request, kind);
      FillLast(start, front, last, request);
      FillOnce(start, front, last, request);
      var before, s := Fill(start, front, request), Fill(start, order, request);
      KindCountMore(before.selected, last, kind);
      TakenKindAgrees(front, start, s, before, kind);
    }
  }

  lemma {:induction false} FillDropsAre(start: Selection, order: seq<Item>, request: Request)
    requires DistinctIds(order)
    ensures var s := Fill(start, order, request);
            s.dropped == start.dropped + FillDrops(order, start, s, request)
  {
    hide HasId, KindCount, TakenKind, DistinctIds, Fill, FillDrops;
    if order == [] {
      FillStarts(start, order, request);
      assert order[..0] == order;
      NoDrops(start, Fill(start, order, request), request);
    } else {
      var front, last := order[..|order| - 1], order[|order| - 1];
      DistinctFront(order);
      FillDropsAre(start, front, request);
      FillLast(start, front, last, request);
      FillOnce(start, front, last, request);
      FillKinds(start, front, request, last.kind);
      var before, s := Fill(start, front, request), Fill(start, order, request);
      TakenKindAgrees(front, start, s, before, last.kind);
      FillDropsAgree(front, start, s, before, request);
      FillDropsLast(front, last, start, s, request);
    }
  }

  lemma {:induction false} NoDrops(start: Selection, s: Selection, request: Request)
    ensures FillDrops([], start, s, request) == [] && PinDrops([], s) == []
  {
  }

  lemma {:induction false} FillDropsLast(front: seq<Item>, last: Item, start: Selection, s: Selection, request: Request)
    ensures FillDrops(front + [last], start, s, request)
         == FillDrops(front, start, s, request)
            + if HasId(s.selected, last.id) then []
              else [Decision(last.id, if KindLacks(front, start, s, request, last.kind) then RequiredKind else Budget,
                             last.utility)]
  {
    hide HasId, KindLacks;
    assert (front + [last])[..|front|] == front;
  }

  lemma {:induction false} PinDropsLast(front: seq<Item>, last: Item, s: Selection)
    ensures PinDrops(front + [last], s)
         == PinDrops(front, s) + if HasId(s.selected, last.id) then [] else [Decision(last.id, Budget, last.utility)]
  {
    hide HasId;
    assert (front + [last])[..|front|] == front;
  }

  lemma {:induction false} PinsOnce(front: seq<Item>, last: Item, request: Request)
    ensures Pins(front + [last], request) == Offered(Pins(front, request), last, request, Budget)
  {
    hide Offered;
    assert (front + [last])[..|front|] == front;
  }

  lemma {:induction false} PinDropsAre(pins: seq<Item>, request: Request)
    requires DistinctIds(pins)
    ensures Pins(pins, request).dropped == PinDrops(pins, Pins(pins, request))
  {
    hide HasId, DistinctIds, Pins, PinDrops, Fill;
    if pins == [] {
      StartsEmpty(pins, request);
      assert pins[..0] == pins;
      NoDrops(Selection([], [], 0), Pins(pins, request), request);
    } else {
      var front, last := pins[..|pins| - 1], pins[|pins| - 1];
      var none, before, s := Selection([], [], 0), Pins(front, request), Pins(pins, request);
      DistinctFront(pins);
      PinDropsAre(front, request);
      PinsAreFilled(front, request);
      PinsAreFilled(pins, request);
      FillLast(none, front, last, request);
      NothingSelected(last.id);
      PinsOnce(front, last, request);
      PinDropsAgree(front, s, before);
      PinDropsLast(front, last, s);
    }
  }

  /** The whole list of refusals: first the pins left out, in the order of their ids, all over budget; then,
      by falling utility, every candidate left out, once more for the pins, with the reason that its kind
      lacked items or that it was over budget. Each refusal carries the item's own utility. */
  lemma {:induction false} DropsAreExplained(items: seq<Item>, request: Request)
    ensures var candidates := Candidates(items);
            var pins, order := Sorted(PinnedOf(candidates, request), ById), Sorted(candidates, ByUtility);
            var s := Selected(items, request);
            s.dropped == PinDrops(pins, s) + FillDrops(order, Pins(pins, request), s, request)
  {
    hide *;
    var candidates := Candidates(items);
    var pins, order := Sorted(PinnedOf(candidates, request), ById), Sorted(candidates, ByUtility);
    SortedPins(items, request);
    SameMembers(PinnedOf(candidates, request), pins);
    OrdersAreTotal();
    SortedKeeps(candidates, ByUtility);
    CandidatesAreDistinct(items);
    DistinctAnyOrder(candidates, order);
    SelectedIsFilled(items, request);
    FilledUnfolds(items, request);
    PinDropsAre(pins, request);
    FillDropsAre(Pins(pins, request), order, request);
    forall pin | pin in pins
      ensures HasId(Selected(items, request).selected, pin.id) == HasId(Pins(pins, request).selected, pin.id)
    {
      PinsAreFinal(items, request, pin);
    }
    PinDropsAgree(pins, Selected(items, request), Pins(pins, request));
  }

  // ----- the candidates and their two orders

  /** The text is the other, begins it, or is smaller at the first difference. */
  predicate ComesFirst(a: string, b: string) {
    exists k | 0 <= k <= |a| && k <= |b| :: DiffersAt(a, b, k)
  }

  predicate DiffersAt(a: string, b: string, k: nat)
    requires k <= |a| && k <= |b|
  {
    a[..k] == b[..k] && (k == |a| || (k < |b| && a[k] < b[k]))
  }

  lemma {:induction false} DiffersBehind(a: string, b: string, k: nat)
    requires a != "" && b != "" && a[0] == b[0] && 0 < k <= |a| && k <= |b|
    ensures DiffersAt(a, b, k) <==> DiffersAt(a[1..], b[1..], k - 1)
  {
    assert a[..k] == [a[0]] + a[1..][..k - 1] && b[..k] == [b[0]] + b[1..][..k - 1];
    assert a[1..][..k - 1] == a[..k][1..] && b[1..][..k - 1] == b[..k][1..];
  }

  lemma {:induction false} DiffersFirst(a: string, b: string)
    ensures DiffersAt(a, b, 0) <==> a == "" || (b != "" && a[0] < b[0])
    ensures forall k | 0 < k <= |a| && k <= |b| && a[0] != b[0] :: !DiffersAt(a, b, k)
  {
    forall k | 0 < k <= |a| && k <= |b| && a[0] != b[0] ensures !DiffersAt(a, b, k) {
      assert a[..k][0] == a[0] && b[..k][0] == b[0];
    }
  }

  lemma {:induction false} TextOrderIs(a: string, b: string)
    ensures TextLeq(a, b) <==> ComesFirst(a, b)
  {
    hide DiffersAt;
    DiffersFirst(a, b);
    if a != "" && b != "" && a[0] == b[0] {
      TextOrderIs(a[1..], b[1..]);
      forall k | 0 < k <= |a| && k <= |b| ensures DiffersAt(a, b, k) <==> DiffersAt(a[1..], b[1..], k - 1) {
        DiffersBehind(a, b, k);
      }
      assert forall k | 0 <= k <= |a[1..]| && k <= |b[1..]| :: DiffersAt(a[1..], b[1..], k) <==> DiffersAt(a, b, k + 1);
    }
  }

  lemma {:induction false} AscendingAt(s: seq<Item>, leq: (Item, Item) -> bool, i: nat, j: nat)
    requires Ascending(s, leq) && i < j < |s|
    ensures leq(s[i], s[j])
  {
    var front := s[..|s| - 1];
    if j < |s| - 1 {
      AscendingAt(front, leq, i, j);
      assert front[i] == s[i] && front[j] == s[j];
    } else {
      assert s[i] in s;
    }
  }

  /** No fresh item with the same id stands in front of it. */
  predicate IsFirstOfItsId(items: seq<Item>, k: nat)
    requires k < |items|
  {
    !items[k].stale && forall j | 0 <= j < k && items[j].id == items[k].id :: items[j].stale
  }

  predicate StandsFirst(items: seq<Item>, item: Item) {
    exists k | 0 <= k < |items| :: items[k] == item && IsFirstOfItsId(items, k)
  }

  lemma {:induction false} FirstInFront(items: seq<Item>, k: nat)
    requires k < |items| - 1
    ensures items[k] == items[..|items| - 1][k]
            && (IsFirstOfItsId(items, k) <==> IsFirstOfItsId(items[..|items| - 1], k))
  {
    var front := items[..|items| - 1];
    assert forall j | 0 <= j <= k :: front[j] == items[j];
  }

  lemma {:induction false} StandsFirstMore(items: seq<Item>, item: Item)
    requires items != []
    ensures StandsFirst(items, item)
            <==> || StandsFirst(items[..|items| - 1], item)
                 || (items[|items| - 1] == item && IsFirstOfItsId(items, |items| - 1))
  {
    hide IsFirstOfItsId;
    var front := items[..|items| - 1];
    forall k | 0 <= k < |front|
           ensures items[k] == front[k] && (IsFirstOfItsId(items, k) <==> IsFirstOfItsId(front, k)) {
      FirstInFront(items, k);
    }
  }

  lemma {:induction false} CandidatesAreFirst(items: seq<Item>, item: Item)
    ensures item in Candidates(items) <==> StandsFirst(items, item)
  {
    hide *;
    if items == [] {
      NoCandidates(item);
    } else {
      var front, last := items[..|items| - 1], items[|items| - 1];
      CandidatesAreFirst(front, item);
      CandidatesCoverIds(front, last.id);
      CandidatesStep(items);
      StandsFirstMore(items, item);
      LastIsFirst(items, Candidates(front));
    }
  }

  lemma {:induction false} NoCandidates(item: Item)
    ensures item !in Candidates([]) && !StandsFirst([], item)
  {
  }

  lemma {:induction false} LastIsFirst(items: seq<Item>, before: seq<Item>)
    requires items != []
    requires var front, last := items[..|items| - 1], items[|items| - 1];
             HasId(before, last.id) <==> exists item :: item in front && !item.stale && item.id == last.id
    ensures var last := items[|items| - 1];
            IsFirstOfItsId(items, |items| - 1) <==> !last.stale && !HasId(before, last.id)
  {
    hide HasId;
    var front, last := items[..|items| - 1], items[|items| - 1];
    if HasId(before, last.id) {
      var item :| item in front && !item.stale && item.id == last.id;
      var j :| 0 <= j < |front| && front[j] == item;
      assert items[j] == item;
    } else {
      forall j | 0 <= j < |items| - 1 && items[j].id == last.id ensures items[j].stale {
        assert items[j] == front[j] && front[j] in front;
      }
    }
  }

  lemma {:induction false} PinnedAre(candidates: seq<Item>, request: Request, item: Item)
    ensures item in PinnedOf(candidates, request)
            <==> item in candidates && (item.hardPin || item.kind in request.requiredKinds)
  {
    if candidates != [] {
      var front, last := candidates[..|candidates| - 1], candidates[|candidates| - 1];
      PinnedAre(front, request, item);
      assert candidates == front + [last];
    }
  }

  /** What the two passes go through: the candidates are the first fresh items of their ids; the pins are those
      that are pinned hard or of a required kind, by id; the order of the rest falls in utility, and among equals
      goes by id. A negative cost counts as none. */
  lemma {:induction false} PassesGoInOrder(items: seq<Item>, request: Request)
    ensures var candidates := Candidates(items);
            var pins, order := Sorted(PinnedOf(candidates, request), ById), Sorted(candidates, ByUtility);
            && (forall item :: item in order <==> StandsFirst(items, item))
            && (forall item :: item in pins <==>
                  item in order && (item.hardPin || item.kind in request.requiredKinds))
            && (forall i, j | 0 <= i < j < |pins| :: ComesFirst(pins[i].id, pins[j].id))
            && (forall i, j | 0 <= i < j < |order| ::
                  order[i].utility > order[j].utility
                  || (order[i].utility == order[j].utility && ComesFirst(order[i].id, order[j].id)))
    ensures forall item: Item :: Cost(item) == if item.tokenCost <= 0 then 0 else item.tokenCost
  {
    hide Candidates, PinnedOf, Sorted, ComesFirst, StandsFirst, TextLeq, Ascending;
    var candidates := Candidates(items);
    var pins, order := Sorted(PinnedOf(candidates, request), ById), Sorted(candidates, ByUtility);
    OrdersAreTotal();
    SortedKeeps(candidates, ByUtility);
    SortedKeeps(PinnedOf(candidates, request), ById);
    SortedAscends(candidates, ByUtility);
    SortedAscends(PinnedOf(candidates, request), ById);
    SameMembers(candidates, order);
    SameMembers(PinnedOf(candidates, request), pins);
    forall item ensures item in order <==> StandsFirst(items, item) {
      CandidatesAreFirst(items, item);
    }
    forall item ensures item in pins <==> item in order && (item.hardPin || item.kind in request.requiredKinds) {
      PinnedAre(candidates, request, item);
    }
    forall i, j | 0 <= i < j < |pins| ensures ComesFirst(pins[i].id, pins[j].id) {
      AscendingAt(pins, ById, i, j);
      TextOrderIs(pins[i].id, pins[j].id);
    }
    forall i, j | 0 <= i < j < |order|
      ensures order[i].utility > order[j].utility
              || (order[i].utility == order[j].utility && ComesFirst(order[i].id, order[j].id))
    {
      AscendingAt(order, ByUtility, i, j);
      TextOrderIs(order[i].id, order[j].id);
    }
  }
}
